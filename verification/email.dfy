/** The address pattern both validators apply,
    `^[a-zA-Z0-9._%+-]+@[a-zA-Z0-9.-]+\.[a-zA-Z]{2,}$`, written out by hand:
    first as the language the expression denotes (an address is a local
    part, an '@', a domain, a '.', and a top-level label of two or more
    letters), then as the matcher that looks only at the first '@' and the
    last '.', and the two are proved to accept the same strings. */
module Email {

  predicate IsLetter(c: char) {
    'a' <= c <= 'z' || 'A' <= c <= 'Z'
  }

  predicate IsDigit(c: char) {
    '0' <= c <= '9'
  }

  /** `[a-zA-Z0-9._%+-]` */
  predicate IsLocalChar(c: char) {
    IsLetter(c) || IsDigit(c) || c == '.' || c == '_' || c == '%' || c == '+' || c == '-'
  }

  /** `[a-zA-Z0-9.-]` */
  predicate IsDomainChar(c: char) {
    IsLetter(c) || IsDigit(c) || c == '.' || c == '-'
  }

  /** `s` reads as local '@' domain '.' label with the '@' at `at` and the
      '.' at `dot`; every part is non-empty and the label has two letters
      or more. */
  predicate SplitsAt(s: string, at: int, dot: int) {
    && 1 <= at && at + 2 <= dot && dot + 3 <= |s|
    && s[at] == '@' && s[dot] == '.'
    && (forall i :: 0 <= i < at ==> IsLocalChar(s[i]))
    && (forall i :: at < i < dot ==> IsDomainChar(s[i]))
    && (forall i :: dot < i < |s| ==> IsLetter(s[i]))
  }

  /** The whole string belongs to the pattern's language: some choice of
      the '@' and the '.' makes it split. */
  ghost predicate MatchesEmailPattern(s: string) {
    exists at, dot :: SplitsAt(s, at, dot)
  }

  /** Position of the first `c` in `s`, or -1. */
  function IndexOf(s: string, c: char): (k: int)
    ensures -1 <= k < |s|
    ensures k >= 0 ==> s[k] == c
    ensures forall i :: 0 <= i < |s| && (k < 0 || i < k) ==> s[i] != c
  {
    if s == [] then -1
    else if s[0] == c then 0
    else
      var k := IndexOf(s[1..], c);
      if k < 0 then -1 else k + 1
  }

  /** Position of the last `c` in `s`, or -1. */
  function LastIndexOf(s: string, c: char): (k: int)
    ensures -1 <= k < |s|
    ensures k >= 0 ==> s[k] == c
    ensures forall i :: 0 <= i < |s| && k < i ==> s[i] != c
  {
    if s == [] then -1
    else if s[|s| - 1] == c then |s| - 1
    else LastIndexOf(s[..|s| - 1], c)
  }

  /** The matcher: the pattern holds exactly when the string splits at its
      first '@' and its last '.'. */
  predicate IsValidEmail(s: string)
    ensures IsValidEmail(s) <==> MatchesEmailPattern(s)
  {
    MatcherAgreesWithPattern(s);
    SplitsAt(s, IndexOf(s, '@'), LastIndexOf(s, '.'))
  }

  /** No local, domain or label character is an '@', so an address has
      exactly one; no label letter is a '.', so the label starts right after
      the last '.'. Hence a split, if any, is at the first '@' and last '.'. */
  lemma MatcherAgreesWithPattern(s: string)
    ensures SplitsAt(s, IndexOf(s, '@'), LastIndexOf(s, '.')) <==> MatchesEmailPattern(s)
  {
    if at, dot :| SplitsAt(s, at, dot) {
      assert s[at] == '@' && s[dot] == '.';
      var a := IndexOf(s, '@');
      var d := LastIndexOf(s, '.');
      assert a == at by {
        assert !IsLocalChar('@');
      }
      assert d == dot by {
        assert !IsLetter('.');
      }
    }
  }
}
