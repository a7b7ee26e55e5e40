/** The best-effort cover image lookup of backend/internal/routes/
    starthub_route.go (`getImageFromPexels` and its use in
    `CreateStartHub`). The HTTP request, the response decoding and every
    failure inside them are one oracle that answers a search term with an
    image URL or the empty string. The oracle is told which of the two
    calls `CreateStartHub` makes it is answering, since each is a separate
    HTTP exchange that may succeed or fail on its own. */
module Images {
  import opened Text

  const DefaultSearchTerm := "startup"

  /** The two lookups `CreateStartHub` may make: for its first category,
      and the "startup" fallback. */
  datatype Call = FirstCategory | Fallback

  /** Whether the API key is configured, and what the image search answers
      on a call for a term ("" for no photo or any failure on the way). */
  datatype ImageService = ImageService(hasApiKey: bool, fetch: (Call, string) -> string)

  /** The query term: the category trimmed and lower-cased, or "startup"
      when nothing is left of it. */
  function SearchTerm(category: string): (t: string)
    ensures t != []
    ensures AllSpace(category) ==> t == DefaultSearchTerm
    ensures !AllSpace(category) ==> t == ToLower(TrimSpace(category))
  {
    TrimSpaceEmptyIff(category);
    var t := ToLower(TrimSpace(category));
    if t == [] then DefaultSearchTerm else t
  }

  /** The shape of a normalised term. */
  predicate IsNormalTerm(t: string) {
    && t != []
    && !IsSpace(t[0]) && !IsSpace(t[|t| - 1])
    && (forall i :: 0 <= i < |t| ==> !IsUpperAscii(t[i]))
  }

  /** Normalising a normalised term changes nothing. */
  lemma NormalTermIsFixed(t: string)
    requires IsNormalTerm(t)
    ensures SearchTerm(t) == t
  {
    assert !AllSpace(t);
    TrimSpaceOfTrimmed(t);
    assert ToLower(t) == t;
  }

  lemma DefaultTermIsNormal(t: string)
    requires t == DefaultSearchTerm
    ensures IsNormalTerm(t)
  {
    assert forall i :: 0 <= i < |t| ==> 'a' <= t[i] <= 'z';
  }

  /** Every term sent to the image search is non-empty, has no surrounding
      spaces and no ASCII capitals, and normalising it again gives it back. */
  lemma SearchTermIsNormalised(category: string)
    ensures IsNormalTerm(SearchTerm(category))
    ensures SearchTerm(SearchTerm(category)) == SearchTerm(category)
  {
    var t := SearchTerm(category);
    if AllSpace(category) {
      DefaultTermIsNormal(t);
    } else {
      TrimSpaceEmptyIff(category);
      ToLowerProperties(TrimSpace(category));
    }
    NormalTermIsFixed(t);
  }

  /** `getImageFromPexels`: nothing without an API key, otherwise the
      search's answer for the normalised term. */
  function ImageFromPexels(category: string, svc: ImageService, call: Call): (url: string)
    ensures !svc.hasApiKey ==> url == []
    ensures svc.hasApiKey ==> url == svc.fetch(call, SearchTerm(category))
  {
    if !svc.hasApiKey then [] else svc.fetch(call, SearchTerm(category))
  }

  /** The image `CreateStartHub` stores: the first category's image when
      that category is non-empty and finds one, and otherwise the image for
      "startup", which may itself be "". */
  function ResolveImage(categories: seq<string>, svc: ImageService): (url: string)
  {
    var first := if |categories| > 0 && categories[0] != [] then ImageFromPexels(categories[0], svc, FirstCategory) else [];
    if first == [] then ImageFromPexels(DefaultSearchTerm, svc, Fallback) else first
  }

  /** What the resolved image can be: the first category's lookup when it
      ran and found something, else the "startup" lookup; so it is empty
      only when the "startup" lookup came back empty too, and always empty
      without an API key. */
  lemma ResolveImageCases(categories: seq<string>, svc: ImageService)
    ensures var url := ResolveImage(categories, svc);
      var tried := |categories| > 0 && categories[0] != [];
      && (tried && ImageFromPexels(categories[0], svc, FirstCategory) != [] ==>
            url == svc.fetch(FirstCategory, SearchTerm(categories[0])))
      && (!(tried && ImageFromPexels(categories[0], svc, FirstCategory) != []) ==>
            url == ImageFromPexels(DefaultSearchTerm, svc, Fallback))
      && (url == [] <==>
            (|| !svc.hasApiKey
             || ((!tried || svc.fetch(FirstCategory, SearchTerm(categories[0])) == [])
                 && svc.fetch(Fallback, DefaultSearchTerm) == [])))
  {
    DefaultTermIsNormal(DefaultSearchTerm);
    NormalTermIsFixed(DefaultSearchTerm);
  }

  /** The fallback is a call of its own: a first category that normalises
      to "startup" and finds nothing can still get the fallback's image. */
  lemma FallbackIsSeparateCall(svc: ImageService)
    requires svc.hasApiKey
    requires svc.fetch(FirstCategory, DefaultSearchTerm) == []
    requires svc.fetch(Fallback, DefaultSearchTerm) == "u"
    ensures SearchTerm("Startup") == DefaultSearchTerm
    ensures ImageFromPexels("Startup", svc, FirstCategory) == []
    ensures ResolveImage(["Startup"], svc) == "u"
  {
    StartupTerm();
    DefaultTermIsNormal(DefaultSearchTerm);
    NormalTermIsFixed(DefaultSearchTerm);
  }

  /** "Startup" is searched for as "startup". */
  lemma StartupTerm()
    ensures SearchTerm("Startup") == DefaultSearchTerm
  {
    var c := "Startup";
    assert c[0] == 'S' && c[|c| - 1] == 'p' && !IsSpace('S') && !IsSpace('p');
    TrimSpaceOfTrimmed(c);
    LowerStartup();
  }

  /** Lowering "Startup" gives the default term. */
  lemma LowerStartup()
    ensures ToLower("Startup") == DefaultSearchTerm
  {
    var t := ToLower("Startup");
    forall i | 0 <= i < |t| ensures t[i] == DefaultSearchTerm[i] {
      assert t[i] == LowerChar("Startup"[i]);
    }
  }
}
