/** The relational store the handlers talk to, as one immutable record:
    the users table keyed by email, the starthubs table keyed by id, the
    categories table as a name-to-id map, and the starthub/category link
    table as a set of pairs. Fresh category ids come from a counter. */
module Database {
  import opened Models

  /** A row of the starthubs table. `createdBy` is the owning user's id. */
  datatype Row = Row(
    id: string,
    name: string,
    description: string,
    location: string,
    teamSize: int,
    url: string,
    email: string,
    joinDate: int,
    imageUrl: string,
    createdBy: string)

  datatype Store = Store(
    users: map<string, User>,
    starthubs: map<string, Row>,
    categories: map<string, int>,
    links: set<(string, int)>,
    nextCategoryId: int)

  /** A handler's outcome: the HTTP answer and the store afterwards. */
  datatype Reply = Reply(response: Response, store: Store)

  /** Some stored account has the id `id`. */
  predicate IsUserId(s: Store, id: string) {
    exists e :: e in s.users && s.users[e].id == id
  }

  /** The integrity the schema and the insert-or-get pattern keep: users
      are filed under their own email and no two share an id; rows are
      filed under their own id; every row's owner is a stored account; category names are non-empty and
      their ids distinct, positive and below the counter, which starts at
      1; and every link joins an existing starthub to an existing
      category. */
  ghost predicate Valid(s: Store) {
    && 1 <= s.nextCategoryId
    && (forall e :: e in s.users ==> s.users[e].email == e)
    && (forall e, f :: e in s.users && f in s.users && s.users[e].id == s.users[f].id ==> e == f)
    && (forall id :: id in s.starthubs ==> s.starthubs[id].id == id)
    && (forall id :: id in s.starthubs ==> IsUserId(s, s.starthubs[id].createdBy))
    && (forall n :: n in s.categories ==> n != [] && 1 <= s.categories[n] < s.nextCategoryId)
    && (forall n, m :: n in s.categories && m in s.categories && s.categories[n] == s.categories[m] ==> n == m)
    && (forall l :: l in s.links ==> l.0 in s.starthubs && l.1 in s.categories.Values)
  }

  const EmptyStore := Store(map[], map[], map[], {}, 1)

  /** `Valid` can be met: the empty database satisfies it. */
  lemma EmptyStoreIsValid()
    ensures Valid(EmptyStore)
  {
  }

  /** In a well-formed store each row is owned by exactly one account. */
  lemma OwnerIsOneAccount(s: Store, id: string)
    requires Valid(s) && id in s.starthubs
    ensures exists e :: e in s.users && s.users[e].id == s.starthubs[id].createdBy
    ensures forall e, f ::
      (&& e in s.users && f in s.users
       && s.users[e].id == s.starthubs[id].createdBy && s.users[f].id == s.starthubs[id].createdBy)
      ==> e == f
  {
  }

  /** How a selected row is answered: the nine selected columns; the
      category list is not selected and stays empty. */
  function View(row: Row): StartHub {
    StartHub(row.id, row.name, row.description, row.location, row.teamSize, row.url,
             row.email, row.joinDate, [], row.imageUrl)
  }

  /** The row with id `id` exists and was created by `userId`. */
  predicate OwnedBy(s: Store, id: string, userId: string) {
    id in s.starthubs && s.starthubs[id].createdBy == userId
  }
}
