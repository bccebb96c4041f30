/** The stored user record: profile fields, the list of the user's posts, the unique `anonId`,
    and the per-status report counters with their zero defaults. */
module UserSchema {
  import opened Maybe
  import opened PostSchema
  import Seqs

  /** The per-user report tallies, one counter per storage status. */
  datatype ReportCounters = ReportCounters(problemIssued: int, pending: int, resolved: int)

  const ZeroCounters: ReportCounters := ReportCounters(0, 0, 0)

  /** The counter kept for status `s`. */
  function Counter(c: ReportCounters, s: StorageStatus): int
  {
    match s
    case ProblemIssued => c.problemIssued
    case Pending => c.pending
    case Resolved => c.resolved
  }

  /** The keys of the `reports` sub-document, in schema order. */
  const CounterKeys: seq<string> := ["problemIssued", "pending", "resolved"]

  /** The counter keys are exactly the names of the three storage statuses, without repetition,
      so that every status has one counter and every counter one status. */
  lemma CounterKeysMatchStatuses()
    ensures Seqs.NoDuplicates(CounterKeys)
    ensures forall k :: k in CounterKeys <==> ParseStatus(k).Some?
    ensures forall s :: StatusName(s) in CounterKeys
  {
    StatusVocabulary();
    assert "problemIssued"[1] != "pending"[1];
  }

  /** A stored user. */
  datatype User = User(
    id: ObjectId,
    username: Option<string>,
    name: Option<string>,
    age: Option<int>,
    email: Option<string>,
    password: Option<string>,
    profilepic: string,
    posts: seq<ObjectId>,
    anonId: Option<string>,
    reports: ReportCounters)

  /** The fields handed to `create`; `None` is a field left out. */
  datatype UserFields = UserFields(
    username: Option<string>,
    name: Option<string>,
    age: Option<int>,
    email: Option<string>,
    password: Option<string>,
    profilepic: Option<string>,
    anonId: Option<string>)

  const DefaultProfilePic: string := "default.jpg"

  /** A new user document: all three report counters start at 0, the profile picture defaults
      to "default.jpg", and the user owns no posts yet. */
  function NewUser(id: ObjectId, f: UserFields): (u: User)
    ensures forall s :: Counter(u.reports, s) == 0
    ensures u.profilepic == OrElse(f.profilepic, "default.jpg")
    ensures u.posts == []
    ensures u.id == id && u.email == f.email && u.anonId == f.anonId && u.password == f.password
  {
    User(id, f.username, f.name, f.age, f.email, f.password, OrElse(f.profilepic, DefaultProfilePic),
         [], f.anonId, ZeroCounters)
  }

  /** The unique index on `anonId`: no two stored users share a value. A user without an
      `anonId` is indexed under null, so absence counts as a value too. */
  predicate AnonIdsUnique(users: seq<User>)
  {
    forall i, j :: 0 <= i < j < |users| ==> users[i].anonId != users[j].anonId
  }

  datatype DuplicateKey = DuplicateKey(field: string)

  /** Inserting a user into the collection: refused with a duplicate-key error when another user
      already holds the same `anonId`, otherwise appended. */
  function InsertUser(users: seq<User>, u: User): (r: Result<seq<User>, DuplicateKey>)
    ensures r.Ok? <==> forall i :: 0 <= i < |users| ==> users[i].anonId != u.anonId
    ensures r.Ok? ==> r.value == users + [u]
    ensures r.Err? ==> r.error == DuplicateKey("anonId")
    ensures AnonIdsUnique(users) && r.Ok? ==> AnonIdsUnique(r.value)
  {
    if exists i :: 0 <= i < |users| && users[i].anonId == u.anonId then Err(DuplicateKey("anonId"))
    else Ok(users + [u])
  }

  predicate LacksAnonId(u: User)
  {
    u.anonId.None?
  }

  /** Because absence is indexed as null, a collection that keeps the index holds at most one
      user without an `anonId`. */
  lemma {:induction false} AtMostOneWithoutAnonId(users: seq<User>)
    requires AnonIdsUnique(users)
    ensures |Seqs.Filter(LacksAnonId, users)| <= 1
  {
    if users != [] {
      var rest := users[1..];
      assert AnonIdsUnique(rest) by {
        forall i, j | 0 <= i < j < |rest| ensures rest[i].anonId != rest[j].anonId {
          assert rest[i] == users[i + 1] && rest[j] == users[j + 1];
        }
      }
      AtMostOneWithoutAnonId(rest);
      if LacksAnonId(users[0]) {
        forall k | 0 <= k < |rest| ensures !LacksAnonId(rest[k]) {
          assert rest[k] == users[k + 1];
        }
        Seqs.FilterNone(LacksAnonId, rest);
      }
    }
  }
}
