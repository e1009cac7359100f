/**
 * The users collection as the handlers see it: documents in insertion
 * order (there is no unique index, so two documents may share a
 * username), each with a database-assigned `id`. `findOne`, `findById`
 * and `deleteOne` act on the first document that matches.
 */
module UserStore {
  import opened JsValues
  import opened Wrappers

  /**
   * One user document: the fields of the schema in models/user.js, the
   * `id` the database assigns, the `profile` object the controller writes
   * and the `position` the access gate reads.
   */
  datatype User = User(
    id: nat,
    username: JsValue,
    password: JsValue,
    displayName: JsValue,
    email: JsValue,
    phoneNumber: JsValue,
    currentLocation: JsValue,
    openToNewOpportunities: JsValue,
    profileIsPublic: JsValue,
    themeName: JsValue,  // `theme_name`
    info: JsValue,
    profile: JsValue,
    position: JsValue)

  /** The collection and the next identifier the database will hand out. */
  datatype Store = Store(users: seq<User>, nextId: nat)

  /** Identifiers are distinct and below `nextId`. */
  predicate Valid(st: Store) {
    && (forall i :: 0 <= i < |st.users| ==> st.users[i].id < st.nextId)
    && (forall i, j :: 0 <= i < j < |st.users| ==> st.users[i].id != st.users[j].id)
  }

  /** How a write ends: it succeeds, violates a unique index (code 11000), or fails otherwise. */
  datatype WriteFault = NoFault | DuplicateKey(message: string) | WriteFails(message: string)

  /** A read either succeeds or raises with a message. */
  type ReadFault = Option<string>

  /** Index of the first document, in insertion order, satisfying `p`. */
  function FindFirst(users: seq<User>, p: User -> bool): (r: Option<nat>)
    ensures r.Some? ==> r.value < |users| && p(users[r.value])
    ensures r.Some? ==> forall j :: 0 <= j < r.value ==> !p(users[j])
    ensures r.None? <==> forall j :: 0 <= j < |users| ==> !p(users[j])
  {
    if |users| == 0 then None
    else if p(users[0]) then Some(0)
    else match FindFirst(users[1..], p)
      case None => None
      case Some(k) => Some(k + 1)
  }

  /** `findOne({ username: name })` */
  function FindByUsername(users: seq<User>, name: JsValue): Option<nat> {
    FindFirst(users, (u: User) => u.username == name)
  }

  /** `findById(id)` */
  function FindById(users: seq<User>, id: nat): Option<nat> {
    FindFirst(users, (u: User) => u.id == id)
  }

  /** `save()` of a new document: it gets the next identifier and goes to the end. */
  function Insert(st: Store, u: User): (st': Store)
    requires Valid(st)
    ensures Valid(st')
    ensures st'.users == st.users + [u.(id := st.nextId)] && st'.nextId == st.nextId + 1
  {
    Store(st.users + [u.(id := st.nextId)], st.nextId + 1)
  }

  /** Removal of the document at index `i`. */
  function RemoveAt(st: Store, i: nat): (st': Store)
    requires Valid(st) && i < |st.users|
    ensures Valid(st')
    ensures |st'.users| == |st.users| - 1
    ensures multiset(st'.users) + multiset{st.users[i]} == multiset(st.users)
  {
    assert st.users == st.users[..i] + [st.users[i]] + st.users[i + 1..];
    Store(st.users[..i] + st.users[i + 1..], st.nextId)
  }

  /** `save()` of a loaded document: the document at `i` is replaced, its identifier kept. */
  function ReplaceAt(st: Store, i: nat, u: User): (st': Store)
    requires Valid(st) && i < |st.users| && u.id == st.users[i].id
    ensures Valid(st')
    ensures st'.users == st.users[i := u] && st'.nextId == st.nextId
  {
    Store(st.users[i := u], st.nextId)
  }

  /** How many documents satisfy `p`. */
  function Count(users: seq<User>, p: User -> bool): nat {
    if |users| == 0 then 0 else (if p(users[0]) then 1 else 0) + Count(users[1..], p)
  }

  lemma {:induction false} CountAppend(users: seq<User>, u: User, p: User -> bool)
    ensures Count(users + [u], p) == Count(users, p) + (if p(u) then 1 else 0)
  {
    if |users| > 0 {
      assert (users + [u])[1..] == users[1..] + [u];
      CountAppend(users[1..], u, p);
    }
  }

  lemma {:induction false} CountZeroIffNone(users: seq<User>, p: User -> bool)
    ensures Count(users, p) == 0 <==> FindFirst(users, p).None?
  {
    if |users| > 0 {
      CountZeroIffNone(users[1..], p);
    }
  }

  /** Removing a matching document lowers the number of matches by one. */
  lemma {:induction false} CountRemove(users: seq<User>, i: nat, p: User -> bool)
    requires i < |users|
    ensures Count(users[..i] + users[i + 1..], p) == Count(users, p) - (if p(users[i]) then 1 else 0)
  {
    if i > 0 {
      assert (users[..i] + users[i + 1..])[1..] == users[1..][..i - 1] + users[1..][i..];
      CountRemove(users[1..], i - 1, p);
    } else {
      assert users[..i] + users[i + 1..] == users[1..];
    }
  }

  /** In a valid store an identifier names at most one document, so `findById` finds each document by its own id. */
  lemma FindByIdFindsOwner(st: Store, i: nat)
    requires Valid(st) && i < |st.users|
    ensures FindById(st.users, st.users[i].id) == Some(i)
  {
  }
}
