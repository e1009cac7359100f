/**
 * The Passport set-up of auth/passport.js: the GitHub strategy's verify
 * callback, which finds the user whose `username` is the GitHub profile
 * id or creates one, and the session (de)serialisation by document id.
 */
module GithubAuth {
  import opened JsValues
  import opened Wrappers
  import opened UserStore
  import Authenticate

  /** The parts of the GitHub profile the callback reads. */
  datatype Profile = Profile(id: string, displayName: JsValue, emails: JsValue)

  /** Why the callback reports an error to `done`. */
  datatype AuthError =
    | ProfileWithoutEmail       // `profile.emails[0].value` throws a TypeError
    | StoreError(message: string)

  /** The arguments the callback passes to `done`. */
  datatype Done = DoneUser(user: User) | DoneError(error: AuthError)

  /** What one run of the callback reports, and the collection it leaves behind. */
  datatype Callback = Callback(done: Done, store: Store)

  /** `x[0]`, or None where reading a property of `null`/`undefined` throws. */
  function Index0(x: JsValue): Option<JsValue> {
    match x
    case Undefined => None
    case Null => None
    case Arr(items) => Some(if |items| == 0 then Undefined else items[0])
    case Str(s) => Some(if |s| == 0 then Undefined else Str([s[0]]))
    case Obj(props) => Some(Prop(props, "0"))
    case _ => Some(Undefined)
  }

  /** `profile.emails[0].value`, or None where evaluating it throws a TypeError. */
  function FirstEmail(emails: JsValue): (r: Option<JsValue>)
    ensures r.None? <==> Index0(emails).None? || Index0(emails).value.Undefined? || Index0(emails).value.Null?
    ensures emails.Arr? && |emails.items| > 0 && emails.items[0].Obj? ==> r == Some(Prop(emails.items[0].props, "value"))
  {
    match Index0(emails)
    case None => None
    case Some(first) =>
      if first.Undefined? || first.Null? then None else Some(Member(first, "value"))
  }

  /** `findOne({ username: profile.id })` */
  function ProfileOwner(st: Store, profile: Profile): Option<nat> {
    FindByUsername(st.users, Str(profile.id))
  }

  /** `new User({ username, displayName, email })`: every other path is left unset. */
  function ProfileUser(profile: Profile, email: JsValue): (u: User)
    ensures u.username == Str(profile.id) && u.displayName == profile.displayName && u.email == email
    ensures u.password == Undefined && u.phoneNumber == Undefined && u.currentLocation == Undefined
    ensures u.openToNewOpportunities == Undefined && u.profileIsPublic == Undefined && u.themeName == Undefined
    ensures u.info == Undefined && u.profile == Undefined && u.position == Undefined
  {
    User(0, Str(profile.id), Undefined, profile.displayName, email, Undefined, Undefined, Undefined, Undefined,
      Undefined, Undefined, Undefined, Undefined)
  }

  /**
   * The verify callback as a function of the collection, the profile and
   * how the database behaves: the read (`readFault`) and the save (`fault`).
   */
  function FindOrCreate(st: Store, profile: Profile, readFault: ReadFault, fault: WriteFault): (r: Callback)
    requires Valid(st)
    ensures Valid(r.store)
    ensures r.done.DoneError? ==> r.store == st
    ensures readFault.Some? ==> r == Callback(DoneError(StoreError(readFault.value)), st)
    ensures readFault.None? && ProfileOwner(st, profile).None? && FirstEmail(profile.emails).Some? && !fault.NoFault? ==>
      r == Callback(DoneError(StoreError(fault.message)), st)
    ensures readFault.None? && ProfileOwner(st, profile).Some? ==>
      r == Callback(DoneUser(st.users[ProfileOwner(st, profile).value]), st)
    ensures r.store != st <==>
      readFault.None? && ProfileOwner(st, profile).None? && FirstEmail(profile.emails).Some? && fault.NoFault?
    ensures r.store != st ==>
      && r.done == DoneUser(ProfileUser(profile, FirstEmail(profile.emails).value).(id := st.nextId))
      && r.store.users == st.users + [r.done.user] && r.store.nextId == st.nextId + 1
    ensures readFault.None? && ProfileOwner(st, profile).None? && FirstEmail(profile.emails).None? ==>
      r == Callback(DoneError(ProfileWithoutEmail), st)
  {
    if readFault.Some? then Callback(DoneError(StoreError(readFault.value)), st)
    else match ProfileOwner(st, profile)
      case Some(i) => Callback(DoneUser(st.users[i]), st)
      case None =>
        match FirstEmail(profile.emails)
        case None => Callback(DoneError(ProfileWithoutEmail), st)
        case Some(email) =>
          match fault
          case NoFault =>
            var st' := Insert(st, ProfileUser(profile, email));
            Callback(DoneUser(st'.users[|st.users|]), st')
          case DuplicateKey(m) => Callback(DoneError(StoreError(m)), st)
          case WriteFails(m) => Callback(DoneError(StoreError(m)), st)
  }

  /** The callback step by step: find, build, save, then `done`. */
  method Verify(st: Store, profile: Profile, readFault: ReadFault, fault: WriteFault) returns (done: Done, st': Store)
    requires Valid(st)
    ensures Callback(done, st') == FindOrCreate(st, profile, readFault, fault)
  {
    st' := st;
    if readFault.Some? {
      return DoneError(StoreError(readFault.value)), st;
    }
    var existing := FindByUsername(st.users, Str(profile.id));
    if existing.Some? {
      return DoneUser(st.users[existing.value]), st;
    }
    var email := FirstEmail(profile.emails);
    if email.None? {
      return DoneError(ProfileWithoutEmail), st;
    }
    var newUser := ProfileUser(profile, email.value);
    match fault {
      case NoFault =>
        st' := Insert(st, newUser);
        done := DoneUser(newUser.(id := st.nextId));
      case DuplicateKey(m) =>
        done := DoneError(StoreError(m));
      case WriteFails(m) =>
        done := DoneError(StoreError(m));
    }
  }

  /** The predicate `findOne({ username: profile.id })` matches on. */
  function OwnsProfile(profile: Profile): User -> bool {
    (u: User) => u.username == Str(profile.id)
  }

  /**
   * Logging in again with the same profile finds the document the first
   * login returned and writes nothing, whatever the save would do.
   */
  lemma FindOrCreateIdempotent(st: Store, profile: Profile, readFault: ReadFault, fault: WriteFault, fault2: WriteFault)
    requires Valid(st) && FindOrCreate(st, profile, readFault, fault).done.DoneUser?
    ensures var first := FindOrCreate(st, profile, readFault, fault);
      FindOrCreate(first.store, profile, None, fault2) == first
  {
  }

  /** A profile id owns at most one document after a login if it owned at most one before. */
  lemma FindOrCreateKeepsOwnerUnique(st: Store, profile: Profile, readFault: ReadFault, fault: WriteFault)
    requires Valid(st) && Count(st.users, OwnsProfile(profile)) <= 1
    ensures var r := FindOrCreate(st, profile, readFault, fault);
      && Count(r.store.users, OwnsProfile(profile)) <= 1
      && (r.done.DoneUser? ==> Count(r.store.users, OwnsProfile(profile)) == 1)
  {
    var r := FindOrCreate(st, profile, readFault, fault);
    CountZeroIffNone(st.users, OwnsProfile(profile));
    if r.store != st {
      CountAppend(st.users, r.done.user, OwnsProfile(profile));
    }
  }

  /** `serializeUser`: the session keeps only the document id. */
  function SerializeUser(u: User): (id: nat)
    ensures id == u.id
  {
    u.id
  }

  /** `deserializeUser`: `findById(id)`, or no user when none has that id. */
  function DeserializeUser(st: Store, id: nat): (r: Option<User>)
    ensures r.Some? ==> r.value in st.users && r.value.id == id
    ensures r.None? <==> forall j :: 0 <= j < |st.users| ==> st.users[j].id != id
  {
    match FindById(st.users, id)
    case None => None
    case Some(i) => Some(st.users[i])
  }

  /** A stored user survives the round trip through the session. */
  lemma SessionRoundTrip(st: Store, u: User)
    requires Valid(st) && u in st.users
    ensures DeserializeUser(st, SerializeUser(u)) == Some(u)
  {
  }

  /** Each request re-reads the document: after it is replaced, the new version comes back. */
  lemma SessionSeesUpdate(st: Store, i: nat, u: User)
    requires Valid(st) && i < |st.users| && u.id == st.users[i].id
    ensures DeserializeUser(ReplaceAt(st, i, u), SerializeUser(st.users[i])) == Some(u)
  {
    var st' := ReplaceAt(st, i, u);
    assert st'.users[i] == u;
    FindByIdFindsOwner(st', i);
  }

  /** After the document is deleted, the session no longer yields a user. */
  lemma SessionEndsOnDelete(st: Store, i: nat)
    requires Valid(st) && i < |st.users|
    ensures DeserializeUser(RemoveAt(st, i), SerializeUser(st.users[i])) == None
  {
  }

  /**
   * The session this set-up writes holds an id under `passport.user`, so
   * the admin gate's fallback `session.passport.user.username` finds no
   * username there.
   */
  lemma SerializedSessionCarriesNoUsername(u: User)
    ensures var session := map["passport" := Obj(map["user" := Str(NatToDecimal(SerializeUser(u)))])];
      !Truthy(Authenticate.SessionUsername(session))
  {
  }
}
