/**
 * config/passport.js: a second copy of the Passport set-up, differing from
 * auth/passport.js only in its fixed callback URL. Each member is written
 * out again and shown to behave exactly as its counterpart.
 */
module GithubAuthConfig {
  import opened JsValues
  import opened Wrappers
  import opened UserStore
  import GithubAuth

  /** The verify callback of this copy, step by step. */
  method Verify(st: Store, profile: GithubAuth.Profile, readFault: ReadFault, fault: WriteFault)
    returns (done: GithubAuth.Done, st': Store)
    requires Valid(st)
    ensures GithubAuth.Callback(done, st') == GithubAuth.FindOrCreate(st, profile, readFault, fault)
  {
    st' := st;
    if readFault.Some? {
      return GithubAuth.DoneError(GithubAuth.StoreError(readFault.value)), st;
    }
    var existing := FindByUsername(st.users, Str(profile.id));
    if existing.Some? {
      return GithubAuth.DoneUser(st.users[existing.value]), st;
    }
    var email := GithubAuth.FirstEmail(profile.emails);
    if email.None? {
      return GithubAuth.DoneError(GithubAuth.ProfileWithoutEmail), st;
    }
    var newUser := User(0, Str(profile.id), Undefined, profile.displayName, email.value,
      Undefined, Undefined, Undefined, Undefined, Undefined, Undefined, Undefined, Undefined);
    if fault.NoFault? {
      st' := Insert(st, newUser);
      done := GithubAuth.DoneUser(newUser.(id := st.nextId));
    } else {
      done := GithubAuth.DoneError(GithubAuth.StoreError(fault.message));
    }
  }

  /** `serializeUser` of this copy. */
  function SerializeUser(u: User): (id: nat)
    ensures id == GithubAuth.SerializeUser(u)
  {
    u.id
  }

  /** `deserializeUser` of this copy. */
  function DeserializeUser(st: Store, id: nat): (r: Option<User>)
    ensures r == GithubAuth.DeserializeUser(st, id)
  {
    var found := FindById(st.users, id);
    if found.Some? then Some(st.users[found.value]) else None
  }
}
