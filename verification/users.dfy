/**
 * The user handlers of controllers/user.js over the users collection:
 * `create` (checks, defaults, one insert), `updateUser` (field-by-field
 * patch of the loaded document, one save at the end) and `deleteUser`
 * (204 or 404), with the duplicate-key answer shared by the first two.
 */
module Users {
  import opened JsValues
  import opened Wrappers
  import opened Patterns
  import opened UserStore

  /** What a handler sends back. */
  datatype Reply =
    | Message(status: int, message: string)                // `{ message }`
    | Failure(status: int, message: string, error: string) // `{ message, error }`
    | Created(status: int, user: User)                     // the saved document
    | Updated(status: int, message: string, user: User)    // `{ message, user }`
    | NoContent(status: int)                               // no body

  /** `passwordUtil`, which the file calls but never imports. */
  datatype PasswordUtil =
    | Unbound                                             // the file as it stands: reading it raises a ReferenceError
    | Imported(passwordPass: JsValue -> Option<string>)   // `passwordPass(p).error`, when that is truthy

  const ReferenceErrorMessage := "passwordUtil is not defined"

  /** `req.body[key] !== undefined` */
  predicate Present(body: Body, key: string) {
    Prop(body, key) != Undefined
  }

  /** `/.+@.+\..+/.test(v)` */
  predicate EmailAccepted(v: JsValue) {
    MatchesEmail(ToJsString(v))
  }

  /** `/^\+?[0-9]{7,15}$/.test(v)` */
  predicate PhoneAccepted(v: JsValue) {
    MatchesPhone(ToJsString(v))
  }

  /** The verdict of the checks a handler runs before it writes. */
  datatype Check = Pass | Invalid(message: string) | Raises(error: string)

  // ---------------------------------------------------------------------
  // Duplicate-key answer
  // ---------------------------------------------------------------------

  /** `part` occurs in `s` starting at index `i`. */
  predicate OccursAt(s: string, part: string, i: int) {
    0 <= i && i + |part| <= |s| && s[i..i + |part|] == part
  }

  /** `s.includes(part)`, searched from the front. */
  predicate Contains(s: string, part: string)
    decreases |s|
  {
    |part| <= |s| && (s[..|part|] == part || (|s| > 0 && Contains(s[1..], part)))
  }

  lemma {:induction false} ContainsIffOccurs(s: string, part: string)
    ensures Contains(s, part) <==> exists i :: OccursAt(s, part, i)
    decreases |s|
  {
    if |part| <= |s| {
      if s[..|part|] == part {
        assert OccursAt(s, part, 0);
      } else if |s| > 0 {
        ContainsIffOccurs(s[1..], part);
        if i :| OccursAt(s, part, i) {
          assert i > 0;
          assert OccursAt(s[1..], part, i - 1);
        }
        if i :| OccursAt(s[1..], part, i) {
          assert OccursAt(s, part, i + 1);
        }
      }
    }
  }

  /** The field named in a 409 answer: `let duplicateField = 'A field'`, then reassigned. */
  function DuplicateField(message: string): (field: string)
    ensures field == "Username" <==> (exists i :: OccursAt(message, "username", i))
    ensures field == "Email" <==> (!exists i :: OccursAt(message, "username", i)) && (exists i :: OccursAt(message, "email", i))
    ensures field == "A field" <==> (!exists i :: OccursAt(message, "username", i)) && (!exists i :: OccursAt(message, "email", i))
  {
    ContainsIffOccurs(message, "username");
    ContainsIffOccurs(message, "email");
    if Contains(message, "username") then "Username"
    else if Contains(message, "email") then "Email"
    else "A field"
  }

  // ---------------------------------------------------------------------
  // create
  // ---------------------------------------------------------------------

  const MissingFieldsMessage := "Missing required fields: username, password, and email are required!"
  const CreateFailedMessage := "Some error occurred while creating the user."
  const EmailFormatMessage := "Invalid email format."
  const OpenFlagMessage := "openToNewOpportunities must be a boolean."
  const PublicFlagMessage := "profileIsPublic must be a boolean."
  const PhoneFormatMessage := "Invalid phone number format. Use international format, e.g., +2348012345678."

  /** `!req.body.username || !req.body.password || !req.body.email` */
  predicate MissingRequired(body: Body) {
    !Truthy(Prop(body, "username")) || !Truthy(Prop(body, "password")) || !Truthy(Prop(body, "email"))
  }

  /** The format rules `create` applies to the optional fields. */
  predicate CreateFieldsValid(body: Body) {
    && (Truthy(Prop(body, "email")) ==> EmailAccepted(Prop(body, "email")))
    && (Truthy(Prop(body, "phoneNumber")) ==> PhoneAccepted(Prop(body, "phoneNumber")))
    && (Present(body, "openToNewOpportunities") ==> Prop(body, "openToNewOpportunities").Bool?)
    && (Present(body, "profileIsPublic") ==> Prop(body, "profileIsPublic").Bool?)
  }

  /** The checks `create` runs after the required fields, in the file's order, stopping at the first that fails. */
  function CreateCheck(body: Body, util: PasswordUtil): (c: Check)
    ensures c.Raises? <==> util.Unbound?
    ensures c.Pass? <==> util.Imported? && util.passwordPass(Prop(body, "password")).None? && CreateFieldsValid(body)
  {
    if util.Unbound? then Raises(ReferenceErrorMessage)
    else if util.passwordPass(Prop(body, "password")).Some? then Invalid(util.passwordPass(Prop(body, "password")).value)
    else if Truthy(Prop(body, "email")) && !EmailAccepted(Prop(body, "email")) then Invalid(EmailFormatMessage)
    else if Truthy(Prop(body, "phoneNumber")) && !PhoneAccepted(Prop(body, "phoneNumber")) then Invalid(PhoneFormatMessage)
    else if Present(body, "openToNewOpportunities") && !Prop(body, "openToNewOpportunities").Bool? then
      Invalid(OpenFlagMessage)
    else if Present(body, "profileIsPublic") && !Prop(body, "profileIsPublic").Bool? then
      Invalid(PublicFlagMessage)
    else Pass
  }

  /** `v !== undefined ? v : fallback` */
  function IfDefined(v: JsValue, fallback: JsValue): JsValue {
    if v != Undefined then v else fallback
  }

  /** The document `create` builds, before the database gives it an identifier. */
  function NewUser(body: Body): (u: User)
    ensures u.username == Prop(body, "username") && u.password == Prop(body, "password") && u.email == Prop(body, "email")
    ensures Truthy(Prop(body, "displayName")) ==> u.displayName == Prop(body, "displayName")
    ensures !Truthy(Prop(body, "displayName")) ==> u.displayName == Prop(body, "username")
    ensures u.phoneNumber == if Truthy(Prop(body, "phoneNumber")) then Prop(body, "phoneNumber") else Str("")
    ensures u.currentLocation == if Truthy(Prop(body, "currentLocation")) then Prop(body, "currentLocation") else Str("")
    ensures u.openToNewOpportunities ==
      if Present(body, "openToNewOpportunities") then Prop(body, "openToNewOpportunities") else Bool(true)
    ensures u.profileIsPublic == if Present(body, "profileIsPublic") then Prop(body, "profileIsPublic") else Bool(true)
    ensures u.themeName == if Truthy(Prop(body, "theme_name")) then Prop(body, "theme_name") else Str("Default")
    ensures u.info == if Truthy(Prop(body, "info")) then Prop(body, "info") else Obj(map[])
    ensures u.profile == if Truthy(Prop(body, "profile")) then Prop(body, "profile") else Obj(map[])
    ensures u.position == Undefined
    // what the defaults guarantee of every document that passed the checks
    ensures !MissingRequired(body) ==> Truthy(u.displayName)
    ensures Truthy(u.themeName) && Truthy(u.info) && Truthy(u.profile)
    ensures CreateFieldsValid(body) ==> u.openToNewOpportunities.Bool? && u.profileIsPublic.Bool?
    ensures CreateFieldsValid(body) ==> u.phoneNumber == Str("") || PhoneAccepted(u.phoneNumber)
  {
    User(
      id := 0,
      username := Prop(body, "username"),
      password := Prop(body, "password"),
      displayName := Or(Prop(body, "displayName"), Prop(body, "username")),
      email := Prop(body, "email"),
      phoneNumber := Or(Prop(body, "phoneNumber"), Str("")),
      currentLocation := Or(Prop(body, "currentLocation"), Str("")),
      openToNewOpportunities := IfDefined(Prop(body, "openToNewOpportunities"), Bool(true)),
      profileIsPublic := IfDefined(Prop(body, "profileIsPublic"), Bool(true)),
      themeName := Or(Prop(body, "theme_name"), Str("Default")),
      info := Or(Prop(body, "info"), Obj(map[])),
      profile := Or(Prop(body, "profile"), Obj(map[])),
      position := Undefined)
  }

  /** `create`: 400, 422, 409, 500 or 201; only 201 writes, and it inserts exactly the new document. */
  method Create(st: Store, body: Body, util: PasswordUtil, fault: WriteFault) returns (reply: Reply, st': Store)
    requires Valid(st)
    ensures Valid(st')
    ensures reply.status != 201 ==> st' == st
    ensures MissingRequired(body) ==> reply == Message(400, MissingFieldsMessage)
    ensures !MissingRequired(body) ==> match CreateCheck(body, util)
      case Raises(e) => reply == Failure(500, CreateFailedMessage, e)
      case Invalid(m) => reply == Message(422, m)
      case Pass => match fault
        case NoFault => reply == Created(201, NewUser(body).(id := st.nextId))
        case DuplicateKey(m) => reply == Failure(409, DuplicateField(m) + " already exists.", m)
        case WriteFails(m) => reply == Failure(500, CreateFailedMessage, m)
    ensures reply.status == 201 <==> !MissingRequired(body) && CreateCheck(body, util).Pass? && fault.NoFault?
    ensures reply.status == 201 ==>
      reply.Created? && st'.users == st.users + [reply.user] && reply.user.id == st.nextId && st'.nextId == st.nextId + 1
  {
    st' := st;
    var username, password, email := Prop(body, "username"), Prop(body, "password"), Prop(body, "email");
    if !Truthy(username) || !Truthy(password) || !Truthy(email) {
      return Message(400, MissingFieldsMessage), st;
    }

    if util.Unbound? {
      // `passwordUtil.passwordPass(...)` throws; the catch block answers 500
      return Failure(500, CreateFailedMessage, ReferenceErrorMessage), st;
    }
    var passwordCheck := util.passwordPass(password);
    if passwordCheck.Some? {
      return Message(422, passwordCheck.value), st;
    }

    if Truthy(email) && !EmailAccepted(email) {
      return Message(422, EmailFormatMessage), st;
    }
    var phone := Prop(body, "phoneNumber");
    if Truthy(phone) && !PhoneAccepted(phone) {
      return Message(422, PhoneFormatMessage), st;
    }
    var open := Prop(body, "openToNewOpportunities");
    if open != Undefined && !open.Bool? {
      return Message(422, OpenFlagMessage), st;
    }
    var isPublic := Prop(body, "profileIsPublic");
    if isPublic != Undefined && !isPublic.Bool? {
      return Message(422, PublicFlagMessage), st;
    }

    assert !MissingRequired(body) && CreateCheck(body, util) == Pass;
    var user := NewUser(body);
    match fault {
      case NoFault =>
        st' := Insert(st, user);
        reply := Created(201, user.(id := st.nextId));
      case DuplicateKey(m) =>
        reply := Failure(409, DuplicateField(m) + " already exists.", m);
      case WriteFails(m) =>
        reply := Failure(500, CreateFailedMessage, m);
    }
  }

  // ---------------------------------------------------------------------
  // updateUser
  // ---------------------------------------------------------------------

  /** `if (req.body[key] !== undefined) user[key] = req.body[key]`: the body's value if it carries one, else `current`. */
  function Take(body: Body, key: string, current: JsValue): JsValue {
    if Present(body, key) then Prop(body, key) else current
  }

  /** The field that had `before` and now has `after` took the body's value if the body carries `key`, else kept its own. */
  predicate TakesFrom(body: Body, key: string, before: JsValue, after: JsValue) {
    after == Take(body, key, before)
  }

  /**
   * `after` is `before` with every field the body carries taken from the
   * body and every other field kept; the identifier, the username and the
   * position never change.
   */
  predicate PatchOf(before: User, after: User, body: Body) {
    && after.id == before.id && after.username == before.username && after.position == before.position
    && TakesFrom(body, "password", before.password, after.password)
    && TakesFrom(body, "displayName", before.displayName, after.displayName)
    && TakesFrom(body, "email", before.email, after.email)
    && TakesFrom(body, "phoneNumber", before.phoneNumber, after.phoneNumber)
    && TakesFrom(body, "currentLocation", before.currentLocation, after.currentLocation)
    && TakesFrom(body, "openToNewOpportunities", before.openToNewOpportunities, after.openToNewOpportunities)
    && TakesFrom(body, "profileIsPublic", before.profileIsPublic, after.profileIsPublic)
    && TakesFrom(body, "theme_name", before.themeName, after.themeName)
    && TakesFrom(body, "info", before.info, after.info)
    && TakesFrom(body, "profile", before.profile, after.profile)
  }

  const UpdateEmptyMessage := "Update data cannot be empty."
  const UpdatedMessage := "User updated successfully"
  const EmailUpdateMessage := "Invalid email format for update."
  const OpenFlagUpdateMessage := "openToNewOpportunities must be a boolean for update."
  const PublicFlagUpdateMessage := "profileIsPublic must be a boolean for update."
  const PhoneUpdateMessage := "Invalid phone number format for update. Use international format, e.g., +2348012345678."

  function NotFoundMessage(username: string): string {
    "User not found with username: " + username
  }

  function UpdateFailedMessage(username: string): string {
    "Internal server error while updating user with username=" + username
  }

  /** The format rules `updateUser` applies to the fields the body carries. */
  predicate UpdateFieldsValid(body: Body) {
    && (Present(body, "email") ==> EmailAccepted(Prop(body, "email")))
    && (Present(body, "phoneNumber") ==> PhoneAccepted(Prop(body, "phoneNumber")))
    && (Present(body, "openToNewOpportunities") ==> Prop(body, "openToNewOpportunities").Bool?)
    && (Present(body, "profileIsPublic") ==> Prop(body, "profileIsPublic").Bool?)
  }

  /** The checks `updateUser` runs on a loaded document, in the file's order, stopping at the first that fails. */
  function UpdateCheck(body: Body, util: PasswordUtil): (c: Check)
    ensures c.Raises? <==> Present(body, "password") && util.Unbound?
    ensures c.Pass? <==>
      && (Present(body, "password") ==> util.Imported? && util.passwordPass(Prop(body, "password")).None?)
      && UpdateFieldsValid(body)
  {
    if Present(body, "password") && util.Unbound? then Raises(ReferenceErrorMessage)
    else if Present(body, "password") && util.passwordPass(Prop(body, "password")).Some? then
      Invalid(util.passwordPass(Prop(body, "password")).value)
    else if Present(body, "email") && !EmailAccepted(Prop(body, "email")) then Invalid(EmailUpdateMessage)
    else if Present(body, "phoneNumber") && !PhoneAccepted(Prop(body, "phoneNumber")) then Invalid(PhoneUpdateMessage)
    else if Present(body, "openToNewOpportunities") && !Prop(body, "openToNewOpportunities").Bool? then
      Invalid(OpenFlagUpdateMessage)
    else if Present(body, "profileIsPublic") && !Prop(body, "profileIsPublic").Bool? then
      Invalid(PublicFlagUpdateMessage)
    else Pass
  }

  /**
   * The middle of `updateUser`: the loaded document is changed field by
   * field, in the file's order, and the first failing check ends it.
   */
  method Patch(before: User, body: Body, util: PasswordUtil) returns (check: Check, user: User)
    ensures check == UpdateCheck(body, util)
    ensures check.Pass? ==> PatchOf(before, user, body)
  {
    user := before;
    if Present(body, "password") {
      if util.Unbound? {
        // `passwordUtil.passwordPass(...)` throws; the catch block answers 500
        return Raises(ReferenceErrorMessage), user;
      }
      var passwordCheck := util.passwordPass(Prop(body, "password"));
      if passwordCheck.Some? {
        return Invalid(passwordCheck.value), user;
      }
    }
    user := user.(password := Take(body, "password", user.password));
    user := user.(displayName := Take(body, "displayName", user.displayName));
    if Present(body, "email") && !EmailAccepted(Prop(body, "email")) {
      return Invalid(EmailUpdateMessage), user;
    }
    user := user.(email := Take(body, "email", user.email));
    if Present(body, "phoneNumber") && !PhoneAccepted(Prop(body, "phoneNumber")) {
      return Invalid(PhoneUpdateMessage), user;
    }
    user := user.(phoneNumber := Take(body, "phoneNumber", user.phoneNumber));
    user := user.(currentLocation := Take(body, "currentLocation", user.currentLocation));
    if Present(body, "openToNewOpportunities") && !Prop(body, "openToNewOpportunities").Bool? {
      return Invalid(OpenFlagUpdateMessage), user;
    }
    user := user.(openToNewOpportunities := Take(body, "openToNewOpportunities", user.openToNewOpportunities));
    if Present(body, "profileIsPublic") && !Prop(body, "profileIsPublic").Bool? {
      return Invalid(PublicFlagUpdateMessage), user;
    }
    user := user.(profileIsPublic := Take(body, "profileIsPublic", user.profileIsPublic));
    user := user.(themeName := Take(body, "theme_name", user.themeName));
    user := user.(info := Take(body, "info", user.info));
    user := user.(profile := Take(body, "profile", user.profile));
    check := Pass;
  }

  /**
   * `updateUser`: 400 for an empty body, 404 for an unknown username, 422
   * for the first failing check, 409/500 for a failing save, else 200; the
   * store changes only on 200, and then only the matched document, patched.
   */
  method UpdateUser(st: Store, username: string, body: Body, util: PasswordUtil, readFault: ReadFault, fault: WriteFault)
    returns (reply: Reply, st': Store)
    requires Valid(st)
    ensures Valid(st')
    ensures reply.status != 200 ==> st' == st
    ensures |body| == 0 ==> reply == Message(400, UpdateEmptyMessage)
    ensures |body| > 0 && readFault.Some? ==> reply == Failure(500, UpdateFailedMessage(username), readFault.value)
    ensures |body| > 0 && readFault.None? && FindByUsername(st.users, Str(username)).None? ==>
      reply == Message(404, NotFoundMessage(username))
    ensures |body| > 0 && readFault.None? && FindByUsername(st.users, Str(username)).Some? ==>
      match UpdateCheck(body, util)
      case Raises(e) => reply == Failure(500, UpdateFailedMessage(username), e)
      case Invalid(m) => reply == Message(422, m)
      case Pass => match fault
        case NoFault => reply.Updated? && reply.status == 200 && reply.message == UpdatedMessage
        case DuplicateKey(m) => reply == Failure(409, DuplicateField(m) + " already exists with that value.", m)
        case WriteFails(m) => reply == Failure(500, UpdateFailedMessage(username), m)
    ensures reply.status == 200 <==>
      |body| > 0 && readFault.None? && FindByUsername(st.users, Str(username)).Some?
      && UpdateCheck(body, util).Pass? && fault.NoFault?
    ensures reply.status == 200 ==>
      var i := FindByUsername(st.users, Str(username)).value;
      reply.Updated? && st'.users == st.users[i := reply.user] && st'.nextId == st.nextId
      && PatchOf(st.users[i], reply.user, body)
  {
    st' := st;
    if |body| == 0 {
      return Message(400, UpdateEmptyMessage), st;
    }
    if readFault.Some? {
      return Failure(500, UpdateFailedMessage(username), readFault.value), st;
    }
    var found := FindByUsername(st.users, Str(username));
    if found.None? {
      return Message(404, NotFoundMessage(username)), st;
    }
    var i := found.value;
    var check, user := Patch(st.users[i], body, util);
    match check {
      case Raises(e) =>
        return Failure(500, UpdateFailedMessage(username), e), st;
      case Invalid(m) =>
        return Message(422, m), st;
      case Pass =>
    }

    match fault {
      case NoFault =>
        st' := ReplaceAt(st, i, user);
        reply := Updated(200, UpdatedMessage, user);
      case DuplicateKey(m) =>
        reply := Failure(409, DuplicateField(m) + " already exists with that value.", m);
      case WriteFails(m) =>
        reply := Failure(500, UpdateFailedMessage(username), m);
    }
  }

  // ---------------------------------------------------------------------
  // deleteUser
  // ---------------------------------------------------------------------

  function DeleteFailedMessage(username: string): string {
    "Could not delete user with username=" + username
  }

  /** `deleteUser`: removes the first document with that username and answers 204, or answers 404 and changes nothing. */
  method DeleteUser(st: Store, username: string, fault: WriteFault) returns (reply: Reply, st': Store)
    requires Valid(st)
    ensures Valid(st')
    ensures !fault.NoFault? ==> reply == Failure(500, DeleteFailedMessage(username), fault.message) && st' == st
    ensures fault.NoFault? && FindByUsername(st.users, Str(username)).None? ==>
      reply == Message(404, NotFoundMessage(username)) && st' == st
    ensures fault.NoFault? && FindByUsername(st.users, Str(username)).Some? ==>
      var i := FindByUsername(st.users, Str(username)).value;
      reply == NoContent(204) && st'.users == st.users[..i] + st.users[i + 1..] && st'.nextId == st.nextId
    ensures fault.NoFault? && FindByUsername(st.users, Str(username)).Some? ==>
      Count(st'.users, (u: User) => u.username == Str(username)) == Count(st.users, (u: User) => u.username == Str(username)) - 1
  {
    if !fault.NoFault? {
      return Failure(500, DeleteFailedMessage(username), fault.message), st;
    }
    var found := FindByUsername(st.users, Str(username));
    if found.None? {
      // `deletedCount === 0`
      return Message(404, NotFoundMessage(username)), st;
    }
    st' := RemoveAt(st, found.value);
    CountRemove(st.users, found.value, (u: User) => u.username == Str(username));
    reply := NoContent(204);
  }

  // ---------------------------------------------------------------------
  // `passwordUtil` as the file stands, and as it is evidently meant to be
  // ---------------------------------------------------------------------

  /** A complete, well-formed sign-up. */
  const SampleSignup: Body := map["username" := Str("ann"), "password" := Str("secret1"), "email" := Str("ann@example.com")]

  lemma SampleSignupWellFormed()
    ensures !MissingRequired(SampleSignup) && CreateFieldsValid(SampleSignup)
  {
    SampleEmailAccepted();
    assert Prop(SampleSignup, "email") == Str("ann@example.com");
    assert !Present(SampleSignup, "openToNewOpportunities") && !Present(SampleSignup, "profileIsPublic");
    assert Prop(SampleSignup, "phoneNumber") == Undefined;
  }

  lemma SampleEmailAccepted()
    ensures EmailAccepted(Str("ann@example.com"))
  {
    var email := "ann@example.com";
    assert ToJsString(Str(email)) == email;
    assert email[3] == '@' && email[11] == '.';
    assert EmailShapeAt(email, 3, 11);
    EmailPatternIffShape(email);
  }

  /** As the file stands, `passwordUtil` is unbound: a well-formed sign-up is answered 500 and nothing is stored. */
  method CreateAsWrittenRejectsSignup(st: Store) returns (reply: Reply, st': Store)
    requires Valid(st)
    ensures reply == Failure(500, CreateFailedMessage, ReferenceErrorMessage) && st' == st
  {
    SampleSignupWellFormed();
    reply, st' := Create(st, SampleSignup, Unbound, NoFault);
  }

  /** With a password rule in scope that accepts the password, the same sign-up is stored, with its defaults. */
  method CreateWithRuleStoresSignup(st: Store, passwordPass: JsValue -> Option<string>) returns (reply: Reply, st': Store)
    requires Valid(st) && passwordPass(Str("secret1")).None?
    ensures reply.Created? && reply.status == 201 && st'.users == st.users + [reply.user]
    ensures reply.user.username == Str("ann") && reply.user.displayName == Str("ann") && reply.user.themeName == Str("Default")
  {
    SampleSignupWellFormed();
    reply, st' := Create(st, SampleSignup, Imported(passwordPass), NoFault);
  }

  /** As the file stands, any update that carries a password is answered 500 and changes nothing. */
  method UpdateAsWrittenRejectsPasswordChange(st: Store, username: string) returns (reply: Reply, st': Store)
    requires Valid(st) && FindByUsername(st.users, Str(username)).Some?
    ensures reply == Failure(500, UpdateFailedMessage(username), ReferenceErrorMessage) && st' == st
  {
    reply, st' := UpdateUser(st, username, map["password" := Str("n3wsecret")], Unbound, None, NoFault);
  }

  /** With a password rule in scope that accepts it, the password is changed and nothing else is. */
  method UpdateWithRuleChangesPassword(st: Store, username: string, passwordPass: JsValue -> Option<string>)
    returns (reply: Reply, st': Store)
    requires Valid(st) && FindByUsername(st.users, Str(username)).Some? && passwordPass(Str("n3wsecret")).None?
    ensures reply.status == 200
    ensures var i := FindByUsername(st.users, Str(username)).value;
      && st'.users == st.users[i := st.users[i].(password := Str("n3wsecret"))]
  {
    var body := map["password" := Str("n3wsecret")];
    assert Prop(body, "password") == Str("n3wsecret");
    assert UpdateCheck(body, Imported(passwordPass)) == Pass;
    reply, st' := UpdateUser(st, username, body, Imported(passwordPass), None, NoFault);
    var i := FindByUsername(st.users, Str(username)).value;
    PatchOfPasswordOnly(st.users[i], reply.user, Str("n3wsecret"));
  }

  /** A body that carries only a password changes only the password. */
  lemma PatchOfPasswordOnly(before: User, after: User, password: JsValue)
    requires password != Undefined && PatchOf(before, after, map["password" := password])
    ensures after == before.(password := password)
  {
  }
}
