# User-profile API core, modelled in Dafny

This project models the parts of a small Express/Mongoose user-profile
API that make decisions:

- the request validators for theme and user creation, in
  `middleware/validate.js` and its copy `validator/valdator.js`;
- the `create`, `updateUser` and `deleteUser` handlers of
  `controllers/user.js`, including their email and phone patterns and how
  they name a field in a duplicate-key error;
- the two access gates of `middleware/authenticate.js`: "logged in", and
  "logged in through GitHub as an Admin";
- the GitHub find-or-create verify callback and the session codec of
  `auth/passport.js`, and its copy `config/passport.js`.

The users collection is a value `Store` (`user_store.dfy`). It holds a
sequence of documents in insertion order and the next identifier the
database will assign. No unique index is declared, so `findOne`,
`findById` and `deleteOne` act on the first match, as the sequence does.
Request bodies and sessions are maps from keys to `JsValue`, a model of
JavaScript values (`js_values.dfy`). That file also models truthiness,
`||`, optional chaining, `String(v)` coercion, `trim` (the JavaScript
whitespace set) and `length` (UTF-16 code units). The three regular
expressions are explicit predicates that follow each pattern's structure
(`patterns.dfy`). Each predicate is paired with a lemma that states the
accepted shape in plain terms.

The database is an input: a failing read is a `ReadFault`, and a save
that fails or violates a unique index is a `WriteFault`. Each handler is
a method returning the HTTP reply and the new store. It is proved
against declarative postconditions. Those postconditions name the reply
for every path and the exact new store; on every non-success path the
store is unchanged.

A returning GitHub user's document is returned unchanged: the callback
writes nothing, and `displayName` and `email` are not refreshed
(`GithubAuth.FindOrCreate`).

The gate and the Passport variants do not fit together as written.
`serializeUser` puts the document id into the session, but
`checkAuthenticated` looks for `session.passport.user.username`, which
such a session never has (`GithubAuth.SerializedSessionCarriesNoUsername`).

## Model

| member | source | states |
|---|---|---|
| Validate.ValidationError | middleware/validate.js:4-9 | the helper answers status 400 with message "Validation failed" and the error list unchanged |
| Validate.ThemeErrors | middleware/validate.js:11-24 | an error is reported for each failing field, and only for a failing one; themeName must be a non-blank string, color a `#RRGGBB` string, layout a non-blank string; each error appears at most once, in the order themeName, color, layout |
| Validate.UserErrors | middleware/validate.js:33-47 | at most one error per field, username before password; "required" exactly when the value is missing, not a string or blank after trim; "too short" exactly when it is non-blank and its untrimmed length is below 3 (username) or 6 (password) |
| Validate.ValidateThemeCreation | middleware/validate.js:4-30 | the push sequence of the file yields the theme decision; the request passes exactly when all three rules hold; otherwise it gets 400 "Validation failed" with a non-empty error list |
| Validate.ValidateUserCreation | middleware/validate.js:33-56 | the if/else-if push sequence yields the user decision; the request passes exactly when both fields are valid; otherwise it gets 400 "Validation failed" with the errors |
| Validate.ThemeChecksMeanRules | middleware/validate.js:15-21 | each guard of the file (falsy, or not a string, or blank after trim; and the hex test) holds exactly when the named rule fails |
| Validate.UserChecksMeanRules | middleware/validate.js:37-43 | the username and password "required" guards are exactly the negation of "non-blank string" |
| Validate.DecisionRejectsExactlyOnErrors | middleware/validate.js:26-29 | the decision passes exactly when the error list is empty; otherwise it is 400 "Validation failed" carrying the whole list |
| Validate.LengthCountsPadding | middleware/validate.js:39-45 | lengths count the untrimmed string: a two-letter username and a five-letter password, each padded with one space, are too short once trimmed and still pass |
| ValidatorCopy.ValidationError | validator/valdator.js:1-6 | this copy's helper answers exactly as middleware/validate.js's: 400, "Validation failed" and the list unchanged |
| ValidatorCopy.ValidateThemeCreation | validator/valdator.js:1-26 | the copy's theme validator gives the same decision as middleware/validate.js for every body |
| ValidatorCopy.ValidateUserCreation | validator/valdator.js:28-48 | the copy's user validator gives the same decision as middleware/validate.js for every body |
| Patterns.HexColorShape | middleware/validate.js:18 | `/^#[0-9A-Fa-f]{6}$/` accepts exactly 7-character strings: `#` and then six digits from 0-9, A-F, a-f |
| Patterns.HexRunToEndIff | validator/valdator.js:15 | the anchored `[0-9A-Fa-f]{n}$` tail matches exactly n hex digits and nothing more |
| Patterns.EmailPatternIffShape | controllers/user.js:16 | `/.+@.+\..+/` matches exactly when some '@' has a non-line-terminator before it; then, after at least one more character, a '.' follows with one after it; every character in between is not a line terminator |
| Patterns.EmailPatternUnanchored | controllers/user.js:129 | the email pattern is unanchored: text added before or after an accepted string keeps it accepted |
| Patterns.EmailPatternNeeds | controllers/user.js:16 | an accepted email has at least 5 characters, with an '@' before a '.' |
| Patterns.PhonePatternIffShape | controllers/user.js:19 | `/^\+?[0-9]{7,15}$/` matches exactly an optional '+' followed by 7 to 15 decimal digits and nothing else |
| Patterns.PhoneAcceptsLongNumber | controllers/user.js:135 | a number with 7 to 15 digits, coerced to a string by `test`, is accepted |
| JsValues.TrimEmptyIffBlank | middleware/validate.js:15 | `s.trim() === ''` exactly when every character is JavaScript whitespace |
| JsValues.JsLength | middleware/validate.js:39 | `length` counts UTF-16 code units: one character counts 2 above U+FFFF and 1 otherwise; the total lies between the number of code points and twice it, and equals it for text inside the Basic Multilingual Plane |
| JsValues.JsLengthAppend | middleware/validate.js:39-45 | the length of a concatenation is the sum of the lengths of its parts |
| JsValues.Or | controllers/user.js:32-40 | JavaScript `or` yields its first operand when that is truthy, and otherwise its second; the result is truthy exactly when one of the operands is |
| UserStore.FindFirst | controllers/user.js:113 | the lookup returns the first document that matches, and none exactly when no document matches |
| UserStore.Insert | controllers/user.js:43 | a save of a new document appends it with the next identifier, which then advances by one; identifiers stay distinct |
| UserStore.RemoveAt | controllers/user.js:190 | removing one document keeps every other, as a multiset, and keeps identifiers distinct |
| UserStore.ReplaceAt | controllers/user.js:159 | saving a loaded document puts it at its index, under the same identifier, and leaves every other document and the next identifier as they were |
| UserStore.CountAppend | auth/passport.js:25 | appending a document adds one to the number of matches exactly when it matches |
| UserStore.CountZeroIffNone | auth/passport.js:15 | no document matches exactly when the lookup finds none |
| UserStore.CountRemove | controllers/user.js:190 | removing a matching document lowers the number of matches by one |
| UserStore.FindByIdFindsOwner | auth/passport.js:36 | in a valid store, `findById` of a document's id finds that document |
| Users.ContainsIffOccurs | controllers/user.js:50-51 | `includes` holds exactly when the part occurs at some position |
| Users.DuplicateField | controllers/user.js:48-51 | "Username" exactly when the message mentions username; else "Email" exactly when it mentions email; else "A field" |
| Users.CreateCheck | controllers/user.js:11-27 | the checks after the required fields pass exactly when the password rule accepts, the email is valid, the phone is valid and both flags are booleans when present; an unbound password rule raises |
| Users.NewUser | controllers/user.js:29-41 | the built document keeps username, password and email; displayName, phoneNumber, currentLocation, theme_name, info and profile are the body's value when it is truthy, and otherwise fall back to username, '', '', 'Default', {} and {}; each flag is the body's value when it is defined, and otherwise true |
| Users.Create | controllers/user.js:5-70 | 400 and no write when a required field is falsy, before any other check; then 500, 422, 409 or 500 per failing check or save; 201 exactly when all pass and the save succeeds, and then exactly the new document is appended under the next identifier, which advances by one |
| Users.UpdateCheck | controllers/user.js:119-153 | an update passes its checks exactly when a present password is accepted, a present email and phone match their patterns, and present flags are booleans |
| Users.Patch | controllers/user.js:119-157 | the field-by-field assignments of the file, with their early returns, yield the update check's verdict; when it passes, they yield the patched document |
| Users.UpdateUser | controllers/user.js:105-184 | 400 for an empty body and 404 for an unknown username; 422 or 500 for a failing check, 409 or 500 for a failing save; the store changes only on 200; then only the matched document changes, replaced by its patch, and the next identifier is kept |
| Users.DeleteUser | controllers/user.js:186-204 | 204 removes the first document with that username and lowers the match count by one; 404 when none matches and 500 on a failing delete, both leaving the store unchanged |
| Users.SampleSignupWellFormed | controllers/user.js:7-27 | the sample sign-up has every required field, and its email and other fields pass the format rules |
| Users.CreateAsWrittenRejectsSignup | controllers/user.js:11 | as written, a well-formed sign-up is answered 500 and nothing is stored |
| Users.CreateWithRuleStoresSignup | controllers/user.js:11-45 | with a password rule in scope that accepts the password, the same sign-up is stored with its defaults and answered 201 |
| Users.UpdateAsWrittenRejectsPasswordChange | controllers/user.js:120 | as written, an update of an existing user that carries a password is answered 500 and changes nothing |
| Users.PatchOfPasswordOnly | controllers/user.js:119-157 | a body carrying only a password yields the stored document with just its password replaced |
| Users.UpdateWithRuleChangesPassword | controllers/user.js:119-125 | with a password rule in scope that accepts it, the password is replaced and nothing else changes |
| Authenticate.IsAuthenticated | middleware/authenticate.js:4-12 | the request goes on exactly when `session.user` is truthy, otherwise 401 'Unauthorized access. Please log in.' |
| Authenticate.SessionUsername | middleware/authenticate.js:16-17 | the GitHub username is `session.user.username` when that is truthy, and otherwise exactly `session.passport.user.username` |
| Authenticate.CheckAuthenticated | middleware/authenticate.js:14-52 | 401 exactly when the session carries no username, without reading the store; 500 exactly on a failing read; 403 'not found' when no document has that username; 403 'Admin privileges required' when the first one's position is not 'Admin'; it admits exactly otherwise, with `req.user` the first document `findOne` returns; it never passes unconditionally |
| Authenticate.PassportOnlySessionFailsLoginGate | middleware/authenticate.js:5-17 | a session with a GitHub username only under `passport.user` is refused by `isAuthenticated` |
| GithubAuth.FirstEmail | auth/passport.js:22 | `profile.emails[0].value` throws exactly when `emails` or its first entry is `null` or `undefined` (missing, empty) |
| GithubAuth.ProfileUser | auth/passport.js:19-23 | the new document has username = profile id, the profile's displayName, the first email, and nothing else set |
| GithubAuth.FindOrCreate | auth/passport.js:13-30 | an existing owner of the profile id is returned as stored, with no write; the store changes exactly when none exists, the email can be read and the save succeeds, and then one document is appended and returned; a missing email gives a profile error; a failing read or save gives that store error; in both cases nothing is written |
| GithubAuth.Verify | auth/passport.js:13-30 | the callback's find, build, save and `done` steps compute `FindOrCreate` |
| GithubAuth.FindOrCreateIdempotent | auth/passport.js:15-26 | after a successful login, a second login with the same profile returns the same document and writes nothing, whatever the save would do |
| GithubAuth.FindOrCreateKeepsOwnerUnique | auth/passport.js:15-26 | if at most one document owned the profile id, at most one does after a login, and exactly one after a successful one |
| GithubAuth.SerializeUser | auth/passport.js:34 | the session keeps only the document id; `SessionRoundTrip` is its partner |
| GithubAuth.DeserializeUser | auth/passport.js:35-37 | it returns a stored document with that id, and nothing exactly when no document has it |
| GithubAuth.SessionRoundTrip | auth/passport.js:34-37 | deserializing the serialized id of a stored user yields that user |
| GithubAuth.SessionSeesUpdate | auth/passport.js:35-37 | after a user's document is replaced, the session yields the new version |
| GithubAuth.SessionEndsOnDelete | auth/passport.js:35-37 | after a user's document is deleted, the session yields no user |
| GithubAuth.SerializedSessionCarriesNoUsername | auth/passport.js:34 | a session holding a serialized id gives `checkAuthenticated` no username |
| GithubAuthConfig.Verify | config/passport.js:13-29 | this copy's callback computes the same `FindOrCreate` as auth/passport.js |
| GithubAuthConfig.SerializeUser | config/passport.js:33 | this copy's serializer equals the other's: the document id |
| GithubAuthConfig.DeserializeUser | config/passport.js:34-36 | this copy's deserializer equals the other's for every store and id |

## Left out

- Mongoose casting, schema defaults and strict mode are not modelled: a document is stored with exactly the values the handler put into it. Under strict mode `profile` is not a schema path and would be dropped; the model keeps it.
- Users.Create and Users.UpdateUser: the Mongoose `ValidationError` branches (controllers/user.js:58-63, 173-178) are not modelled. The schema declares no validators, but `save()` still rejects a value it cannot cast to the path's type, for example `displayName: {"a": 1}`, and the handlers then answer 422. For such a body the model answers 201 or 200 and stores the value.
- Users.Create: the `details` field of the 500 reply and the logging are not modelled.
- Mongo query semantics beyond equality on one value are not modelled: for example, a stored array matches a query value equal to one of its elements, and an object used as a query value may act as an operator.
- `String(n)` for numbers is modelled for integers only. Fractions, NaN, infinities and the exponent form from 1e21 on are left out, because the model's numbers are integers.
- Authenticate.CheckAuthenticated: the gate reads the collection named 'User', while the model named `users` is what the handlers write. The model uses one store for both, as if the names agreed.
- The connection lookup `getDb()` is folded into the read fault.
- GithubAuth.DeserializeUser: a failing `findById` has no catch in the source, so `done` is never called. The model has no such outcome and always answers.
- Passport's own work is out of scope: the OAuth redirect, the exchange of the code for a profile, the callback URL and cookies.
- `server.js` is not part of this model, including its pass-through strategy and serializer.
- Asynchrony and concurrent logins are out of scope: every call runs alone against the store.

## Findings

| source | as written | input that shows it | evidently intended | confidence | as-written member | corrected member |
|---|---|---|---|---|---|---|
| controllers/user.js:11 | `passwordUtil` is never imported or declared, so the call throws a ReferenceError and the catch block answers 500 | `{username: "ann", password: "secret1", email: "ann@example.com"}` | the password rule is in scope; a well-formed sign-up is stored and answered 201 | high (not executed) | Users.CreateAsWrittenRejectsSignup | Users.CreateWithRuleStoresSignup |
| controllers/user.js:120 | the same unbound `passwordUtil` makes any update that carries `password` answer 500 | `{password: "n3wsecret"}` for an existing username | the new password is checked and stored, answered 200 | high (not executed) | Users.UpdateAsWrittenRejectsPasswordChange | Users.UpdateWithRuleChangesPassword |
