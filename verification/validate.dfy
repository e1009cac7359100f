/**
 * The request validators of middleware/validate.js: each collects an
 * ordered list of field errors and then either answers 400 with all of
 * them or hands the request on.
 */
module Validate {
  import opened JsValues
  import opened Patterns

  /** One entry of the `errors` array: `{ field, message }`. */
  datatype FieldError = FieldError(field: string, message: string)

  /** What a validator does with the request. */
  datatype Outcome =
    | Next                                                           // `next()`, nothing sent
    | Respond(status: int, message: string, errors: seq<FieldError>) // `res.status(status).json({ message, errors })`

  /** `validationError(res, errors)`: status 400 with the list as it was collected. */
  function ValidationError(errors: seq<FieldError>): (o: Outcome)
    ensures o.Respond? && o.status == 400 && o.message == "Validation failed" && o.errors == errors
  {
    Respond(400, "Validation failed", errors)
  }

  /** The validators' common last step: answer with the errors if there are any, else pass. */
  function Decide(errors: seq<FieldError>): Outcome {
    if |errors| > 0 then ValidationError(errors) else Next
  }

  // ---------------------------------------------------------------------
  // The rules, stated on their own
  // ---------------------------------------------------------------------

  /** A string with a character that `trim` keeps. */
  predicate NonBlankString(v: JsValue) {
    v.Str? && !IsBlank(v.s)
  }

  /** A string `#RRGGBB` of hex digits, either case. */
  predicate HexColorString(v: JsValue) {
    v.Str? && |v.s| == 7 && v.s[0] == '#' && forall k :: 1 <= k < 7 ==> IsHexDigit(v.s[k])
  }

  const ThemeNameError := FieldError("themeName", "Theme name is required and must be a non-empty string.")
  const ColorError := FieldError("color", "Color is required and must be a valid hex code (e.g., #RRGGBB).")
  const LayoutError := FieldError("layout", "Layout is required and must be a non-empty string.")

  const UsernameRequired := FieldError("username", "Username is required and cannot be empty.")
  const UsernameTooShort := FieldError("username", "Username must be at least 3 characters long.")
  const PasswordRequired := FieldError("password", "Password is required and cannot be empty.")
  const PasswordTooShort := FieldError("password", "Password must be at least 6 characters long.")

  /** Position of a field in the order the validators report it. */
  function FieldRank(field: string): nat {
    if field == "themeName" || field == "username" then 0
    else if field == "color" || field == "password" then 1
    else if field == "layout" then 2
    else 3
  }

  /** Fields strictly in report order: so each field at most once. */
  predicate InFieldOrder(errors: seq<FieldError>) {
    forall i, j :: 0 <= i < j < |errors| ==> FieldRank(errors[i].field) < FieldRank(errors[j].field)
  }

  /** The errors of a theme body: one per failing field, in the order themeName, color, layout. */
  function ThemeErrors(body: Body): (errors: seq<FieldError>)
    ensures forall e :: e in errors ==> e in [ThemeNameError, ColorError, LayoutError]
    ensures ThemeNameError in errors <==> !NonBlankString(Prop(body, "themeName"))
    ensures ColorError in errors <==> !HexColorString(Prop(body, "color"))
    ensures LayoutError in errors <==> !NonBlankString(Prop(body, "layout"))
    ensures InFieldOrder(errors)
  {
    (if NonBlankString(Prop(body, "themeName")) then [] else [ThemeNameError])
    + (if HexColorString(Prop(body, "color")) then [] else [ColorError])
    + (if NonBlankString(Prop(body, "layout")) then [] else [LayoutError])
  }

  function ThemeDecision(body: Body): Outcome {
    Decide(ThemeErrors(body))
  }

  /**
   * The error for one credential: "required" when it is not a non-blank
   * string, otherwise "too short" when its untrimmed length is below `min`.
   */
  function CredentialErrors(v: JsValue, min: nat, required: FieldError, tooShort: FieldError): seq<FieldError> {
    if !NonBlankString(v) then [required]
    else if JsLength(v.s) < min then [tooShort]
    else []
  }

  /** The errors of a credentials body: at most one for the username, then at most one for the password. */
  function UserErrors(body: Body): (errors: seq<FieldError>)
    ensures |errors| <= 2
    ensures forall e :: e in errors ==> e in [UsernameRequired, UsernameTooShort, PasswordRequired, PasswordTooShort]
    ensures InFieldOrder(errors)
    ensures UsernameRequired in errors <==> !NonBlankString(Prop(body, "username"))
    ensures UsernameTooShort in errors <==> NonBlankString(Prop(body, "username")) && JsLength(Prop(body, "username").s) < 3
    ensures PasswordRequired in errors <==> !NonBlankString(Prop(body, "password"))
    ensures PasswordTooShort in errors <==> NonBlankString(Prop(body, "password")) && JsLength(Prop(body, "password").s) < 6
  {
    CredentialErrors(Prop(body, "username"), 3, UsernameRequired, UsernameTooShort)
    + CredentialErrors(Prop(body, "password"), 6, PasswordRequired, PasswordTooShort)
  }

  function UserDecision(body: Body): Outcome {
    Decide(UserErrors(body))
  }

  // ---------------------------------------------------------------------
  // The middleware, step by step
  // ---------------------------------------------------------------------

  /** `validateThemeCreation(req, res, next)` */
  method ValidateThemeCreation(body: Body) returns (o: Outcome)
    ensures o == ThemeDecision(body)
    ensures o.Next? <==>
      NonBlankString(Prop(body, "themeName")) && HexColorString(Prop(body, "color")) && NonBlankString(Prop(body, "layout"))
    ensures o.Respond? ==> o.status == 400 && o.message == "Validation failed" && o.errors != []
  {
    var themeName, color, layout := Prop(body, "themeName"), Prop(body, "color"), Prop(body, "layout");
    ThemeChecksMeanRules(themeName, color, layout);
    var errors: seq<FieldError> := [];

    if !Truthy(themeName) || !themeName.Str? || Trim(themeName.s) == "" {
      errors := errors + [ThemeNameError];
    }
    assert errors == if NonBlankString(themeName) then [] else [ThemeNameError];
    if !Truthy(color) || !color.Str? || !MatchesHexColor(color.s) {
      errors := errors + [ColorError];
    }
    assert errors == (if NonBlankString(themeName) then [] else [ThemeNameError])
      + (if HexColorString(color) then [] else [ColorError]);
    if !Truthy(layout) || !layout.Str? || Trim(layout.s) == "" {
      errors := errors + [LayoutError];
    }
    assert errors == ThemeErrors(body);

    if |errors| > 0 {
      return ValidationError(errors);
    }
    o := Next;
  }

  /** The source's tests (truthiness, `typeof`, `trim`, the colour regex) decide exactly the stated rules. */
  lemma ThemeChecksMeanRules(themeName: JsValue, color: JsValue, layout: JsValue)
    ensures (!Truthy(themeName) || !themeName.Str? || Trim(themeName.s) == "") <==> !NonBlankString(themeName)
    ensures (!Truthy(color) || !color.Str? || !MatchesHexColor(color.s)) <==> !HexColorString(color)
    ensures (!Truthy(layout) || !layout.Str? || Trim(layout.s) == "") <==> !NonBlankString(layout)
  {
    if themeName.Str? { TrimEmptyIffBlank(themeName.s); }
    if color.Str? { HexColorShape(color.s); }
    if layout.Str? { TrimEmptyIffBlank(layout.s); }
  }

  /** `validateUserCreation(req, res, next)` */
  method ValidateUserCreation(body: Body) returns (o: Outcome)
    ensures o == UserDecision(body)
    ensures o.Next? <==>
      && NonBlankString(Prop(body, "username")) && JsLength(Prop(body, "username").s) >= 3
      && NonBlankString(Prop(body, "password")) && JsLength(Prop(body, "password").s) >= 6
    ensures o.Respond? ==> o.status == 400 && o.message == "Validation failed" && o.errors != []
  {
    var username, password := Prop(body, "username"), Prop(body, "password");
    UserChecksMeanRules(username, password);
    var errors: seq<FieldError> := [];

    if !Truthy(username) || !username.Str? || Trim(username.s) == "" {
      errors := errors + [UsernameRequired];
    } else if JsLength(username.s) < 3 {
      errors := errors + [UsernameTooShort];
    }
    assert errors == CredentialErrors(username, 3, UsernameRequired, UsernameTooShort);

    if !Truthy(password) || !password.Str? || Trim(password.s) == "" {
      errors := errors + [PasswordRequired];
    } else if JsLength(password.s) < 6 {
      errors := errors + [PasswordTooShort];
    }
    assert errors == UserErrors(body);

    if |errors| > 0 {
      return ValidationError(errors);
    }
    o := Next;
  }

  lemma UserChecksMeanRules(username: JsValue, password: JsValue)
    ensures (!Truthy(username) || !username.Str? || Trim(username.s) == "") <==> !NonBlankString(username)
    ensures (!Truthy(password) || !password.Str? || Trim(password.s) == "") <==> !NonBlankString(password)
  {
    if username.Str? { TrimEmptyIffBlank(username.s); }
    if password.Str? { TrimEmptyIffBlank(password.s); }
  }

  // ---------------------------------------------------------------------
  // Properties
  // ---------------------------------------------------------------------

  /** A rejection always carries every failing rule, so the list is never empty and next is not called. */
  lemma DecisionRejectsExactlyOnErrors(body: Body)
    ensures ThemeDecision(body).Next? <==> ThemeErrors(body) == []
    ensures UserDecision(body).Next? <==> UserErrors(body) == []
    ensures ThemeDecision(body).Respond? ==> ThemeDecision(body) == Respond(400, "Validation failed", ThemeErrors(body))
    ensures UserDecision(body).Respond? ==> UserDecision(body) == Respond(400, "Validation failed", UserErrors(body))
  {
  }

  /**
   * The minimum lengths count the untrimmed value: a two-letter username
   * and a five-letter password, each padded with one space, pass, though
   * trimmed they are too short.
   */
  lemma LengthCountsPadding(username: string, password: string)
    requires |username| == 2 && |password| == 5
    requires forall k :: 0 <= k < |username| ==> 'a' <= username[k] <= 'z'
    requires forall k :: 0 <= k < |password| ==> 'a' <= password[k] <= 'z'
    ensures JsLength(Trim(username + " ")) < 3 && JsLength(Trim(password + " ")) < 6
    ensures UserErrors(map["username" := Str(username + " "), "password" := Str(password + " ")]) == []
  {
    var body := map["username" := Str(username + " "), "password" := Str(password + " ")];
    TrimPadded(username);
    TrimPadded(password);
    PaddedLength(username);
    PaddedLength(password);
    assert Prop(body, "username") == Str(username + " ") && Prop(body, "password") == Str(password + " ");
  }

  /** A word of letters with one trailing space trims back to the word and is not blank. */
  lemma TrimPadded(w: string)
    requires w != [] && forall k :: 0 <= k < |w| ==> 'a' <= w[k] <= 'z'
    ensures Trim(w + " ") == w && !IsBlank(w + " ")
  {
    var s := w + " ";
    assert s[0] == w[0] && !IsJsWhitespace(s[0]);
    assert TrimStart(s) == s;
    assert s[..|s| - 1] == w;
    assert TrimEnd(s) == TrimEnd(w);
    assert !IsJsWhitespace(w[|w| - 1]);
  }

  /** Letters and spaces are one UTF-16 code unit each. */
  lemma PaddedLength(w: string)
    requires forall k :: 0 <= k < |w| ==> 'a' <= w[k] <= 'z'
    ensures JsLength(w) == |w| && JsLength(w + " ") == |w| + 1
  {
  }
}
