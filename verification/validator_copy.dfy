/**
 * validator/valdator.js: a second copy of the two request validators, with
 * its own `validationError`. Each method follows that file and is proved to
 * give the same errors and the same decision as middleware/validate.js for
 * every body.
 */
module ValidatorCopy {
  import opened JsValues
  import opened Patterns
  import Validate

  /** This file's own `validationError(res, errors)`. */
  function ValidationError(errors: seq<Validate.FieldError>): (o: Validate.Outcome)
    ensures o == Validate.ValidationError(errors)
  {
    Validate.Respond(400, "Validation failed", errors)
  }

  /** `validateThemeCreation` as this file has it: the same outcome as the middleware's for every body. */
  method ValidateThemeCreation(body: Body) returns (o: Validate.Outcome)
    ensures o == Validate.ThemeDecision(body)
  {
    var themeName, color, layout := Prop(body, "themeName"), Prop(body, "color"), Prop(body, "layout");
    Validate.ThemeChecksMeanRules(themeName, color, layout);
    var errors: seq<Validate.FieldError> := [];

    if !Truthy(themeName) || !themeName.Str? || Trim(themeName.s) == "" {
      errors := errors + [Validate.FieldError("themeName", "Theme name is required and must be a non-empty string.")];
    }
    assert errors == if Validate.NonBlankString(themeName) then [] else [Validate.ThemeNameError];
    if !Truthy(color) || !color.Str? || !MatchesHexColor(color.s) {
      errors := errors + [Validate.FieldError("color", "Color is required and must be a valid hex code (e.g., #RRGGBB).")];
    }
    assert errors == (if Validate.NonBlankString(themeName) then [] else [Validate.ThemeNameError])
      + (if Validate.HexColorString(color) then [] else [Validate.ColorError]);
    if !Truthy(layout) || !layout.Str? || Trim(layout.s) == "" {
      errors := errors + [Validate.FieldError("layout", "Layout is required and must be a non-empty string.")];
    }
    assert errors == Validate.ThemeErrors(body);

    if |errors| > 0 {
      return ValidationError(errors);
    }
    o := Validate.Next;
  }

  /** `validateUserCreation` as this file has it: the same outcome as the middleware's for every body. */
  method ValidateUserCreation(body: Body) returns (o: Validate.Outcome)
    ensures o == Validate.UserDecision(body)
  {
    var username, password := Prop(body, "username"), Prop(body, "password");
    Validate.UserChecksMeanRules(username, password);
    var errors: seq<Validate.FieldError> := [];

    if !Truthy(username) || !username.Str? || Trim(username.s) == "" {
      errors := errors + [Validate.FieldError("username", "Username is required and cannot be empty.")];
    } else if JsLength(username.s) < 3 {
      errors := errors + [Validate.FieldError("username", "Username must be at least 3 characters long.")];
    }
    assert errors == Validate.CredentialErrors(username, 3, Validate.UsernameRequired, Validate.UsernameTooShort);

    if !Truthy(password) || !password.Str? || Trim(password.s) == "" {
      errors := errors + [Validate.FieldError("password", "Password is required and cannot be empty.")];
    } else if JsLength(password.s) < 6 {
      errors := errors + [Validate.FieldError("password", "Password must be at least 6 characters long.")];
    }
    assert errors == Validate.UserErrors(body);

    if |errors| > 0 {
      return ValidationError(errors);
    }
    o := Validate.Next;
  }
}
