/**
 * The sign-up page: `validateForm` checks the four fields in order and
 * gives each failing field exactly one message; `createUser` sends the
 * form only when no field failed, and records what the service answered.
 * The answer is a parameter of type `Outcome`.
 */
module SignupPage {
  import opened Options
  import opened Strings
  import opened FormPatterns

  datatype SignupForm = SignupForm(name: string, email: string, password: string, confirmPassword: string)

  const BlankForm := SignupForm("", "", "", "")

  const NameKey := "name"
  const EmailKey := "email"
  const PasswordKey := "password"
  const ConfirmKey := "confirmPassword"
  const FieldKeys := {NameKey, EmailKey, PasswordKey, ConfirmKey}

  const NameRequired := "Full name is required"
  const PasswordWeak :=
    "Password must be at least 8 characters long and include one letter, one number, and one special character"
  const ConfirmRequired := "Please confirm your password"
  const Mismatch := "Passwords do not match"
  const SignupFailed := "Something went wrong"

  // The message each field gets, if any: emptiness is tested before the pattern or the comparison.

  function NameMessage(form: SignupForm): Option<string> {
    if AllSpace(form.name) then Some(NameRequired) else None
  }

  function PasswordMessage(form: SignupForm): Option<string> {
    if form.password == "" then Some(PasswordRequired)
    else if !PasswordTest(form.password) then Some(PasswordWeak)
    else None
  }

  function ConfirmMessage(form: SignupForm): Option<string> {
    if form.confirmPassword == "" then Some(ConfirmRequired)
    else if form.password != form.confirmPassword then Some(Mismatch)
    else None
  }

  /** The `newErrors` object: the fields' messages, added in the order the page checks them. */
  function Errors(form: SignupForm): map<string, string> {
    var m := Put(map[], NameKey, NameMessage(form));
    var m := Put(m, EmailKey, EmailError(form.email));
    var m := Put(m, PasswordKey, PasswordMessage(form));
    Put(m, ConfirmKey, ConfirmMessage(form))
  }

  /** A form every check accepts. */
  predicate Acceptable(form: SignupForm) {
    && !AllSpace(form.name) && EmailTest(form.email) && PasswordTest(form.password)
    && form.confirmPassword == form.password
  }

  /** What an acceptable form is, in terms of the two patterns. */
  lemma AcceptableIff(form: SignupForm)
    ensures Acceptable(form) <==>
      && !AllSpace(form.name) && EmailPattern(form.email) && PasswordPattern(form.password)
      && form.confirmPassword == form.password
  {
    EmailTestIff(form.email);
    PasswordTestIff(form.password);
  }

  /**
   * A field has an entry exactly when its check fails, and then the entry
   * is the message of the first test it fails.
   */
  lemma ErrorsByField(form: SignupForm)
    ensures Errors(form).Keys <= FieldKeys
    ensures NameKey in Errors(form) <==> AllSpace(form.name)
    ensures EmailKey in Errors(form) <==> !EmailPattern(form.email)
    ensures PasswordKey in Errors(form) <==> !PasswordPattern(form.password)
    ensures ConfirmKey in Errors(form) <==> form.confirmPassword == "" || form.confirmPassword != form.password
    ensures EmailKey in Errors(form) ==> Errors(form)[EmailKey] == if form.email == "" then EmailRequired else EmailInvalid
    ensures PasswordKey in Errors(form) ==>
      Errors(form)[PasswordKey] == if form.password == "" then PasswordRequired else PasswordWeak
    ensures ConfirmKey in Errors(form) ==>
      Errors(form)[ConfirmKey] == if form.confirmPassword == "" then ConfirmRequired else Mismatch
  {
    EmailErrorIff(form.email);
    PasswordTestIff(form.password);
  }

  /** The form is valid, with no entry at all, exactly when every check accepts it. */
  lemma ValidIff(form: SignupForm)
    ensures Errors(form) == map[] <==> Acceptable(form)
  {
    EmailTestIff(form.email);
    PasswordTestIff(form.password);
    ErrorsByField(form);
  }

  /** `validateForm`: fills `newErrors` field by field and reports whether it stayed empty. */
  method ValidateForm(form: SignupForm) returns (errors: map<string, string>, valid: bool)
    ensures errors == Errors(form)
    ensures valid <==> Acceptable(form)
  {
    errors := map[];
    // `!form.name.trim()`: `Trim` gives "" exactly on an all-space name.
    if AllSpace(form.name) {
      errors := errors[NameKey := NameRequired];
    }
    assert errors == Put(map[], NameKey, NameMessage(form));
    ghost var before := errors;
    if form.email == "" {
      errors := errors[EmailKey := EmailRequired];
    } else if !EmailTest(form.email) {
      errors := errors[EmailKey := EmailInvalid];
    }
    assert errors == Put(before, EmailKey, EmailError(form.email));
    before := errors;
    if form.password == "" {
      errors := errors[PasswordKey := PasswordRequired];
    } else if !PasswordTest(form.password) {
      errors := errors[PasswordKey := PasswordWeak];
    }
    assert errors == Put(before, PasswordKey, PasswordMessage(form));
    before := errors;
    if form.confirmPassword == "" {
      errors := errors[ConfirmKey := ConfirmRequired];
    } else if form.password != form.confirmPassword {
      errors := errors[ConfirmKey := Mismatch];
    }
    assert errors == Put(before, ConfirmKey, ConfirmMessage(form));
    valid := |errors| == 0;
    ValidIff(form);
  }

  class SignupView {
    var form: SignupForm
    var errors: map<string, string>
    var isLoading: bool
    var responseError: bool
    var errorMessage: string
    /** `localStorage`. */
    var storage: map<string, string>
    /** Where the page has navigated to; "" while it stays. */
    var location: string
    /** The forms sent to the sign-up endpoint, oldest first. */
    var requests: seq<SignupForm>

    constructor ()
      ensures form == BlankForm && errors == map[] && !isLoading && !responseError && errorMessage == ""
      ensures storage == map[] && location == "" && requests == []
    {
      form := BlankForm;
      errors := map[];
      isLoading := false;
      responseError := false;
      errorMessage := "";
      storage := map[];
      location := "";
      requests := [];
    }

    /** An input's `onChange`: replaces the one field it is bound to; errors stay until the next submit. */
    method Edit(key: string, value: string)
      requires key in FieldKeys
      modifies this
      ensures key == NameKey ==> form == old(form).(name := value)
      ensures key == EmailKey ==> form == old(form).(email := value)
      ensures key == PasswordKey ==> form == old(form).(password := value)
      ensures key == ConfirmKey ==> form == old(form).(confirmPassword := value)
      ensures errors == old(errors) && isLoading == old(isLoading) && responseError == old(responseError)
      ensures errorMessage == old(errorMessage) && storage == old(storage)
      ensures location == old(location) && requests == old(requests)
    {
      if key == NameKey {
        form := form.(name := value);
      } else if key == EmailKey {
        form := form.(email := value);
      } else if key == PasswordKey {
        form := form.(password := value);
      } else {
        form := form.(confirmPassword := value);
      }
    }

    /**
     * `createUser`: an invalid form only shows its errors; a valid one is
     * sent, as `Send` describes.
     */
    method CreateUser(outcome: Outcome)
      modifies this
      ensures errors == Errors(form) && form == old(form)
      ensures !Acceptable(form) ==>
        && requests == old(requests) && storage == old(storage) && location == old(location)
        && isLoading == old(isLoading) && responseError == old(responseError) && errorMessage == old(errorMessage)
      ensures Acceptable(form) ==> Sent(old(requests), old(storage), old(location), old(responseError), old(errorMessage), outcome)
    {
      var newErrors, valid := ValidateForm(form);
      errors := newErrors;
      if !valid {
        return;
      }
      Send(outcome);
    }

    /** The state after the form was sent and the service answered with `outcome`. */
    ghost predicate Sent(requests0: seq<SignupForm>, storage0: map<string, string>, location0: string,
                         responseError0: bool, errorMessage0: string, outcome: Outcome)
      reads this
    {
      && requests == requests0 + [form] && !isLoading
      && (outcome.Accepted? ==>
        && storage == storage0["UserId" := outcome.userId]["JwtToken" := outcome.jwtToken]
        && location == "/home" && responseError == responseError0 && errorMessage == errorMessage0)
      && (outcome.Refused? ==>
        && errorMessage == RefusalText(outcome.message, SignupFailed) && responseError
        && storage == storage0 && location == location0)
      && (outcome.Unreachable? ==>
        && errorMessage == UnableToConnect && responseError
        && storage == storage0 && location == location0)
    }

    /**
     * The request and its handling: on success the user id and token are
     * stored and the page moves to `/home`; on failure the message is shown
     * and the alert raised; the loader is off at the end either way.
     */
    method Send(outcome: Outcome)
      modifies this
      ensures form == old(form) && errors == old(errors)
      ensures Sent(old(requests), old(storage), old(location), old(responseError), old(errorMessage), outcome)
    {
      isLoading := true;
      requests := requests + [form];
      match outcome {
        case Accepted(userId, jwtToken) =>
          storage := storage["UserId" := userId];
          storage := storage["JwtToken" := jwtToken];
          location := "/home";
        case Refused(message) =>
          errorMessage := RefusalText(message, SignupFailed);
          responseError := true;
        case Unreachable =>
          errorMessage := UnableToConnect;
          responseError := true;
      }
      isLoading := false;
    }

    /** The alert's close button, and the timer that hides it three seconds later. */
    method DismissAlert()
      modifies this
      ensures !responseError
      ensures form == old(form) && errors == old(errors) && isLoading == old(isLoading)
      ensures errorMessage == old(errorMessage) && storage == old(storage)
      ensures location == old(location) && requests == old(requests)
    {
      responseError := false;
    }
  }
}
