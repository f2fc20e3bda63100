/**
 * The login page: `validateForm` checks the address against the email
 * pattern and asks only that a password be given; `loginUser` sends the
 * form only when both pass, and records what the service answered. The
 * answer is a parameter of type `Outcome`.
 */
module LoginPage {
  import opened Options
  import opened FormPatterns

  datatype LoginForm = LoginForm(email: string, password: string)

  const BlankForm := LoginForm("", "")

  const EmailKey := "email"
  const PasswordKey := "password"
  const FieldKeys := {EmailKey, PasswordKey}

  const LoginFailed := "Invalid credentials"

  /** The password is only required to be non-empty here. */
  function PasswordMessage(form: LoginForm): Option<string> {
    if form.password == "" then Some(PasswordRequired) else None
  }

  /** The `newErrors` object: the email's message, then the password's. */
  function Errors(form: LoginForm): map<string, string> {
    Put(Put(map[], EmailKey, EmailError(form.email)), PasswordKey, PasswordMessage(form))
  }

  /** A form both checks accept. */
  predicate Acceptable(form: LoginForm) {
    EmailTest(form.email) && form.password != ""
  }

  /** What an acceptable form is, in terms of the email pattern. */
  lemma AcceptableIff(form: LoginForm)
    ensures Acceptable(form) <==> EmailPattern(form.email) && form.password != ""
  {
    EmailTestIff(form.email);
  }

  /** A field has an entry exactly when its check fails, with the message of the first test it fails. */
  lemma ErrorsByField(form: LoginForm)
    ensures Errors(form).Keys <= FieldKeys
    ensures EmailKey in Errors(form) <==> !EmailPattern(form.email)
    ensures PasswordKey in Errors(form) <==> form.password == ""
    ensures EmailKey in Errors(form) ==> Errors(form)[EmailKey] == if form.email == "" then EmailRequired else EmailInvalid
    ensures PasswordKey in Errors(form) ==> Errors(form)[PasswordKey] == PasswordRequired
  {
    EmailErrorIff(form.email);
  }

  /** The form is valid, with no entry at all, exactly when both checks accept it. */
  lemma ValidIff(form: LoginForm)
    ensures Errors(form) == map[] <==> Acceptable(form)
  {
    EmailTestIff(form.email);
    ErrorsByField(form);
  }

  /** `validateForm`: fills `newErrors` field by field and reports whether it stayed empty. */
  method ValidateForm(form: LoginForm) returns (errors: map<string, string>, valid: bool)
    ensures errors == Errors(form)
    ensures valid <==> Acceptable(form)
  {
    errors := map[];
    if form.email == "" {
      errors := errors[EmailKey := EmailRequired];
    } else if !EmailTest(form.email) {
      errors := errors[EmailKey := EmailInvalid];
    }
    assert errors == Put(map[], EmailKey, EmailError(form.email));
    if form.password == "" {
      errors := errors[PasswordKey := PasswordRequired];
    }
    valid := |errors| == 0;
    ValidIff(form);
  }

  class LoginView {
    var form: LoginForm
    var errors: map<string, string>
    var isLoading: bool
    var responseError: bool
    var errorMessage: string
    /** `localStorage`. */
    var storage: map<string, string>
    /** Where the page has navigated to; "" while it stays. */
    var location: string
    /** The forms sent to the login endpoint, oldest first. */
    var requests: seq<LoginForm>

    constructor ()
      ensures form == BlankForm && errors == map[] && !isLoading && !responseError && errorMessage == ""
      ensures storage == map[] && location == "" && requests == []
    {
      form := BlankForm;
      errors := map[];
      isLoading := false;
      responseError := false;
      errorMessage := "";
      storage := map[];
      location := "";
      requests := [];
    }

    /** An input's `onChange`: replaces the one field it is bound to; errors stay until the next submit. */
    method Edit(key: string, value: string)
      requires key in FieldKeys
      modifies this
      ensures key == EmailKey ==> form == old(form).(email := value)
      ensures key == PasswordKey ==> form == old(form).(password := value)
      ensures errors == old(errors) && isLoading == old(isLoading) && responseError == old(responseError)
      ensures errorMessage == old(errorMessage) && storage == old(storage)
      ensures location == old(location) && requests == old(requests)
    {
      if key == EmailKey {
        form := form.(email := value);
      } else {
        form := form.(password := value);
      }
    }

    /**
     * `loginUser`: an invalid form only shows its errors; a valid one is
     * sent, as `Send` describes.
     */
    method LoginUser(outcome: Outcome)
      modifies this
      ensures errors == Errors(form) && form == old(form)
      ensures !Acceptable(form) ==>
        && requests == old(requests) && storage == old(storage) && location == old(location)
        && isLoading == old(isLoading) && responseError == old(responseError) && errorMessage == old(errorMessage)
      ensures Acceptable(form) ==> Sent(old(requests), old(storage), old(location), old(responseError), old(errorMessage), outcome)
    {
      var newErrors, valid := ValidateForm(form);
      errors := newErrors;
      if !valid {
        return;
      }
      Send(outcome);
    }

    /** The state after the form was sent and the service answered with `outcome`. */
    ghost predicate Sent(requests0: seq<LoginForm>, storage0: map<string, string>, location0: string,
                         responseError0: bool, errorMessage0: string, outcome: Outcome)
      reads this
    {
      && requests == requests0 + [form] && !isLoading
      && (outcome.Accepted? ==>
        && storage == storage0["UserId" := outcome.userId]["JwtToken" := outcome.jwtToken]
        && location == "/home" && responseError == responseError0 && errorMessage == errorMessage0)
      && (outcome.Refused? ==>
        && errorMessage == RefusalText(outcome.message, LoginFailed) && responseError
        && storage == storage0 && location == location0)
      && (outcome.Unreachable? ==>
        && errorMessage == UnableToConnect && responseError
        && storage == storage0 && location == location0)
    }

    /**
     * The request and its handling: on success the user id and token are
     * stored and the page moves to `/home`; on failure the message, or
     * "Invalid credentials" when the body has none, is shown and the alert
     * raised; the loader is off at the end either way.
     */
    method Send(outcome: Outcome)
      modifies this
      ensures form == old(form) && errors == old(errors)
      ensures Sent(old(requests), old(storage), old(location), old(responseError), old(errorMessage), outcome)
    {
      isLoading := true;
      requests := requests + [form];
      match outcome {
        case Accepted(userId, jwtToken) =>
          storage := storage["UserId" := userId];
          storage := storage["JwtToken" := jwtToken];
          location := "/home";
        case Refused(message) =>
          errorMessage := RefusalText(message, LoginFailed);
          responseError := true;
        case Unreachable =>
          errorMessage := UnableToConnect;
          responseError := true;
      }
      isLoading := false;
    }

    /** The alert's close button, and the timer that hides it three seconds later. */
    method DismissAlert()
      modifies this
      ensures !responseError
      ensures form == old(form) && errors == old(errors) && isLoading == old(isLoading)
      ensures errorMessage == old(errorMessage) && storage == old(storage)
      ensures location == old(location) && requests == old(requests)
    {
      responseError := false;
    }
  }
}
