/** The sign-in page: the two fields and their rules, and `handleLogin`
    with its busy flag, the token it stores and its error text. */
module LoginView {
  import opened Types
  import opened FormRules

  datatype LoginForm = LoginForm(email: string, password: string)

  const PasswordRequired := "La contrase\U{00F1}a es obligatoria"
  const PasswordTooShort := "La contrase\U{00F1}a debe tener al menos 6 caracteres"
  const PasswordMinLength := 6
  const LoginFailed := "Error desconocido"
  /** The `localStorage` key of the session token. */
  const AuthTokenKey := "AUTH_TOKEN"

  /** `initialValues`. */
  const InitialValues := LoginForm("", "")

  /** `required`, then `minLength: 6`. */
  function PasswordError(password: string): (message: Option<string>)
    ensures message.None? <==> |password| >= 6
    ensures message == Some(PasswordRequired) <==> password == ""
    ensures message == Some(PasswordTooShort) <==> 0 < |password| < 6
  {
    if !Present(password) then Some(PasswordRequired)
    else if |password| < PasswordMinLength then Some(PasswordTooShort)
    else None
  }

  /** `handleSubmit` calls `handleLogin` only when no field has an error. */
  function FormValid(form: LoginForm): (ok: bool)
    ensures ok <==> MatchesEmail(form.email) && |form.password| >= 6
  {
    EmailError(form.email).None? && PasswordError(form.password).None?
  }

  class LoginPage {
    /** The values the fields hold. */
    var form: LoginForm
    /** `isLoading`: a request is in flight and the button is disabled. */
    var isLoading: bool
    /** `localStorage`, as a map from key to text. */
    var storage: map<string, string>

    constructor (storage: map<string, string>)
      ensures form == InitialValues && form.email == "" && form.password == ""
      ensures !isLoading && this.storage == storage
    {
      form := InitialValues;
      isLoading := false;
      this.storage := storage;
    }

    /** The user types into the fields. */
    method Edit(values: LoginForm)
      modifies this
      ensures form == values && isLoading == old(isLoading) && storage == old(storage)
    {
      form := values;
    }

    /** A submit of the form. Nothing is sent while the button is disabled
        or while a field has an error; otherwise `isLoading` rises and the
        credentials are sent. */
    method Submit() returns (request: Option<LoginForm>)
      modifies this
      ensures form == old(form) && storage == old(storage)
      ensures request.Some? <==> !old(isLoading) && FormValid(form)
      ensures request.Some? ==> request.value == form && isLoading
      ensures request.None? ==> isLoading == old(isLoading)
    {
      if isLoading || !FormValid(form) {
        request := None;
      } else {
        isLoading := true;
        request := Some(form);
      }
    }

    /** The request has settled: on success the returned token is stored
        under `AUTH_TOKEN` and nothing else in storage changes; on failure
        storage is untouched and an HTTP error shows the server's `error`
        text or `Error desconocido`. `isLoading` drops either way. */
    method Settle(outcome: Outcome) returns (errorMessage: Option<string>)
      modifies this
      ensures !isLoading && form == old(form)
      ensures outcome.Succeeded? ==> storage == old(storage)[AuthTokenKey := outcome.data]
      ensures !outcome.Succeeded? ==> storage == old(storage)
      ensures errorMessage == FailureMessage(outcome, LoginFailed)
    {
      errorMessage := None;
      if outcome.Succeeded? {
        storage := storage[AuthTokenKey := outcome.data];
      } else {
        errorMessage := FailureMessage(outcome, LoginFailed);
      }
      isLoading := false;
    }
  }
}
