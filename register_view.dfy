/** The sign-up page: the five fields and their rules, and `handleRegister`
    with its busy flag, its reset on success and its error text. */
module RegisterView {
  import opened Types
  import opened FormRules

  datatype RegisterForm = RegisterForm(
    name: string,
    email: string,
    handle: string,
    password: string,
    password_confirmation: string)

  const NameRequired := "El nombre es obligatorio"
  const NameTooShort := "El nombre debe tener al menos 3 caracteres"
  const NameMinLength := 3
  const HandleRequired := "El nombre de usuario es obligatorio"
  const PasswordRequired := "La contrase\U{00F1}a es obligatoria"
  const PasswordTooShort := "La contrase\U{00F1}a debe tener al menos 8 caracteres"
  const PasswordMinLength := 8
  const ConfirmationRequired := "Confirmar contrase\U{00F1}a es obligatorio"
  const ConfirmationMismatch := "Las contrase\U{00F1}as no coinciden"
  const RegisterFailed := "Ocurri\U{00F3} un error al registrar"

  /** `initialValues`: every field empty except the handle, which is the
      handle passed in the navigation state (`location?.state?.handle || ''`). */
  function InitialValues(stateHandle: Option<string>): (form: RegisterForm)
    ensures form.name == "" && form.email == "" && form.password == "" && form.password_confirmation == ""
    ensures stateHandle.None? ==> form.handle == ""
    ensures stateHandle.Some? ==> form.handle == stateHandle.value
  {
    RegisterForm("", "", OrEmpty(stateHandle), "", "")
  }

  /** `required`, then `minLength: 3`. */
  function NameError(name: string): (message: Option<string>)
    ensures message.None? <==> |name| >= 3
    ensures message == Some(NameRequired) <==> name == ""
    ensures message == Some(NameTooShort) <==> 0 < |name| < 3
  {
    if !Present(name) then Some(NameRequired)
    else if |name| < NameMinLength then Some(NameTooShort)
    else None
  }

  /** `required`, then `minLength: 8`. */
  function PasswordError(password: string): (message: Option<string>)
    ensures message.None? <==> |password| >= 8
    ensures message == Some(PasswordRequired) <==> password == ""
    ensures message == Some(PasswordTooShort) <==> 0 < |password| < 8
  {
    if !Present(password) then Some(PasswordRequired)
    else if |password| < PasswordMinLength then Some(PasswordTooShort)
    else None
  }

  /** `required`, then `validate`: the confirmation must equal the password
      field's current value. */
  function ConfirmationError(confirmation: string, password: string): (message: Option<string>)
    ensures message.None? <==> confirmation != "" && confirmation == password
    ensures message == Some(ConfirmationRequired) <==> confirmation == ""
    ensures message == Some(ConfirmationMismatch) <==> confirmation != "" && confirmation != password
  {
    if !Present(confirmation) then Some(ConfirmationRequired)
    else if confirmation != password then Some(ConfirmationMismatch)
    else None
  }

  /** `handleSubmit` calls `handleRegister` only when no field has an error. */
  function FormValid(form: RegisterForm): (ok: bool)
    ensures ok <==>
      |form.name| >= 3 && MatchesEmail(form.email) && MatchesHandle(form.handle)
      && |form.password| >= 8 && form.password_confirmation == form.password
  {
    NameError(form.name).None? && EmailError(form.email).None?
    && HandleError(form.handle, HandleRequired).None?
    && PasswordError(form.password).None?
    && ConfirmationError(form.password_confirmation, form.password).None?
  }

  class RegisterPage {
    /** The values the fields hold. */
    var form: RegisterForm
    /** The values `reset()` restores. */
    const defaults: RegisterForm
    /** `isLoading`: a request is in flight and the button is disabled. */
    var isLoading: bool

    constructor (stateHandle: Option<string>)
      ensures defaults == InitialValues(stateHandle)
      ensures form == defaults && !isLoading
    {
      defaults := InitialValues(stateHandle);
      form := InitialValues(stateHandle);
      isLoading := false;
    }

    /** The user types into the fields. */
    method Edit(values: RegisterForm)
      modifies this
      ensures form == values && isLoading == old(isLoading)
    {
      form := values;
    }

    /** A submit of the form. Nothing is sent while the button is disabled
        or while a field has an error; otherwise `isLoading` rises and the
        field values are sent. */
    method Submit() returns (request: Option<RegisterForm>)
      modifies this
      ensures form == old(form)
      ensures request.Some? <==> !old(isLoading) && FormValid(form)
      ensures request.Some? ==> request.value == form && isLoading
      ensures request.None? ==> isLoading == old(isLoading)
    {
      if isLoading || !FormValid(form) {
        request := None;
      } else {
        isLoading := true;
        request := Some(form);
      }
    }

    /** The request has settled (`finally`): `isLoading` drops on every
        outcome, the fields are reset only on success, and an HTTP error
        shows the server's `error` text or the fixed fallback. */
    method Settle(outcome: Outcome) returns (errorMessage: Option<string>)
      modifies this
      ensures !isLoading
      ensures outcome.Succeeded? ==> form == defaults
      ensures !outcome.Succeeded? ==> form == old(form)
      ensures errorMessage == FailureMessage(outcome, RegisterFailed)
    {
      isLoading := false;
      errorMessage := FailureMessage(outcome, RegisterFailed);
      if outcome.Succeeded? {
        form := defaults;
      }
    }
  }

  /** A sign-up whose confirmation differs from its password is never sent. */
  lemma MismatchIsNeverSent(form: RegisterForm)
    requires form.password_confirmation != form.password
    ensures !FormValid(form)
    ensures ConfirmationError(form.password_confirmation, form.password).Some?
  {
  }
}
