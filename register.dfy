/** The sign-up page (features/auth/register/register.component.ts): a form
    whose two password entries must agree before the registration request,
    which carries neither the confirmation nor anything else, is sent. */
module Register {
  import opened Wrappers
  import opened Models
  import opened Routing
  import opened FormFields
  import Auth

  datatype RegisterFormValue = RegisterFormValue(name: string, email: string, password: string, confirmPassword: string)

  const Mismatch: string := "Passwords do not match."
  const RegistrationFailed: string := "Registration failed. Please try again."
  const ToBooks: Navigation := Navigate("/books", None)
  const MinPasswordLength: nat := 6

  /** name: required, minLength(2); email: required, email; password:
      required, minLength(6); confirmPassword: required. Agreement of the
      two passwords is not a validator. In plain terms: a name of two
      characters, a non-empty email that matches, a password of six and
      any confirmation. */
  function ValidForm(f: RegisterFormValue, emailOk: string -> bool): (ok: bool)
    ensures ok <==>
      |f.name| >= 2 && f.email != "" && emailOk(f.email) &&
      |f.password| >= MinPasswordLength && f.confirmPassword != ""
  {
    Required(f.name) && MinLength(f.name, 2) &&
    Required(f.email) && EmailValid(f.email, emailOk) &&
    Required(f.password) && MinLength(f.password, MinPasswordLength) &&
    Required(f.confirmPassword)
  }

  /** `{ name, email, password }`: the confirmation is dropped. */
  function RequestOf(f: RegisterFormValue): (r: RegisterRequest)
    ensures r.name == f.name && r.email == f.email && r.password == f.password
  {
    RegisterRequest(f.name, f.email, f.password)
  }

  /** Two forms that differ only in the confirmation send the same request. */
  lemma RequestIgnoresConfirmation(f: RegisterFormValue, confirm: string)
    ensures RequestOf(f.(confirmPassword := confirm)) == RequestOf(f)
  {
  }

  /** The request sent by a submit: one exactly for a valid form with
      matching passwords, and then its password has at least six characters
      and equals the confirmation. */
  function Sent(f: RegisterFormValue, emailOk: string -> bool): (r: Option<RegisterRequest>)
    ensures r.Some? <==> ValidForm(f, emailOk) && f.password == f.confirmPassword
    ensures r.Some? ==>
      r.value == RequestOf(f) && |r.value.password| >= MinPasswordLength && r.value.password == f.confirmPassword
  {
    if ValidForm(f, emailOk) && f.password == f.confirmPassword then Some(RequestOf(f)) else None
  }

  class RegisterComponent {
    var form: RegisterFormValue
    var isLoading: bool
    var errorMessage: Option<string>
    ghost var navigations: seq<Navigation>
    const emailOk: string -> bool

    constructor (emailOk: string -> bool)
      ensures form == RegisterFormValue("", "", "", "") && !isLoading && errorMessage == None
      ensures navigations == [] && this.emailOk == emailOk
    {
      this.emailOk := emailOk;
      form := RegisterFormValue("", "", "", "");
      isLoading := false;
      errorMessage := None;
      navigations := [];
    }

    /** `onSubmit`: an invalid form does nothing; mismatched passwords only
        set the error (loading is left as it was, no request); otherwise the
        request goes to the session's `register`, success leads to the book
        list and failure is reported with the server message or the default
        text. `sent` is the request issued, if any. */
    method OnSubmit(auth: Auth.AuthService, outcome: Outcome<AuthResponse>) returns (sent: Option<RegisterRequest>)
      requires auth.Valid()
      modifies this, auth
      ensures auth.Valid() && form == old(form)
      ensures sent == Sent(form, emailOk)
      ensures sent.None? ==>
        isLoading == old(isLoading) && navigations == old(navigations) &&
        auth.storage == old(auth.storage) && auth.token == old(auth.token) &&
        auth.currentUser == old(auth.currentUser) && auth.navigations == old(auth.navigations) &&
        errorMessage == (if ValidForm(form, emailOk) then Some(Mismatch) else old(errorMessage))
      ensures sent.Some? ==>
        !isLoading && auth.navigations == old(auth.navigations) &&
        (outcome.Success? ==>
          errorMessage == None && navigations == old(navigations) + [ToBooks] &&
          auth.storage == Auth.Saved(old(auth.storage), outcome.value.accessToken, outcome.value.user, auth.encode) &&
          auth.token == Some(outcome.value.accessToken) && auth.currentUser == Some(outcome.value.user)) &&
        (outcome.Failure? ==>
          errorMessage == Some(MessageOr(outcome.message, RegistrationFailed)) && navigations == old(navigations) &&
          auth.storage == old(auth.storage) && auth.token == old(auth.token) &&
          auth.currentUser == old(auth.currentUser))
    {
      sent := None;
      if ValidForm(form, emailOk) {
        if form.password != form.confirmPassword {
          errorMessage := Some(Mismatch);
          return;
        }
        isLoading := true;
        errorMessage := None;
        var request := RequestOf(form);
        sent := Some(request);
        var r := auth.Register(outcome);
        match r {
          case Success(_) =>
            isLoading := false;
            navigations := navigations + [ToBooks];
          case Failure(m) =>
            isLoading := false;
            errorMessage := Some(MessageOr(m, RegistrationFailed));
        }
      }
    }
  }
}
