/** The user editor (features/users/user-form/user-form.component.ts).

    The password control's validators depend on the mode: the builder gives
    it `minLength(6)` only; `ngOnInit` in create mode replaces that with
    `required` and `minLength(6)`; in edit mode, once the user has been
    fetched, all its validators are cleared. `PasswordRule` names these
    three states. Angular's email validator is the parameter `emailOk`.
 */
module UserForm {
  import opened Wrappers
  import opened Models
  import opened Routing
  import opened FormFields
  import opened EntityList
  import Users

  datatype UserFormValue = UserFormValue(name: string, email: string, password: string, role: UserRole, enabled: bool)

  /** The builder's defaults: role `USER`, enabled. */
  const InitialForm: UserFormValue := UserFormValue("", "", "", USER, true)
  const SaveFailed: string := "Failed to save user"
  const UsersPath: string := "/users"
  const MinPasswordLength: nat := 6

  datatype PasswordRule = MinLengthOnly | RequiredMinLength | NoRule

  predicate PasswordOk(p: string, rule: PasswordRule) {
    match rule
    case MinLengthOnly => MinLength(p, MinPasswordLength)
    case RequiredMinLength => Required(p) && MinLength(p, MinPasswordLength)
    case NoRule => true
  }

  /** name: required and minLength(2); email: required and email; password:
      by its current rule; role: required (always set by the selector). */
  function ValidForm(f: UserFormValue, rule: PasswordRule, emailOk: string -> bool): (ok: bool)
    ensures ok <==> |f.name| >= 2 && f.email != "" && emailOk(f.email) && PasswordOk(f.password, rule)
  {
    Required(f.name) && MinLength(f.name, 2) &&
    Required(f.email) && EmailValid(f.email, emailOk) &&
    PasswordOk(f.password, rule)
  }

  /** The three rules are nested: create mode is the strictest, a cleared
      rule accepts every password, and only `required` rejects an empty one. */
  lemma RulesNested(f: UserFormValue, emailOk: string -> bool)
    ensures ValidForm(f, RequiredMinLength, emailOk) ==> ValidForm(f, MinLengthOnly, emailOk)
    ensures ValidForm(f, MinLengthOnly, emailOk) ==> ValidForm(f, NoRule, emailOk)
    ensures ValidForm(f, RequiredMinLength, emailOk) <==> ValidForm(f, NoRule, emailOk) && |f.password| >= MinPasswordLength
    ensures ValidForm(f, MinLengthOnly, emailOk) <==>
      ValidForm(f, NoRule, emailOk) && (f.password == "" || |f.password| >= MinPasswordLength)
    ensures ValidForm(f, NoRule, emailOk) <==> |f.name| >= 2 && f.email != "" && emailOk(f.email)
  {
    RequiredAndMinLength(f.name, 2);
    RequiredAndMinLength(f.password, MinPasswordLength);
  }

  /** The request: name, email, role and enabled copied; the password only
      when it is non-empty. */
  function BuildRequest(f: UserFormValue): (r: UserRequest)
    ensures r.name == f.name && r.email == f.email && r.role == f.role && r.enabled == f.enabled
    ensures r.password.Some? <==> f.password != ""
    ensures r.password.Some? ==> r.password.value == f.password
  {
    UserRequest(f.name, f.email, OrAbsent(f.password), f.role, f.enabled)
  }

  /** The edit-mode patch: name, email, role and enabled from the fetched
      user; the password control keeps what it holds. */
  function PatchFromUser(f: UserFormValue, u: User): (r: UserFormValue)
    ensures r.name == u.name && r.email == u.email && r.role == u.role && r.enabled == u.enabled
    ensures r.password == f.password
  {
    f.(name := u.name, email := u.email, role := u.role, enabled := u.enabled)
  }

  /** Once a user is loaded for editing (password rule cleared), a short
      non-empty password is accepted and sent, where create mode and the
      builder's own rule would both refuse it; an empty password is left
      out of the request. */
  lemma EditModePassword(f: UserFormValue, u: User, emailOk: string -> bool)
    requires |u.name| >= 2 && u.email != "" && emailOk(u.email)
    ensures ValidForm(PatchFromUser(f, u), NoRule, emailOk)
    ensures BuildRequest(PatchFromUser(f, u)) == UserRequest(u.name, u.email, OrAbsent(f.password), u.role, u.enabled)
    ensures 0 < |f.password| < MinPasswordLength ==>
      !ValidForm(PatchFromUser(f, u), RequiredMinLength, emailOk) &&
      !ValidForm(PatchFromUser(f, u), MinLengthOnly, emailOk) &&
      BuildRequest(PatchFromUser(f, u)).password == Some(f.password)
  {
    RulesNested(PatchFromUser(f, u), emailOk);
  }

  class UserFormComponent {
    var form: UserFormValue
    var passwordRule: PasswordRule
    var isEditMode: bool
    var userId: Option<int>
    var errorMessage: Option<string>
    var isSubmitting: bool
    ghost var navigations: seq<Navigation>
    const emailOk: string -> bool

    /** Edit mode and the user id are set together, and a create-mode form
        never has the cleared password rule. */
    ghost predicate Valid()
      reads this
    {
      (isEditMode <==> userId.Some?) && (passwordRule == NoRule ==> isEditMode)
    }

    constructor (emailOk: string -> bool)
      ensures Valid()
      ensures form == InitialForm && passwordRule == MinLengthOnly && !isEditMode && userId == None
      ensures errorMessage == None && !isSubmitting && navigations == [] && this.emailOk == emailOk
    {
      this.emailOk := emailOk;
      form := InitialForm;
      passwordRule := MinLengthOnly;
      isEditMode := false;
      userId := None;
      errorMessage := None;
      isSubmitting := false;
      navigations := [];
    }

    /** `ngOnInit`: with an `id` route parameter (`routeId`, None when it is
        missing or empty) the form enters edit mode and fetches the user; a
        fetched user is patched in and the password validators cleared, a
        failed fetch goes back to the user list (the password keeps its
        builder rule). Without one the password becomes required with at
        least six characters. */
    method NgOnInit(routeId: Option<int>, users: Users.UsersService, fetched: Outcome<User>)
      requires Valid()
      modifies this, users
      ensures Valid()
      ensures routeId.None? ==>
        passwordRule == RequiredMinLength &&
        isEditMode == old(isEditMode) && userId == old(userId) && form == old(form) &&
        navigations == old(navigations) && users.State() == old(users.State())
      ensures routeId.Some? ==>
        isEditMode && userId == routeId &&
        users.State() == AfterGetById(old(users.State()), fetched) &&
        (fetched.Success? ==>
          form == PatchFromUser(old(form), fetched.value) && passwordRule == NoRule &&
          navigations == old(navigations)) &&
        (fetched.Failure? ==>
          form == old(form) && passwordRule == old(passwordRule) &&
          navigations == old(navigations) + [Navigate(UsersPath, None)])
      ensures errorMessage == old(errorMessage) && isSubmitting == old(isSubmitting)
    {
      if routeId.Some? {
        isEditMode := true;
        userId := routeId;
        var r := Users.GetById(users, fetched);
        match r {
          case Success(u) =>
            form := PatchFromUser(form, u);
            passwordRule := NoRule;
          case Failure(_) =>
            navigations := navigations + [Navigate(UsersPath, None)];
        }
      } else {
        passwordRule := RequiredMinLength;
      }
    }

    /** `onSubmit`: nothing happens on an invalid form; otherwise the request
        goes to `update(userId, ...)` in edit mode and to `create`
        otherwise (the issued call is `op`). Success goes back to the user
        list; a failure is reported with the server message or the default
        text. */
    method OnSubmit(users: Users.UsersService, outcome: Outcome<User>) returns (op: Option<SaveOp<UserRequest>>)
      requires Valid() && users.idOf == UserId
      modifies this, users
      ensures Valid()
      ensures form == old(form) && passwordRule == old(passwordRule)
      ensures isEditMode == old(isEditMode) && userId == old(userId)
      ensures !ValidForm(form, passwordRule, emailOk) ==>
        op.None? && errorMessage == old(errorMessage) && isSubmitting == old(isSubmitting) &&
        navigations == old(navigations) && users.State() == old(users.State())
      ensures ValidForm(form, passwordRule, emailOk) ==>
        op == Some(SaveOpFor(userId, BuildRequest(form))) && !isSubmitting &&
        users.State() == (if isEditMode then AfterUpdate(old(users.State()), UserId, userId.value, outcome)
                          else AfterCreate(old(users.State()), outcome)) &&
        (outcome.Success? ==>
          errorMessage == None && navigations == old(navigations) + [Navigate(UsersPath, None)]) &&
        (outcome.Failure? ==>
          errorMessage == Some(MessageOr(outcome.message, SaveFailed)) && navigations == old(navigations))
    {
      op := None;
      if ValidForm(form, passwordRule, emailOk) {
        isSubmitting := true;
        errorMessage := None;
        var request := BuildRequest(form);
        op := Some(SaveOpFor(userId, request));
        var r;
        if isEditMode {
          r := Users.Update(users, userId.value, outcome);
        } else {
          r := Users.Create(users, outcome);
        }
        match r {
          case Success(_) =>
            isSubmitting := false;
            navigations := navigations + [Navigate(UsersPath, None)];
          case Failure(m) =>
            isSubmitting := false;
            errorMessage := Some(MessageOr(m, SaveFailed));
        }
      }
    }
  }

  /** In create mode (after `ngOnInit` without a route id) a submit issues a
      request only when the password has at least six characters. */
  lemma CreateModeNeedsPassword(f: UserFormValue, emailOk: string -> bool)
    ensures ValidForm(f, RequiredMinLength, emailOk) ==>
      BuildRequest(f).password.Some? && |BuildRequest(f).password.value| >= MinPasswordLength
  {
    RulesNested(f, emailOk);
  }
}
