/** The author editor (features/authors/author-form/author-form.component.ts):
    a name with optional biography and birth date, created or updated
    through the authors service. */
module AuthorForm {
  import opened Wrappers
  import opened Models
  import opened Routing
  import opened FormFields
  import opened EntityList
  import Authors

  datatype AuthorFormValue = AuthorFormValue(name: string, biography: string, birthDate: string)

  const InitialForm: AuthorFormValue := AuthorFormValue("", "", "")
  const SaveFailed: string := "Failed to save author"
  const AuthorsPath: string := "/authors"

  /** name: required and minLength(2); the other controls are free. */
  function ValidForm(f: AuthorFormValue): (ok: bool)
    ensures ok <==> |f.name| >= 2
  {
    Required(f.name) && MinLength(f.name, 2)
  }

  /** The request: the name as typed, an empty biography or birth date sent
      as absent. */
  function BuildRequest(f: AuthorFormValue): (r: AuthorRequest)
    ensures r.name == f.name
    ensures r.biography.None? <==> f.biography == ""
    ensures r.biography.Some? ==> r.biography.value == f.biography
    ensures r.birthDate.None? <==> f.birthDate == ""
    ensures r.birthDate.Some? ==> r.birthDate.value == f.birthDate
  {
    AuthorRequest(f.name, OrAbsent(f.biography), OrAbsent(f.birthDate))
  }

  /** The edit-mode patch of a fetched author: missing texts become empty. */
  function PatchFromAuthor(a: Author): (r: AuthorFormValue)
    ensures r.name == a.name
    ensures r.biography == "" <==> a.biography.None? || a.biography == Some("")
    ensures r.biography != "" ==> a.biography == Some(r.biography)
    ensures r.birthDate == "" <==> a.birthDate.None? || a.birthDate == Some("")
    ensures r.birthDate != "" ==> a.birthDate == Some(r.birthDate)
  {
    AuthorFormValue(a.name, OrEmpty(a.biography), OrEmpty(a.birthDate))
  }

  /** A loaded author can be saved unchanged exactly when its name has two
      characters, and saving sends its own fields back, with an empty
      biography or birth date sent as absent. */
  lemma PatchThenBuild(a: Author)
    ensures ValidForm(PatchFromAuthor(a)) <==> |a.name| >= 2
    ensures BuildRequest(PatchFromAuthor(a)) == AuthorRequest(
      a.name,
      if a.biography == Some("") then None else a.biography,
      if a.birthDate == Some("") then None else a.birthDate)
  {
    ShowThenSend(a.biography);
    ShowThenSend(a.birthDate);
  }

  /** The form shows back exactly the request it builds. */
  lemma BuildThenPatch(f: AuthorFormValue, id: int, createdAt: Option<string>, updatedAt: Option<string>)
    ensures var r := BuildRequest(f);
      PatchFromAuthor(Author(id, r.name, r.biography, r.birthDate, createdAt, updatedAt)) == f
  {
    SendThenShow(f.biography);
    SendThenShow(f.birthDate);
  }

  class AuthorFormComponent {
    var form: AuthorFormValue
    var isEditMode: bool
    var authorId: Option<int>
    var errorMessage: Option<string>
    var isSubmitting: bool
    ghost var navigations: seq<Navigation>

    /** Edit mode and the author id are set together. */
    ghost predicate Valid()
      reads this
    {
      isEditMode <==> authorId.Some?
    }

    constructor ()
      ensures Valid()
      ensures form == InitialForm && !isEditMode && authorId == None
      ensures errorMessage == None && !isSubmitting && navigations == []
    {
      form := InitialForm;
      isEditMode := false;
      authorId := None;
      errorMessage := None;
      isSubmitting := false;
      navigations := [];
    }

    /** `ngOnInit`: with an `id` route parameter (`routeId`, None when it is
        missing or empty) the form enters edit mode and is patched with the
        fetched author; a failed fetch goes back to the author list. */
    method NgOnInit(routeId: Option<int>, authors: Authors.AuthorsService, fetched: Outcome<Author>)
      requires Valid()
      modifies this, authors
      ensures Valid()
      ensures routeId.None? ==>
        isEditMode == old(isEditMode) && authorId == old(authorId) && form == old(form) &&
        navigations == old(navigations) && authors.State() == old(authors.State())
      ensures routeId.Some? ==>
        isEditMode && authorId == routeId &&
        authors.State() == AfterGetById(old(authors.State()), fetched) &&
        (fetched.Success? ==> form == PatchFromAuthor(fetched.value) && navigations == old(navigations)) &&
        (fetched.Failure? ==> form == old(form) && navigations == old(navigations) + [Navigate(AuthorsPath, None)])
      ensures errorMessage == old(errorMessage) && isSubmitting == old(isSubmitting)
    {
      if routeId.Some? {
        isEditMode := true;
        authorId := routeId;
        var r := Authors.GetById(authors, fetched);
        match r {
          case Success(a) => form := PatchFromAuthor(a);
          case Failure(_) => navigations := navigations + [Navigate(AuthorsPath, None)];
        }
      }
    }

    /** `onSubmit`: nothing happens on an invalid form; otherwise the request
        goes to `update(authorId, ...)` in edit mode and to `create`
        otherwise (the issued call is `op`). A saved author is shown; a
        failure is reported with the server message or the default text. */
    method OnSubmit(authors: Authors.AuthorsService, outcome: Outcome<Author>) returns (op: Option<SaveOp<AuthorRequest>>)
      requires Valid() && authors.idOf == AuthorId
      modifies this, authors
      ensures Valid()
      ensures form == old(form) && isEditMode == old(isEditMode) && authorId == old(authorId)
      ensures !ValidForm(form) ==>
        op.None? && errorMessage == old(errorMessage) && isSubmitting == old(isSubmitting) &&
        navigations == old(navigations) && authors.State() == old(authors.State())
      ensures ValidForm(form) ==>
        op == Some(SaveOpFor(authorId, BuildRequest(form))) && !isSubmitting &&
        authors.State() == (if isEditMode then AfterUpdate(old(authors.State()), AuthorId, authorId.value, outcome)
                            else AfterCreate(old(authors.State()), outcome)) &&
        (outcome.Success? ==>
          errorMessage == None && navigations == old(navigations) + [Navigate(AuthorsPath, Some(outcome.value.id))]) &&
        (outcome.Failure? ==>
          errorMessage == Some(MessageOr(outcome.message, SaveFailed)) && navigations == old(navigations))
    {
      op := None;
      if ValidForm(form) {
        isSubmitting := true;
        errorMessage := None;
        var request := BuildRequest(form);
        op := Some(SaveOpFor(authorId, request));
        var r;
        if isEditMode {
          r := Authors.Update(authors, authorId.value, outcome);
        } else {
          r := Authors.Create(authors, outcome);
        }
        match r {
          case Success(a) =>
            isSubmitting := false;
            navigations := navigations + [Navigate(AuthorsPath, Some(a.id))];
          case Failure(m) =>
            isSubmitting := false;
            errorMessage := Some(MessageOr(m, SaveFailed));
        }
      }
    }
  }
}
