/** The store editor (features/stores/store-form/store-form.component.ts):
    a name with optional address, city and country, created or updated
    through the stores service. */
module StoreForm {
  import opened Wrappers
  import opened Models
  import opened Routing
  import opened FormFields
  import opened EntityList
  import Stores

  datatype StoreFormValue = StoreFormValue(name: string, address: string, city: string, country: string)

  const InitialForm: StoreFormValue := StoreFormValue("", "", "", "")
  const SaveFailed: string := "Failed to save store"
  const StoresPath: string := "/stores"

  /** name: required and minLength(2); the other controls are free. The
      store form declares the same name validators as the author form, so
      the two predicates agree. */
  function ValidForm(f: StoreFormValue): (ok: bool)
    ensures ok <==> |f.name| >= 2
  {
    Required(f.name) && MinLength(f.name, 2)
  }

  /** The request: the name as typed, each empty address part sent as absent. */
  function BuildRequest(f: StoreFormValue): (r: StoreRequest)
    ensures r.name == f.name
    ensures r.address.None? <==> f.address == ""
    ensures r.address.Some? ==> r.address.value == f.address
    ensures r.city.None? <==> f.city == ""
    ensures r.city.Some? ==> r.city.value == f.city
    ensures r.country.None? <==> f.country == ""
    ensures r.country.Some? ==> r.country.value == f.country
  {
    StoreRequest(f.name, OrAbsent(f.address), OrAbsent(f.city), OrAbsent(f.country))
  }

  /** The edit-mode patch of a fetched store: missing texts become empty. */
  function PatchFromStore(s: Store): (r: StoreFormValue)
    ensures r.name == s.name
    ensures r.address == "" <==> s.address.None? || s.address == Some("")
    ensures r.address != "" ==> s.address == Some(r.address)
    ensures r.city == "" <==> s.city.None? || s.city == Some("")
    ensures r.city != "" ==> s.city == Some(r.city)
    ensures r.country == "" <==> s.country.None? || s.country == Some("")
    ensures r.country != "" ==> s.country == Some(r.country)
  {
    StoreFormValue(s.name, OrEmpty(s.address), OrEmpty(s.city), OrEmpty(s.country))
  }

  /** A loaded store can be saved unchanged exactly when its name has two
      characters, and saving sends its own fields back, with each empty
      address part sent as absent. */
  lemma PatchThenBuild(s: Store)
    ensures ValidForm(PatchFromStore(s)) <==> |s.name| >= 2
    ensures BuildRequest(PatchFromStore(s)) == StoreRequest(
      s.name,
      if s.address == Some("") then None else s.address,
      if s.city == Some("") then None else s.city,
      if s.country == Some("") then None else s.country)
  {
    ShowThenSend(s.address);
    ShowThenSend(s.city);
    ShowThenSend(s.country);
  }

  /** The form shows back exactly the request it builds. */
  lemma BuildThenPatch(f: StoreFormValue, id: int, createdAt: Option<string>, updatedAt: Option<string>)
    ensures var r := BuildRequest(f);
      PatchFromStore(Store(id, r.name, r.address, r.city, r.country, createdAt, updatedAt)) == f
  {
    SendThenShow(f.address);
    SendThenShow(f.city);
    SendThenShow(f.country);
  }

  class StoreFormComponent {
    var form: StoreFormValue
    var isEditMode: bool
    var storeId: Option<int>
    var errorMessage: Option<string>
    var isSubmitting: bool
    ghost var navigations: seq<Navigation>

    /** Edit mode and the store id are set together. */
    ghost predicate Valid()
      reads this
    {
      isEditMode <==> storeId.Some?
    }

    constructor ()
      ensures Valid()
      ensures form == InitialForm && !isEditMode && storeId == None
      ensures errorMessage == None && !isSubmitting && navigations == []
    {
      form := InitialForm;
      isEditMode := false;
      storeId := None;
      errorMessage := None;
      isSubmitting := false;
      navigations := [];
    }

    /** `ngOnInit`: with an `id` route parameter (`routeId`, None when it is
        missing or empty) the form enters edit mode and is patched with the
        fetched store; a failed fetch goes back to the store list. */
    method NgOnInit(routeId: Option<int>, stores: Stores.StoresService, fetched: Outcome<Store>)
      requires Valid()
      modifies this, stores
      ensures Valid()
      ensures routeId.None? ==>
        isEditMode == old(isEditMode) && storeId == old(storeId) && form == old(form) &&
        navigations == old(navigations) && stores.State() == old(stores.State())
      ensures routeId.Some? ==>
        isEditMode && storeId == routeId &&
        stores.State() == AfterGetById(old(stores.State()), fetched) &&
        (fetched.Success? ==> form == PatchFromStore(fetched.value) && navigations == old(navigations)) &&
        (fetched.Failure? ==> form == old(form) && navigations == old(navigations) + [Navigate(StoresPath, None)])
      ensures errorMessage == old(errorMessage) && isSubmitting == old(isSubmitting)
    {
      if routeId.Some? {
        isEditMode := true;
        storeId := routeId;
        var r := Stores.GetById(stores, fetched);
        match r {
          case Success(s) => form := PatchFromStore(s);
          case Failure(_) => navigations := navigations + [Navigate(StoresPath, None)];
        }
      }
    }

    /** `onSubmit`: nothing happens on an invalid form; otherwise the request
        goes to `update(storeId, ...)` in edit mode and to `create`
        otherwise (the issued call is `op`). A saved store is shown; a
        failure is reported with the server message or the default text. */
    method OnSubmit(stores: Stores.StoresService, outcome: Outcome<Store>) returns (op: Option<SaveOp<StoreRequest>>)
      requires Valid() && stores.idOf == StoreId
      modifies this, stores
      ensures Valid()
      ensures form == old(form) && isEditMode == old(isEditMode) && storeId == old(storeId)
      ensures !ValidForm(form) ==>
        op.None? && errorMessage == old(errorMessage) && isSubmitting == old(isSubmitting) &&
        navigations == old(navigations) && stores.State() == old(stores.State())
      ensures ValidForm(form) ==>
        op == Some(SaveOpFor(storeId, BuildRequest(form))) && !isSubmitting &&
        stores.State() == (if isEditMode then AfterUpdate(old(stores.State()), StoreId, storeId.value, outcome)
                           else AfterCreate(old(stores.State()), outcome)) &&
        (outcome.Success? ==>
          errorMessage == None && navigations == old(navigations) + [Navigate(StoresPath, Some(outcome.value.id))]) &&
        (outcome.Failure? ==>
          errorMessage == Some(MessageOr(outcome.message, SaveFailed)) && navigations == old(navigations))
    {
      op := None;
      if ValidForm(form) {
        isSubmitting := true;
        errorMessage := None;
        var request := BuildRequest(form);
        op := Some(SaveOpFor(storeId, request));
        var r;
        if isEditMode {
          r := Stores.Update(stores, storeId.value, outcome);
        } else {
          r := Stores.Create(stores, outcome);
        }
        match r {
          case Success(s) =>
            isSubmitting := false;
            navigations := navigations + [Navigate(StoresPath, Some(s.id))];
          case Failure(m) =>
            isSubmitting := false;
            errorMessage := Some(MessageOr(m, SaveFailed));
        }
      }
    }
  }
}
