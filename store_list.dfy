/** The store list page (features/stores/store-list/store-list.component.ts).
    Unlike the book and author pages it is not paginated: it calls the
    stores service directly, and after a delete it relies on the service's
    local filtering instead of fetching again. The search box is bound to
    `searchQuery` by the template. */
module StoreList {
  import opened Wrappers
  import opened Models
  import opened Text
  import opened EntityList
  import Stores

  /** The fetch `onSearch` issues. */
  datatype StoreFetch = LoadAll | SearchByName(name: string)

  /** `query.trim() ? searchByName(query) : loadStores()`. */
  function FetchFor(query: string): (r: StoreFetch)
    ensures r.SearchByName? <==> !AllWhitespace(query)
    ensures r.SearchByName? ==> r.name == query
  {
    BlankIffAllWhitespace(query);
    if Trim(query) != "" then SearchByName(query) else LoadAll
  }

  /** The default error text of each fetch. */
  function FallbackFor(f: StoreFetch): string {
    if f.LoadAll? then Stores.LoadFailed else Stores.SearchFailed
  }

  class StoreListComponent {
    var searchQuery: string
    var deleteDialogOpen: bool
    var storeToDelete: Option<Store>

    /** An open dialog always has a store to delete. */
    ghost predicate Valid()
      reads this
    {
      deleteDialogOpen ==> storeToDelete.Some?
    }

    constructor ()
      ensures Valid()
      ensures searchQuery == "" && !deleteDialogOpen && storeToDelete == None
    {
      searchQuery := "";
      deleteDialogOpen := false;
      storeToDelete := None;
    }

    /** `ngOnInit`. */
    method NgOnInit(stores: Stores.StoresService, outcome: Outcome<seq<Store>>)
      modifies stores
      ensures stores.State() == AfterFetchList(old(stores.State()), outcome, Stores.LoadFailed, true)
    {
      Stores.LoadStores(stores, outcome);
    }

    /** `onSearch`: searches by the stored query, or reloads every store when
        it is blank. */
    method OnSearch(stores: Stores.StoresService, outcome: Outcome<seq<Store>>) returns (issued: StoreFetch)
      modifies stores
      ensures issued == FetchFor(searchQuery)
      ensures stores.State() == AfterFetchList(old(stores.State()), outcome, FallbackFor(issued), true)
    {
      issued := FetchFor(searchQuery);
      match issued {
        case SearchByName(_) => Stores.SearchByName(stores, outcome);
        case LoadAll => Stores.LoadStores(stores, outcome);
      }
    }

    /** `clearSearch`: the query is emptied and every store reloaded. */
    method ClearSearch(stores: Stores.StoresService, outcome: Outcome<seq<Store>>)
      modifies this, stores
      ensures searchQuery == "" && deleteDialogOpen == old(deleteDialogOpen) && storeToDelete == old(storeToDelete)
      ensures stores.State() == AfterFetchList(old(stores.State()), outcome, Stores.LoadFailed, true)
    {
      searchQuery := "";
      Stores.LoadStores(stores, outcome);
    }

    /** `openDeleteDialog(store)`. */
    method OpenDeleteDialog(store: Store)
      modifies this
      ensures Valid()
      ensures storeToDelete == Some(store) && deleteDialogOpen && searchQuery == old(searchQuery)
    {
      storeToDelete := Some(store);
      deleteDialogOpen := true;
    }

    /** `cancelDelete`. */
    method CancelDelete()
      modifies this
      ensures Valid()
      ensures storeToDelete == None && !deleteDialogOpen && searchQuery == old(searchQuery)
    {
      deleteDialogOpen := false;
      storeToDelete := None;
    }

    /** `confirmDelete`: without a pending store nothing happens. Otherwise
        its id is deleted (`deleted`); success closes the dialog and forgets
        the store, and the list shown no longer holds that id without a
        reload; a failure has no handler and changes nothing here. */
    method ConfirmDelete(stores: Stores.StoresService, outcome: Outcome<()>) returns (deleted: Option<int>)
      requires Valid() && stores.idOf == StoreId
      modifies this, stores
      ensures Valid() && searchQuery == old(searchQuery)
      ensures deleted.Some? <==> old(storeToDelete).Some?
      ensures deleted.Some? ==> deleted.value == old(storeToDelete).value.id
      ensures deleted.None? ==>
        deleteDialogOpen == old(deleteDialogOpen) && storeToDelete == old(storeToDelete) &&
        stores.State() == old(stores.State())
      ensures deleted.Some? ==>
        stores.State() == AfterDelete(old(stores.State()), StoreId, deleted.value, outcome) &&
        (outcome.Success? ==>
          !deleteDialogOpen && storeToDelete == None &&
          forall i :: 0 <= i < |stores.items| ==> stores.items[i].id != deleted.value) &&
        (outcome.Failure? ==>
          deleteDialogOpen == old(deleteDialogOpen) && storeToDelete == old(storeToDelete) &&
          stores.items == old(stores.items))
    {
      deleted := None;
      if storeToDelete.Some? {
        var id := storeToDelete.value.id;
        deleted := Some(id);
        ghost var before := stores.State();
        var r := Stores.Delete(stores, id, outcome);
        match r {
          case Success(_) =>
            DeleteFilters(before, StoreId, id, 0);
            deleteDialogOpen := false;
            storeToDelete := None;
          case Failure(_) =>
        }
      }
    }
  }
}
