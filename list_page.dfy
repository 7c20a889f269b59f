/** The paginated list pages of books and authors
    (features/books/book-list/book-list.component.ts and
    features/authors/author-list/author-list.component.ts).

    Both pages decide from the search box whether to ask for a search or a
    plain listing, at which page and size, and keep a small state machine
    for the delete confirmation. The paged requests they ask for are
    `PageQuery` values: the pages call a paginated service interface
    (`pageSize()`, `loadX(page, size)`, `refreshCurrentPage()`) which the
    services of this model do not have, so the request is recorded, not
    performed. `currentSize` stands for the service's `pageSize()`.
 */
module ListPage {
  import opened Wrappers
  import opened Text
  import opened EntityList

  datatype PageQuery =
    | List(page: int, size: int)
    | Search(query: string, page: int, size: int)
    | RefreshCurrent

  /** `query.trim() ? search(query, page, size) : load(page, size)`: the
      query is sent untrimmed, and a blank one lists. */
  function Dispatch(query: string, page: int, size: int): (r: PageQuery)
    ensures r.Search? <==> !AllWhitespace(query)
    ensures r.Search? ==> r == Search(query, page, size)
    ensures r.List? ==> r == List(page, size)
    ensures !r.RefreshCurrent?
  {
    BlankIffAllWhitespace(query);
    if Trim(query) != "" then Search(query, page, size) else List(page, size)
  }

  /** Moving to another page or changing the size keeps the search-or-list
      mode the stored query gives. */
  lemma DispatchKeepsMode(query: string, page1: int, size1: int, page2: int, size2: int)
    ensures Dispatch(query, page1, size1).Search? == Dispatch(query, page2, size2).Search?
  {
  }

  class PagedList<T> {
    var searchQuery: string
    var deleteDialogOpen: bool
    var pendingDelete: Option<T>
    const idOf: T -> int
    const loadFailed: string
    /** The book page closes the dialog when a delete fails; the author
        page has no error handler, so the dialog stays open. */
    const closesOnDeleteError: bool

    /** An open dialog always has an entity to delete. */
    ghost predicate Valid()
      reads this
    {
      deleteDialogOpen ==> pendingDelete.Some?
    }

    constructor (idOf: T -> int, loadFailed: string, closesOnDeleteError: bool)
      ensures Valid()
      ensures searchQuery == "" && !deleteDialogOpen && pendingDelete == None
      ensures this.idOf == idOf && this.loadFailed == loadFailed && this.closesOnDeleteError == closesOnDeleteError
    {
      this.idOf := idOf;
      this.loadFailed := loadFailed;
      this.closesOnDeleteError := closesOnDeleteError;
      searchQuery := "";
      deleteDialogOpen := false;
      pendingDelete := None;
    }

    /** `ngOnInit`: the service's own unpaged load. */
    method NgOnInit(svc: ListService<T>, outcome: Outcome<seq<T>>)
      modifies svc
      ensures svc.State() == AfterFetchList(old(svc.State()), outcome, loadFailed, true)
    {
      svc.FetchList(outcome, loadFailed, true);
    }

    /** `onSearchChange(query)`: the query is stored and the first page of
        its results (or of the listing, for a blank query) asked for. */
    method OnSearchChange(query: string, currentSize: int) returns (req: PageQuery)
      modifies this
      ensures searchQuery == query && req == Dispatch(query, 0, currentSize)
      ensures deleteDialogOpen == old(deleteDialogOpen) && pendingDelete == old(pendingDelete)
    {
      searchQuery := query;
      req := Dispatch(query, 0, currentSize);
    }

    /** `onSearchClear`: the query is emptied and the first page listed. */
    method OnSearchClear(currentSize: int) returns (req: PageQuery)
      modifies this
      ensures searchQuery == "" && req == List(0, currentSize)
      ensures deleteDialogOpen == old(deleteDialogOpen) && pendingDelete == old(pendingDelete)
    {
      searchQuery := "";
      req := List(0, currentSize);
    }

    /** `onPageChange(page)`: the requested page in the current mode. */
    method OnPageChange(page: int, currentSize: int) returns (req: PageQuery)
      ensures req == Dispatch(searchQuery, page, currentSize)
    {
      req := Dispatch(searchQuery, page, currentSize);
    }

    /** `onPageSizeChange(size)`: back to the first page, in the current mode. */
    method OnPageSizeChange(size: int) returns (req: PageQuery)
      ensures req == Dispatch(searchQuery, 0, size)
    {
      req := Dispatch(searchQuery, 0, size);
    }

    /** `openDeleteDialog(x)`. */
    method OpenDeleteDialog(x: T)
      modifies this
      ensures Valid()
      ensures pendingDelete == Some(x) && deleteDialogOpen && searchQuery == old(searchQuery)
    {
      pendingDelete := Some(x);
      deleteDialogOpen := true;
    }

    /** `cancelDelete`. */
    method CancelDelete()
      modifies this
      ensures Valid()
      ensures pendingDelete == None && !deleteDialogOpen && searchQuery == old(searchQuery)
    {
      deleteDialogOpen := false;
      pendingDelete := None;
    }

    /** `confirmDelete`: without a pending entity nothing happens. Otherwise
        its id is deleted through the service (`deleted`); success closes
        the dialog, forgets the entity and asks for the current page again
        (`followUp`); failure keeps the entity and closes the dialog only
        where the page handles the error. */
    method ConfirmDelete(svc: ListService<T>, outcome: Outcome<()>) returns (deleted: Option<int>, followUp: Option<PageQuery>)
      requires Valid() && svc.idOf == idOf
      modifies this, svc
      ensures Valid() && searchQuery == old(searchQuery)
      ensures deleted.Some? <==> old(pendingDelete).Some?
      ensures deleted.Some? ==> deleted.value == idOf(old(pendingDelete).value)
      ensures deleted.None? ==>
        followUp.None? && deleteDialogOpen == old(deleteDialogOpen) && pendingDelete == old(pendingDelete) &&
        svc.State() == old(svc.State())
      ensures deleted.Some? ==>
        svc.State() == AfterDelete(old(svc.State()), idOf, deleted.value, outcome) &&
        (outcome.Success? ==> followUp == Some(RefreshCurrent) && !deleteDialogOpen && pendingDelete == None) &&
        (outcome.Failure? ==>
          followUp.None? && pendingDelete == old(pendingDelete) &&
          deleteDialogOpen == (old(deleteDialogOpen) && !closesOnDeleteError))
    {
      deleted := None;
      followUp := None;
      if pendingDelete.Some? {
        var id := idOf(pendingDelete.value);
        deleted := Some(id);
        var r := svc.Delete(id, outcome);
        match r {
          case Success(_) =>
            deleteDialogOpen := false;
            pendingDelete := None;
            followUp := Some(RefreshCurrent);
          case Failure(_) =>
            if closesOnDeleteError {
              deleteDialogOpen := false;
            }
        }
      }
    }
  }
}
