/** features/books/books.service.ts: `BooksService` is the list holder of books
    (`ListService<Book>` keyed by `BookId`), with this file's default error texts. */
module Books {
  import opened Wrappers
  import opened Models
  import opened EntityList

  type BooksService = ListService<Book>

  const LoadFailed: string := "Failed to load books"
  const SearchFailed: string := "Search failed"

  /** The injectable's initial state: no books, nothing selected, idle. */
  method NewBooksService() returns (s: BooksService)
    ensures fresh(s) && s.idOf == BookId
    ensures s.State() == ListState([], None, false, None)
  {
    s := new ListService(BookId);
  }

  /** `loadBooks`: replaces the list, clearing the error first. */
  method LoadBooks(s: BooksService, outcome: Outcome<seq<Book>>)
    modifies s
    ensures s.State() == AfterFetchList(old(s.State()), outcome, LoadFailed, true)
  {
    s.FetchList(outcome, LoadFailed, true);
  }

  /** `getById`: selects the fetched book; the error is left alone. */
  method GetById(s: BooksService, outcome: Outcome<Book>) returns (r: Outcome<Book>)
    modifies s
    ensures s.State() == AfterGetById(old(s.State()), outcome) && r == outcome
  {
    r := s.GetById(outcome);
  }

  /** `searchByTitle`: replaces the list with the matches, clearing the error first. */
  method SearchByTitle(s: BooksService, outcome: Outcome<seq<Book>>)
    modifies s
    ensures s.State() == AfterFetchList(old(s.State()), outcome, SearchFailed, true)
  {
    s.FetchList(outcome, SearchFailed, true);
  }

  /** `getByAuthorId`: replaces the list with that author's books; unlike
      `loadBooks`, an earlier error is not cleared. */
  method GetByAuthorId(s: BooksService, outcome: Outcome<seq<Book>>)
    modifies s
    ensures s.State() == AfterFetchList(old(s.State()), outcome, LoadFailed, false)
  {
    s.FetchList(outcome, LoadFailed, false);
  }

  /** `getByStoreId`: as `getByAuthorId`, for the books of one store. */
  method GetByStoreId(s: BooksService, outcome: Outcome<seq<Book>>)
    modifies s
    ensures s.State() == AfterFetchList(old(s.State()), outcome, LoadFailed, false)
  {
    s.FetchList(outcome, LoadFailed, false);
  }

  /** `getByPriceRange`: as `getByAuthorId`, for the books in a price range. */
  method GetByPriceRange(s: BooksService, outcome: Outcome<seq<Book>>)
    modifies s
    ensures s.State() == AfterFetchList(old(s.State()), outcome, LoadFailed, false)
  {
    s.FetchList(outcome, LoadFailed, false);
  }

  /** `create`: appends the created book. */
  method Create(s: BooksService, outcome: Outcome<Book>) returns (r: Outcome<Book>)
    modifies s
    ensures s.State() == AfterCreate(old(s.State()), outcome) && r == outcome
  {
    r := s.Create(outcome);
  }

  /** `update(id, request)`: replaces the books with that id and selects the result. */
  method Update(s: BooksService, id: int, outcome: Outcome<Book>) returns (r: Outcome<Book>)
    requires s.idOf == BookId
    modifies s
    ensures s.State() == AfterUpdate(old(s.State()), BookId, id, outcome) && r == outcome
  {
    r := s.Update(id, outcome);
  }

  /** `delete(id)`: filters out the books with that id. */
  method Delete(s: BooksService, id: int, outcome: Outcome<()>) returns (r: Outcome<()>)
    requires s.idOf == BookId
    modifies s
    ensures s.State() == AfterDelete(old(s.State()), BookId, id, outcome) && r == outcome
  {
    r := s.Delete(id, outcome);
  }

  /** `clearSelectedBook`. */
  method ClearSelectedBook(s: BooksService)
    modifies s
    ensures s.State() == old(s.State()).(selected := None)
  {
    s.ClearSelected();
  }

  /** `clearError`. */
  method ClearError(s: BooksService)
    modifies s
    ensures s.State() == old(s.State()).(error := None)
  {
    s.ClearError();
  }
}
