/** features/authors/authors.service.ts: `AuthorsService` is the list holder of authors
    (`ListService<Author>` keyed by `AuthorId`), with this file's default error texts. */
module Authors {
  import opened Wrappers
  import opened Models
  import opened EntityList

  type AuthorsService = ListService<Author>

  const LoadFailed: string := "Failed to load authors"
  const SearchFailed: string := "Search failed"

  /** The injectable's initial state: no authors, nothing selected, idle. */
  method NewAuthorsService() returns (s: AuthorsService)
    ensures fresh(s) && s.idOf == AuthorId
    ensures s.State() == ListState([], None, false, None)
  {
    s := new ListService(AuthorId);
  }

  /** `loadAuthors`: replaces the list, clearing the error first. */
  method LoadAuthors(s: AuthorsService, outcome: Outcome<seq<Author>>)
    modifies s
    ensures s.State() == AfterFetchList(old(s.State()), outcome, LoadFailed, true)
  {
    s.FetchList(outcome, LoadFailed, true);
  }

  /** `getById`: selects the fetched author; the error is left alone. */
  method GetById(s: AuthorsService, outcome: Outcome<Author>) returns (r: Outcome<Author>)
    modifies s
    ensures s.State() == AfterGetById(old(s.State()), outcome) && r == outcome
  {
    r := s.GetById(outcome);
  }

  /** `searchByName`: replaces the list with the matches, clearing the error first. */
  method SearchByName(s: AuthorsService, outcome: Outcome<seq<Author>>)
    modifies s
    ensures s.State() == AfterFetchList(old(s.State()), outcome, SearchFailed, true)
  {
    s.FetchList(outcome, SearchFailed, true);
  }

  /** `create`: appends the created author. */
  method Create(s: AuthorsService, outcome: Outcome<Author>) returns (r: Outcome<Author>)
    modifies s
    ensures s.State() == AfterCreate(old(s.State()), outcome) && r == outcome
  {
    r := s.Create(outcome);
  }

  /** `update(id, request)`: replaces the authors with that id and selects the result. */
  method Update(s: AuthorsService, id: int, outcome: Outcome<Author>) returns (r: Outcome<Author>)
    requires s.idOf == AuthorId
    modifies s
    ensures s.State() == AfterUpdate(old(s.State()), AuthorId, id, outcome) && r == outcome
  {
    r := s.Update(id, outcome);
  }

  /** `delete(id)`: filters out the authors with that id. */
  method Delete(s: AuthorsService, id: int, outcome: Outcome<()>) returns (r: Outcome<()>)
    requires s.idOf == AuthorId
    modifies s
    ensures s.State() == AfterDelete(old(s.State()), AuthorId, id, outcome) && r == outcome
  {
    r := s.Delete(id, outcome);
  }

  /** `clearSelectedAuthor`. */
  method ClearSelectedAuthor(s: AuthorsService)
    modifies s
    ensures s.State() == old(s.State()).(selected := None)
  {
    s.ClearSelected();
  }
}
