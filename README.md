# Bookstore admin front-end: a Dafny model of its state logic

The modelled application is an Angular admin front-end for a bookstore
catalogue. It talks to a REST API about books, authors, stores and users, and
keeps a signed-in session. This project models the sequential logic the
front-end layers over that API, and proves what that logic promises:

- **Pagination bar** (`Pagination`): the "Showing X to Y of Z" figures, the
  window of page buttons with `-1` as the ellipsis marker (the component's
  loop is a method proved equal to a specification function), and the guard
  on page-change events.
- **Session** (`Auth`): a class holding the token, the current user and the
  browser key-value storage (`auth_token` / `auth_user`). The derived reads
  are `isAuthenticated`, `isAdmin` and `userName`. The transitions are
  `saveToStorage` and `clearStorage`, driven by `login`, `register`,
  `refresh` and `logout`. A failed refresh logs out (fail-closed).
- **List-holder services** (`EntityList`, `Books`, `Authors`, `Stores`,
  `Users`): one generic class `ListService<T>` holds the list, the selected
  entity, the loading flag and the error. Each operation is specified by a
  transition function, whose properties are lemmas: create appends, update
  replaces by id, delete filters by id, and failures keep the list. Each
  service module fixes its own default error texts and finders.
- **Forms** (`FormFields`, `BookForm`, `AuthorForm`, `StoreForm`, `UserForm`,
  `Register`): validity predicates for the validators, request building (empty
  optional texts become absent fields, the user password is sent only when
  non-empty), edit-mode patches, the edit-or-create choice, `toggleStore`, the
  user form's password-rule switch and the sign-up password-match gate.
- **List pages** (`ListPage`, `BookList`, `AuthorList`, `StoreList`): the
  search-or-list dispatch on the trimmed query (`Text` models JavaScript's
  `trim`), page and page-size changes, and the delete-confirmation dialog.
- **Reports** (`Reports`): the format-to-`Accept` switch, the file extension
  and download name, and the loading flag.

Each HTTP call is replaced by its outcome, `Success(value)` or
`Failure(message)`, passed in as a parameter (`Wrappers.Outcome`). Router
navigation is recorded in ghost fields (`Routing.Navigation`). The JSON codec
of the stored user and Angular's email pattern are function parameters.

## Model

| member | source | states |
|---|---|---|
| Wrappers.MessageOr | src/app/features/books/books.service.ts:33 | the server message or the fallback: a non-empty server message wins, otherwise the fallback, so a non-empty fallback never gives an empty error |
| Pagination.StartItem | src/app/shared/components/pagination/pagination.component.ts:114-117 | an empty collection starts at 0; otherwise the first item shown is the one after all items of the earlier pages, so it is at least 1 for a page that exists |
| Pagination.EndItem | src/app/shared/components/pagination/pagination.component.ts:119-122 | the last item shown never exceeds the total or the end of the current page, and is one of the two |
| Pagination.ShowingRange | src/app/shared/components/pagination/pagination.component.ts:114-122 | an empty collection shows 0 to 0; for an existing page, 1 <= first <= last <= total and the range is min(pageSize, remaining items) long |
| Pagination.ComputeVisiblePages | src/app/shared/components/pagination/pagination.component.ts:124-155 | the loops that push page numbers build exactly `VisiblePages(total, current)` |
| Pagination.VisiblePages | src/app/shared/components/pagination/pagination.component.ts:124-155 | the reference value of the page window, which the loop is proved to build; it never holds more than seven entries |
| Pagination.SmallWindow | src/app/shared/components/pagination/pagination.component.ts:129-132 | with at most seven pages the window is exactly 0 .. total-1, and empty when total <= 0 |
| Pagination.LargeWindowShape | src/app/shared/components/pagination/pagination.component.ts:134-151 | with more than seven pages the window starts with page 0, ends with the last page and has at most seven entries |
| Pagination.LargeWindowPageNumbers | src/app/shared/components/pagination/pagination.component.ts:134-151 | without its markers the window is page 0, the run around the current page, and the last page |
| Pagination.LargeWindowPages | src/app/shared/components/pagination/pagination.component.ts:140-151 | for an existing current page the page numbers strictly increase (no duplicates), all lie in [0, total), and include the current page |
| Pagination.BracketedRangeIncreasing | src/app/shared/components/pagination/pagination.component.ts:134-151 | page 0, a run of pages after it, and a last page beyond the run form a strictly increasing sequence within [0, last] |
| Pagination.LargeWindowMarkers | src/app/shared/components/pagination/pagination.component.ts:136-149 | the leading `-1` appears iff current > 3 and the trailing `-1` iff current < total - 4 |
| Pagination.GapNotAlwaysMarked | src/app/shared/components/pagination/pagination.component.ts:136-145 | current page 3 of 10 leaves page 1 out with no marker: not every gap is marked |
| Pagination.GoToPage | src/app/shared/components/pagination/pagination.component.ts:157-161 | a page is emitted iff 0 <= page < totalPages and page != currentPage, and then it is that page |
| Pagination.WindowPagesAreClickable | src/app/shared/components/pagination/pagination.component.ts:124-161 | every numbered button other than the current page emits its page when clicked |
| Pagination.PageNumbers | src/app/shared/components/pagination/pagination.component.ts:137-148 | the non-marker entries of a window: exactly the entries that are not `-1` |
| Pagination.PageNumbersAppend | src/app/shared/components/pagination/pagination.component.ts:134-151 | dropping markers distributes over concatenation |
| Pagination.PageNumbersOfRange | src/app/shared/components/pagination/pagination.component.ts:143-145 | a run of non-negative pages has no markers to drop |
| Pagination.Range | src/app/shared/components/pagination/pagination.component.ts:130-132 | the run lo .. hi-1 has hi - lo entries (none when hi <= lo) |
| Auth.LoadToken | src/app/core/services/auth.service.ts:28-33 | the stored token when the key is present, null when the key or the storage is missing |
| Auth.LoadUser | src/app/core/services/auth.service.ts:35-47 | a missing storage, a missing or empty entry gives null; otherwise the parse result, so a corrupt entry gives null instead of failing |
| Auth.SaveThenLoad | src/app/core/services/auth.service.ts:49-54 | after saving, the stored token and user load back as the saved pair, and other storage entries are unchanged |
| Auth.ClearThenLoad | src/app/core/services/auth.service.ts:56-61 | after clearing, neither a token nor a user loads, and other storage entries are unchanged |
| Auth.Authenticated | src/app/core/services/auth.service.ts:24 | a session is authenticated exactly when its token is truthy (present and non-empty) and it has a user |
| Auth.Admin | src/app/core/services/auth.service.ts:25 | an administrator is a present user whose role is `ADMIN`; the token plays no part |
| Auth.DisplayName | src/app/core/services/auth.service.ts:26 | the user's name, or the empty string without a user |
| Auth.DerivedReads | src/app/core/services/auth.service.ts:24-26 | with no user the session is neither authenticated nor admin and its name is `''`; an admin session is authenticated iff its token is non-empty; the name is the user's |
| Auth.AuthService.constructor | src/app/core/services/auth.service.ts:18-19 | both fields start from what storage holds; the session equals its reload from storage |
| Auth.AuthService.IsAuthenticated | src/app/core/services/auth.service.ts:24 | for a consistent session, authenticated exactly when storage holds a non-empty token and a user entry that parses |
| Auth.AuthService.IsAdmin | src/app/core/services/auth.service.ts:25 | for a consistent session, the stored user is an administrator, whatever the token |
| Auth.AuthService.UserName | src/app/core/services/auth.service.ts:26 | for a consistent session, the stored user's name, or empty |
| Auth.AuthService.GetToken | src/app/core/services/auth.service.ts:119-121 | for a consistent session, the stored token, or null when none is stored |
| Auth.AuthService.SaveToStorage | src/app/core/services/auth.service.ts:49-54 | both keys and both fields take the new pair; authenticated iff the token is non-empty |
| Auth.AuthService.ClearStorage | src/app/core/services/auth.service.ts:56-61 | both keys removed, both fields null, not authenticated, not admin, empty name |
| Auth.AuthService.Login | src/app/core/services/auth.service.ts:63-73 | a response is persisted; an error leaves storage and fields unchanged and is passed on |
| Auth.AuthService.Register | src/app/core/services/auth.service.ts:75-85 | as login: a response is persisted, an error changes nothing and is passed on |
| Auth.AuthService.Refresh | src/app/core/services/auth.service.ts:87-98 | a response is persisted; any error ends the session through logout (cleared, sent to `/login`) and is passed on |
| Auth.AuthService.Logout | src/app/core/services/auth.service.ts:100-117 | the server is told iff a non-empty token is held; either way the session is cleared and `/login` navigated to |
| EntityList.ReplaceById | src/app/features/books/books.service.ts:106-108 | same length; entries with the id become the updated entity, the others stay in place |
| EntityList.RemoveById | src/app/features/books/books.service.ts:119 | no longer than before; every survivor was there and has another id; every entry with another id survives |
| EntityList.RemoveByIdAppend | src/app/features/books/books.service.ts:119 | filtering distributes over concatenation, so survivors keep their order |
| EntityList.RemoveByIdAbsent | src/app/features/books/books.service.ts:119 | filtering out an id no entry has changes nothing |
| EntityList.RemoveByIdIdempotent | src/app/features/books/books.service.ts:119 | deleting the same id twice equals deleting it once |
| EntityList.DeleteAfterUpdate | src/app/features/books/books.service.ts:102-123 | an id-preserving update followed by a delete of that id equals the delete alone |
| EntityList.Ids | src/app/features/books/book-form/book-form.component.ts:61 | the ids of a list, position by position |
| EntityList.UpdateKeepsIds | src/app/features/books/books.service.ts:102-113 | an id-preserving update keeps the list's ids position by position |
| EntityList.AfterFetchList | src/app/features/books/books.service.ts:25-35 | a fetch never touches the selection and ends not loading; success takes the fetched list, failure keeps the old one; there is no error exactly after a success that reset it or found none |
| EntityList.AfterGetById | src/app/features/books/books.service.ts:37-43 | the list and the error stay; success selects the fetched entity, failure keeps the selection |
| EntityList.AfterCreate | src/app/features/books/books.service.ts:92-100 | the old list stays as a prefix; success adds exactly the created entity at the end; selection and error stay |
| EntityList.AfterUpdate | src/app/features/books/books.service.ts:102-113 | the list keeps its length and every entry with another id; on success each entry with the id becomes the result, which is selected |
| EntityList.AfterDelete | src/app/features/books/books.service.ts:115-123 | selection and error stay, the list never grows; success leaves no entry with the id, failure keeps the list |
| EntityList.FetchListContract | src/app/features/books/books.service.ts:25-90 | a fetch never touches the selection and ends not loading; success replaces the list (and clears the error when resetting); failure keeps the list and sets a non-empty error, the server message or the default |
| EntityList.FailedWritesKeepState | src/app/features/books/books.service.ts:37-123 | a failed getById, create, update or delete keeps list, selection and error; only loading ends |
| EntityList.CreateAppends | src/app/features/books/books.service.ts:92-100 | success appends the entity at the end: length + 1, earlier entries unchanged |
| EntityList.CreateThenDelete | src/app/features/books/books.service.ts:92-123 | creating an entity with a fresh id and deleting that id gives the list back |
| EntityList.UpdateReplaces | src/app/features/books/books.service.ts:102-113 | success keeps the length, replaces exactly the entries with the id, and selects the returned entity |
| EntityList.DeleteFilters | src/app/features/books/books.service.ts:115-123 | success leaves no entry with the id, keeps every other entry, and keeps their order |
| EntityList.ListService.constructor | src/app/features/books/books.service.ts:14-17 | empty list, no selection, not loading, no error |
| EntityList.ListService.Count | src/app/features/books/books.service.ts:23 | the count is the list length |
| EntityList.ListService.FetchList | src/app/features/books/books.service.ts:25-35 | the new state is `AfterFetchList` of the old one |
| EntityList.ListService.GetById | src/app/features/books/books.service.ts:37-43 | the new state is `AfterGetById`; the outcome is passed on |
| EntityList.ListService.Create | src/app/features/books/books.service.ts:92-100 | the new state is `AfterCreate`; the outcome is passed on |
| EntityList.ListService.Update | src/app/features/books/books.service.ts:102-113 | the new state is `AfterUpdate`; the outcome is passed on |
| EntityList.ListService.Delete | src/app/features/books/books.service.ts:115-123 | the new state is `AfterDelete`; the outcome is passed on |
| EntityList.ListService.ClearSelected | src/app/features/books/books.service.ts:125-127 | only the selection changes, to null |
| EntityList.ListService.ClearError | src/app/features/books/books.service.ts:129-131 | only the error changes, to null |
| Books.NewBooksService | src/app/features/books/books.service.ts:14-23 | a fresh service keyed by book id, empty and idle |
| Books.LoadBooks | src/app/features/books/books.service.ts:25-35 | a resetting fetch with default `Failed to load books` |
| Books.GetById | src/app/features/books/books.service.ts:37-43 | selects the fetched book |
| Books.SearchByTitle | src/app/features/books/books.service.ts:45-56 | a resetting fetch with default `Search failed` |
| Books.GetByAuthorId | src/app/features/books/books.service.ts:58-66 | a fetch that keeps an earlier error, default `Failed to load books` |
| Books.GetByStoreId | src/app/features/books/books.service.ts:68-76 | a fetch that keeps an earlier error, default `Failed to load books` |
| Books.GetByPriceRange | src/app/features/books/books.service.ts:78-90 | a fetch that keeps an earlier error, default `Failed to load books` |
| Books.Create | src/app/features/books/books.service.ts:92-100 | appends the created book |
| Books.Update | src/app/features/books/books.service.ts:102-113 | replaces the books with the id and selects the result |
| Books.Delete | src/app/features/books/books.service.ts:115-123 | filters out the books with the id |
| Books.ClearSelectedBook | src/app/features/books/books.service.ts:125-127 | nulls the selection only |
| Books.ClearError | src/app/features/books/books.service.ts:129-131 | nulls the error only |
| Authors.NewAuthorsService | src/app/features/authors/authors.service.ts:14-23 | a fresh service keyed by author id, empty and idle |
| Authors.LoadAuthors | src/app/features/authors/authors.service.ts:25-35 | a resetting fetch with default `Failed to load authors` |
| Authors.GetById | src/app/features/authors/authors.service.ts:37-43 | selects the fetched author |
| Authors.SearchByName | src/app/features/authors/authors.service.ts:45-56 | a resetting fetch with default `Search failed` |
| Authors.Create | src/app/features/authors/authors.service.ts:58-66 | appends the created author |
| Authors.Update | src/app/features/authors/authors.service.ts:68-79 | replaces the authors with the id and selects the result |
| Authors.Delete | src/app/features/authors/authors.service.ts:81-89 | filters out the authors with the id |
| Authors.ClearSelectedAuthor | src/app/features/authors/authors.service.ts:91-93 | nulls the selection only |
| Stores.NewStoresService | src/app/features/stores/stores.service.ts:14-23 | a fresh service keyed by store id, empty and idle |
| Stores.LoadStores | src/app/features/stores/stores.service.ts:25-35 | a resetting fetch with default `Failed to load stores` |
| Stores.GetById | src/app/features/stores/stores.service.ts:37-43 | selects the fetched store |
| Stores.SearchByName | src/app/features/stores/stores.service.ts:45-56 | a resetting fetch with default `Search failed` |
| Stores.Create | src/app/features/stores/stores.service.ts:58-66 | appends the created store |
| Stores.Update | src/app/features/stores/stores.service.ts:68-79 | replaces the stores with the id and selects the result |
| Stores.Delete | src/app/features/stores/stores.service.ts:81-89 | filters out the stores with the id |
| Stores.ClearSelectedStore | src/app/features/stores/stores.service.ts:91-93 | nulls the selection only |
| Users.NewUsersService | src/app/features/users/users.service.ts:14-23 | a fresh service keyed by user id, empty and idle |
| Users.LoadUsers | src/app/features/users/users.service.ts:25-35 | a resetting fetch with default `Failed to load users` |
| Users.GetById | src/app/features/users/users.service.ts:37-43 | selects the fetched user |
| Users.Create | src/app/features/users/users.service.ts:45-53 | appends the created user |
| Users.Update | src/app/features/users/users.service.ts:55-66 | replaces the users with the id and selects the result |
| Users.Delete | src/app/features/users/users.service.ts:68-76 | filters out the users with the id |
| Users.ClearSelectedUser | src/app/features/users/users.service.ts:78-80 | nulls the selection only |
| FormFields.OrAbsent | src/app/features/authors/author-form/author-form.component.ts:57-58 | an empty text is sent absent: absent iff the text is empty, otherwise the text |
| FormFields.OrEmpty | src/app/features/authors/author-form/author-form.component.ts:40-41 | an absent field shows as `''`, a present one as itself |
| FormFields.ShowThenSend | src/app/features/authors/author-form/author-form.component.ts:38-59 | showing a field and sending it back gives it again, except that an empty field comes back absent |
| FormFields.SendThenShow | src/app/features/authors/author-form/author-form.component.ts:38-59 | sending a text and showing it again gives the text |
| FormFields.RequiredAndMinLength | src/app/features/authors/author-form/author-form.component.ts:21 | `required` with `minLength(n)`, n >= 1, accepts exactly the texts of at least n characters |
| FormFields.SaveOpFor | src/app/features/authors/author-form/author-form.component.ts:61-63 | an update of the edit-mode id iff in edit mode, otherwise a create, always carrying the request |
| BookForm.BuildRequest | src/app/features/books/book-form/book-form.component.ts:75-84 | title, isbn, price, author id and store ids copied; an empty description or date is absent, a non-empty one kept |
| BookForm.ValidForm | src/app/features/books/book-form/book-form.component.ts:24-31 | the validators accept exactly a non-empty title and isbn, a non-negative price and a chosen author (`minLength(1)` adds nothing to `required`) |
| BookForm.StoreIdsOf | src/app/features/books/book-form/book-form.component.ts:61 | the book's store ids in order, `[]` when the book has no stores |
| BookForm.PatchFromBook | src/app/features/books/book-form/book-form.component.ts:54-62 | title, isbn and price are copied; a description or date shows empty exactly when missing or empty, and otherwise as stored; the author becomes its id (none without one); the stores become their ids |
| BookForm.PatchThenBuild | src/app/features/books/book-form/book-form.component.ts:54-84 | a loaded book is submittable iff it has title, isbn, price >= 0 and an author; saving it unchanged sends its own fields, empty texts as absent |
| BookForm.IndexOf | src/app/features/books/book-form/book-form.component.ts:105 | `indexOf`: -1 iff absent, otherwise a position holding the id with no earlier occurrence |
| BookForm.Toggle | src/app/features/books/book-form/book-form.component.ts:103-112 | an absent id is appended; a present one loses its first occurrence (as found by `IndexOf`) and the other ids keep their order; as a bag, the ids gain or lose exactly that id |
| BookForm.ToggleFlips | src/app/features/books/book-form/book-form.component.ts:103-117 | without duplicates, toggling flips `isStoreSelected(id)` and leaves every other id's selection |
| BookForm.ToggleKeepsNoDup | src/app/features/books/book-form/book-form.component.ts:103-112 | toggling keeps a duplicate-free selection duplicate-free |
| BookForm.ToggleTwiceAbsent | src/app/features/books/book-form/book-form.component.ts:103-112 | toggling an absent id twice restores the selection exactly |
| BookForm.ToggleTwicePresent | src/app/features/books/book-form/book-form.component.ts:103-112 | toggling a present id twice (no duplicates) moves it to the end |
| BookForm.BookFormComponent.constructor | src/app/features/books/book-form/book-form.component.ts:24-37 | the builder's initial values, create mode, no error, not submitting |
| BookForm.BookFormComponent.NgOnInit | src/app/features/books/book-form/book-form.component.ts:39-68 | authors and stores are loaded; with a route id: edit mode with that id, the fetched book patched in, or back to `/books` on failure |
| BookForm.BookFormComponent.OnSubmit | src/app/features/books/book-form/book-form.component.ts:70-101 | no-op on an invalid form; otherwise update in edit mode, create otherwise; success shows the saved book, failure sets the server message or `Failed to save book`; submitting ends false |
| BookForm.BookFormComponent.ToggleStore | src/app/features/books/book-form/book-form.component.ts:103-112 | only the store selection changes, by `Toggle` |
| BookForm.BookFormComponent.IsStoreSelected | src/app/features/books/book-form/book-form.component.ts:114-117 | `includes` agrees with the `indexOf` test of `toggleStore` |
| AuthorForm.ValidForm | src/app/features/authors/author-form/author-form.component.ts:20-24 | the form is submittable iff the name has at least two characters |
| AuthorForm.BuildRequest | src/app/features/authors/author-form/author-form.component.ts:54-59 | the name copied; an empty biography or birth date is absent, a non-empty one kept |
| AuthorForm.PatchFromAuthor | src/app/features/authors/author-form/author-form.component.ts:38-42 | the name is copied; a biography or birth date shows empty exactly when missing or empty, and otherwise as stored |
| AuthorForm.PatchThenBuild | src/app/features/authors/author-form/author-form.component.ts:38-59 | a loaded author is submittable iff its name has two characters; saving it unchanged sends its fields back, empty texts as absent |
| AuthorForm.BuildThenPatch | src/app/features/authors/author-form/author-form.component.ts:38-59 | an author carrying the request's fields patches the form back to what was typed |
| AuthorForm.AuthorFormComponent.constructor | src/app/features/authors/author-form/author-form.component.ts:20-29 | empty form, create mode, no error, not submitting |
| AuthorForm.AuthorFormComponent.NgOnInit | src/app/features/authors/author-form/author-form.component.ts:31-47 | with a route id: edit mode with that id, the fetched author patched in, or back to `/authors` on failure |
| AuthorForm.AuthorFormComponent.OnSubmit | src/app/features/authors/author-form/author-form.component.ts:49-76 | no-op on an invalid form; otherwise update in edit mode, create otherwise; success shows the author, failure sets the server message or `Failed to save author` |
| StoreForm.ValidForm | src/app/features/stores/store-form/store-form.component.ts:20-25 | the form is submittable iff the name has at least two characters |
| StoreForm.BuildRequest | src/app/features/stores/store-form/store-form.component.ts:56-62 | the name copied; each empty address part is absent, a non-empty one kept |
| StoreForm.PatchFromStore | src/app/features/stores/store-form/store-form.component.ts:39-44 | the name is copied; each address part shows empty exactly when missing or empty, and otherwise as stored |
| StoreForm.PatchThenBuild | src/app/features/stores/store-form/store-form.component.ts:39-62 | a loaded store is submittable iff its name has two characters; saving it unchanged sends its fields back, empty texts as absent |
| StoreForm.BuildThenPatch | src/app/features/stores/store-form/store-form.component.ts:39-62 | a store carrying the request's fields patches the form back to what was typed |
| StoreForm.StoreFormComponent.constructor | src/app/features/stores/store-form/store-form.component.ts:20-30 | empty form, create mode, no error, not submitting |
| StoreForm.StoreFormComponent.NgOnInit | src/app/features/stores/store-form/store-form.component.ts:32-49 | with a route id: edit mode with that id, the fetched store patched in, or back to `/stores` on failure |
| StoreForm.StoreFormComponent.OnSubmit | src/app/features/stores/store-form/store-form.component.ts:51-79 | no-op on an invalid form; otherwise update in edit mode, create otherwise; success shows the store, failure sets the server message or `Failed to save store` |
| UserForm.RulesNested | src/app/features/users/user-form/user-form.component.ts:20-52 | create mode needs a password of six or more; the builder's rule also accepts an empty one; the cleared rule accepts any; name >= 2 and a valid email always |
| UserForm.ValidForm | src/app/features/users/user-form/user-form.component.ts:20-26 | submittable iff the name has two characters, the email is non-empty and matches, and the password passes the current rule |
| UserForm.BuildRequest | src/app/features/users/user-form/user-form.component.ts:61-71 | name, email, role and enabled copied; the password present iff non-empty, and then as typed |
| UserForm.PatchFromUser | src/app/features/users/user-form/user-form.component.ts:40-45 | name, email, role and enabled come from the fetched user; the password control keeps what it holds |
| UserForm.EditModePassword | src/app/features/users/user-form/user-form.component.ts:40-71 | after an edit-mode load a short non-empty password is accepted and sent, where the other rules refuse it; the typed password survives the patch |
| UserForm.CreateModeNeedsPassword | src/app/features/users/user-form/user-form.component.ts:52-71 | a create-mode submit always sends a password of at least six characters |
| UserForm.UserFormComponent.constructor | src/app/features/users/user-form/user-form.component.ts:20-31 | defaults role `USER` and enabled; password rule `minLength(6)` only; create mode |
| UserForm.UserFormComponent.NgOnInit | src/app/features/users/user-form/user-form.component.ts:33-54 | with a route id: edit mode, the fetched user patched in and the password rule cleared, or back to `/users`; without one the password becomes required with six characters |
| UserForm.UserFormComponent.OnSubmit | src/app/features/users/user-form/user-form.component.ts:56-88 | no-op on an invalid form; otherwise update in edit mode, create otherwise; success goes to `/users`, failure sets the server message or `Failed to save user` |
| Register.ValidForm | src/app/features/auth/register/register.component.ts:43-48 | submittable iff name >= 2 characters, a valid email, password >= 6 characters and a confirmation |
| Register.RequestOf | src/app/features/auth/register/register.component.ts:65 | the request carries the name, email and password |
| Register.RequestIgnoresConfirmation | src/app/features/auth/register/register.component.ts:65 | the confirmation does not reach the request |
| Register.Sent | src/app/features/auth/register/register.component.ts:54-65 | a request is sent iff the form is valid and the passwords match, and then its password has six characters and equals the confirmation |
| Register.RegisterComponent.constructor | src/app/features/auth/register/register.component.ts:43-51 | empty form, not loading, no error |
| Register.RegisterComponent.OnSubmit | src/app/features/auth/register/register.component.ts:53-78 | invalid: nothing; mismatch: `Passwords do not match.`, loading and session unchanged, no call; otherwise register: success persists the session and goes to `/books`, failure sets the server message or `Registration failed. Please try again.`; loading ends false |
| Text.LeadingSpace | src/app/features/books/book-list/book-list.component.ts:40 | the query starts with exactly that many whitespace characters: all of them are whitespace and the next one, if any, is not |
| Text.TrailingSpace | src/app/features/books/book-list/book-list.component.ts:40 | the query ends with exactly that many whitespace characters: all of them are whitespace and the one before, if any, is not |
| Text.TrimStart | src/app/features/books/book-list/book-list.component.ts:40 | a suffix of the text whose dropped prefix is all whitespace, and which is empty or starts with a kept character; empty iff the text is all whitespace |
| Text.TrimEnd | src/app/features/books/book-list/book-list.component.ts:40 | a prefix of the text whose dropped suffix is all whitespace, and which is empty or ends with a kept character; empty iff the text is all whitespace |
| Text.Trim | src/app/features/books/book-list/book-list.component.ts:40 | the slice of the query between a whitespace-only prefix (the one `TrimStart` drops) and a whitespace-only suffix; a non-empty result starts and ends with a kept character; empty iff the query is all whitespace |
| Text.BlankIffAllWhitespace | src/app/features/books/book-list/book-list.component.ts:40 | `query.trim()` is falsy iff every character is whitespace |
| ListPage.Dispatch | src/app/features/books/book-list/book-list.component.ts:38-68 | a search for the untrimmed query iff it is not all whitespace, otherwise a plain listing, at the given page and size |
| ListPage.DispatchKeepsMode | src/app/features/books/book-list/book-list.component.ts:52-68 | page and size changes keep the search-or-list mode |
| ListPage.PagedList.constructor | src/app/features/books/book-list/book-list.component.ts:30-32 | empty query, dialog closed, nothing pending |
| ListPage.PagedList.NgOnInit | src/app/features/books/book-list/book-list.component.ts:34-36 | the service's resetting load |
| ListPage.PagedList.OnSearchChange | src/app/features/books/book-list/book-list.component.ts:38-45 | the query is stored and page 0 at the current size is requested in its mode |
| ListPage.PagedList.OnSearchClear | src/app/features/books/book-list/book-list.component.ts:47-50 | the query is emptied and page 0 listed at the current size |
| ListPage.PagedList.OnPageChange | src/app/features/books/book-list/book-list.component.ts:52-59 | the requested page at the current size, in the stored query's mode |
| ListPage.PagedList.OnPageSizeChange | src/app/features/books/book-list/book-list.component.ts:61-68 | page 0 at the new size, in the stored query's mode |
| ListPage.PagedList.OpenDeleteDialog | src/app/features/books/book-list/book-list.component.ts:70-73 | the entity is pending and the dialog open |
| ListPage.PagedList.CancelDelete | src/app/features/books/book-list/book-list.component.ts:92-95 | the dialog closed and nothing pending |
| ListPage.PagedList.ConfirmDelete | src/app/features/books/book-list/book-list.component.ts:75-90 | nothing without a pending entity; otherwise its id is deleted; success closes, clears and refreshes the current page; failure keeps the entity and closes the dialog only where the page handles errors |
| BookList.NewBookListComponent | src/app/features/books/book-list/book-list.component.ts:26-32 | a list page over books whose failed deletes close the dialog |
| AuthorList.NewAuthorListComponent | src/app/features/authors/author-list/author-list.component.ts:45-51 | a list page over authors whose failed deletes leave the dialog open |
| StoreList.FetchFor | src/app/features/stores/store-list/store-list.component.ts:29-36 | a search by the untrimmed query iff it is not all whitespace, otherwise a reload of all stores |
| StoreList.StoreListComponent.constructor | src/app/features/stores/store-list/store-list.component.ts:21-23 | empty query, dialog closed, nothing pending |
| StoreList.StoreListComponent.NgOnInit | src/app/features/stores/store-list/store-list.component.ts:25-27 | loads the stores |
| StoreList.StoreListComponent.OnSearch | src/app/features/stores/store-list/store-list.component.ts:29-36 | issues `FetchFor(query)` and the service ends as that fetch leaves it |
| StoreList.StoreListComponent.ClearSearch | src/app/features/stores/store-list/store-list.component.ts:38-41 | the query is emptied and all stores reloaded |
| StoreList.StoreListComponent.OpenDeleteDialog | src/app/features/stores/store-list/store-list.component.ts:43-46 | the store is pending and the dialog open |
| StoreList.StoreListComponent.CancelDelete | src/app/features/stores/store-list/store-list.component.ts:60-63 | the dialog closed and nothing pending |
| StoreList.StoreListComponent.ConfirmDelete | src/app/features/stores/store-list/store-list.component.ts:48-58 | nothing without a pending store; success closes, clears, and the shown list holds no store with that id without a reload; failure changes nothing |
| Reports.ContentTypeFor | src/app/features/reports/reports.service.ts:30-46 | the default `application/octet-stream` is chosen iff the format string is none of the four names |
| Reports.ContentTypes | src/app/features/reports/reports.service.ts:30-46 | PDF, CSV, XML and JSON map to `application/pdf`, `text/csv`, `application/xml`, `application/json`; the default is unreachable; no two formats share a type |
| Reports.LowerAscii | src/app/features/reports/reports.service.ts:58 | same length; capitals lowered, everything else kept |
| Reports.Extension | src/app/features/reports/reports.service.ts:58 | the extension is the format name with each capital made small, so it is all small letters of the same length |
| Reports.ExtensionMatchesContentType | src/app/features/reports/reports.service.ts:30-58 | the extensions are `pdf`, `csv`, `xml`, `json`, and each media type ends with `/` and the extension |
| Reports.DownloadFileName | src/app/features/reports/reports.service.ts:58-59 | starts with `books-report-`, then the date, then `.` and the extension |
| Reports.ReportsService.constructor | src/app/features/reports/reports.service.ts:15-16 | no formats, not loading |
| Reports.ReportsService.LoadFormats | src/app/features/reports/reports.service.ts:21-25 | success replaces the formats; an error changes nothing |
| Reports.ReportsService.GenerateBooksReport | src/app/features/reports/reports.service.ts:27-51 | loading is on and the request asks for the format's media type, never the default |
| Reports.ReportsService.OnReportFinalized | src/app/features/reports/reports.service.ts:52-54 | loading is off once the request settles |

## Left out

- HTTP and rxjs: each call is the outcome it delivers. The in-flight interval (loading true) is not observable, except in `Reports`, which models the two steps. Races between overlapping requests and unguarded double submits are concurrency and are not modelled.
- Request parameters that only shape a URL or query string (ids in `getById`, the search title or name, the price range) do not appear in the service methods. The outcome stands for the server's answer.
- The router: navigations are recorded in ghost fields; route matching and the guards are not part of this model.
- `localStorage` is a `map<string, string>` that is always present in the `AuthService` methods. A missing storage is modelled only when loading (the `stored` parameter of the constructor). `saveToStorage`/`clearStorage` on a platform without storage, which would throw, are not modelled.
- `JSON.stringify`/`JSON.parse` of the user are the parameters `encode` and `parse`. The model only assumes that parsing a serialised user gives it back.
- Angular's email pattern is the parameter `emailOk`.
- `Number(id)` on the route parameter: the parameter arrives parsed (`routeId`). A non-numeric id (NaN) is not modelled.
- JavaScript numbers are `int` (ids, pages, sizes) or `real` (prices). Overflow and fractional pages do not arise in the model.
- `toLowerCase` is modelled on ASCII only. That is exact for the four format names.
- The date stamp of `downloadReport` (`new Date().toISOString()`) is the parameter `date`. The Blob, object URL and link click are DOM effects and are not modelled.
- The paginated service interface the book and author list pages call (`pageSize()`, paged `loadBooks`/`loadAuthors`, three-argument searches, `refreshCurrentPage()`) does not exist in the services modelled here. The pages' requests are recorded as `ListPage.PageQuery` values, not performed; the current page size is a parameter.
- `console.error` in failure handlers is logging.
- `toggleStore` splices the form control's own array in place before patching a copy back. The model works on the value (`seq<int>`), so that aliasing is not captured; the form's resulting value is the same.
- Debounce in the search input, presentational components, the login page, the detail pages, the user list page and the report-generator page are outside this model.
