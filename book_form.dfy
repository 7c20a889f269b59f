/** The book editor (features/books/book-form/book-form.component.ts).

    The reactive form is a `BookFormValue`; its validators are the predicate
    `ValidForm`. The component's signals are fields of `BookFormComponent`,
    whose `onSubmit` builds a `BookRequest` from the form and issues a
    create or an update, and whose `toggleStore` adds or removes a store id
    from the form's selection.
 */
module BookForm {
  import opened Wrappers
  import opened Models
  import opened Routing
  import opened FormFields
  import opened EntityList
  import Books
  import Authors
  import Stores

  /** The form's controls. `price` and `authorId` are None when the control
      holds null (a cleared number input, an unselected author). */
  datatype BookFormValue = BookFormValue(
    title: string,
    isbn: string,
    description: string,
    price: Option<real>,
    publishedDate: string,
    authorId: Option<int>,
    storeIds: seq<int>)

  /** The form builder's initial values. */
  const InitialForm: BookFormValue := BookFormValue("", "", "", Some(0.0), "", None, [])

  const SaveFailed: string := "Failed to save book"
  const BooksPath: string := "/books"

  /** title: required and minLength(1); isbn: required; price: required and
      min(0); authorId: required. The other controls have no validators.
      `minLength(1)` adds nothing to `required`. */
  function ValidForm(f: BookFormValue): (ok: bool)
    ensures ok <==> f.title != "" && f.isbn != "" && f.price.Some? && f.price.value >= 0.0 && f.authorId.Some?
  {
    Required(f.title) && MinLength(f.title, 1) && Required(f.isbn) &&
    f.price.Some? && f.price.value >= 0.0 && f.authorId.Some?
  }

  /** The request `onSubmit` builds from a valid form: the texts, price,
      author and store ids are copied, and an empty description or
      publication date is sent as absent. */
  function BuildRequest(f: BookFormValue): (r: BookRequest)
    requires ValidForm(f)
    ensures r.title == f.title && r.isbn == f.isbn && r.price == f.price.value
    ensures r.authorId == f.authorId.value && r.storeIds == Some(f.storeIds)
    ensures r.description.None? <==> f.description == ""
    ensures r.description.Some? ==> r.description.value == f.description
    ensures r.publishedDate.None? <==> f.publishedDate == ""
    ensures r.publishedDate.Some? ==> r.publishedDate.value == f.publishedDate
  {
    BookRequest(f.title, f.isbn, OrAbsent(f.description), f.price.value,
                OrAbsent(f.publishedDate), f.authorId.value, Some(f.storeIds))
  }

  /** `book.stores?.map(s => s.id) || []`. */
  function StoreIdsOf(b: Book): (ids: seq<int>)
    ensures b.stores.None? ==> ids == []
    ensures b.stores.Some? ==>
      |ids| == |b.stores.value| && (forall i :: 0 <= i < |ids| ==> ids[i] == b.stores.value[i].id)
  {
    if b.stores.Some? then Ids(b.stores.value, StoreId) else []
  }

  /** The form after `loadBook` patches it with a fetched book: missing
      texts become empty, the author becomes its id (null without one). */
  function PatchFromBook(b: Book): (r: BookFormValue)
    ensures r.title == b.title && r.isbn == b.isbn && r.price == Some(b.price)
    ensures r.description == "" <==> b.description.None? || b.description == Some("")
    ensures r.description != "" ==> b.description == Some(r.description)
    ensures r.publishedDate == "" <==> b.publishedDate.None? || b.publishedDate == Some("")
    ensures r.publishedDate != "" ==> b.publishedDate == Some(r.publishedDate)
    ensures r.authorId.Some? <==> b.author.Some?
    ensures r.authorId.Some? ==> r.authorId.value == b.author.value.id
    ensures r.storeIds == StoreIdsOf(b)
  {
    BookFormValue(b.title, b.isbn, OrEmpty(b.description), Some(b.price),
                  OrEmpty(b.publishedDate),
                  if b.author.Some? then Some(b.author.value.id) else None,
                  StoreIdsOf(b))
  }

  /** Loading a book into the form gives a submittable form exactly when the
      book has a title, an isbn, a non-negative price and an author; saving
      it unchanged then sends the book's own fields back, with an empty
      description or date sent as absent. */
  lemma PatchThenBuild(b: Book)
    ensures ValidForm(PatchFromBook(b)) <==>
      b.title != "" && b.isbn != "" && b.price >= 0.0 && b.author.Some?
    ensures ValidForm(PatchFromBook(b)) ==>
      BuildRequest(PatchFromBook(b)) == BookRequest(
        b.title, b.isbn,
        if b.description == Some("") then None else b.description,
        b.price,
        if b.publishedDate == Some("") then None else b.publishedDate,
        b.author.value.id, Some(StoreIdsOf(b)))
  {
    ShowThenSend(b.description);
    ShowThenSend(b.publishedDate);
  }

  // ---- the store selection --------------------------------------------------

  predicate NoDup(xs: seq<int>) {
    forall i, j :: 0 <= i < j < |xs| ==> xs[i] != xs[j]
  }

  /** `Array.prototype.indexOf`: the first position of `x`, or -1. */
  function IndexOf(xs: seq<int>, x: int): (i: int)
    ensures -1 <= i < |xs|
    ensures i == -1 <==> x !in xs
    ensures i >= 0 ==> xs[i] == x && x !in xs[..i]
  {
    if xs == [] then -1
    else if xs[0] == x then 0
    else
      var j := IndexOf(xs[1..], x);
      if j == -1 then -1
      else
        assert xs[..j + 1] == [xs[0]] + xs[1..][..j];
        j + 1
  }

  /** `toggleStore(id)` on the id list: the first occurrence is spliced out
      when there is one, the other ids keeping their order; otherwise the id
      is pushed at the end. As a bag, the list loses one copy of the id or
      gains one. */
  function Toggle(ids: seq<int>, id: int): (r: seq<int>)
    ensures id !in ids ==> r == ids + [id]
    ensures id in ids ==> |r| == |ids| - 1
    ensures id in ids ==> r == ids[..IndexOf(ids, id)] + ids[IndexOf(ids, id) + 1..]
    ensures multiset(r) == if id in ids then multiset(ids) - multiset{id} else multiset(ids) + multiset{id}
  {
    var i := IndexOf(ids, id);
    if i > -1 then
      assert ids == ids[..i] + [ids[i]] + ids[i + 1..];
      ids[..i] + ids[i + 1..]
    else
      ids + [id]
  }

  /** With no duplicates, toggling flips whether the id is selected, and no
      other id changes. */
  lemma ToggleFlips(ids: seq<int>, id: int)
    requires NoDup(ids)
    ensures id in Toggle(ids, id) <==> id !in ids
    ensures forall x :: x != id ==> (x in Toggle(ids, id) <==> x in ids)
  {
    var r := Toggle(ids, id);
    forall x | x != id
      ensures x in r <==> x in ids
    {
      assert x in r <==> x in multiset(r);
      assert x in ids <==> x in multiset(ids);
    }
    if id in ids {
      var i := IndexOf(ids, id);
      assert forall k :: i < k < |ids| ==> ids[k] != ids[i];
      assert id !in ids[i + 1..];
    }
  }

  /** Toggling keeps a duplicate-free selection duplicate-free. */
  lemma ToggleKeepsNoDup(ids: seq<int>, id: int)
    requires NoDup(ids)
    ensures NoDup(Toggle(ids, id))
  {
    var r := Toggle(ids, id);
    var i := IndexOf(ids, id);
    if i > -1 {
      assert forall k :: 0 <= k < |r| ==> r[k] == if k < i then ids[k] else ids[k + 1];
    } else {
      assert forall k :: 0 <= k < |ids| ==> r[k] == ids[k];
    }
  }

  /** Toggling an unselected id twice restores the selection exactly. */
  lemma ToggleTwiceAbsent(ids: seq<int>, id: int)
    requires id !in ids
    ensures Toggle(Toggle(ids, id), id) == ids
  {
    var r := ids + [id];
    assert forall k :: 0 <= k < |ids| ==> r[k] == ids[k] != id;
    assert IndexOf(r, id) == |ids|;
    assert r[..|ids|] == ids;
  }

  /** Toggling a selected id twice (without duplicates) moves it to the end. */
  lemma ToggleTwicePresent(ids: seq<int>, id: int)
    requires NoDup(ids) && id in ids
    ensures Toggle(Toggle(ids, id), id) == Toggle(ids, id) + [id]
  {
    ToggleFlips(ids, id);
  }

  // ---- the component --------------------------------------------------------

  class BookFormComponent {
    var form: BookFormValue
    var isEditMode: bool
    var bookId: Option<int>
    var errorMessage: Option<string>
    var isSubmitting: bool
    ghost var navigations: seq<Navigation>

    /** Edit mode and the book id are set together. */
    ghost predicate Valid()
      reads this
    {
      isEditMode <==> bookId.Some?
    }

    constructor ()
      ensures Valid()
      ensures form == InitialForm && !isEditMode && bookId == None
      ensures errorMessage == None && !isSubmitting && navigations == []
    {
      form := InitialForm;
      isEditMode := false;
      bookId := None;
      errorMessage := None;
      isSubmitting := false;
      navigations := [];
    }

    /** `ngOnInit`: loads the author and store choices, and with an `id`
        route parameter (`routeId`, None when it is missing or empty)
        enters edit mode and fetches that book into the form; a failed
        fetch goes back to the book list. */
    method NgOnInit(routeId: Option<int>,
                    books: Books.BooksService, authors: Authors.AuthorsService, stores: Stores.StoresService,
                    authorsLoaded: Outcome<seq<Author>>, storesLoaded: Outcome<seq<Store>>, fetched: Outcome<Book>)
      requires Valid()
      modifies this, books, authors, stores
      ensures Valid()
      ensures authors.State() == AfterFetchList(old(authors.State()), authorsLoaded, Authors.LoadFailed, true)
      ensures stores.State() == AfterFetchList(old(stores.State()), storesLoaded, Stores.LoadFailed, true)
      ensures routeId.None? ==>
        isEditMode == old(isEditMode) && bookId == old(bookId) && form == old(form) &&
        navigations == old(navigations) && books.State() == old(books.State())
      ensures routeId.Some? ==>
        isEditMode && bookId == routeId &&
        books.State() == AfterGetById(old(books.State()), fetched) &&
        (fetched.Success? ==> form == PatchFromBook(fetched.value) && navigations == old(navigations)) &&
        (fetched.Failure? ==> form == old(form) && navigations == old(navigations) + [Navigate(BooksPath, None)])
      ensures errorMessage == old(errorMessage) && isSubmitting == old(isSubmitting)
    {
      Authors.LoadAuthors(authors, authorsLoaded);
      Stores.LoadStores(stores, storesLoaded);
      if routeId.Some? {
        isEditMode := true;
        bookId := routeId;
        var r := Books.GetById(books, fetched);
        match r {
          case Success(b) => form := PatchFromBook(b);
          case Failure(_) => navigations := navigations + [Navigate(BooksPath, None)];
        }
      }
    }

    /** `onSubmit`: nothing happens on an invalid form; otherwise the built
        request goes to `update(bookId, ...)` in edit mode and to `create`
        otherwise (the issued call is `op`). A saved book is shown; a
        failure is reported with the server message or the default text. */
    method OnSubmit(books: Books.BooksService, outcome: Outcome<Book>) returns (op: Option<SaveOp<BookRequest>>)
      requires Valid() && books.idOf == BookId
      modifies this, books
      ensures Valid()
      ensures form == old(form) && isEditMode == old(isEditMode) && bookId == old(bookId)
      ensures !ValidForm(form) ==>
        op.None? && errorMessage == old(errorMessage) && isSubmitting == old(isSubmitting) &&
        navigations == old(navigations) && books.State() == old(books.State())
      ensures ValidForm(form) ==>
        op == Some(SaveOpFor(bookId, BuildRequest(form))) && !isSubmitting &&
        books.State() == (if isEditMode then AfterUpdate(old(books.State()), BookId, bookId.value, outcome)
                          else AfterCreate(old(books.State()), outcome)) &&
        (outcome.Success? ==>
          errorMessage == None && navigations == old(navigations) + [Navigate(BooksPath, Some(outcome.value.id))]) &&
        (outcome.Failure? ==>
          errorMessage == Some(MessageOr(outcome.message, SaveFailed)) && navigations == old(navigations))
    {
      op := None;
      if ValidForm(form) {
        isSubmitting := true;
        errorMessage := None;
        var request := BuildRequest(form);
        op := Some(SaveOpFor(bookId, request));
        var r;
        if isEditMode {
          r := Books.Update(books, bookId.value, outcome);
        } else {
          r := Books.Create(books, outcome);
        }
        match r {
          case Success(b) =>
            isSubmitting := false;
            navigations := navigations + [Navigate(BooksPath, Some(b.id))];
          case Failure(m) =>
            isSubmitting := false;
            errorMessage := Some(MessageOr(m, SaveFailed));
        }
      }
    }

    /** `toggleStore(storeId)`: the selection is toggled and nothing else in
        the component changes. */
    method ToggleStore(storeId: int)
      modifies this
      ensures form == old(form).(storeIds := Toggle(old(form.storeIds), storeId))
      ensures isEditMode == old(isEditMode) && bookId == old(bookId)
      ensures errorMessage == old(errorMessage) && isSubmitting == old(isSubmitting)
      ensures navigations == old(navigations)
    {
      var currentIds := form.storeIds;
      var index := IndexOf(currentIds, storeId);
      if index > -1 {
        currentIds := currentIds[..index] + currentIds[index + 1..];
      } else {
        currentIds := currentIds + [storeId];
      }
      form := form.(storeIds := currentIds);
    }

    /** `isStoreSelected(storeId)`: `includes`, which agrees with the
        `indexOf` test `toggleStore` uses. */
    function IsStoreSelected(storeId: int): (r: bool)
      reads this
      ensures r <==> IndexOf(form.storeIds, storeId) != -1
    {
      storeId in form.storeIds
    }
  }
}
