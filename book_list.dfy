/** features/books/book-list/book-list.component.ts: the paginated list page
    over the books service, whose failed deletes close the dialog. */
module BookList {
  import opened Models
  import opened ListPage
  import Books

  type BookListComponent = PagedList<Book>

  method NewBookListComponent() returns (c: BookListComponent)
    ensures fresh(c) && c.Valid()
    ensures c.searchQuery == "" && !c.deleteDialogOpen && c.pendingDelete.None?
    ensures c.idOf == BookId && c.loadFailed == Books.LoadFailed && c.closesOnDeleteError
  {
    c := new PagedList(BookId, Books.LoadFailed, true);
  }
}
