/** features/authors/author-list/author-list.component.ts: the paginated list
    page over the authors service; a failed delete has no handler, so the
    dialog stays open. */
module AuthorList {
  import opened Models
  import opened ListPage
  import Authors

  type AuthorListComponent = PagedList<Author>

  method NewAuthorListComponent() returns (c: AuthorListComponent)
    ensures fresh(c) && c.Valid()
    ensures c.searchQuery == "" && !c.deleteDialogOpen && c.pendingDelete.None?
    ensures c.idOf == AuthorId && c.loadFailed == Authors.LoadFailed && !c.closesOnDeleteError
  {
    c := new PagedList(AuthorId, Authors.LoadFailed, false);
  }
}
