/** features/users/users.service.ts: `UsersService` is the list holder of users
    (`ListService<User>` keyed by `UserId`), with this file's default error texts. */
module Users {
  import opened Wrappers
  import opened Models
  import opened EntityList

  type UsersService = ListService<User>

  const LoadFailed: string := "Failed to load users"

  /** The injectable's initial state: no users, nothing selected, idle. */
  method NewUsersService() returns (s: UsersService)
    ensures fresh(s) && s.idOf == UserId
    ensures s.State() == ListState([], None, false, None)
  {
    s := new ListService(UserId);
  }

  /** `loadUsers`: replaces the list, clearing the error first. */
  method LoadUsers(s: UsersService, outcome: Outcome<seq<User>>)
    modifies s
    ensures s.State() == AfterFetchList(old(s.State()), outcome, LoadFailed, true)
  {
    s.FetchList(outcome, LoadFailed, true);
  }

  /** `getById`: selects the fetched user; the error is left alone. */
  method GetById(s: UsersService, outcome: Outcome<User>) returns (r: Outcome<User>)
    modifies s
    ensures s.State() == AfterGetById(old(s.State()), outcome) && r == outcome
  {
    r := s.GetById(outcome);
  }

  /** `create`: appends the created user. */
  method Create(s: UsersService, outcome: Outcome<User>) returns (r: Outcome<User>)
    modifies s
    ensures s.State() == AfterCreate(old(s.State()), outcome) && r == outcome
  {
    r := s.Create(outcome);
  }

  /** `update(id, request)`: replaces the users with that id and selects the result. */
  method Update(s: UsersService, id: int, outcome: Outcome<User>) returns (r: Outcome<User>)
    requires s.idOf == UserId
    modifies s
    ensures s.State() == AfterUpdate(old(s.State()), UserId, id, outcome) && r == outcome
  {
    r := s.Update(id, outcome);
  }

  /** `delete(id)`: filters out the users with that id. */
  method Delete(s: UsersService, id: int, outcome: Outcome<()>) returns (r: Outcome<()>)
    requires s.idOf == UserId
    modifies s
    ensures s.State() == AfterDelete(old(s.State()), UserId, id, outcome) && r == outcome
  {
    r := s.Delete(id, outcome);
  }

  /** `clearSelectedUser`. */
  method ClearSelectedUser(s: UsersService)
    modifies s
    ensures s.State() == old(s.State()).(selected := None)
  {
    s.ClearSelected();
  }
}
