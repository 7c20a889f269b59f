/** features/stores/stores.service.ts: `StoresService` is the list holder of stores
    (`ListService<Store>` keyed by `StoreId`), with this file's default error texts. */
module Stores {
  import opened Wrappers
  import opened Models
  import opened EntityList

  type StoresService = ListService<Store>

  const LoadFailed: string := "Failed to load stores"
  const SearchFailed: string := "Search failed"

  /** The injectable's initial state: no stores, nothing selected, idle. */
  method NewStoresService() returns (s: StoresService)
    ensures fresh(s) && s.idOf == StoreId
    ensures s.State() == ListState([], None, false, None)
  {
    s := new ListService(StoreId);
  }

  /** `loadStores`: replaces the list, clearing the error first. */
  method LoadStores(s: StoresService, outcome: Outcome<seq<Store>>)
    modifies s
    ensures s.State() == AfterFetchList(old(s.State()), outcome, LoadFailed, true)
  {
    s.FetchList(outcome, LoadFailed, true);
  }

  /** `getById`: selects the fetched store; the error is left alone. */
  method GetById(s: StoresService, outcome: Outcome<Store>) returns (r: Outcome<Store>)
    modifies s
    ensures s.State() == AfterGetById(old(s.State()), outcome) && r == outcome
  {
    r := s.GetById(outcome);
  }

  /** `searchByName`: replaces the list with the matches, clearing the error first. */
  method SearchByName(s: StoresService, outcome: Outcome<seq<Store>>)
    modifies s
    ensures s.State() == AfterFetchList(old(s.State()), outcome, SearchFailed, true)
  {
    s.FetchList(outcome, SearchFailed, true);
  }

  /** `create`: appends the created store. */
  method Create(s: StoresService, outcome: Outcome<Store>) returns (r: Outcome<Store>)
    modifies s
    ensures s.State() == AfterCreate(old(s.State()), outcome) && r == outcome
  {
    r := s.Create(outcome);
  }

  /** `update(id, request)`: replaces the stores with that id and selects the result. */
  method Update(s: StoresService, id: int, outcome: Outcome<Store>) returns (r: Outcome<Store>)
    requires s.idOf == StoreId
    modifies s
    ensures s.State() == AfterUpdate(old(s.State()), StoreId, id, outcome) && r == outcome
  {
    r := s.Update(id, outcome);
  }

  /** `delete(id)`: filters out the stores with that id. */
  method Delete(s: StoresService, id: int, outcome: Outcome<()>) returns (r: Outcome<()>)
    requires s.idOf == StoreId
    modifies s
    ensures s.State() == AfterDelete(old(s.State()), StoreId, id, outcome) && r == outcome
  {
    r := s.Delete(id, outcome);
  }

  /** `clearSelectedStore`. */
  method ClearSelectedStore(s: StoresService)
    modifies s
    ensures s.State() == old(s.State()).(selected := None)
  {
    s.ClearSelected();
  }
}
