/** The list-holder pattern shared by the books, authors, stores and users
    services: a list of entities, the selected entity, a loading flag and an
    error message, patched locally after successful writes (create appends,
    update replaces by id, delete filters by id).

    `ListService<T>` is that service for an entity type `T` whose id is
    `idOf`. Each operation takes the outcome of its HTTP call and is
    specified by a transition function on `ListState<T>`; the properties the
    services promise are lemmas about those functions.
 */
module EntityList {
  import opened Wrappers

  datatype ListState<T> = ListState(items: seq<T>, selected: Option<T>, loading: bool, error: Option<string>)

  /** `items.map(x => x.id === id ? updated : x)`. */
  function ReplaceById<T>(xs: seq<T>, idOf: T -> int, id: int, updated: T): (r: seq<T>)
    ensures |r| == |xs|
    ensures forall i :: 0 <= i < |xs| ==> r[i] == if idOf(xs[i]) == id then updated else xs[i]
  {
    if xs == [] then []
    else [if idOf(xs[0]) == id then updated else xs[0]] + ReplaceById(xs[1..], idOf, id, updated)
  }

  /** `items.filter(x => x.id !== id)`. */
  function RemoveById<T>(xs: seq<T>, idOf: T -> int, id: int): (r: seq<T>)
    ensures |r| <= |xs|
    ensures forall i :: 0 <= i < |r| ==> r[i] in xs && idOf(r[i]) != id
    ensures forall i :: 0 <= i < |xs| && idOf(xs[i]) != id ==> xs[i] in r
  {
    if xs == [] then []
    else (if idOf(xs[0]) == id then [] else [xs[0]]) + RemoveById(xs[1..], idOf, id)
  }

  /** Filtering distributes over concatenation, so the survivors keep their
      relative order. */
  lemma {:induction false} RemoveByIdAppend<T>(a: seq<T>, b: seq<T>, idOf: T -> int, id: int)
    ensures RemoveById(a + b, idOf, id) == RemoveById(a, idOf, id) + RemoveById(b, idOf, id)
  {
    if a == [] {
      assert a + b == b;
    } else {
      assert (a + b)[1..] == a[1..] + b;
      RemoveByIdAppend(a[1..], b, idOf, id);
    }
  }

  /** A list without the id is left exactly as it is. */
  lemma {:induction false} RemoveByIdAbsent<T>(xs: seq<T>, idOf: T -> int, id: int)
    requires forall i :: 0 <= i < |xs| ==> idOf(xs[i]) != id
    ensures RemoveById(xs, idOf, id) == xs
  {
    if xs != [] {
      RemoveByIdAbsent(xs[1..], idOf, id);
    }
  }

  /** Deleting the same id twice removes no more than deleting it once. */
  lemma RemoveByIdIdempotent<T>(xs: seq<T>, idOf: T -> int, id: int)
    ensures RemoveById(RemoveById(xs, idOf, id), idOf, id) == RemoveById(xs, idOf, id)
  {
    RemoveByIdAbsent(RemoveById(xs, idOf, id), idOf, id);
  }

  /** An update that keeps the id, followed by a delete of that id, leaves
      the same list as the delete alone. */
  lemma {:induction false} DeleteAfterUpdate<T>(xs: seq<T>, idOf: T -> int, id: int, updated: T)
    requires idOf(updated) == id
    ensures RemoveById(ReplaceById(xs, idOf, id, updated), idOf, id) == RemoveById(xs, idOf, id)
  {
    if xs != [] {
      var r := ReplaceById(xs, idOf, id, updated);
      assert r[1..] == ReplaceById(xs[1..], idOf, id, updated);
      DeleteAfterUpdate(xs[1..], idOf, id, updated);
    }
  }

  /** The ids of a list, in order. */
  function Ids<T>(xs: seq<T>, idOf: T -> int): (ids: seq<int>)
    ensures |ids| == |xs| && forall i :: 0 <= i < |xs| ==> ids[i] == idOf(xs[i])
  {
    seq(|xs|, i requires 0 <= i < |xs| => idOf(xs[i]))
  }

  /** An update whose result keeps the id leaves the list's ids unchanged,
      position by position. */
  lemma UpdateKeepsIds<T>(xs: seq<T>, idOf: T -> int, id: int, updated: T)
    requires idOf(updated) == id
    ensures Ids(ReplaceById(xs, idOf, id, updated), idOf) == Ids(xs, idOf)
  {
  }

  // ---- transitions -------------------------------------------------------

  /** A list fetch (`loadX`, `searchByX`, and the book finders): on success the
      list is replaced wholesale; on failure it stays and the error is the
      server message or `fallback`. `resetError` says whether the error is
      cleared when the request starts. Loading ends false either way. */
  function AfterFetchList<T>(st: ListState<T>, outcome: Outcome<seq<T>>, fallback: string, resetError: bool): (r: ListState<T>)
    ensures r.selected == st.selected && !r.loading
    ensures r.items == (if outcome.Success? then outcome.value else st.items)
    ensures r.error.None? <==> outcome.Success? && (resetError || st.error.None?)
  {
    var error := if resetError then None else st.error;
    match outcome
    case Success(xs) => st.(items := xs, loading := false, error := error)
    case Failure(m) => st.(loading := false, error := Some(MessageOr(m, fallback)))
  }

  /** `getById`: the fetched entity becomes the selection. */
  function AfterGetById<T>(st: ListState<T>, outcome: Outcome<T>): (r: ListState<T>)
    ensures r.items == st.items && r.error == st.error && !r.loading
    ensures r.selected == (if outcome.Success? then Some(outcome.value) else st.selected)
  {
    match outcome
    case Success(x) => st.(selected := Some(x), loading := false)
    case Failure(_) => st.(loading := false)
  }

  /** `create`: the created entity is appended. */
  function AfterCreate<T>(st: ListState<T>, outcome: Outcome<T>): (r: ListState<T>)
    ensures r.selected == st.selected && r.error == st.error && !r.loading
    ensures |r.items| == |st.items| + (if outcome.Success? then 1 else 0)
    ensures r.items[..|st.items|] == st.items
    ensures outcome.Success? ==> r.items[|st.items|] == outcome.value
  {
    match outcome
    case Success(x) => st.(items := st.items + [x], loading := false)
    case Failure(_) => st.(loading := false)
  }

  /** `update(id, ...)`: entries with that id become the returned entity,
      which is also selected. */
  function AfterUpdate<T>(st: ListState<T>, idOf: T -> int, id: int, outcome: Outcome<T>): (r: ListState<T>)
    ensures r.error == st.error && !r.loading && |r.items| == |st.items|
    ensures r.selected == (if outcome.Success? then Some(outcome.value) else st.selected)
    ensures forall i :: 0 <= i < |st.items| && idOf(st.items[i]) != id ==> r.items[i] == st.items[i]
    ensures outcome.Success? ==>
      forall i :: 0 <= i < |st.items| && idOf(st.items[i]) == id ==> r.items[i] == outcome.value
  {
    match outcome
    case Success(x) => st.(items := ReplaceById(st.items, idOf, id, x), selected := Some(x), loading := false)
    case Failure(_) => st.(loading := false)
  }

  /** `delete(id)`: entries with that id are filtered out. */
  function AfterDelete<T>(st: ListState<T>, idOf: T -> int, id: int, outcome: Outcome<()>): (r: ListState<T>)
    ensures r.selected == st.selected && r.error == st.error && !r.loading
    ensures |r.items| <= |st.items|
    ensures outcome.Success? ==> forall i :: 0 <= i < |r.items| ==> idOf(r.items[i]) != id
    ensures outcome.Failure? ==> r.items == st.items
  {
    match outcome
    case Success(_) => st.(items := RemoveById(st.items, idOf, id), loading := false)
    case Failure(_) => st.(loading := false)
  }

  // ---- what the transitions promise ---------------------------------------

  /** A fetch never touches the selection and always ends not loading; success
      replaces the list and (for a resetting fetch) leaves no error; failure
      keeps the last good list beside a non-empty error. */
  lemma FetchListContract<T>(st: ListState<T>, outcome: Outcome<seq<T>>, fallback: string, resetError: bool)
    requires fallback != ""
    ensures var s' := AfterFetchList(st, outcome, fallback, resetError);
      s'.selected == st.selected && !s'.loading &&
      (outcome.Success? ==> s'.items == outcome.value &&
                            s'.error == (if resetError then None else st.error)) &&
      (outcome.Failure? ==> s'.items == st.items && s'.error.Some? && s'.error.value != "" &&
                            s'.error == Some(MessageOr(outcome.message, fallback)))
  {
  }

  /** Failed writes and failed fetches of one entity leave list, selection and
      error exactly as they were, except that loading ends. */
  lemma FailedWritesKeepState<T>(st: ListState<T>, idOf: T -> int, id: int, m: Option<string>)
    ensures AfterGetById(st, Failure(m)) == st.(loading := false)
    ensures AfterCreate(st, Failure(m)) == st.(loading := false)
    ensures AfterUpdate(st, idOf, id, Failure(m)) == st.(loading := false)
    ensures AfterDelete(st, idOf, id, Failure(m)) == st.(loading := false)
  {
  }

  /** A successful create keeps every earlier entry in place and adds the new
      entity as the last one. */
  lemma CreateAppends<T>(st: ListState<T>, x: T)
    ensures var s' := AfterCreate(st, Success(x));
      |s'.items| == |st.items| + 1 && s'.items[..|st.items|] == st.items &&
      s'.items[|st.items|] == x && s'.selected == st.selected && s'.error == st.error
  {
  }

  /** Creating an entity with a fresh id and then deleting that id gives the
      list back. */
  lemma CreateThenDelete<T>(st: ListState<T>, idOf: T -> int, x: T)
    requires forall i :: 0 <= i < |st.items| ==> idOf(st.items[i]) != idOf(x)
    ensures AfterDelete(AfterCreate(st, Success(x)), idOf, idOf(x), Success(())).items == st.items
  {
    RemoveByIdAppend(st.items, [x], idOf, idOf(x));
    RemoveByIdAbsent(st.items, idOf, idOf(x));
    assert RemoveById([x], idOf, idOf(x)) == [];
  }

  /** A successful update keeps the length, replaces exactly the entries with
      the id, leaves the others in place, and selects the returned entity. */
  lemma UpdateReplaces<T>(st: ListState<T>, idOf: T -> int, id: int, x: T)
    ensures var s' := AfterUpdate(st, idOf, id, Success(x));
      |s'.items| == |st.items| && s'.selected == Some(x) && s'.error == st.error &&
      (forall i :: 0 <= i < |st.items| && idOf(st.items[i]) == id ==> s'.items[i] == x) &&
      (forall i :: 0 <= i < |st.items| && idOf(st.items[i]) != id ==> s'.items[i] == st.items[i])
  {
  }

  /** A successful delete leaves no entry with the id, keeps every other
      entry, and (splitting the list anywhere) keeps their order. */
  lemma DeleteFilters<T>(st: ListState<T>, idOf: T -> int, id: int, k: nat)
    requires k <= |st.items|
    ensures var s' := AfterDelete(st, idOf, id, Success(()));
      (forall i :: 0 <= i < |s'.items| ==> s'.items[i] in st.items && idOf(s'.items[i]) != id) &&
      (forall i :: 0 <= i < |st.items| && idOf(st.items[i]) != id ==> st.items[i] in s'.items) &&
      s'.items == RemoveById(st.items[..k], idOf, id) + RemoveById(st.items[k..], idOf, id) &&
      s'.selected == st.selected && s'.error == st.error
  {
    assert st.items == st.items[..k] + st.items[k..];
    RemoveByIdAppend(st.items[..k], st.items[k..], idOf, id);
  }

  class ListService<T> {
    var items: seq<T>
    var selected: Option<T>
    var loading: bool
    var error: Option<string>
    const idOf: T -> int

    /** The service's signals start as `[]`, null, false and null. */
    constructor (idOf: T -> int)
      ensures State() == ListState([], None, false, None)
      ensures this.idOf == idOf
    {
      this.idOf := idOf;
      items := [];
      selected := None;
      loading := false;
      error := None;
    }

    function State(): ListState<T>
      reads this
    {
      ListState(items, selected, loading, error)
    }

    /** `xCount`: a computed signal over the list. */
    function Count(): (n: nat)
      reads this
      ensures n == |State().items|
    {
      |items|
    }

    method FetchList(outcome: Outcome<seq<T>>, fallback: string, resetError: bool)
      modifies this
      ensures State() == AfterFetchList(old(State()), outcome, fallback, resetError)
    {
      loading := true;
      if resetError {
        error := None;
      }
      match outcome {
        case Success(xs) => items := xs;
        case Failure(m) => error := Some(MessageOr(m, fallback));
      }
      loading := false;
    }

    method GetById(outcome: Outcome<T>) returns (r: Outcome<T>)
      modifies this
      ensures State() == AfterGetById(old(State()), outcome)
      ensures r == outcome
    {
      loading := true;
      if outcome.Success? {
        selected := Some(outcome.value);
      }
      loading := false;
      r := outcome;
    }

    method Create(outcome: Outcome<T>) returns (r: Outcome<T>)
      modifies this
      ensures State() == AfterCreate(old(State()), outcome)
      ensures r == outcome
    {
      loading := true;
      if outcome.Success? {
        items := items + [outcome.value];
      }
      loading := false;
      r := outcome;
    }

    method Update(id: int, outcome: Outcome<T>) returns (r: Outcome<T>)
      modifies this
      ensures State() == AfterUpdate(old(State()), idOf, id, outcome)
      ensures r == outcome
    {
      loading := true;
      if outcome.Success? {
        items := ReplaceById(items, idOf, id, outcome.value);
        selected := Some(outcome.value);
      }
      loading := false;
      r := outcome;
    }

    method Delete(id: int, outcome: Outcome<()>) returns (r: Outcome<()>)
      modifies this
      ensures State() == AfterDelete(old(State()), idOf, id, outcome)
      ensures r == outcome
    {
      loading := true;
      if outcome.Success? {
        items := RemoveById(items, idOf, id);
      }
      loading := false;
      r := outcome;
    }

    method ClearSelected()
      modifies this
      ensures State() == old(State()).(selected := None)
    {
      selected := None;
    }

    method ClearError()
      modifies this
      ensures State() == old(State()).(error := None)
    {
      error := None;
    }
  }
}
