/** Resolving a tapped notification back to its record
    (Todos/TodosTableViewController.swift): the records are filtered by the
    request's identifier and the first survivor, if any, is shown. */
module TodoLookup {
  import opened Wrappers
  import opened Todos

  /** `filter { $0.id == id }`: the records carrying `id`, in order. */
  function Filter(s: seq<Todo>, id: string): (r: seq<Todo>)
    ensures |r| <= |s|
    ensures forall x :: x in r <==> x in s && x.id == id
    decreases |s|
  {
    if |s| == 0 then []
    else (if s[0].id == id then [s[0]] else []) + Filter(s[1..], id)
  }

  /** `filter { $0.id == id }.first`: the record a notification with
      identifier `id` resolves to, or `None` when it resolves to nothing. */
  function Lookup(todos: seq<Todo>, id: string): (r: Option<Todo>)
    ensures r.Some? ==> r.value.id == id && r.value in todos
  {
    var matches := Filter(todos, id);
    if |matches| == 0 then None else Some(matches[0])
  }

  /** The record at a position, as an option. */
  function At(s: seq<Todo>, i: Option<nat>): (r: Option<Todo>)
  {
    match i
    case Some(k) => if k < |s| then Some(s[k]) else None
    case None => None
  }

  /** The filtered sequence starts with the first match of `firstIndex`,
      and is empty exactly when `firstIndex` finds nothing. */
  lemma {:induction false} FilterStartsAtFirstMatch(s: seq<Todo>, id: string)
    ensures |Filter(s, id)| == 0 <==> FirstIndex(s, id).None?
    ensures |Filter(s, id)| > 0 ==> Some(Filter(s, id)[0]) == At(s, FirstIndex(s, id))
    decreases |s|
  {
    if |s| > 0 && s[0].id != id {
      FilterStartsAtFirstMatch(s[1..], id);
      assert Filter(s, id) == Filter(s[1..], id);
    }
  }

  /** Resolving a notification and `index(of:)` agree: both select the
      first record whose id matches. */
  lemma LookupIsFirstMatch(todos: seq<Todo>, id: string)
    ensures Lookup(todos, id) == At(todos, FirstIndex(todos, id))
    ensures Lookup(todos, id).None? <==> !HasId(todos, id)
  {
  }
}
