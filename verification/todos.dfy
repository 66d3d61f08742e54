/** The to-do record store of Todos/Todo.swift: the in-memory collection
    `Todo.all`, the JSON file it is persisted to, and the pending reminders the
    notification centre holds for it, keyed by record id.

    The store is a value; every operation is a pure transition that takes the
    outcome of the file write as a parameter and returns the next store. */
module Todos {
  import opened Wrappers

  /** A point in time. Foundation's `Date` is kept opaque: the model only
      compares dates for equality. */
  datatype Date = Date(sinceReference: int)

  /** One to-do record (`struct Todo`). */
  datatype Todo = Todo(title: string, due: Date, memo: Option<string>, shouldNotify: bool, id: string)

  /** A pending notification request registered under a record's id. Its
      body is the record's title and its calendar trigger is built from the
      record's due date. The trigger matches only the year, day, hour and
      minute of that date (the month is not among them), so it fires at the
      next date that agrees on those, which need not be the due date itself;
      the model keeps the date the trigger is built from.
      The fixed notification title, the sound and the badge are not modelled. */
  datatype Reminder = Reminder(body: string, triggerDate: Date)

  /** The three pieces of state: the in-memory collection, the last
      successfully written file contents (`None` while no readable file
      exists), and the notification centre's pending requests by identifier. */
  datatype Store = Store(all: seq<Todo>, disk: Option<seq<Todo>>, pending: map<string, Reminder>)

  /** What `save(completion:)` leaves behind: the next store, the returned
      flag, and whether `completion` was invoked. */
  datatype SaveOutcome = SaveOutcome(store: Store, success: bool, completed: bool)

  /** What `remove(id:)` leaves behind: the next store and the returned flag. */
  datatype RemoveOutcome = RemoveOutcome(store: Store, success: bool)

  /** Some record of `s` carries `id`. */
  ghost predicate HasId(s: seq<Todo>, id: string)
  {
    exists i :: 0 <= i < |s| && s[i].id == id
  }

  /** No two records of `s` share an id. */
  ghost predicate UniqueIds(s: seq<Todo>)
  {
    forall i, j :: 0 <= i < j < |s| ==> s[i].id != s[j].id
  }

  /** `i` is the smallest position of `s` whose record carries `id`. */
  ghost predicate IsFirstMatch(s: seq<Todo>, id: string, i: int)
  {
    && 0 <= i < |s|
    && s[i].id == id
    && forall j :: 0 <= j < i ==> s[j].id != id
  }

  // ---------------------------------------------------------------- search

  /** `firstIndex(where: { $0.id == id })`: the first position holding `id`,
      or `None` when no record carries it. */
  function FirstIndex(s: seq<Todo>, id: string): (r: Option<nat>)
    ensures r.Some? ==> IsFirstMatch(s, id, r.value)
    ensures r.None? <==> !HasId(s, id)
    decreases |s|
  {
    if |s| == 0 then None
    else if s[0].id == id then Some(0)
    else
      match FirstIndex(s[1..], id)
      case None => None
      case Some(k) => Some(k + 1)
  }

  /** The first match is unique, so `FirstIndex` finds exactly it. */
  lemma FirstIndexFindsFirstMatch(s: seq<Todo>, id: string, i: nat)
    requires IsFirstMatch(s, id, i)
    ensures FirstIndex(s, id) == Some(i)
  {
  }

  /** `index(of:)`: a linear scan for the first record whose id equals the
      target's id. */
  method IndexOf(all: seq<Todo>, target: Todo) returns (r: Option<nat>)
    ensures r.Some? ==> IsFirstMatch(all, target.id, r.value)
    ensures r.None? ==> forall j :: 0 <= j < |all| ==> all[j].id != target.id
  {
    var i := 0;
    while i < |all|
      invariant 0 <= i <= |all|
      invariant forall j :: 0 <= j < i ==> all[j].id != target.id
    {
      if all[i].id == target.id {
        return Some(i);
      }
      i := i + 1;
    }
    return None;
  }

  // ------------------------------------------------------ in-memory change

  /** The in-memory half of `save`: replace the first record with the same id
      in place, or append the record when its id is absent. */
  function Upsert(all: seq<Todo>, t: Todo): (r: seq<Todo>)
    // a present id keeps the length, an absent one is appended at the end
    ensures HasId(all, t.id) ==> |r| == |all|
    ensures !HasId(all, t.id) ==> |r| == |all| + 1 && r[|all|] == t
    // the first record carrying the id is replaced; every other position is kept
    ensures forall i :: IsFirstMatch(all, t.id, i) ==> r[i] == t
    ensures forall j :: 0 <= j < |all| && !IsFirstMatch(all, t.id, j) ==> r[j] == all[j]
  {
    match FirstIndex(all, t.id)
    case Some(i) => all[i := t]
    case None => all + [t]
  }

  /** The in-memory half of `remove(id:)`: drop the record at position `i`. */
  function DeleteAt(all: seq<Todo>, i: nat): (r: seq<Todo>)
    requires i < |all|
    ensures |r| == |all| - 1
    ensures forall j :: 0 <= j < i ==> r[j] == all[j]
    ensures forall j :: i <= j < |r| ==> r[j] == all[j + 1]
  {
    all[..i] + all[i + 1..]
  }

  // ------------------------------------------------------------ reminders

  /** `addNotification(todo:)`: register a request under the record's id,
      replacing any request already pending under it. */
  function AddNotification(pending: map<string, Reminder>, t: Todo): (r: map<string, Reminder>)
    ensures t.id in r && r[t.id].body == t.title && r[t.id].triggerDate == t.due
    ensures r - {t.id} == pending - {t.id}
  {
    pending[t.id := Reminder(t.title, t.due)]
  }

  /** `removeNotification(todo:)`: withdraw the request pending under the
      record's id, if any. */
  function RemoveNotification(pending: map<string, Reminder>, t: Todo): (r: map<string, Reminder>)
    ensures t.id !in r
    ensures r - {t.id} == pending - {t.id}
  {
    pending - {t.id}
  }

  /** The reminder step `save` runs after a successful write: schedule when
      `shouldNotify` holds, withdraw otherwise. */
  function Sync(pending: map<string, Reminder>, t: Todo): (r: map<string, Reminder>)
    ensures t.id in r <==> t.shouldNotify
    ensures t.shouldNotify ==> r[t.id] == Reminder(t.title, t.due)
    ensures r - {t.id} == pending - {t.id}
  {
    if t.shouldNotify then AddNotification(pending, t) else RemoveNotification(pending, t)
  }

  // ---------------------------------------------------------- persistence

  /** `saveToJSONFile`: an atomic whole-file write of `all`. When it succeeds
      the file holds exactly `all`; when it fails the file keeps its old
      contents. Encoding and the file system are not modelled. */
  function Persist(all: seq<Todo>, disk: Option<seq<Todo>>, ok: bool): Option<seq<Todo>>
  {
    if ok then Some(all) else disk
  }

  /** `loadTodosFromJSONFile`: the stored collection, or the empty collection
      when the file is missing or cannot be decoded (`None`). */
  function Load(file: Option<seq<Todo>>): seq<Todo>
  {
    match file
    case Some(todos) => todos
    case None => []
  }

  /** The store at first access of `Todo.all`: the collection is loaded from
      the file; reminders registered by earlier runs are still pending. */
  function Init(file: Option<seq<Todo>>, pending: map<string, Reminder>): (s: Store)
    ensures s.disk == file
    ensures s.disk.Some? ==> s.all == s.disk.value
    ensures s.disk.None? ==> s.all == []
    ensures s.pending == pending
  {
    Store(Load(file), file, pending)
  }

  // ----------------------------------------------------------- operations

  /** `save(completion:)`. On an update the old reminder is withdrawn before
      the write; the in-memory change is kept whether or not the write
      succeeds; only a successful write syncs the reminder and runs
      `completion`. */
  function Save(s: Store, t: Todo, persistOk: bool): (r: SaveOutcome)
    // the in-memory change is applied on both paths
    ensures r.store.all == Upsert(s.all, t)
    ensures r.success == persistOk
    ensures r.completed <==> r.success
    ensures r.success ==> r.store.disk == Some(r.store.all)
    ensures !r.success ==> r.store.disk == s.disk
    // reminders
    ensures r.success ==> (t.id in r.store.pending <==> t.shouldNotify)
    ensures r.success && t.shouldNotify ==> r.store.pending[t.id] == Reminder(t.title, t.due)
    ensures !r.success && HasId(s.all, t.id) ==> t.id !in r.store.pending
    ensures !r.success && !HasId(s.all, t.id) ==> r.store.pending == s.pending
    ensures r.store.pending - {t.id} == s.pending - {t.id}
  {
    var (all', pending') :=
      match FirstIndex(s.all, t.id)
      case Some(i) => (s.all[i := t], RemoveNotification(s.pending, t))
      case None => (s.all + [t], s.pending);
    var disk' := Persist(all', s.disk, persistOk);
    if persistOk then
      SaveOutcome(Store(all', disk', Sync(pending', t)), true, true)
    else
      SaveOutcome(Store(all', disk', pending'), false, false)
  }

  /** `remove(id:)`: delete the first record carrying `id` and write the
      file. An absent id returns false with nothing changed. The pending
      reminders are never touched. */
  function Remove(s: Store, id: string, persistOk: bool): (r: RemoveOutcome)
    ensures !HasId(s.all, id) ==> r.store == s && !r.success
    ensures HasId(s.all, id) ==> |r.store.all| == |s.all| - 1 && r.success == persistOk
    ensures HasId(s.all, id) && persistOk ==> r.store.disk == Some(r.store.all)
    ensures HasId(s.all, id) && !persistOk ==> r.store.disk == s.disk
    ensures r.store.pending == s.pending
  {
    match FirstIndex(s.all, id)
    case None => RemoveOutcome(s, false)
    case Some(i) =>
      var all' := DeleteAt(s.all, i);
      RemoveOutcome(Store(all', Persist(all', s.disk, persistOk), s.pending), persistOk)
  }
}
