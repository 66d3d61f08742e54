/** Properties of the record store that relate several calls: upsert and
    delete positions, id uniqueness, round trips through the file, and which
    operations keep the pending reminders in step with the records. */
module TodoProperties {
  import opened Wrappers
  import opened Todos
  import opened TodoLookup

  /** Every pending reminder belongs to a record that asks to be notified,
      and carries that record's title and due date. */
  ghost predicate RemindersMatch(s: Store)
  {
    forall id :: id in s.pending ==>
      exists i :: 0 <= i < |s.all| && s.all[i].id == id && s.all[i].shouldNotify
                  && s.pending[id] == Reminder(s.all[i].title, s.all[i].due)
  }

  // ----------------------------------------------------------------- save

  /** Saving never introduces a second record with the same id. */
  lemma SavePreservesUniqueIds(s: Store, t: Todo, persistOk: bool)
    requires UniqueIds(s.all)
    ensures UniqueIds(Save(s, t, persistOk).store.all)
  {
  }

  /** Saving the same record twice in a row, both times successfully, is the
      same as saving it once: one record and one reminder for its id. */
  lemma SaveIsIdempotent(s: Store, t: Todo)
    ensures var once := Save(s, t, true);
      Save(once.store, t, true) == once
  {
    var once := Save(s, t, true);
    var all1 := once.store.all;
    match FirstIndex(s.all, t.id)
    case Some(i) =>
      assert IsFirstMatch(all1, t.id, i);
      assert Save(once.store, t, true).store.all == all1;
    case None =>
      var n := |s.all|;
      forall j | 0 <= j < n
        ensures all1[j].id != t.id
      {
        assert all1[j] == s.all[j];
      }
      assert IsFirstMatch(all1, t.id, n);
      assert Save(once.store, t, true).store.all == all1;
  }

  /** After a successful save, loading the file back resolves the record's id
      to exactly the saved record. */
  lemma SaveThenLoad(s: Store, t: Todo)
    ensures var r := Save(s, t, true);
      Lookup(Load(r.store.disk), t.id) == Some(t)
  {
    var all' := Save(s, t, true).store.all;
    match FirstIndex(s.all, t.id)
    case Some(i) =>
      assert IsFirstMatch(all', t.id, i);
      LookupIsFirstMatch(all', t.id);
    case None =>
      forall j | 0 <= j < |s.all|
        ensures all'[j].id != t.id
      {
        assert all'[j] == s.all[j];
      }
      assert IsFirstMatch(all', t.id, |s.all|);
      LookupIsFirstMatch(all', t.id);
  }

  /** Save keeps every pending reminder in step with its record, whether or
      not the write succeeds. */
  lemma SavePreservesRemindersMatch(s: Store, t: Todo, persistOk: bool)
    requires RemindersMatch(s)
    ensures RemindersMatch(Save(s, t, persistOk).store)
  {
  }

  // --------------------------------------------------------------- remove

  /** Removing an id that is absent makes no write: the outcome is the same
      whatever the write would have returned. */
  lemma RemoveAbsentWritesNothing(s: Store, id: string)
    requires !HasId(s.all, id)
    ensures Remove(s, id, true) == Remove(s, id, false) == RemoveOutcome(s, false)
  {
  }

  /** Removing a present id deletes exactly its first record and keeps the
      others in their relative order. */
  lemma RemoveDeletesFirstMatch(s: Store, id: string, persistOk: bool, i: nat)
    requires IsFirstMatch(s.all, id, i)
    ensures var all' := Remove(s, id, persistOk).store.all;
      && all'[..i] == s.all[..i]
      && all'[i..] == s.all[i + 1..]
      && multiset(all') + multiset{s.all[i]} == multiset(s.all)
  {
    FirstIndexFindsFirstMatch(s.all, id, i);
    var all' := Remove(s, id, persistOk).store.all;
    assert all' == s.all[..i] + s.all[i + 1..];
    assert s.all == s.all[..i] + [s.all[i]] + s.all[i + 1..];
  }

  /** Removing never introduces a second record with the same id. */
  lemma RemovePreservesUniqueIds(s: Store, id: string, persistOk: bool)
    requires UniqueIds(s.all)
    ensures UniqueIds(Remove(s, id, persistOk).store.all)
  {
  }

  /** In a store with unique ids, a removed id no longer resolves, neither in
      memory nor, after a successful write, in the file. */
  lemma RemoveThenLookup(s: Store, id: string, persistOk: bool)
    requires UniqueIds(s.all)
    ensures var r := Remove(s, id, persistOk);
      && Lookup(r.store.all, id) == None
      && (r.success ==> Lookup(Load(r.store.disk), id) == None)
  {
  }

  /** Removing a record leaves its reminder pending: a store whose reminders
      all matched their records can reach one whose reminder resolves to
      nothing. */
  lemma RemoveCanOrphanReminder()
    ensures exists s: Store, id: string ::
      && RemindersMatch(s)
      && var r := Remove(s, id, true);
         !RemindersMatch(r.store) && id in r.store.pending && Lookup(r.store.all, id) == None
  {
    var t := Todo("Buy milk", Date(0), None, true, "1");
    var s := Store([t], Some([t]), map["1" := Reminder("Buy milk", Date(0))]);
    assert s.all[0] == t;
    assert RemindersMatch(s);
    var r := Remove(s, "1", true);
    assert r.store.all == [];
    assert "1" in r.store.pending;
    assert Lookup(r.store.all, "1") == None;
  }

  // ------------------------------------------------------------- scenario

  /** An empty store; a record saved with a reminder; the same id saved again
      with notification off; then removed. */
  lemma ScenarioSaveUpdateRemove(t1: Date, t2: Date)
    ensures var s0 := Init(None, map[]);
      var a := Todo("Buy milk", t1, None, true, "1");
      var b := Todo("Buy milk", t2, None, false, "1");
      var r1 := Save(s0, a, true);
      var r2 := Save(r1.store, b, true);
      var r3 := Remove(r2.store, "1", true);
      && Load(r1.store.disk) == [a]
      && r1.store.pending == map["1" := Reminder("Buy milk", t1)]
      && Load(r2.store.disk) == [b]
      && r2.store.pending == map[]
      && r3.success
      && Load(r3.store.disk) == []
  {
  }
}
