# Todos record store, modelled in Dafny

A model of the record store of the Todos iOS app (`Todos/Todo.swift`): the
ordered in-memory collection of to-do records (`Todo.all`), the JSON file it
is written to, and the reminders the notification centre holds for the
records, keyed by record id. The operations are `index(of:)` (first match by
id), `save(completion:)` (upsert by id, write the file, then sync the
reminder), `remove(id:)` (delete the first match by id, write the file),
loading at first access, and the lookup the table view controller runs when a
reminder is tapped.

The store is an immutable value `Store(all, disk, pending)`:

- `all` is the in-memory collection.
- `disk` is the last successfully written file contents. It is `None` while no readable file exists.
- `pending` maps a record id to its pending reminder, which holds a body and the date its trigger is built from.

Every operation is a pure function. It takes the outcome of the file write as
a boolean and returns the next store together with what the Swift method
returns.

Files:

- `wrappers.dfy`: `Option`.
- `todos.dfy`: the records, the search, the in-memory change, the reminder updates, persistence, `Save` and `Remove`.
- `lookup.dfy`: resolving a tapped reminder's identifier to a record.
- `properties.dfy`: lemmas relating the operations: id uniqueness, idempotence, save-then-load, remove-then-lookup, and the reminder invariant.

Three behaviours of the code are easy to miss:

- `remove(id:)` never withdraws the record's reminder. `TodoProperties.RemoveCanOrphanReminder` shows the reminder outliving its record.
- On an update, `save` withdraws the old reminder before writing the file. If the write then fails, the reminder is not restored.
- A failed write does not roll back the in-memory change.

## Model

| member | source | states |
|---|---|---|
| Todos.FirstIndex | Todos/Todo.swift:59-61 | the result is the smallest position whose record carries the id, and it is absent exactly when no record carries it |
| Todos.FirstIndexFindsFirstMatch | Todos/Todo.swift:88-94 | any position that is the first match is the one the search returns |
| Todos.IndexOf | Todos/Todo.swift:88-94 | the linear scan returns the first position whose id equals the target's id, and returns nothing only when no position matches; by `Todos.FirstIndexFindsFirstMatch` this is the position the first-match search returns |
| Todos.Upsert | Todos/Todo.swift:67-72 | a present id keeps the length and replaces exactly its first record, leaving every other position unchanged; an absent id grows the length by one and appends the record after the unchanged earlier records |
| Todos.DeleteAt | Todos/Todo.swift:62 | removing at a position shortens the collection by one, keeps the records before it and shifts the records after it down by one |
| Todos.AddNotification | Todos/Todo.swift:99-125 | the request under the record's id now has the record's title as body and a trigger built from its due date; requests under other ids are untouched |
| Todos.RemoveNotification | Todos/Todo.swift:127-130 | no request remains under the record's id; requests under other ids are untouched |
| Todos.Sync | Todos/Todo.swift:76-81 | a request under the record's id exists iff the record asks to be notified, and then it carries the record's title and a trigger built from its due date; other ids are untouched |
| Todos.Init | Todos/Todo.swift:22 | at first access the store's file is the given file, and the collection agrees with it, or is empty when there is no readable file; pending reminders are carried over |
| Todos.Save | Todos/Todo.swift:66-86 | the in-memory upsert happens whether or not the write succeeds; the result and the completion call both equal the write outcome; the file holds the collection after success and is unchanged after failure; after success a reminder exists for the id iff the record asks for one, with its title as body; after a failed update the id's reminder is gone; after a failed insert the reminders are unchanged; reminders under other ids are never touched |
| Todos.Remove | Todos/Todo.swift:57-64 | an absent id returns false and changes nothing; a present id shortens the collection by one, returns the write outcome, and updates the file only on success; reminders are never changed |
| TodoLookup.Filter | Todos/TodosTableViewController.swift:126-128 | every kept record carries the id and comes from the input, and every input record carrying the id is kept |
| TodoLookup.Lookup | Todos/TodosTableViewController.swift:124-130 | a resolved record carries the tapped identifier and belongs to the collection |
| TodoLookup.FilterStartsAtFirstMatch | Todos/TodosTableViewController.swift:126-128 | the filtered records are empty iff the first-match search finds nothing, and otherwise start with the first match |
| TodoLookup.LookupIsFirstMatch | Todos/TodosTableViewController.swift:126-130 | resolving an identifier picks the same record as the first-match search, and finds nothing iff no record carries the id |
| TodoProperties.SavePreservesUniqueIds | Todos/Todo.swift:67-71 | if ids are pairwise distinct before a save they are pairwise distinct after it |
| TodoProperties.SaveIsIdempotent | Todos/Todo.swift:66-86 | two successful saves of the same record leave the same store and outcome as one |
| TodoProperties.SaveThenLoad | Todos/Todo.swift:30-51 | after a successful save, loading the file and resolving the id yields exactly the saved record |
| TodoProperties.SavePreservesRemindersMatch | Todos/Todo.swift:66-86 | if every pending reminder matches a record that asks to be notified, with its title and a trigger built from its due date, this still holds after any save, successful or not |
| TodoProperties.RemoveAbsentWritesNothing | Todos/Todo.swift:57-61 | removing an absent id gives the same outcome whatever the write would have returned, so no write happens; it returns false and leaves the store unchanged |
| TodoProperties.RemoveDeletesFirstMatch | Todos/Todo.swift:59-62 | removing a present id deletes exactly its first record; the records before and after keep their relative order |
| TodoProperties.RemovePreservesUniqueIds | Todos/Todo.swift:57-64 | if ids are pairwise distinct before a removal they are pairwise distinct after it |
| TodoProperties.RemoveThenLookup | Todos/Todo.swift:57-64 | with distinct ids, a removed id no longer resolves in memory, nor in the file after a successful write |
| TodoProperties.RemoveCanOrphanReminder | Todos/Todo.swift:57-64 | a store whose reminders all match their records can, by one successful removal, reach a store with a pending reminder whose id resolves to nothing |
| TodoProperties.ScenarioSaveUpdateRemove | Todos/Todo.swift:57-86 | save with a reminder, re-save with notification off, then remove: the file holds the record, then the updated record, then nothing; the reminder is scheduled, then withdrawn |

## Left out

- JSON encoding and decoding and the file URL are not modelled. The write is one step whose success is a parameter, and a load sees either a stored collection or nothing readable.
- The notification centre is reduced to its pending requests keyed by identifier. An add overwrites the request under that id. Its asynchronous completion handler only logs, so it is not modelled.
- The fixed notification title, sound and badge are not modelled.
- The due date is opaque. The calendar trigger is built from the year, day, hour and minute of the due date and omits the month, so it fires at the next date agreeing on those fields, not necessarily at the due date. That decomposition is a calendar call and is not modelled; a reminder records the date its trigger is built from.
- Todos.Persist: the atomic file write is a definition, not a proved property. A successful write leaves the file holding exactly the collection and a failed one leaves the old contents. `TodoProperties.SaveThenLoad` and `TodoProperties.RemoveThenLookup` state what the store promises through it.
- Todos.Load: reading the file is a definition, not a proved property. A readable file yields its stored collection; a missing or undecodable file yields the empty collection.
- Todos.Save: the reminder clauses assume that registering a request with the notification centre succeeds. In the app, `center.add` can fail, for example when notification permission was refused at launch; the failure is only logged and the request is then not pending.
- Todos.Sync: assumes registration succeeds, as for `Todos.Save`.
- Record ids are compared with sequence equality on characters. Swift's `String ==` uses Unicode canonical equivalence. The two agree on ASCII ids such as UUID strings, but not on ids that differ only in normalisation form.
- Locating the application-support directory uses `try!`, which stops the app instead of yielding the empty collection or a failed write. The model assumes the directory is available.
- TodoLookup.Lookup: the tap handler filters the table view controller's own copy of the collection, which is taken when the controller is created and refreshed each time its view appears. It does not filter `Todo.all` directly. The model applies the lookup to any given collection; `TodoProperties.RemoveThenLookup` and `TodoProperties.RemoveCanOrphanReminder` apply it to `all`, which equals that copy only after a refresh.
- Delivery of a reminder is not modelled, and neither is the badge reset.
- The table and detail view controllers are not modelled: data source, cell rendering, date formatting, segues and navigation. Only the lookup used when a reminder is tapped is modelled.
- The app delegate is not modelled. It only requests notification permission and installs the delegate.
- Error logging (`print`) is not modelled.
