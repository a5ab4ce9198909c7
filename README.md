# Task tracker: the collection commands, in Dafny

This project models the command layer of a small command-line task tracker.
Each command loads the list of task records from a backing file, changes it,
and writes it back. A record holds an `id`, a `description`, a `status`, a
`createdAt` time and an optional `updatedAt` time. The commands are `add`,
`update`, `delete`, `mark-in-progress`, `mark-done`, `list` and `list-all`.
The lookup by id that most of them share is modelled too.

Layout:

- `tasks.dfy`, module `Tasks`: the record type and the outcome types. It also
  holds each command as a function on the loaded collection. Every mutating
  command returns an `Outcome`: `EmptyCollection`, `NotFound` or
  `AlreadyInState` mean nothing is written, and `Ok(saved)` carries the
  collection that is written back. `Persisted` gives what the backing file
  holds after a command. The contracts state the check order (empty collection
  before lookup), the error cases, what the changed record looks like and that
  no other record changes.
- `cli.dfy`, module `Cli`: class `TaskList` holds the loaded list and runs each
  mutating command the way the source does, in place. The two listing
  commands are functions in `Tasks`. It has the linear search, the
  in-place edits of the found record, the removal and the renumbering loop.
  Each method is proved equal to its function in `Tasks`.
- `properties.dfy`, module `TaskProperties`: lemmas that relate commands to
  each other, to the dense numbering of ids and to the listings. It also
  holds four worked examples (add to an empty store, delete the middle of
  three tasks, mark in progress twice, list-all on an empty store).

The clock reading (`now.isoformat()`) is a `Timestamp` parameter, the ISO
text taken once per run. The loaded collection is an input and the saved
collection an output. Printed messages are the cases of `Outcome` and
`Listing`.

What the code does and does not check:

- The code does not check that a description is non-empty or that a status
  is one of the three values, so statuses are kept as text. `KnownStatuses`
  states the three-value invariant, and
  `TaskProperties.CommandsKeepStatusesKnown` proves that every command keeps it.
- `list` has one message for "no match", whether or not the collection is
  empty (`NoTasksWithStatus`). Only `list-all` reports an empty collection
  (`NoTasks`).
- Ids are not checked on load. Lookup returns the first record with the id,
  whatever the numbering. The dense 1..n numbering is a property that every
  command keeps (`DenseIds`), not a precondition.

## Model

| member | source | states |
|---|---|---|
| Tasks.FindIndex | cli.py:26-30 | the first position whose record has the requested id; None exactly when no record has it |
| Cli.TaskList.FindTaskById | cli.py:26-30 | the linear search returns the first position with the id, or None when no record has it; it agrees with `FindIndex` |
| Tasks.AddTask | cli.py:32-43 | add appends exactly one record: id = old length + 1, status todo, createdAt = now, no updatedAt; earlier records unchanged; ids 1..n become 1..n+1 |
| Cli.TaskList.Add | cli.py:32-44 | the in-place append leaves the list equal to `AddTask` of the old list, and that list is written |
| Tasks.UpdateTask | cli.py:46-60 | empty collection is reported before lookup; a missing id is reported as not found; in both cases nothing is written. Otherwise only the found record changes: new description, updatedAt = now, same id, status and createdAt |
| Cli.TaskList.Update | cli.py:46-60 | the in-place edit gives the outcome of `UpdateTask`; the list changes only when the outcome is a write |
| Tasks.Renumber | cli.py:74-75 | after renumbering the ids are exactly 1..n by position and nothing but the ids changes |
| Tasks.DeleteTask | cli.py:62-78 | empty and not-found cases as for update. Otherwise one record fewer, the rest in their old relative order with all but the id unchanged, ids exactly 1..n-1 |
| Cli.TaskList.Delete | cli.py:62-78 | removal at the found position, then the renumbering loop, gives the outcome and list of `DeleteTask` |
| Tasks.MarkStatus | cli.py:80-118 | empty and not-found cases as for update. AlreadyInState exactly when the found record already has the target status, with nothing written. Otherwise only that record changes: status = target, updatedAt = now, other fields kept |
| Cli.TaskList.MarkInProgress | cli.py:80-98 | gives the outcome and list of `MarkStatus` with target in-progress |
| Cli.TaskList.MarkDone | cli.py:100-118 | gives the outcome and list of `MarkStatus` with target done |
| Cli.TaskList.SetStatus | cli.py:82-117 | the empty check, lookup, status test and in-place status and time change shared by both mark commands (cli.py:82-97 and 102-117) agree with `MarkStatus` |
| Tasks.Matching | cli.py:122 | the filter result is empty exactly when no record has the status, holds only descriptions of records with that status, and is no longer than the collection |
| Tasks.ListTasks | cli.py:120-128 | "no tasks with this status" exactly when no record's status equals the filter text; otherwise the matching descriptions |
| Tasks.ListAll | cli.py:130-136 | "no tasks" exactly on an empty collection; otherwise every description in collection order |
| TaskProperties.DenseLookup | cli.py:26-30 | on ids 1..n, lookup of k finds position k-1, and ids outside 1..n are not found |
| TaskProperties.AddAllNumbersInOrder | cli.py:33-42 | a run of adds keeps the old records and gives the new record at position j the id j + 1, with its request's description and time, in call order; a store numbered 1..n stays densely numbered, so from empty the ids are 1..N |
| TaskProperties.FindIndexSeesOnlyIds | cli.py:26-30 | lookup depends only on the ids, so edits that keep ids keep every lookup |
| TaskProperties.MarkTwiceIsNoOp | cli.py:80-118 | a second identical mark after a successful one reports AlreadyInState, whatever its clock, so updatedAt moves once |
| TaskProperties.DoneCanReopen | cli.py:91-96 | a done task can be marked in progress again |
| TaskProperties.DeleteShiftsLaterIds | cli.py:73-75 | on ids 1..n, delete of k keeps records 1..k-1 as they were and gives each later record its old id minus one |
| TaskProperties.DeleteThenListAll | cli.py:73-77 | the descriptions after delete are the earlier ones with exactly the deleted record's removed, the rest in order; list-all then shows them as lines, or reports no tasks when the deleted record was the only one |
| TaskProperties.MatchingAppend | cli.py:122 | the list filter keeps collection order: it distributes over concatenation |
| TaskProperties.MatchingSingle | cli.py:122 | on one record the filter gives its description exactly when its status matches; with `MatchingAppend` this fixes the filter's result, order and multiplicity on every collection |
| TaskProperties.StatusListingsPartition | cli.py:122 | when all statuses are known, listing todo, in-progress and done together shows as many lines as there are tasks |
| TaskProperties.UnknownStatusListsNothing | cli.py:120-126 | when every record's status is one of the three, a filter outside them reports no tasks with that status |
| TaskProperties.CommandsKeepStatusesKnown | cli.py:32-118 | from a store whose statuses are all todo, in-progress or done, no command writes any other status |
| TaskProperties.AddToEmptyStore | cli.py:33-42 | add("buy milk") on an empty store gives one todo record with id 1 and no updatedAt |
| TaskProperties.DeleteMiddleOfThree | cli.py:73-75 | delete(2) on ids [1,2,3] keeps the first record and renumbers the third to 2 |
| TaskProperties.MarkInProgressTwice | cli.py:91-97 | a todo task marked in progress changes status and time; a second mark reports AlreadyInState |
| TaskProperties.ListAllOnEmptyStore | cli.py:132-134 | list-all on an empty store reports that there are no tasks |

## Left out

- Loading and saving (cli.py:10-24): file handles, JSON parsing and
  serialisation, the missing-file case and the reset of a non-list file to an
  empty list. The loaded list is the argument of each function, or of the
  `TaskList` constructor. The saved list is `Ok(saved)`.
- The clock (`datetime.datetime.now()` and `isoformat()`): the timestamp text
  is a parameter.
- Argument parsing and dispatch (`main`, cli.py:138-176), and the wording of
  the printed messages. The messages are the cases of `Outcome` and `Listing`.
  The joining of listed lines with newlines is left out as well.
- Malformed records in the file. An id stored as text, such as "1", never
  equals the requested id (cli.py:28), so such a record is never found; an id
  read as the float 1.0 or as `true` does equal 1 and is found. A missing key that is read
  raises `KeyError`; a missing `description` or `updatedAt` is created by the
  assignments at cli.py:57-58. The model does not represent such records: it
  assumes every record has the five fields with the types above.
- `tasks.remove(task)` removes the first element equal to the found record.
  Every earlier element has a different id, so that is the found position.
  The model removes by position and does not model equality of records.
- Aliasing between the record returned by the lookup and the list element is
  modelled by returning the position and updating the list at it.
- Concurrent runs and crashes part-way through a write, which the source
  does not handle.
