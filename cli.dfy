/** The commands as they run: one command loads the collection, changes the
    loaded list and its records in place, and hands the changed list back for
    saving. */
module Cli {
  import opened Tasks

  /** The list loaded from the backing file for one command run. */
  class TaskList {
    var tasks: seq<Task>

    /** Wraps what the load step returned. */
    constructor (loaded: seq<Task>)
      ensures tasks == loaded
    {
      tasks := loaded;
    }

    /** Linear search for the first record with the requested id. */
    method FindTaskById(id: int) returns (r: Option<nat>)
      ensures r.Some? ==> r.value < |tasks| && tasks[r.value].id == id
      ensures r.Some? ==> forall j :: 0 <= j < r.value ==> tasks[j].id != id
      ensures r.None? ==> forall j :: 0 <= j < |tasks| ==> tasks[j].id != id
      ensures r == FindIndex(tasks, id)
    {
      var i := 0;
      while i < |tasks|
        invariant 0 <= i <= |tasks|
        invariant forall j :: 0 <= j < i ==> tasks[j].id != id
      {
        if tasks[i].id == id {
          return Some(i);
        }
        i := i + 1;
      }
      return None;
    }

    /** add: appends a fresh todo record numbered one past the current length. */
    method Add(description: string, now: Timestamp) returns (o: Outcome)
      modifies this
      ensures tasks == AddTask(old(tasks), description, now)
      ensures o == Ok(tasks)
    {
      var count := |tasks| + 1;
      tasks := tasks + [NewTask(count, description, now)];
      o := Ok(tasks);
    }

    /** update: new description and modification time for the record found. */
    method Update(id: int, description: string, now: Timestamp) returns (o: Outcome)
      modifies this
      ensures o == UpdateTask(old(tasks), id, description, now)
      ensures tasks == Persisted(o, old(tasks))
    {
      if |tasks| == 0 {
        return EmptyCollection;
      }
      var found := FindTaskById(id);
      if found.None? {
        return NotFound;
      }
      var i := found.value;
      tasks := tasks[i := tasks[i].(description := description, updatedAt := Some(now))];
      o := Ok(tasks);
    }

    /** delete: removes the record found, then renumbers the rest by position. */
    method Delete(id: int) returns (o: Outcome)
      modifies this
      ensures o == DeleteTask(old(tasks), id)
      ensures tasks == Persisted(o, old(tasks))
    {
      if |tasks| == 0 {
        return EmptyCollection;
      }
      var found := FindTaskById(id);
      if found.None? {
        return NotFound;
      }
      tasks := RemoveAt(tasks, found.value);
      ghost var remaining := tasks;
      var k := 0;
      while k < |tasks|
        invariant 0 <= k <= |tasks| == |remaining|
        invariant forall j :: 0 <= j < k ==> tasks[j] == remaining[j].(id := j + 1)
        invariant forall j :: k <= j < |tasks| ==> tasks[j] == remaining[j]
      {
        tasks := tasks[k := tasks[k].(id := k + 1)];
        k := k + 1;
      }
      assert tasks == Renumber(remaining);
      o := Ok(tasks);
    }

    /** mark-in-progress. */
    method MarkInProgress(id: int, now: Timestamp) returns (o: Outcome)
      modifies this
      ensures o == MarkStatus(old(tasks), id, InProgress, now)
      ensures tasks == Persisted(o, old(tasks))
    {
      o := SetStatus(id, InProgress, now);
    }

    /** mark-done. */
    method MarkDone(id: int, now: Timestamp) returns (o: Outcome)
      modifies this
      ensures o == MarkStatus(old(tasks), id, Done, now)
      ensures tasks == Persisted(o, old(tasks))
    {
      o := SetStatus(id, Done, now);
    }

    /** The body the two mark commands share: a record already in `target`
        is left alone, modification time included. */
    method SetStatus(id: int, target: string, now: Timestamp) returns (o: Outcome)
      modifies this
      ensures o == MarkStatus(old(tasks), id, target, now)
      ensures tasks == Persisted(o, old(tasks))
    {
      if |tasks| == 0 {
        return EmptyCollection;
      }
      var found := FindTaskById(id);
      if found.None? {
        return NotFound;
      }
      var i := found.value;
      if tasks[i].status == target {
        return AlreadyInState;
      }
      tasks := tasks[i := tasks[i].(status := target, updatedAt := Some(now))];
      o := Ok(tasks);
    }
  }
}
