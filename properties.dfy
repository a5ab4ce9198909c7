/** Properties that relate several commands, or one command to the
    id numbering and the listings. */
module TaskProperties {
  import opened Tasks

  /** With ids 1..n, the lookup finds id k at position k - 1 and nothing
      outside 1..n. */
  lemma DenseLookup(ts: seq<Task>, id: int)
    requires DenseIds(ts)
    ensures FindIndex(ts, id) == if 1 <= id <= |ts| then Some(id - 1) else None
  {
    if 1 <= id <= |ts| {
      assert ts[id - 1].id == id;
    }
  }

  /** A run of add commands, one (description, clock reading) pair per run. */
  function AddAll(ts: seq<Task>, requests: seq<(string, Timestamp)>): seq<Task>
    decreases |requests|
  {
    if requests == [] then ts
    else AddAll(AddTask(ts, requests[0].0, requests[0].1), requests[1..])
  }

  /** Adds keep the old records and number each new one on from the length
      the collection had before it, in call order; a store numbered 1..n
      stays numbered 1..n + N, so from an empty store the ids are 1..N. */
  lemma {:induction false} AddAllNumbersInOrder(ts: seq<Task>, requests: seq<(string, Timestamp)>)
    decreases |requests|
    ensures var r := AddAll(ts, requests);
      |r| == |ts| + |requests| && r[..|ts|] == ts &&
      (DenseIds(ts) ==> DenseIds(r)) &&
      forall j :: |ts| <= j < |r| ==>
        r[j].id == j + 1 &&
        r[j].description == requests[j - |ts|].0 && r[j].createdAt == requests[j - |ts|].1 &&
        r[j].status == Todo && r[j].updatedAt == None
  {
    if requests != [] {
      var ts' := AddTask(ts, requests[0].0, requests[0].1);
      AddAllNumbersInOrder(ts', requests[1..]);
      var r := AddAll(ts, requests);
      assert r == AddAll(ts', requests[1..]);
      assert r[..|ts|] == r[..|ts'|][..|ts|];
      assert r[|ts|] == r[..|ts'|][|ts|];
      forall j | |ts'| <= j < |r|
        ensures r[j].description == requests[j - |ts|].0 && r[j].createdAt == requests[j - |ts|].1
      {
        assert requests[j - |ts|] == requests[1..][j - |ts'|];
      }
    }
  }

  /** The two lookups agree when the ids agree position by position. */
  lemma FindIndexSeesOnlyIds(ts: seq<Task>, ts': seq<Task>, id: int)
    requires |ts| == |ts'|
    requires forall j :: 0 <= j < |ts| ==> ts[j].id == ts'[j].id
    ensures FindIndex(ts, id) == FindIndex(ts', id)
  {
  }

  /** A second identical mark command reports the status as already set,
      whatever its clock reading, so the modification time moves once. */
  lemma MarkTwiceIsNoOp(ts: seq<Task>, id: int, target: string, now: Timestamp, later: Timestamp)
    requires MarkStatus(ts, id, target, now).Ok?
    ensures MarkStatus(MarkStatus(ts, id, target, now).saved, id, target, later) == AlreadyInState
  {
  }

  /** Marking can move a done task back to in progress. */
  lemma DoneCanReopen(ts: seq<Task>, id: int, now: Timestamp)
    requires HasId(ts, id) && ts[FindIndex(ts, id).value].status == Done
    ensures MarkStatus(ts, id, InProgress, now).Ok?
  {
  }

  /** On a collection numbered 1..n, delete keeps the records below the
      deleted id as they were and moves every later record down by one. */
  lemma DeleteShiftsLaterIds(ts: seq<Task>, id: int)
    requires DenseIds(ts) && 1 <= id <= |ts|
    ensures DeleteTask(ts, id).Ok?
    ensures var saved := DeleteTask(ts, id).saved;
      (forall j :: 0 <= j < id - 1 ==> saved[j] == ts[j]) &&
      (forall j :: id <= j < |ts| ==> saved[j - 1] == ts[j].(id := ts[j].id - 1))
  {
    DenseLookup(ts, id);
    var saved := DeleteTask(ts, id).saved;
    forall j | id <= j < |ts|
      ensures saved[j - 1] == ts[j].(id := ts[j].id - 1)
    {
      assert SameExceptId(saved[j - 1], ts[j]);
    }
  }

  /** The descriptions after a delete are the earlier ones with exactly the
      deleted record's taken out, the others in their old order; list-all
      shows them, or reports no tasks when the deleted record was the last. */
  lemma DeleteThenListAll(ts: seq<Task>, id: int)
    requires DeleteTask(ts, id).Ok?
    ensures var i := FindIndex(ts, id).value;
      Descriptions(DeleteTask(ts, id).saved) == RemoveAt(Descriptions(ts), i)
    ensures var i := FindIndex(ts, id).value;
      ListAll(DeleteTask(ts, id).saved) ==
        if |ts| == 1 then NoTasks else Lines(RemoveAt(Descriptions(ts), i))
  {
  }

  /** The list filter keeps collection order: it distributes over concatenation. */
  lemma {:induction false} MatchingAppend(a: seq<Task>, b: seq<Task>, status: string)
    ensures Matching(a + b, status) == Matching(a, status) + Matching(b, status)
  {
    if a == [] {
      assert a + b == b;
    } else {
      var head := if a[0].status == status then [a[0].description] else [];
      assert (a + b)[0] == a[0] && (a + b)[1..] == a[1..] + b;
      assert Matching(a + b, status) == head + Matching(a[1..] + b, status);
      MatchingAppend(a[1..], b, status);
    }
  }

  /** The filter on one record: its description when its status matches.
      With MatchingAppend this fixes the filter on every collection. */
  lemma MatchingSingle(t: Task, status: string)
    ensures Matching([t], status) == if t.status == status then [t.description] else []
  {
  }

  /** Every record carries one of the three statuses the commands assign. */
  predicate KnownStatuses(ts: seq<Task>)
  {
    forall i :: 0 <= i < |ts| ==> ts[i].status in {Todo, InProgress, Done}
  }

  /** Listing todo, in-progress and done tasks shows each task once. */
  lemma {:induction false} StatusListingsPartition(ts: seq<Task>)
    requires KnownStatuses(ts)
    ensures |Matching(ts, Todo)| + |Matching(ts, InProgress)| + |Matching(ts, Done)| == |ts|
  {
    if ts != [] {
      assert KnownStatuses(ts[1..]) by {
        assert forall i :: 1 <= i < |ts| ==> ts[i] == ts[1..][i - 1];
      }
      StatusListingsPartition(ts[1..]);
    }
  }

  /** A listing with a status no record carries, or a status outside the
      three, reports that no task has it. */
  lemma UnknownStatusListsNothing(ts: seq<Task>, status: string)
    requires KnownStatuses(ts) && status !in {Todo, InProgress, Done}
    ensures ListTasks(ts, status) == NoTasksWithStatus
  {
  }

  /** No command introduces a status outside the three. */
  lemma CommandsKeepStatusesKnown(ts: seq<Task>, id: int, description: string, target: string, now: Timestamp)
    requires KnownStatuses(ts) && target in {InProgress, Done}
    ensures KnownStatuses(AddTask(ts, description, now))
    ensures KnownStatuses(Persisted(UpdateTask(ts, id, description, now), ts))
    ensures KnownStatuses(Persisted(DeleteTask(ts, id), ts))
    ensures KnownStatuses(Persisted(MarkStatus(ts, id, target, now), ts))
  {
  }

  /** Empty store, then add("buy milk"): one todo record numbered 1. */
  lemma AddToEmptyStore(now: Timestamp)
    ensures AddTask([], "buy milk", now) == [Task(1, "buy milk", Todo, now, None)]
  {
  }

  /** Ids [1, 2, 3], then delete(2): the first and third records remain, numbered 1 and 2. */
  lemma DeleteMiddleOfThree(a: Task, b: Task, c: Task)
    requires a.id == 1 && b.id == 2 && c.id == 3
    ensures DeleteTask([a, b, c], 2) == Ok([a, c.(id := 2)])
  {
    DenseLookup([a, b, c], 2);
  }

  /** One todo record, then mark-in-progress twice: the first call changes
      status and time, the second reports the status as already set. */
  lemma MarkInProgressTwice(t: Task, now: Timestamp, later: Timestamp)
    requires t.id == 1 && t.status == Todo
    ensures MarkStatus([t], 1, InProgress, now) == Ok([t.(status := InProgress, updatedAt := Some(now))])
    ensures MarkStatus([t.(status := InProgress, updatedAt := Some(now))], 1, InProgress, later) == AlreadyInState
  {
  }

  /** An empty store lists nothing under list-all. */
  lemma ListAllOnEmptyStore()
    ensures ListAll([]) == NoTasks
  {
  }
}
