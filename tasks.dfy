/** Task records of the command-line task tracker and what each command does
    to the collection loaded from the backing file, stated on values.

    Every mutating command ends in an Outcome: only `Ok` carries a collection,
    and that collection is the one written back; every other outcome is a
    reported condition after which nothing is written. */
module Tasks {

  datatype Option<+T> = None | Some(value: T)

  /** The ISO-8601 text of the clock reading taken once per command run. */
  type Timestamp = string

  /** The three statuses the commands themselves assign or test for. Statuses
      are kept as text: a loaded file may hold any string there. */
  const Todo: string := "todo"
  const InProgress: string := "in-progress"
  const Done: string := "done"

  datatype Task = Task(
    id: int,
    description: string,
    status: string,
    createdAt: Timestamp,
    updatedAt: Option<Timestamp>)

  /** How a mutating command ends. */
  datatype Outcome =
    | EmptyCollection        // no tasks at all; nothing written
    | NotFound               // no task has the requested id; nothing written
    | AlreadyInState         // a mark command found the target status already set; nothing written
    | Ok(saved: seq<Task>)   // the collection written back

  /** How a listing command ends. */
  datatype Listing =
    | NoTasks                // list-all on an empty collection
    | NoTasksWithStatus      // list found no task with the requested status
    | Lines(lines: seq<string>)

  /** The collection the backing file holds once the command has finished. */
  function Persisted(o: Outcome, loaded: seq<Task>): seq<Task>
  {
    if o.Ok? then o.saved else loaded
  }

  /** Ids are exactly 1..n in collection order. */
  predicate DenseIds(ts: seq<Task>)
  {
    forall i :: 0 <= i < |ts| ==> ts[i].id == i + 1
  }

  predicate HasId(ts: seq<Task>, id: int)
  {
    exists i :: 0 <= i < |ts| && ts[i].id == id
  }

  /** Two records that agree on everything but the id. */
  predicate SameExceptId(a: Task, b: Task)
  {
    a.description == b.description && a.status == b.status &&
    a.createdAt == b.createdAt && a.updatedAt == b.updatedAt
  }

  /** `ts'` differs from `ts` at most at position `i`. */
  predicate OthersUnchanged(ts: seq<Task>, ts': seq<Task>, i: int)
  {
    |ts'| == |ts| && forall j :: 0 <= j < |ts| && j != i ==> ts'[j] == ts[j]
  }

  /** Position of the first task whose id is `id`; the record the lookup
      hands back is the one at that position. */
  function FindIndex(ts: seq<Task>, id: int): (r: Option<nat>)
    ensures r.Some? ==> r.value < |ts| && ts[r.value].id == id
    ensures r.Some? ==> forall j :: 0 <= j < r.value ==> ts[j].id != id
    ensures r.None? <==> !HasId(ts, id)
  {
    if |ts| == 0 then None
    else if ts[0].id == id then Some(0)
    else
      match FindIndex(ts[1..], id)
      case None =>
        assert forall j :: 1 <= j < |ts| ==> ts[j] == ts[1..][j - 1];
        None
      case Some(k) =>
        assert forall j :: 1 <= j <= k ==> ts[j] == ts[1..][j - 1];
        Some(k + 1)
  }

  /** The record `add` creates. */
  function NewTask(id: int, description: string, now: Timestamp): Task
  {
    Task(id, description, Todo, now, None)
  }

  /** The add command: one new record at the end, numbered one past the length. */
  function AddTask(ts: seq<Task>, description: string, now: Timestamp): (r: seq<Task>)
    ensures |r| == |ts| + 1 && r[..|ts|] == ts
    ensures r[|ts|].id == |ts| + 1 && r[|ts|].description == description
    ensures r[|ts|].status == Todo && r[|ts|].createdAt == now && r[|ts|].updatedAt == None
    ensures DenseIds(ts) ==> DenseIds(r)
  {
    ts + [NewTask(|ts| + 1, description, now)]
  }

  /** The update command. */
  function UpdateTask(ts: seq<Task>, id: int, description: string, now: Timestamp): (o: Outcome)
    ensures o.EmptyCollection? <==> |ts| == 0
    ensures o.NotFound? <==> |ts| > 0 && !HasId(ts, id)
    ensures !o.AlreadyInState?
    ensures o.Ok? ==> HasId(ts, id)
    ensures o.Ok? ==>
      var i := FindIndex(ts, id).value;
      OthersUnchanged(ts, o.saved, i) &&
      o.saved[i].description == description && o.saved[i].updatedAt == Some(now) &&
      o.saved[i].id == ts[i].id && o.saved[i].status == ts[i].status &&
      o.saved[i].createdAt == ts[i].createdAt
    ensures o.Ok? && DenseIds(ts) ==> DenseIds(o.saved)
  {
    if |ts| == 0 then EmptyCollection
    else
      match FindIndex(ts, id)
      case None => NotFound
      case Some(i) => Ok(ts[i := ts[i].(description := description, updatedAt := Some(now))])
  }

  /** The collection without the record at position `i`. */
  function RemoveAt<T>(s: seq<T>, i: nat): seq<T>
    requires i < |s|
  {
    s[..i] + s[i + 1..]
  }

  /** Every record gets its 1-based position as its id; nothing else changes. */
  function Renumber(ts: seq<Task>): (r: seq<Task>)
    ensures |r| == |ts| && DenseIds(r)
    ensures forall j :: 0 <= j < |ts| ==> SameExceptId(r[j], ts[j])
  {
    seq(|ts|, j requires 0 <= j < |ts| => ts[j].(id := j + 1))
  }

  /** The delete command. */
  function DeleteTask(ts: seq<Task>, id: int): (o: Outcome)
    ensures o.EmptyCollection? <==> |ts| == 0
    ensures o.NotFound? <==> |ts| > 0 && !HasId(ts, id)
    ensures !o.AlreadyInState?
    ensures o.Ok? ==> HasId(ts, id) && |o.saved| == |ts| - 1 && DenseIds(o.saved)
    ensures o.Ok? ==>
      var i := FindIndex(ts, id).value;
      forall j :: 0 <= j < |o.saved| ==> SameExceptId(o.saved[j], ts[if j < i then j else j + 1])
  {
    if |ts| == 0 then EmptyCollection
    else
      match FindIndex(ts, id)
      case None => NotFound
      case Some(i) => Ok(Renumber(RemoveAt(ts, i)))
  }

  /** The mark-in-progress and mark-done commands, for target status `target`. */
  function MarkStatus(ts: seq<Task>, id: int, target: string, now: Timestamp): (o: Outcome)
    ensures o.EmptyCollection? <==> |ts| == 0
    ensures o.NotFound? <==> |ts| > 0 && !HasId(ts, id)
    ensures o.AlreadyInState? <==> HasId(ts, id) && ts[FindIndex(ts, id).value].status == target
    ensures o.Ok? ==> HasId(ts, id)
    ensures o.Ok? ==>
      var i := FindIndex(ts, id).value;
      ts[i].status != target &&
      OthersUnchanged(ts, o.saved, i) &&
      o.saved[i].status == target && o.saved[i].updatedAt == Some(now) &&
      o.saved[i].id == ts[i].id && o.saved[i].description == ts[i].description &&
      o.saved[i].createdAt == ts[i].createdAt
    ensures o.Ok? && DenseIds(ts) ==> DenseIds(o.saved)
  {
    if |ts| == 0 then EmptyCollection
    else
      match FindIndex(ts, id)
      case None => NotFound
      case Some(i) =>
        if ts[i].status == target then AlreadyInState
        else Ok(ts[i := ts[i].(status := target, updatedAt := Some(now))])
  }

  /** Descriptions of the tasks whose status is exactly `status`, in collection order. */
  function Matching(ts: seq<Task>, status: string): (r: seq<string>)
    ensures |r| <= |ts|
    ensures r == [] <==> forall i :: 0 <= i < |ts| ==> ts[i].status != status
    ensures forall d :: d in r ==> exists i :: 0 <= i < |ts| && ts[i].status == status && ts[i].description == d
  {
    if |ts| == 0 then []
    else
      assert forall i :: 1 <= i < |ts| ==> ts[i] == ts[1..][i - 1];
      (if ts[0].status == status then [ts[0].description] else []) + Matching(ts[1..], status)
  }

  /** Descriptions of all tasks, in collection order. */
  function Descriptions(ts: seq<Task>): seq<string>
  {
    seq(|ts|, i requires 0 <= i < |ts| => ts[i].description)
  }

  /** The list command: the filter is compared as text, so an unknown status matches nothing. */
  function ListTasks(ts: seq<Task>, status: string): (l: Listing)
    ensures !l.NoTasks?
    ensures l.NoTasksWithStatus? <==> forall i :: 0 <= i < |ts| ==> ts[i].status != status
    ensures l.Lines? ==> l.lines == Matching(ts, status) && l.lines != []
  {
    var found := Matching(ts, status);
    if found == [] then NoTasksWithStatus else Lines(found)
  }

  /** The list-all command. */
  function ListAll(ts: seq<Task>): (l: Listing)
    ensures !l.NoTasksWithStatus?
    ensures l.NoTasks? <==> |ts| == 0
    ensures l.Lines? ==> |l.lines| == |ts| && forall i :: 0 <= i < |ts| ==> l.lines[i] == ts[i].description
  {
    if |ts| == 0 then NoTasks else Lines(Descriptions(ts))
  }
}
