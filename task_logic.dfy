/** The task manager of test-data/complex-app/logic.py: `Task` objects that
    move from "pending" to "completed", and a `TaskManager` holding a list of
    them. Loading from and saving to the JSON data file are left to the
    caller; the clock and the random id generator are parameters. */
module TaskLogic {
  import opened Wrappers
  import opened Text

  /** The JSON-representable scalars a task's attributes can hold. */
  datatype Json = JNull | JBool(b: bool) | JInt(i: int) | JStr(s: string)

  datatype Failure = ValueError(message: string) | KeyError(key: string)

  /** An ISO timestamp from the clock; never empty. */
  type Stamp = s: string | |s| > 0 witness "0"

  /** Python truthiness. */
  predicate Truthy(v: Json)
  {
    match v
    case JNull => false
    case JBool(b) => b
    case JInt(i) => i != 0
    case JStr(s) => s != ""
  }

  /** `str(v)`. */
  function PyStr(v: Json): string
  {
    match v
    case JNull => "None"
    case JBool(b) => if b then "True" else "False"
    case JInt(i) => if i < 0 then "-" + NatToString(-i) else NatToString(i)
    case JStr(s) => s
  }

  /** An integer id and its decimal text name the same task. */
  lemma IntAndTextIdsAgree()
    ensures PyStr(JInt(42)) == PyStr(JStr("42"))
    ensures PyStr(JInt(-7)) == "-7"
  {
    assert NatToString(4) == "4";
    assert NatToString(42) == NatToString(4) + [DigitChar(2)];
    assert NatToString(7) == "7";
  }

  /** The five attributes of a task, as a value. */
  datatype TaskFields = TaskFields(id: Json, description: Json, status: Json, createdAt: Json, completedAt: Json)

  /** What `Task.__init__` stores: a missing id is generated, an empty or
      missing creation time is taken from the clock. */
  function InitFields(description: Json, taskId: Json, status: Json, createdAt: Json, completedAt: Json,
                      freshId: string, now: Stamp): (f: TaskFields)
    ensures f.id != JNull && Truthy(f.createdAt)
    ensures taskId != JNull ==> f.id == taskId
    ensures Truthy(createdAt) ==> f.createdAt == createdAt
    ensures f.description == description && f.status == status && f.completedAt == completedAt
  {
    TaskFields(if taskId != JNull then taskId else JStr(freshId),
               description, status,
               if Truthy(createdAt) then createdAt else JStr(now),
               completedAt)
  }

  /** What every constructed task satisfies. */
  predicate Constructed(f: TaskFields)
  {
    f.id != JNull && Truthy(f.createdAt)
  }

  /** `to_dict` on a task with these attributes. */
  function DictOf(f: TaskFields): (d: map<string, Json>)
    ensures d.Keys == {"id", "description", "status", "created_at", "completed_at"}
  {
    map["id" := f.id, "description" := f.description, "status" := f.status,
        "created_at" := f.createdAt, "completed_at" := f.completedAt]
  }

  /** `data.get(key)`. */
  function Get(data: map<string, Json>, key: string): Json
  {
    if key in data then data[key] else JNull
  }

  /** `Task.from_dict(data)`: `description`, `id` and `status` are required,
      and are looked up in that order; the two timestamps are optional. */
  function FromDictFields(data: map<string, Json>, freshId: string, now: Stamp): (r: Result<TaskFields, Failure>)
    ensures r.Err? <==> !("description" in data && "id" in data && "status" in data)
    ensures r.Err? ==> r.error == KeyError(if "description" !in data then "description"
                                         else if "id" !in data then "id" else "status")
  {
    if "description" !in data then Err(KeyError("description"))
    else if "id" !in data then Err(KeyError("id"))
    else if "status" !in data then Err(KeyError("status"))
    else Ok(InitFields(data["description"], data["id"], data["status"],
                       Get(data, "created_at"), Get(data, "completed_at"), freshId, now))
  }

  /** `from_dict(to_dict())` rebuilds the same attributes, whatever id and
      clock are at hand. */
  lemma DictRoundTrip(f: TaskFields, freshId: string, now: Stamp)
    requires Constructed(f)
    ensures FromDictFields(DictOf(f), freshId, now) == Ok(f)
  {
  }

  class Task {
    var id: Json
    var description: Json
    var status: Json
    var createdAt: Json
    var completedAt: Json

    function Fields(): TaskFields
      reads this
    {
      TaskFields(id, description, status, createdAt, completedAt)
    }

    predicate Valid()
      reads this
    {
      Constructed(Fields())
    }

    /** `Task.__init__`. */
    constructor(description: Json, taskId: Json, status: Json, createdAt: Json, completedAt: Json,
                freshId: string, now: Stamp)
      ensures Fields() == InitFields(description, taskId, status, createdAt, completedAt, freshId, now)
      ensures Valid()
    {
      var f := InitFields(description, taskId, status, createdAt, completedAt, freshId, now);
      id := f.id;
      this.description := f.description;
      this.status := f.status;
      this.createdAt := f.createdAt;
      this.completedAt := f.completedAt;
    }

    /** `complete`: the status becomes "completed" and the completion time
        the clock's; nothing else changes. */
    method Complete(now: Stamp)
      modifies this
      ensures status == JStr("completed") && completedAt == JStr(now)
      ensures id == old(id) && description == old(description) && createdAt == old(createdAt)
      ensures old(Valid()) ==> Valid()
    {
      status := JStr("completed");
      completedAt := JStr(now);
    }

    /** `to_dict`. */
    function ToDict(): (d: map<string, Json>)
      reads this
      ensures d.Keys == {"id", "description", "status", "created_at", "completed_at"}
      ensures d["id"] == id && d["description"] == description && d["status"] == status
      ensures d["created_at"] == createdAt && d["completed_at"] == completedAt
    {
      DictOf(Fields())
    }

    /** `Task.from_dict`. */
    static method FromDict(data: map<string, Json>, freshId: string, now: Stamp) returns (r: Result<Task, Failure>)
      ensures r.Err? ==> FromDictFields(data, freshId, now) == Err(r.error)
      ensures r.Ok? ==> fresh(r.value) && FromDictFields(data, freshId, now) == Ok(r.value.Fields())
    {
      if "description" !in data {
        return Err(KeyError("description"));
      }
      if "id" !in data {
        return Err(KeyError("id"));
      }
      if "status" !in data {
        return Err(KeyError("status"));
      }
      var t := new Task(data["description"], data["id"], data["status"],
                        Get(data, "created_at"), Get(data, "completed_at"), freshId, now);
      return Ok(t);
    }
  }

  /** The index of the first task whose `str(id)` is `key`. */
  function FirstWithKey(tasks: seq<Task>, key: string, from: nat): (r: Option<nat>)
    requires from <= |tasks|
    reads tasks
    ensures r.Some? ==> from <= r.value < |tasks| && PyStr(tasks[r.value].id) == key
    ensures forall k :: from <= k < (if r.Some? then r.value else |tasks|) ==> PyStr(tasks[k].id) != key
    decreases |tasks| - from
  {
    if from == |tasks| then None
    else if PyStr(tasks[from].id) == key then Some(from)
    else FirstWithKey(tasks, key, from + 1)
  }

  /** The tasks with status `s`, in list order. */
  function WithStatus(tasks: seq<Task>, s: Json): (r: seq<Task>)
    reads tasks
    ensures forall k :: 0 <= k < |r| ==> r[k] in tasks && r[k].status == s
    ensures forall k :: 0 <= k < |tasks| && tasks[k].status == s ==> tasks[k] in r
    ensures IsSubsequence(r, tasks)
    decreases |tasks|
  {
    if |tasks| == 0 then []
    else if tasks[0].status == s then [tasks[0]] + WithStatus(tasks[1..], s)
    else WithStatus(tasks[1..], s)
  }

  /** Filtering a list with one more task at the end keeps that task exactly
      when it has the status. */
  lemma {:induction false} WithStatusSnoc(a: seq<Task>, t: Task, s: Json)
    ensures WithStatus(a + [t], s) == WithStatus(a, s) + (if t.status == s then [t] else [])
    decreases |a|
  {
    if |a| == 0 {
      assert a + [t] == [t];
    } else {
      assert (a + [t])[1..] == a[1..] + [t];
      WithStatusSnoc(a[1..], t, s);
    }
  }

  /** The positions holding a task with status `s`: those before the last
      task, and the last one if it has the status. */
  lemma StatusPositionsSnoc(tasks: seq<Task>, s: Json)
    requires |tasks| > 0
    ensures var n := |tasks| - 1;
            |set k | 0 <= k < |tasks| && tasks[k].status == s|
              == |set k | 0 <= k < n && tasks[k].status == s| + (if tasks[n].status == s then 1 else 0)
  {
    var n := |tasks| - 1;
    var before := set k | 0 <= k < n && tasks[k].status == s;
    var after := set k | 0 <= k < |tasks| && tasks[k].status == s;
    var extra: set<int> := if tasks[n].status == s then {n} else {};
    assert after == before + extra;
    assert n !in before;
  }

  /** The positions before the last task are those of the list without it. */
  lemma StatusPositionsPrefix(tasks: seq<Task>, n: nat, s: Json)
    requires n <= |tasks|
    ensures (set k | 0 <= k < n && tasks[..n][k].status == s) == (set k | 0 <= k < n && tasks[k].status == s)
  {
    forall k | 0 <= k < n
      ensures tasks[..n][k] == tasks[k]
    {
    }
  }

  /** The filter keeps one entry per position holding a task with the status,
      so a task listed twice is kept twice. */
  lemma {:induction false} WithStatusCount(tasks: seq<Task>, s: Json)
    ensures |WithStatus(tasks, s)| == |set k | 0 <= k < |tasks| && tasks[k].status == s|
    decreases |tasks|
  {
    if |tasks| > 0 {
      var n := |tasks| - 1;
      assert tasks == tasks[..n] + [tasks[n]];
      WithStatusSnoc(tasks[..n], tasks[n], s);
      WithStatusCount(tasks[..n], s);
      StatusPositionsSnoc(tasks, s);
      StatusPositionsPrefix(tasks, n, s);
    }
  }

  /** `a` is `b` with some elements left out. */
  predicate IsSubsequence<T(==)>(a: seq<T>, b: seq<T>)
    decreases |b|
  {
    |a| == 0 || (|b| > 0 && (if a[0] == b[0] then IsSubsequence(a[1..], b[1..]) else IsSubsequence(a, b[1..])))
  }

  const StatusFilters: seq<Json> := [JStr("pending"), JStr("completed")]

  class TaskManager {
    var tasks: seq<Task>

    predicate Valid()
      reads this, tasks
    {
      forall k :: 0 <= k < |tasks| ==> tasks[k].Valid()
    }

    /** `TaskManager.__init__` with the tasks already loaded; `from_dict`
        makes every one of them valid. */
    constructor(loaded: seq<Task>)
      requires forall k :: 0 <= k < |loaded| ==> loaded[k].Valid()
      ensures tasks == loaded
      ensures Valid()
    {
      tasks := loaded;
    }

    /** What `_save_all_tasks` writes: every task's dictionary, in order. */
    function Snapshot(): (s: seq<map<string, Json>>)
      reads this, tasks
      ensures |s| == |tasks| && forall k :: 0 <= k < |tasks| ==> s[k] == tasks[k].ToDict()
    {
      SnapshotOf(tasks)
    }

    /** `add_task`: a non-empty string description is appended as a new
        pending task with a generated id; anything else is rejected. */
    method AddTask(description: Json, freshId: string, now: Stamp) returns (r: Result<Task, Failure>)
      modifies this
      ensures r.Err? <==> !(description.JStr? && description.s != "")
      ensures r.Err? ==> r.error == ValueError("Task description must be a non-empty string") && tasks == old(tasks)
      ensures r.Ok? ==> fresh(r.value) && tasks == old(tasks) + [r.value]
                        && r.value.Fields() == TaskFields(JStr(freshId), description, JStr("pending"), JStr(now), JNull)
      ensures old(Valid()) ==> Valid()
    {
      if !Truthy(description) || !description.JStr? {
        return Err(ValueError("Task description must be a non-empty string"));
      }
      var t := new Task(description, JNull, JStr("pending"), JNull, JNull, freshId, now);
      tasks := tasks + [t];
      return Ok(t);
    }

    /** `complete_task`: the first task whose id reads as `taskId` is
        returned, completed first if it was pending; `null` if none. */
    method CompleteTask(taskId: Json, now: Stamp) returns (r: Task?)
      modifies tasks
      ensures old(FirstWithKey(tasks, PyStr(taskId), 0)).None? ==> r == null
      ensures old(FirstWithKey(tasks, PyStr(taskId), 0)).Some? ==> r == tasks[old(FirstWithKey(tasks, PyStr(taskId), 0)).value]
      ensures r != null && old(r.status) == JStr("pending") ==>
                r.status == JStr("completed") && r.completedAt == JStr(now)
                && r.id == old(r.id) && r.description == old(r.description) && r.createdAt == old(r.createdAt)
      ensures r != null && old(r.status) != JStr("pending") ==> unchanged(r)
      ensures forall t :: t in tasks && t != r ==> unchanged(t)
      ensures old(Valid()) ==> Valid()
    {
      var key := PyStr(taskId);
      var i := 0;
      while i < |tasks| && PyStr(tasks[i].id) != key
        invariant 0 <= i <= |tasks|
        invariant FirstWithKey(tasks, key, 0) == FirstWithKey(tasks, key, i)
      {
        i := i + 1;
      }
      if i == |tasks| {
        return null;
      }
      var task := tasks[i];
      if task.status == JStr("pending") {
        task.Complete(now);
        assert forall k :: 0 <= k < |tasks| && old(tasks[k].Valid()) ==> tasks[k].Valid();
      }
      return task;
    }

    /** `list_tasks`: no filter (or an empty one) gives every task; a filter
        other than "pending" or "completed" is rejected; otherwise the tasks
        with that status, in order. */
    function ListTasks(statusFilter: Json): (r: Result<seq<Task>, Failure>)
      reads this, tasks
      ensures r.Err? <==> Truthy(statusFilter) && statusFilter !in StatusFilters
      ensures r.Err? ==> r.error == ValueError("status_filter must be 'pending' or 'completed'")
      ensures r.Ok? && !Truthy(statusFilter) ==> r.value == tasks
      ensures r.Ok? && Truthy(statusFilter) ==>
                && IsSubsequence(r.value, tasks)
                && (forall k :: 0 <= k < |r.value| ==> r.value[k] in tasks && r.value[k].status == statusFilter)
                && (forall k :: 0 <= k < |tasks| && tasks[k].status == statusFilter ==> tasks[k] in r.value)
                && |r.value| == |set k | 0 <= k < |tasks| && tasks[k].status == statusFilter|
    {
      if Truthy(statusFilter) then
        if statusFilter !in StatusFilters then Err(ValueError("status_filter must be 'pending' or 'completed'"))
        else WithStatusCount(tasks, statusFilter); Ok(WithStatus(tasks, statusFilter))
      else Ok(tasks)
    }

    /** `get_task_by_id`: the first task whose id reads as `taskId`. */
    method GetTaskById(taskId: Json) returns (r: Task?)
      ensures r == null <==> forall k :: 0 <= k < |tasks| ==> PyStr(tasks[k].id) != PyStr(taskId)
      ensures r != null ==> exists k :: 0 <= k < |tasks| && r == tasks[k] && PyStr(r.id) == PyStr(taskId)
                                        && forall l :: 0 <= l < k ==> PyStr(tasks[l].id) != PyStr(taskId)
    {
      var i := 0;
      while i < |tasks|
        invariant 0 <= i <= |tasks|
        invariant forall l :: 0 <= l < i ==> PyStr(tasks[l].id) != PyStr(taskId)
      {
        if PyStr(tasks[i].id) == PyStr(taskId) {
          return tasks[i];
        }
        i := i + 1;
      }
      return null;
    }
  }

  function SnapshotOf(tasks: seq<Task>): (s: seq<map<string, Json>>)
    reads tasks
    ensures |s| == |tasks| && forall k :: 0 <= k < |tasks| ==> s[k] == DictOf(tasks[k].Fields())
    decreases |tasks|
  {
    if |tasks| == 0 then [] else [tasks[0].ToDict()] + SnapshotOf(tasks[1..])
  }

  /** Saving and reloading a valid manager's tasks gives back every task's
      attributes. */
  lemma SaveLoadRoundTrip(m: TaskManager, freshIds: seq<string>, now: Stamp)
    requires m.Valid() && |freshIds| == |m.tasks|
    ensures var saved := m.Snapshot();
            forall k :: 0 <= k < |saved| ==> FromDictFields(saved[k], freshIds[k], now) == Ok(m.tasks[k].Fields())
  {
    var saved := m.Snapshot();
    forall k | 0 <= k < |saved|
      ensures FromDictFields(saved[k], freshIds[k], now) == Ok(m.tasks[k].Fields())
    {
      assert m.tasks[k].Valid();
      DictRoundTrip(m.tasks[k].Fields(), freshIds[k], now);
    }
  }
}
