/** The tasks of a synthesized scenario projection, and the expectations they are checked
    against. */
module ScenarioTasks {
  import opened Text
  import opened Json
  import opened Lists

  // ---------------------------------------------------------------------------------------------
  // Data
  // ---------------------------------------------------------------------------------------------

  datatype Action = Action(id: string, kindName: string, taskId: string, workerResult: Json, workerResults: seq<Json>)

  datatype Scenario = Scenario(id: string, actions: seq<Action>)

  /** The fields of the JSON object that the projection holds for a task. */
  datatype Task = Task(
    goalId: string,
    taskId: string,
    title: string,
    status: string,
    purpose: string,
    role: string,
    workerResult: Option<Json>)

  type TaskCounts = seq<(string, Json)>

  function NormalizeChar(c: char): char {
    if c == '-' then '_' else ToAsciiLower(c)
  }

  function NormalizeToken(value: string): string {
    var trimmed := Trim(value);
    seq(|trimmed|, i requires 0 <= i < |trimmed| => NormalizeChar(trimmed[i]))
  }

  function ActionWorkerResults(action: Action): (results: seq<Json>)
    ensures if action.workerResult == Null then results == action.workerResults
      else |results| > 0 && results[0] == action.workerResult && results[1..] == action.workerResults
  {
    (if action.workerResult.Null? then [] else [action.workerResult]) + action.workerResults
  }

  function ActionName(action: Action): string {
    if Trim(action.id) != "" then action.id else action.kindName
  }

  predicate Contains(s: string, part: string) {
    exists i :: 0 <= i <= |s| && part <= s[i..]
  }

  function TaskPurpose(action: Action): string {
    var name := ActionName(action);
    if Contains(name, "review") then "review"
    else if Contains(name, "join") || Contains(name, "unifier") then "unification"
    else "work"
  }

  function TaskStatus(result: Json): string {
    var token := NormalizeToken(FirstString(result, [["status"]]).GetOr(""));
    if token in ["waiting", "waiting_input", "waiting_approval", "blocked"] then "blocked"
    else if token == "failed" then "failed"
    else if token in ["cancelled", "canceled"] then "cancelled"
    else if token == "needs_validation" then "needs_validation"
    else if token == "running" then "running"
    else if token == "runnable" then "runnable"
    else if token == "pending" then "pending"
    else "done"
  }

  // ---------------------------------------------------------------------------------------------
  // Worker-derived tasks
  // ---------------------------------------------------------------------------------------------

  /** One worker result with the action that injects it. */
  type Work = (Action, Json)

  function WorkOf(action: Action, results: seq<Json>): seq<Work> {
    if results == [] then [] else WorkOf(action, results[..|results| - 1]) + [(action, results[|results| - 1])]
  }

  function AllWork(actions: seq<Action>): seq<Work> {
    if actions == [] then []
    else AllWork(actions[..|actions| - 1]) + WorkOf(actions[|actions| - 1], ActionWorkerResults(actions[|actions| - 1]))
  }

  /** The id for a worker result when `count` tasks are there already. */
  function TaskIdFor(scenarioId: string, work: Work, count: nat): string {
    match FirstString(work.1, [["task_id"]])
    case Some(id) => id
    case None =>
      if Trim(work.0.taskId) != "" then work.0.taskId
      else scenarioId + "-task-" + Decimal(count + 1)
  }

  function MakeTask(goalId: string, work: Work, taskId: string): Task {
    Task(
      goalId,
      taskId,
      FirstString(work.1, [["summary"]]).GetOr(ActionName(work.0)),
      TaskStatus(work.1),
      TaskPurpose(work.0),
      FirstString(work.1, [["role"], ["worker_kind"]]).GetOr("codex"),
      Some(work.1))
  }

  function Ids(tasks: seq<Task>): seq<string> {
    seq(|tasks|, i requires 0 <= i < |tasks| => tasks[i].taskId)
  }

  /** The ids that the worker results get, one by one; an id that depends on the number of tasks
      depends on how many different ids came before. */
  function WorkIds(scenarioId: string, work: seq<Work>): seq<string> {
    if work == [] then []
    else
      var before := WorkIds(scenarioId, work[..|work| - 1]);
      before + [TaskIdFor(scenarioId, work[|work| - 1], |AppendUnique([], before)|)]
  }

  lemma {:induction false} WorkIdsLength(scenarioId: string, work: seq<Work>)
    ensures |WorkIds(scenarioId, work)| == |work|
  {
    if work != [] {
      WorkIdsLength(scenarioId, work[..|work| - 1]);
    }
  }

  lemma WorkIdsStep(scenarioId: string, work: seq<Work>, w: Work)
    ensures WorkIds(scenarioId, work + [w]) ==
      WorkIds(scenarioId, work) + [TaskIdFor(scenarioId, w, |AppendUnique([], WorkIds(scenarioId, work))|)]
  {
    assert (work + [w])[..|work|] == work;
  }

  /** What worker results make of tasks: one task for each different id, in the order in which the
      ids first appear, made of the last result that got the id. */
  ghost predicate IsWorkerTasks(tasks: seq<Task>, scenarioId: string, goalId: string, work: seq<Work>) {
    var ids := WorkIds(scenarioId, work);
    && |ids| == |work|
    && Ids(tasks) == AppendUnique([], ids)
    && forall i :: 0 <= i < |tasks| ==> IsLastResult(tasks[i], goalId, work, ids)
  }

  ghost predicate IsLastResult(task: Task, goalId: string, work: seq<Work>, ids: seq<string>)
    requires |ids| == |work|
  {
    exists k :: 0 <= k < |work| && ids[k] == task.taskId && task == MakeTask(goalId, work[k], ids[k])
             && forall j :: k < j < |work| ==> ids[j] != task.taskId
  }

  /** The index map names the position of every task by its id. */
  ghost predicate SeenAgrees(seen: map<string, nat>, tasks: seq<Task>) {
    && (forall id :: id in seen ==> seen[id] < |tasks| && tasks[seen[id]].taskId == id)
    && (forall i :: 0 <= i < |tasks| ==> tasks[i].taskId in seen && seen[tasks[i].taskId] == i)
  }

  lemma LastResultStep(task: Task, goalId: string, work: seq<Work>, ids: seq<string>, w: Work, id: string)
    requires |ids| == |work| && IsLastResult(task, goalId, work, ids) && id != task.taskId
    ensures IsLastResult(task, goalId, work + [w], ids + [id])
  {
    var k :| 0 <= k < |work| && ids[k] == task.taskId && task == MakeTask(goalId, work[k], ids[k])
             && forall j :: k < j < |work| ==> ids[j] != task.taskId;
    assert (work + [w])[k] == work[k] && (ids + [id])[k] == ids[k];
    forall j | k < j < |work + [w]| ensures (ids + [id])[j] != task.taskId {
      if j < |work| {
        assert (ids + [id])[j] == ids[j];
      }
    }
  }

  lemma NewestResult(goalId: string, work: seq<Work>, ids: seq<string>, w: Work, id: string)
    requires |ids| == |work|
    ensures IsLastResult(MakeTask(goalId, w, id), goalId, work + [w], ids + [id])
  {
    assert (work + [w])[|work|] == w && (ids + [id])[|work|] == id;
  }

  lemma ReplaceTask(tasks: seq<Task>, at: nat, scenarioId: string, goalId: string, work: seq<Work>, w: Work)
    requires IsWorkerTasks(tasks, scenarioId, goalId, work)
    requires at < |tasks| && tasks[at].taskId == TaskIdFor(scenarioId, w, |tasks|)
    ensures var task := MakeTask(goalId, w, tasks[at].taskId);
      IsWorkerTasks(tasks[at := task], scenarioId, goalId, work + [w])
  {
    var ids := WorkIds(scenarioId, work);
    var next := tasks[at := MakeTask(goalId, w, tasks[at].taskId)];
    ReplaceKeepsIds(tasks, at, scenarioId, work, w, next[at]);
    forall i | 0 <= i < |next| ensures IsLastResult(next[i], goalId, work + [w], ids + [tasks[at].taskId]) {
      ReplaceOne(tasks, at, i, goalId, work, ids, w);
    }
  }

  lemma ReplaceKeepsIds(tasks: seq<Task>, at: nat, scenarioId: string, work: seq<Work>, w: Work, task: Task)
    requires at < |tasks| && tasks[at].taskId == task.taskId == TaskIdFor(scenarioId, w, |tasks|)
    requires Ids(tasks) == AppendUnique([], WorkIds(scenarioId, work))
    ensures WorkIds(scenarioId, work + [w]) == WorkIds(scenarioId, work) + [task.taskId]
    ensures Ids(tasks[at := task]) == AppendUnique([], WorkIds(scenarioId, work + [w]))
  {
    WorkIdsStep(scenarioId, work, w);
    assert |Ids(tasks)| == |tasks|;
    AppendUniqueStep([], WorkIds(scenarioId, work), task.taskId);
    assert Ids(tasks)[at] == task.taskId;
    assert Ids(tasks[at := task]) == Ids(tasks);
  }

  lemma ReplaceOne(tasks: seq<Task>, at: nat, i: nat, goalId: string, work: seq<Work>, ids: seq<string>, w: Work)
    requires |ids| == |work| && Ids(tasks) == AppendUnique([], ids)
    requires at < |tasks| && i < |tasks| && IsLastResult(tasks[i], goalId, work, ids)
    ensures IsLastResult(tasks[at := MakeTask(goalId, w, tasks[at].taskId)][i], goalId,
                         work + [w], ids + [tasks[at].taskId])
  {
    NewestResult(goalId, work, ids, w, tasks[at].taskId);
    if i != at {
      IdsAreDistinct(tasks, ids);
      assert Ids(tasks)[i] == tasks[i].taskId && Ids(tasks)[at] == tasks[at].taskId;
      assert Ids(tasks)[i] != Ids(tasks)[at];
      LastResultStep(tasks[i], goalId, work, ids, w, tasks[at].taskId);
    }
  }

  lemma IdsAreDistinct(tasks: seq<Task>, ids: seq<string>)
    requires Ids(tasks) == AppendUnique([], ids)
    ensures AreDistinct(Ids(tasks))
  {
    AppendUniqueContents([], ids);
  }

  lemma AppendTask(tasks: seq<Task>, scenarioId: string, goalId: string, work: seq<Work>, w: Work)
    requires IsWorkerTasks(tasks, scenarioId, goalId, work)
    requires TaskIdFor(scenarioId, w, |tasks|) !in Ids(tasks)
    ensures var task := MakeTask(goalId, w, TaskIdFor(scenarioId, w, |tasks|));
      IsWorkerTasks(tasks + [task], scenarioId, goalId, work + [w])
  {
    var id := TaskIdFor(scenarioId, w, |tasks|);
    var task, ids := MakeTask(goalId, w, id), WorkIds(scenarioId, work);
    var next := tasks + [task];
    WorkIdsStep(scenarioId, work, w);
    assert |Ids(tasks)| == |tasks|;
    AppendUniqueStep([], ids, id);
    assert Ids(next) == Ids(tasks) + [id];
    NewestResult(goalId, work, ids, w, id);
    forall i | 0 <= i < |next| ensures IsLastResult(next[i], goalId, work + [w], ids + [id]) {
      if i < |tasks| {
        assert next[i] == tasks[i];
        assert Ids(tasks)[i] == tasks[i].taskId;
        LastResultStep(tasks[i], goalId, work, ids, w, id);
      }
    }
  }

  lemma SeenAfterReplace(seen: map<string, nat>, tasks: seq<Task>, task: Task)
    requires SeenAgrees(seen, tasks) && task.taskId in seen
    ensures SeenAgrees(seen, tasks[seen[task.taskId] := task])
  {
  }

  lemma SeenAfterAppend(seen: map<string, nat>, tasks: seq<Task>, task: Task)
    requires SeenAgrees(seen, tasks) && task.taskId !in seen
    ensures SeenAgrees(seen[task.taskId := |tasks|], tasks + [task])
  {
  }

  /** One pass of the inner loop. */
  method StoreTask(tasks: seq<Task>, seen: map<string, nat>, scenarioId: string, goalId: string, w: Work,
                   ghost work: seq<Work>)
    returns (tasks': seq<Task>, seen': map<string, nat>)
    requires IsWorkerTasks(tasks, scenarioId, goalId, work) && SeenAgrees(seen, tasks)
    ensures IsWorkerTasks(tasks', scenarioId, goalId, work + [w]) && SeenAgrees(seen', tasks')
  {
    var taskId := TaskIdFor(scenarioId, w, |tasks|);
    var task := MakeTask(goalId, w, taskId);
    if taskId in seen {
      ReplaceTask(tasks, seen[taskId], scenarioId, goalId, work, w);
      SeenAfterReplace(seen, tasks, task);
      tasks', seen' := tasks[seen[taskId] := task], seen;
    } else {
      NotSeenNotThere(seen, tasks, taskId);
      AppendTask(tasks, scenarioId, goalId, work, w);
      SeenAfterAppend(seen, tasks, task);
      tasks', seen' := tasks + [task], seen[taskId := |tasks|];
    }
  }

  lemma WorkStep(before: seq<Work>, action: Action, results: seq<Json>, m: nat)
    requires m < |results|
    ensures before + WorkOf(action, results[..m + 1]) ==
      (before + WorkOf(action, results[..m])) + [(action, results[m])]
  {
    assert results[..m + 1][..m] == results[..m];
    ConcatAssociative(before, WorkOf(action, results[..m]), [(action, results[m])]);
  }

  /** The first loop: tasks are stored by id, a later result replacing an earlier one. */
  method WorkerTasks(scenario: Scenario, goalId: string) returns (tasks: seq<Task>, seen: map<string, nat>)
    ensures IsWorkerTasks(tasks, scenario.id, goalId, AllWork(scenario.actions))
    ensures SeenAgrees(seen, tasks)
  {
    tasks, seen := [], map[];
    ghost var work: seq<Work> := [];
    assert Ids([]) == [];
    for n := 0 to |scenario.actions|
      invariant work == AllWork(scenario.actions[..n])
      invariant IsWorkerTasks(tasks, scenario.id, goalId, work) && SeenAgrees(seen, tasks)
    {
      var action := scenario.actions[n];
      var results := ActionWorkerResults(action);
      ghost var before := work;
      assert before + [] == before;
      for m := 0 to |results|
        invariant work == before + WorkOf(action, results[..m])
        invariant IsWorkerTasks(tasks, scenario.id, goalId, work) && SeenAgrees(seen, tasks)
      {
        tasks, seen := StoreTask(tasks, seen, scenario.id, goalId, (action, results[m]), work);
        WorkStep(before, action, results, m);
        work := work + [(action, results[m])];
      }
      assert results[..|results|] == results;
      assert scenario.actions[..n + 1][..n] == scenario.actions[..n];
    }
    assert scenario.actions[..|scenario.actions|] == scenario.actions;
  }

  lemma NotSeenNotThere(seen: map<string, nat>, tasks: seq<Task>, id: string)
    requires SeenAgrees(seen, tasks) && id !in seen
    ensures id !in Ids(tasks)
  {
    assert forall i :: 0 <= i < |tasks| ==> Ids(tasks)[i] == tasks[i].taskId;
  }

  /** The reference determines the tasks. */
  lemma WorkerTasksAreDetermined(a: seq<Task>, b: seq<Task>, scenarioId: string, goalId: string, work: seq<Work>)
    requires IsWorkerTasks(a, scenarioId, goalId, work) && IsWorkerTasks(b, scenarioId, goalId, work)
    ensures a == b
  {
    var ids := WorkIds(scenarioId, work);
    assert |Ids(a)| == |a| && |Ids(b)| == |b|;
    forall i | 0 <= i < |a| ensures a[i] == b[i] {
      assert Ids(a)[i] == a[i].taskId && Ids(b)[i] == b[i].taskId;
      var k :| 0 <= k < |work| && ids[k] == a[i].taskId && a[i] == MakeTask(goalId, work[k], ids[k])
               && forall j :: k < j < |work| ==> ids[j] != a[i].taskId;
      var l :| 0 <= l < |work| && ids[l] == b[i].taskId && b[i] == MakeTask(goalId, work[l], ids[l])
               && forall j :: l < j < |work| ==> ids[j] != b[i].taskId;
    }
  }

  // ---------------------------------------------------------------------------------------------
  // Filler tasks
  // ---------------------------------------------------------------------------------------------

  /** The number of tasks whose status has the given normal form. */
  function Count(tasks: seq<Task>, token: string): nat {
    if tasks == [] then 0
    else Count(tasks[..|tasks| - 1], token) + if NormalizeToken(tasks[|tasks| - 1].status) == token then 1 else 0
  }

  function Requested(count: Json): nat {
    if count.Unsigned? then count.number else 0
  }

  function FillerTask(scenarioId: string, goalId: string, status: string, index: nat): Task {
    Task(
      goalId,
      scenarioId + "-" + status + "-" + Decimal(index + 1),
      "Scenario " + status + " task " + Decimal(index + 1),
      status,
      if status == "done" then "work" else "review",
      if status == "done" then "codex" else "validator",
      None)
  }

  function Fillers(scenarioId: string, goalId: string, status: string, low: nat, high: nat): seq<Task>
    decreases high - low
  {
    if low >= high then []
    else Fillers(scenarioId, goalId, status, low, high - 1) + [FillerTask(scenarioId, goalId, status, high - 1)]
  }

  function Filled(tasks: seq<Task>, scenarioId: string, goalId: string, counts: TaskCounts): seq<Task> {
    if counts == [] then tasks
    else
      var before := Filled(tasks, scenarioId, goalId, counts[..|counts| - 1]);
      var (status, count) := counts[|counts| - 1];
      before + Fillers(scenarioId, goalId, status, Count(before, NormalizeToken(status)), Requested(count))
  }

  method TasksFromScenario(scenario: Scenario, counts: TaskCounts, goalId: string)
    returns (tasks: seq<Task>)
    ensures exists worker ::
      && IsWorkerTasks(worker, scenario.id, goalId, AllWork(scenario.actions))
      && tasks == Filled(worker, scenario.id, goalId, counts)
  {
    var seen;
    tasks, seen := WorkerTasks(scenario, goalId);
    ghost var worker := tasks;
    assert counts[..0] == [];
    for n := 0 to |counts|
      invariant tasks == Filled(worker, scenario.id, goalId, counts[..n])
    {
      var (status, count) := counts[n];
      assert counts[..n + 1][..n] == counts[..n];
      tasks := FillStatus(tasks, scenario.id, goalId, status, Requested(count));
    }
    assert counts[..|counts|] == counts;
  }

  /** One pass of the second loop: tasks are added until the expected number is reached. */
  method FillStatus(tasks: seq<Task>, scenarioId: string, goalId: string, status: string, expected: nat)
    returns (filled: seq<Task>)
    ensures filled == tasks + Fillers(scenarioId, goalId, status, Count(tasks, NormalizeToken(status)), expected)
  {
    var current := CountTasks(tasks, NormalizeToken(status));
    filled := tasks;
    if current < expected {
      assert tasks + [] == tasks;
      for index := current to expected
        invariant filled == tasks + Fillers(scenarioId, goalId, status, current, index)
      {
        ConcatAssociative(tasks, Fillers(scenarioId, goalId, status, current, index),
                          [FillerTask(scenarioId, goalId, status, index)]);
        filled := filled + [FillerTask(scenarioId, goalId, status, index)];
      }
    }
  }

  /** The number of rows with a status, as both the filler loop and the evaluator count it. */
  method CountTasks(tasks: seq<Task>, token: string) returns (count: nat)
    ensures count == Count(tasks, token)
  {
    count := 0;
    for n := 0 to |tasks|
      invariant count == Count(tasks[..n], token)
    {
      assert tasks[..n + 1][..n] == tasks[..n];
      if NormalizeToken(tasks[n].status) == token {
        count := count + 1;
      }
    }
    assert tasks[..|tasks|] == tasks;
  }

  lemma CountAppend(tasks: seq<Task>, task: Task, token: string)
    ensures Count(tasks + [task], token) == Count(tasks, token) + if NormalizeToken(task.status) == token then 1 else 0
  {
    assert (tasks + [task])[..|tasks|] == tasks;
  }

  lemma {:induction false} CountConcat(a: seq<Task>, b: seq<Task>, token: string)
    ensures Count(a + b, token) == Count(a, token) + Count(b, token)
  {
    if b == [] {
      assert a + b == a;
    } else {
      assert (a + b)[..|a + b| - 1] == a + b[..|b| - 1];
      CountConcat(a, b[..|b| - 1], token);
    }
  }

  lemma {:induction false} FillersLength(scenarioId: string, goalId: string, status: string, low: nat, high: nat)
    ensures |Fillers(scenarioId, goalId, status, low, high)| == if low < high then high - low else 0
    decreases high
  {
    if low < high {
      FillersLength(scenarioId, goalId, status, low, high - 1);
    }
  }

  lemma CountOneFiller(before: seq<Task>, scenarioId: string, goalId: string, status: string, index: nat, token: string)
    ensures Count(before + [FillerTask(scenarioId, goalId, status, index)], token) ==
      Count(before, token) + if NormalizeToken(status) == token then 1 else 0
  {
    CountAppend(before, FillerTask(scenarioId, goalId, status, index), token);
  }

  lemma {:induction false} CountFillers(scenarioId: string, goalId: string, status: string,
                                        low: nat, high: nat, token: string)
    ensures Count(Fillers(scenarioId, goalId, status, low, high), token) ==
      if NormalizeToken(status) == token && low < high then high - low else 0
    decreases high
  {
    if low < high {
      CountFillers(scenarioId, goalId, status, low, high - 1, token);
      CountOneFiller(Fillers(scenarioId, goalId, status, low, high - 1), scenarioId, goalId, status, high - 1, token);
    }
  }

  function Max(a: nat, b: nat): nat {
    if a < b then b else a
  }

  /** The largest number requested under any spelling of a status. */
  function MaxRequested(counts: TaskCounts, token: string): nat {
    if counts == [] then 0
    else
      var (status, count) := counts[|counts| - 1];
      var before := MaxRequested(counts[..|counts| - 1], token);
      if NormalizeToken(status) == token then Max(before, Requested(count)) else before
  }

  /** After filling, the tasks with a status number the larger of what the workers gave and what
      was requested under any spelling of it. */
  lemma {:induction false} FilledCount(tasks: seq<Task>, scenarioId: string, goalId: string,
                                       counts: TaskCounts, token: string)
    ensures Count(Filled(tasks, scenarioId, goalId, counts), token) ==
      Max(Count(tasks, token), MaxRequested(counts, token))
  {
    if counts != [] {
      var init := counts[..|counts| - 1];
      var (status, count) := counts[|counts| - 1];
      var before := Filled(tasks, scenarioId, goalId, init);
      FilledCount(tasks, scenarioId, goalId, init, token);
      var low := Count(before, NormalizeToken(status));
      CountFillers(scenarioId, goalId, status, low, Requested(count), token);
      CountConcat(before, Fillers(scenarioId, goalId, status, low, Requested(count)), token);
    }
  }
}
