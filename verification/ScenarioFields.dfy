/** What the fields of the projection's tasks hold, and what the checks look at, said from the JSON
    values alone. */
module ScenarioFields {
  import opened Text
  import opened Json
  import opened ScenarioTasks
  import opened ScenarioExpectations

  // ---------------------------------------------------------------------------------------------
  // Texts of worker results
  // ---------------------------------------------------------------------------------------------

  ghost predicate HasText(value: Json, key: string) {
    exists text :: IsTextAt(value, [key], text)
  }

  /** The text is the one under the key, or the default when there is none. */
  ghost predicate IsTextOr(value: Json, key: string, default: string, text: string) {
    if HasText(value, key) then IsTextAt(value, [key], text) else text == default
  }

  lemma FirstStringIs(value: Json, key: string, default: string)
    ensures IsTextOr(value, key, default, FirstString(value, [[key]]).GetOr(default))
    ensures FirstString(value, [[key]]).Some? <==> HasText(value, key)
  {
    forall text ensures StringAtPath(value, [key]) == Some(text) <==> IsTextAt(value, [key], text) {
      StringAtPathIsText(value, [key], text);
    }
    assert [[key]][1..] == [];
    if StringAtPath(value, [key]).Some? {
      assert IsTextAt(value, [key], StringAtPath(value, [key]).value);
    }
  }

  lemma FirstOfTwoStrings(value: Json, first: string, second: string)
    ensures FirstString(value, [[first], [second]]) ==
      if FirstString(value, [[first]]).Some? then FirstString(value, [[first]]) else FirstString(value, [[second]])
  {
    assert [[first], [second]][1..] == [[second]] && [[first]][1..] == [];
  }

  // ---------------------------------------------------------------------------------------------
  // Tasks
  // ---------------------------------------------------------------------------------------------

  /** A status is compared trimmed, in lower case and with underscores for dashes. */
  lemma NormalizedToken(value: string)
    ensures var trimmed, token := Trim(value), NormalizeToken(value);
      && |token| == |trimmed|
      && forall i :: 0 <= i < |trimmed| ==>
        if 'A' <= trimmed[i] <= 'Z' then token[i] as int == trimmed[i] as int + 32
        else if trimmed[i] == '-' then token[i] == '_'
        else token[i] == trimmed[i]
  {
  }

  /** The status of a task by the normal form of its result's status. */
  predicate IsTaskStatus(token: string, status: string) {
    && (IsAlias(token) ==> status == if token == "canceled" then "cancelled" else "blocked")
    && (IsOwnStatus(token) ==> status == token)
    && (!IsAlias(token) && !IsOwnStatus(token) ==> status == "done")
  }

  predicate IsAlias(token: string) {
    token == "waiting" || token == "waiting_input" || token == "waiting_approval" || token == "canceled"
  }

  predicate IsOwnStatus(token: string) {
    || token == "blocked" || token == "failed" || token == "cancelled" || token == "needs_validation"
    || token == "running" || token == "runnable" || token == "pending"
  }

  lemma StatusOfResult(result: Json, status: string)
    requires IsTextOr(result, "status", "", status)
    ensures IsTaskStatus(NormalizeToken(status), TaskStatus(result))
  {
    FirstStringIs(result, "status", "");
    OneText(result, "status", "", FirstString(result, [["status"]]).GetOr(""), status);
  }

  lemma OneText(value: Json, key: string, default: string, a: string, b: string)
    requires IsTextOr(value, key, default, a) && IsTextOr(value, key, default, b)
    ensures a == b
  {
    StringAtPathIsText(value, [key], a);
    StringAtPathIsText(value, [key], b);
  }

  ghost predicate Occurs(part: string, name: string) {
    exists before, after :: name == before + part + after
  }

  lemma ContainsIsOccurs(name: string, part: string)
    ensures Contains(name, part) <==> Occurs(part, name)
  {
    if i :| 0 <= i <= |name| && part <= name[i..] {
      assert name == name[..i] + part + name[i + |part|..];
    }
    if before, after :| name == before + part + after {
      assert name[|before|..] == part + after;
    }
  }

  /** A task is named after its action's id, or its kind when the id is blank. */
  predicate IsActionName(action: Action, name: string) {
    if Trim(action.id) != "" then name == action.id else name == action.kindName
  }

  ghost predicate IsPurpose(name: string, purpose: string) {
    if Occurs("review", name) then purpose == "review"
    else if Occurs("join", name) || Occurs("unifier", name) then purpose == "unification"
    else purpose == "work"
  }

  /** What the task of a worker result holds. */
  lemma TaskOfResult(goalId: string, action: Action, result: Json, taskId: string)
    ensures var task := MakeTask(goalId, (action, result), taskId);
      && task.goalId == goalId && task.taskId == taskId && task.workerResult == Some(result)
      && (forall name :: IsActionName(action, name) ==>
            && IsTextOr(result, "summary", name, task.title)
            && IsPurpose(name, task.purpose))
      && (if HasText(result, "role") then IsTextAt(result, ["role"], task.role)
          else IsTextOr(result, "worker_kind", "codex", task.role))
      && (forall status :: IsTextOr(result, "status", "", status) ==>
            IsTaskStatus(NormalizeToken(status), task.status))
  {
    var task := MakeTask(goalId, (action, result), taskId);
    forall name | IsActionName(action, name)
      ensures IsTextOr(result, "summary", name, task.title) && IsPurpose(name, task.purpose)
    {
      assert name == ActionName(action);
      FirstStringIs(result, "summary", name);
      PurposeOfName(action);
    }
    RoleOfResult(result);
    forall status | IsTextOr(result, "status", "", status)
      ensures IsTaskStatus(NormalizeToken(status), task.status)
    {
      StatusOfResult(result, status);
    }
  }

  lemma PurposeOfName(action: Action)
    ensures IsPurpose(ActionName(action), TaskPurpose(action))
  {
    ContainsIsOccurs(ActionName(action), "review");
    ContainsIsOccurs(ActionName(action), "join");
    ContainsIsOccurs(ActionName(action), "unifier");
  }

  lemma RoleOfResult(result: Json)
    ensures var role := FirstString(result, [["role"], ["worker_kind"]]).GetOr("codex");
      if HasText(result, "role") then IsTextAt(result, ["role"], role)
      else IsTextOr(result, "worker_kind", "codex", role)
  {
    FirstOfTwoStrings(result, "role", "worker_kind");
    FirstStringIs(result, "role", "codex");
    FirstStringIs(result, "worker_kind", "codex");
  }

  /** The id of a task: its result's, else its action's unless blank, else one with the number that
      the task would have. */
  lemma IdOfResult(scenarioId: string, action: Action, result: Json, count: nat, number: string)
    requires IsDecimal(number, count + 1)
    ensures var id := TaskIdFor(scenarioId, (action, result), count);
      if HasText(result, "task_id") then IsTextAt(result, ["task_id"], id)
      else if Trim(action.taskId) != "" then id == action.taskId
      else id == scenarioId + "-task-" + number
  {
    FirstStringIs(result, "task_id", "");
    OneDecimal(number, count + 1);
  }

  // ---------------------------------------------------------------------------------------------
  // Fillers
  // ---------------------------------------------------------------------------------------------

  predicate IsFiller(task: Task, scenarioId: string, goalId: string, status: string, number: string) {
    && task.goalId == goalId && task.status == status && task.workerResult == None
    && task.taskId == scenarioId + "-" + status + "-" + number
    && task.title == "Scenario " + status + " task " + number
    && (status == "done" ==> task.purpose == "work" && task.role == "codex")
    && (status != "done" ==> task.purpose == "review" && task.role == "validator")
  }

  lemma FillerTaskIs(scenarioId: string, goalId: string, status: string, index: nat, number: string)
    requires IsDecimal(number, index + 1)
    ensures IsFiller(FillerTask(scenarioId, goalId, status, index), scenarioId, goalId, status, number)
  {
    OneDecimal(number, index + 1);
  }

  /** Fillers are numbered on from the tasks that are there. */
  lemma {:induction false} FillersAre(scenarioId: string, goalId: string, status: string, low: nat, high: nat,
                                      i: nat, number: string)
    requires low + i < high && IsDecimal(number, low + i + 1)
    ensures var fillers := Fillers(scenarioId, goalId, status, low, high);
      |fillers| == high - low && IsFiller(fillers[i], scenarioId, goalId, status, number)
    decreases high
  {
    FillersLength(scenarioId, goalId, status, low, high);
    FillersLength(scenarioId, goalId, status, low, high - 1);
    if low + i == high - 1 {
      FillerTaskIs(scenarioId, goalId, status, high - 1, number);
    } else {
      FillersAre(scenarioId, goalId, status, low, high - 1, i, number);
    }
  }

  // ---------------------------------------------------------------------------------------------
  // Counts and checks
  // ---------------------------------------------------------------------------------------------

  function Where<T>(values: seq<T>, p: T -> bool): set<nat> {
    set i: nat | i < |values| && p(values[i])
  }

  lemma WhereStep<T>(values: seq<T>, p: T -> bool)
    requires values != []
    ensures var n := |values| - 1;
      |Where(values, p)| == |Where(values[..n], p)| + if p(values[n]) then 1 else 0
  {
    var n := |values| - 1;
    var before := Where(values[..n], p);
    if p(values[n]) {
      assert Where(values, p) == before + {n};
    } else {
      assert Where(values, p) == before;
    }
  }

  /** The positions of the tasks whose status has the normal form. */
  function Positions(tasks: seq<Task>, token: string): set<nat> {
    Where(tasks, (task: Task) => NormalizeToken(task.status) == token)
  }

  lemma {:induction false} CountIsPositions(tasks: seq<Task>, token: string)
    ensures Count(tasks, token) == |Positions(tasks, token)|
  {
    if tasks == [] {
      assert Positions(tasks, token) == {};
    } else {
      CountIsPositions(tasks[..|tasks| - 1], token);
      WhereStep(tasks, (task: Task) => NormalizeToken(task.status) == token);
    }
  }

  /** There is one check for each expected status, in order, and it passes exactly when at least as
      many tasks as expected have a status of the same normal form. */
  lemma CheckPasses(name: string, expected: StatusCounts, rows: seq<Task>, i: nat)
    requires i < |expected|
    ensures var checks := CountChecks(name, expected, rows);
      && |checks| == |expected|
      && checks[i].name == name + ":" + expected[i].0
      && checks[i].actual == |Positions(rows, NormalizeToken(expected[i].0))|
      && (checks[i].passed <==> |Positions(rows, NormalizeToken(expected[i].0))| >= expected[i].1)
  {
    CountIsPositions(rows, NormalizeToken(expected[i].0));
  }

  /** Blank expectations get exactly the counts that are unsigned numbers. */
  lemma {:induction false} ExpectedCounts(counts: TaskCounts, status: string, number: U64)
    ensures (status, number) in CountsAsExpectations(counts) <==> (status, Unsigned(number)) in counts
  {
    if counts != [] {
      var init, last := counts[..|counts| - 1], counts[|counts| - 1];
      ExpectedCounts(init, status, number);
      LastMember(counts, (status, Unsigned(number)));
      if last.1.Unsigned? {
        var expected := CountsAsExpectations(counts);
        assert expected[..|expected| - 1] == CountsAsExpectations(init);
        LastMember(expected, (status, number));
      }
    }
  }

  lemma LastMember<T>(values: seq<T>, x: T)
    requires values != []
    ensures x in values <==> x in values[..|values| - 1] || x == values[|values| - 1]
  {
    assert values == values[..|values| - 1] + [values[|values| - 1]];
  }
}
