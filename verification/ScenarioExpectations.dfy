/** The expectations that a scenario's projection is checked against, and why a synthesized
    projection meets the ones that were derived from the same task counts. */
module ScenarioExpectations {
  import opened Text
  import opened Json
  import opened ScenarioTasks

  /** Expected counts by status, in the order of the map. */
  type StatusCounts = seq<(string, U64)>

  const USIZE_RANGE := U64_MAX + 1

  /** The task counts that are unsigned numbers; others are not expectations. */
  function CountsAsExpectations(counts: TaskCounts): StatusCounts {
    if counts == [] then []
    else
      var (status, count) := counts[|counts| - 1];
      CountsAsExpectations(counts[..|counts| - 1]) + if count.Unsigned? then [(status, count.number)] else []
  }

  function Sum(counts: StatusCounts): nat {
    if counts == [] then 0 else Sum(counts[..|counts| - 1]) + counts[|counts| - 1].1
  }

  /** A number as the machine's word holds it. */
  function WordSized(n: nat): U64 {
    n % USIZE_RANGE
  }

  lemma WordSizedBounds(n: nat)
    ensures WordSized(n) <= n
    ensures n < 18_446_744_073_709_551_616 ==> WordSized(n) == n
  {
  }

  /** The minimum number of tasks that blank expectations get. */
  function DerivedMinTasks(counts: TaskCounts): U64 {
    WordSized(Sum(CountsAsExpectations(counts)))
  }

  /** The part of the expectations that speaks about tasks. */
  class TaskExpectation {
    var taskStatuses: StatusCounts
    var minTasks: U64

    constructor (taskStatuses: StatusCounts, minTasks: U64)
      ensures this.taskStatuses == taskStatuses && this.minTasks == minTasks
    {
      this.taskStatuses, this.minTasks := taskStatuses, minTasks;
    }

    /** Blank expectations are filled in from the terminal state's task counts; the sum of the
        counts is taken in the machine's word size. */
    method Normalize(counts: TaskCounts)
      modifies this
      ensures taskStatuses == if old(taskStatuses) == [] then CountsAsExpectations(counts) else old(taskStatuses)
      ensures minTasks == if old(minTasks) == 0 then Sum(taskStatuses) % 18_446_744_073_709_551_616 else old(minTasks)
    {
      if taskStatuses == [] {
        var statuses: StatusCounts := [];
        for n := 0 to |counts|
          invariant statuses == CountsAsExpectations(counts[..n])
        {
          assert counts[..n + 1][..n] == counts[..n];
          var (status, count) := counts[n];
          if count.Unsigned? {
            statuses := statuses + [(status, count.number)];
          }
        }
        assert counts[..|counts|] == counts;
        taskStatuses := statuses;
      }
      if minTasks == 0 {
        minTasks := WordSum(taskStatuses);
      }
    }
  }

  method WordSum(counts: StatusCounts) returns (sum: U64)
    ensures sum == WordSized(Sum(counts))
  {
    sum := 0;
    for n := 0 to |counts|
      invariant sum == WordSized(Sum(counts[..n]))
    {
      assert counts[..n + 1][..n] == counts[..n];
      SumModulo(Sum(counts[..n]), counts[n].1);
      sum := (sum + counts[n].1) % USIZE_RANGE;
    }
    assert counts[..|counts|] == counts;
  }

  lemma SumModulo(a: nat, b: nat)
    ensures (WordSized(a) + b) % USIZE_RANGE == WordSized(a + b)
  {
    var q := a / USIZE_RANGE;
    assert a == q * USIZE_RANGE + a % USIZE_RANGE;
    ModuloOfMultiple(a % USIZE_RANGE + b, q);
  }

  lemma {:induction false} ModuloOfMultiple(a: nat, q: nat)
    ensures (a + q * USIZE_RANGE) % USIZE_RANGE == a % USIZE_RANGE
  {
    if q > 0 {
      ModuloOfMultiple(a, q - 1);
      assert a + q * USIZE_RANGE == (a + (q - 1) * USIZE_RANGE) + USIZE_RANGE;
    }
  }

  // ---------------------------------------------------------------------------------------------
  // The evaluator's checks
  // ---------------------------------------------------------------------------------------------

  datatype EvaluatorCheck = EvaluatorCheck(name: string, passed: bool, expected: nat, actual: nat)

  function MinCountCheck(name: string, min: nat, actual: nat): EvaluatorCheck {
    EvaluatorCheck("min_" + name, actual >= min, min, actual)
  }

  function CountChecks(name: string, expected: StatusCounts, rows: seq<Task>): seq<EvaluatorCheck> {
    seq(|expected|, i requires 0 <= i < |expected| =>
      var count := Count(rows, NormalizeToken(expected[i].0));
      EvaluatorCheck(name + ":" + expected[i].0, count >= expected[i].1, expected[i].1, count))
  }

  predicate AllPass(checks: seq<EvaluatorCheck>) {
    forall i :: 0 <= i < |checks| ==> checks[i].passed
  }

  lemma {:induction false} ExpectationsAreRequested(counts: TaskCounts, i: nat)
    requires i < |CountsAsExpectations(counts)|
    ensures var (status, min) := CountsAsExpectations(counts)[i];
      min <= MaxRequested(counts, NormalizeToken(status))
  {
    var init := counts[..|counts| - 1];
    if i < |CountsAsExpectations(init)| {
      ExpectationsAreRequested(init, i);
    }
  }

  /** Every task-status check passes on the synthesized tasks, whatever the statuses are. */
  lemma StatusChecksPass(worker: seq<Task>, scenarioId: string, goalId: string, counts: TaskCounts)
    ensures AllPass(CountChecks("task_status", CountsAsExpectations(counts),
                                Filled(worker, scenarioId, goalId, counts)))
  {
    var expected := CountsAsExpectations(counts);
    forall i | 0 <= i < |expected|
      ensures Count(Filled(worker, scenarioId, goalId, counts), NormalizeToken(expected[i].0)) >= expected[i].1
    {
      ExpectationsAreRequested(counts, i);
      FilledCount(worker, scenarioId, goalId, counts, NormalizeToken(expected[i].0));
    }
  }

  // ---------------------------------------------------------------------------------------------
  // The minimum number of tasks
  // ---------------------------------------------------------------------------------------------

  /** No status is requested under two spellings. */
  predicate HaveDistinctForms(counts: TaskCounts) {
    forall i, j :: 0 <= i < j < |counts| ==> NormalizeToken(counts[i].0) != NormalizeToken(counts[j].0)
  }

  function Min(a: nat, b: nat): nat {
    if a < b then a else b
  }

  /** How much of the requested counts is covered by tasks that are there when the status' turn
      comes: worker-derived ones, or ones requested under another spelling. */
  function Covered(worker: seq<Task>, counts: TaskCounts): nat {
    if counts == [] then 0
    else
      var init := counts[..|counts| - 1];
      var (status, count) := counts[|counts| - 1];
      var token := NormalizeToken(status);
      Covered(worker, init) + Min(Requested(count), Max(Count(worker, token), MaxRequested(init, token)))
  }

  lemma ExpectationsSumStep(counts: TaskCounts)
    requires counts != []
    ensures Sum(CountsAsExpectations(counts)) ==
      Sum(CountsAsExpectations(counts[..|counts| - 1])) + Requested(counts[|counts| - 1].1)
  {
    var expected, last := CountsAsExpectations(counts[..|counts| - 1]), counts[|counts| - 1];
    if last.1.Unsigned? {
      assert (expected + [(last.0, last.1.number)])[..|expected|] == expected;
    } else {
      assert expected + [] == expected;
    }
  }

  lemma {:induction false} FilledLength(worker: seq<Task>, scenarioId: string, goalId: string, counts: TaskCounts)
    ensures |Filled(worker, scenarioId, goalId, counts)| + Covered(worker, counts) ==
      |worker| + Sum(CountsAsExpectations(counts))
  {
    if counts != [] {
      var init := counts[..|counts| - 1];
      var (status, count) := counts[|counts| - 1];
      FilledLength(worker, scenarioId, goalId, init);
      FilledCount(worker, scenarioId, goalId, init, NormalizeToken(status));
      var before := Filled(worker, scenarioId, goalId, init);
      FillersLength(scenarioId, goalId, status, Count(before, NormalizeToken(status)), Requested(count));
      ExpectationsSumStep(counts);
    }
  }

  /** The derived minimum number of tasks is met exactly when the worker-derived tasks are at
      least as many as the requested ones that needed no filler. */
  lemma MinTasksCheck(worker: seq<Task>, scenarioId: string, goalId: string, counts: TaskCounts)
    requires Sum(CountsAsExpectations(counts)) < 18_446_744_073_709_551_616
    ensures MinCountCheck("tasks", DerivedMinTasks(counts), |Filled(worker, scenarioId, goalId, counts)|).passed
      <==> Covered(worker, counts) <= |worker|
  {
    FilledLength(worker, scenarioId, goalId, counts);
    WordSizedBounds(Sum(CountsAsExpectations(counts)));
  }

  function CountAll(worker: seq<Task>, counts: TaskCounts): nat {
    if counts == [] then 0
    else CountAll(worker, counts[..|counts| - 1]) + Count(worker, NormalizeToken(counts[|counts| - 1].0))
  }

  predicate Mentions(counts: TaskCounts, token: string) {
    counts != [] && (NormalizeToken(counts[|counts| - 1].0) == token || Mentions(counts[..|counts| - 1], token))
  }

  lemma {:induction false} MentionsIsSome(counts: TaskCounts, token: string)
    ensures Mentions(counts, token) ==> exists i :: 0 <= i < |counts| && NormalizeToken(counts[i].0) == token
  {
    if counts != [] {
      MentionsIsSome(counts[..|counts| - 1], token);
    }
  }

  lemma {:induction false} CountAllStep(worker: seq<Task>, counts: TaskCounts)
    requires worker != [] && HaveDistinctForms(counts)
    ensures CountAll(worker, counts) == CountAll(worker[..|worker| - 1], counts) +
      if Mentions(counts, NormalizeToken(worker[|worker| - 1].status)) then 1 else 0
  {
    if counts != [] {
      var init, token := counts[..|counts| - 1], NormalizeToken(worker[|worker| - 1].status);
      CountAllStep(worker, init);
      MentionsIsSome(init, token);
    }
  }

  lemma {:induction false} CountAllBounded(worker: seq<Task>, counts: TaskCounts)
    requires HaveDistinctForms(counts)
    ensures CountAll(worker, counts) <= |worker|
  {
    if worker == [] {
      CountAllEmpty(counts);
    } else {
      CountAllStep(worker, counts);
      CountAllBounded(worker[..|worker| - 1], counts);
    }
  }

  lemma {:induction false} CountAllEmpty(counts: TaskCounts)
    ensures CountAll([], counts) == 0
  {
    if counts != [] {
      CountAllEmpty(counts[..|counts| - 1]);
    }
  }

  lemma {:induction false} NotRequestedBefore(counts: TaskCounts, token: string)
    requires forall i :: 0 <= i < |counts| ==> NormalizeToken(counts[i].0) != token
    ensures MaxRequested(counts, token) == 0
  {
    if counts != [] {
      NotRequestedBefore(counts[..|counts| - 1], token);
    }
  }

  lemma {:induction false} CoveredByWorkers(worker: seq<Task>, counts: TaskCounts)
    requires HaveDistinctForms(counts)
    ensures Covered(worker, counts) <= CountAll(worker, counts)
  {
    if counts != [] {
      var init := counts[..|counts| - 1];
      CoveredByWorkers(worker, init);
      NotRequestedBefore(init, NormalizeToken(counts[|counts| - 1].0));
    }
  }

  /** When no status is requested under two spellings, the synthesized projection passes both kinds
      of task checks that blank expectations give rise to: one for each status, and the minimum. */
  lemma SynthesizedProjectionPasses(worker: seq<Task>, scenarioId: string, goalId: string, counts: TaskCounts)
    requires HaveDistinctForms(counts)
    ensures var tasks := Filled(worker, scenarioId, goalId, counts);
      && AllPass(CountChecks("task_status", CountsAsExpectations(counts), tasks))
      && MinCountCheck("tasks", DerivedMinTasks(counts), |tasks|).passed
  {
    StatusChecksPass(worker, scenarioId, goalId, counts);
    FilledLength(worker, scenarioId, goalId, counts);
    CoveredByWorkers(worker, counts);
    CountAllBounded(worker, counts);
    WordSizedBounds(Sum(CountsAsExpectations(counts)));
  }

  /** Without worker results, a status requested under two spellings makes the projection fall
      short of the derived minimum, whenever both requests are for at least one task. */
  lemma TwoSpellingsFallShort(a: string, b: string, m: U64, n: U64, scenarioId: string, goalId: string)
    requires NormalizeToken(a) == NormalizeToken(b) && m + n < USIZE_RANGE
    ensures var counts := [(a, Unsigned(m)), (b, Unsigned(n))];
      MinCountCheck("tasks", DerivedMinTasks(counts), |Filled([], scenarioId, goalId, counts)|).passed
      <==> m == 0 || n == 0
  {
    var first, second := (a, Unsigned(m)), (b, Unsigned(n));
    var counts, token := [first, second], NormalizeToken(a);
    assert counts[..1] == [first] && [first][..0] == [];
    assert MaxRequested([first], token) == m;
    assert Covered([], [first]) == 0;
    assert Covered([], counts) == Min(n, m);
    ExpectationsSumStep([first]);
    ExpectationsSumStep(counts);
    MinTasksCheck([], scenarioId, goalId, counts);
  }
}
