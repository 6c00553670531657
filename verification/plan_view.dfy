/** The plan view's logic: toggling one task with a full recount of both
    counters, the overall progress percentage, and the per-phase counts of a
    phase card. Everything here is a pure function of the plan value. */
module PlanView {
  import opened Types

  /** The same task with its completion flag inverted: the flag differs and
      setting it back gives the original task. */
  function Flipped(t: Task): (r: Task)
    ensures r.isCompleted != t.isCompleted
    ensures r.(isCompleted := t.isCompleted) == t
  {
    t.(isCompleted := !t.isCompleted)
  }

  /** Two phases agree on everything except, possibly, their tasks' flags. */
  predicate SameHeading(a: Phase, b: Phase) {
    a.id == b.id && a.title == b.title && a.duration == b.duration
    && a.description == b.description && |a.tasks| == |b.tasks|
  }

  /** The plan after the user clicks task `taskIndex` of phase `phaseIndex`:
      that task's flag is inverted and both counters are recomputed from the
      resulting tree. */
  function ToggleTask(plan: Plan, phaseIndex: nat, taskIndex: nat): (r: Plan)
    requires ValidIndex(plan.phases, phaseIndex, taskIndex)
    ensures r.id == plan.id && r.goal == plan.goal
    ensures r.createdAt == plan.createdAt && r.overview == plan.overview
    ensures |r.phases| == |plan.phases|
    ensures forall i :: 0 <= i < |plan.phases| ==> SameHeading(r.phases[i], plan.phases[i])
    ensures forall i: nat, j: nat :: ValidIndex(plan.phases, i, j) ==>
      ValidIndex(r.phases, i, j) && r.phases[i].tasks[j]
        == if i == phaseIndex && j == taskIndex then Flipped(plan.phases[i].tasks[j])
           else plan.phases[i].tasks[j]
    ensures TaskCounts(r.phases) == TaskCounts(plan.phases)
    ensures WellFormed(r)
  {
    var phase := plan.phases[phaseIndex];
    var tasks := phase.tasks[taskIndex := Flipped(phase.tasks[taskIndex])];
    var phases := plan.phases[phaseIndex := phase.(tasks := tasks)];
    assert TaskCounts(phases) == TaskCounts(plan.phases);
    plan.(phases := phases, completedTasks := CompletedCount(phases), totalTasks := TotalCount(phases))
  }

  /** On a well-formed plan a toggle keeps the total and moves the completed
      counter by one: up when the task was open, down when it was done. */
  lemma ToggleCounters(plan: Plan, phaseIndex: nat, taskIndex: nat)
    requires WellFormed(plan) && ValidIndex(plan.phases, phaseIndex, taskIndex)
    ensures ToggleTask(plan, phaseIndex, taskIndex).totalTasks == plan.totalTasks
    ensures ToggleTask(plan, phaseIndex, taskIndex).completedTasks
         == plan.completedTasks + if plan.phases[phaseIndex].tasks[taskIndex].isCompleted then -1 else 1
  {
    var r := ToggleTask(plan, phaseIndex, taskIndex);
    var old_tasks := plan.phases[phaseIndex].tasks;
    var new_tasks := r.phases[phaseIndex].tasks;
    assert new_tasks == old_tasks[taskIndex := Flipped(old_tasks[taskIndex])];
    CompletedInUpdate(old_tasks, taskIndex, Flipped(old_tasks[taskIndex]));
    var cs := CompletedCounts(plan.phases);
    assert CompletedCounts(r.phases) == cs[phaseIndex := CompletedIn(new_tasks)];
    SumUpdate(cs, phaseIndex, CompletedIn(new_tasks));
  }

  /** Toggling the same task twice gives back a well-formed plan unchanged. */
  lemma ToggleTwice(plan: Plan, phaseIndex: nat, taskIndex: nat)
    requires WellFormed(plan) && ValidIndex(plan.phases, phaseIndex, taskIndex)
    ensures ToggleTask(ToggleTask(plan, phaseIndex, taskIndex), phaseIndex, taskIndex) == plan
  {
    var once := ToggleTask(plan, phaseIndex, taskIndex);
    var twice := ToggleTask(once, phaseIndex, taskIndex);
    forall i | 0 <= i < |plan.phases|
      ensures twice.phases[i] == plan.phases[i]
    {
      assert twice.phases[i].tasks == plan.phases[i].tasks;
    }
    assert twice.phases == plan.phases;
  }

  /** True when every index pair addresses a task of a tree with the given
      per-phase task counts. */
  predicate TogglesFit(counts: seq<nat>, toggles: seq<(nat, nat)>) {
    forall k :: 0 <= k < |toggles| ==> toggles[k].0 < |counts| && toggles[k].1 < counts[toggles[k].0]
  }

  /** The plan after a sequence of clicks, applied in order. */
  function ApplyToggles(plan: Plan, toggles: seq<(nat, nat)>): (r: Plan)
    requires TogglesFit(TaskCounts(plan.phases), toggles)
    ensures TaskCounts(r.phases) == TaskCounts(plan.phases)
    ensures r.id == plan.id && r.goal == plan.goal
    ensures r.createdAt == plan.createdAt && r.overview == plan.overview
    ensures WellFormed(plan) || |toggles| > 0 ==> WellFormed(r)
    ensures WellFormed(plan) ==> r.totalTasks == plan.totalTasks
    decreases |toggles|
  {
    if |toggles| == 0 then plan
    else
      var next := ToggleTask(plan, toggles[0].0, toggles[0].1);
      assert TogglesFit(TaskCounts(next.phases), toggles[1..]);
      ApplyToggles(next, toggles[1..])
  }

  // ---------------------------------------------------------------------------
  // Progress

  /** floor(a / b) for a divisor of either sign. */
  function FloorDiv(a: int, b: int): (q: int)
    requires b != 0
    ensures b > 0 ==> b * q <= a < b * (q + 1)
    ensures b < 0 ==> b * q >= a > b * (q + 1)
  {
    if b > 0 then a / b else (-a) / (-b)
  }

  /** The nearest integer to num / den, halves rounded up (as `Math.round`):
      num / den lies in [r - 1/2, r + 1/2). */
  function RoundHalfUp(num: int, den: int): (r: int)
    requires den != 0
    ensures den > 0 ==> 2 * den * r <= 2 * num + den < 2 * den * (r + 1)
    ensures den < 0 ==> 2 * den * r >= 2 * num + den > 2 * den * (r + 1)
  {
    FloorDiv(2 * num + den, 2 * den)
  }

  /** The overall completion percentage shown in the progress bar: 0 for a
      plan without tasks, otherwise 100 * completed / total rounded to the
      nearest integer with halves rounded up. */
  function ProgressPercentage(plan: Plan): (r: int)
    ensures plan.totalTasks == 0 ==> r == 0
    ensures plan.totalTasks > 0 ==>
      2 * plan.totalTasks * r <= 200 * plan.completedTasks + plan.totalTasks < 2 * plan.totalTasks * (r + 1)
    ensures plan.totalTasks < 0 ==>
      2 * plan.totalTasks * r >= 200 * plan.completedTasks + plan.totalTasks > 2 * plan.totalTasks * (r + 1)
  {
    if plan.totalTasks == 0 then 0
    else RoundHalfUp(100 * plan.completedTasks, plan.totalTasks)
  }

  /** A rounded percentage of a share between none and all lies in [0, 100],
      and is exactly 100 for all of it. */
  lemma RoundedShareBounds(c: int, t: int, r: int)
    requires 0 <= c <= t && t > 0
    requires 2 * t * r <= 200 * c + t < 2 * t * (r + 1)
    ensures 0 <= r <= 100
    ensures c == t ==> r == 100
  {
    if r > 100 {
      MulMonotone(2 * t, 101, r);
    }
    if r < 0 {
      MulMonotone(2 * t, r + 1, 0);
    }
    if c == t && r < 100 {
      MulMonotone(2 * t, r + 1, 100);
    }
  }

  lemma MulMonotone(k: int, a: int, b: int)
    requires k >= 0 && a <= b
    ensures k * a <= k * b
  {
  }

  /** The percentage of a well-formed plan lies between 0 and 100. */
  lemma ProgressBounds(plan: Plan)
    requires WellFormed(plan)
    ensures 0 <= ProgressPercentage(plan) <= 100
  {
    WellFormedBounds(plan);
    if plan.totalTasks > 0 {
      RoundedShareBounds(plan.completedTasks, plan.totalTasks, ProgressPercentage(plan));
    }
  }

  /** A well-formed plan whose every task is done shows 100%, unless it has no
      task at all. */
  lemma ProgressAllCompleted(plan: Plan)
    requires WellFormed(plan) && AllCompleted(plan.phases) && plan.totalTasks != 0
    ensures ProgressPercentage(plan) == 100
  {
    WellFormedAllCompleted(plan);
    WellFormedBounds(plan);
    RoundedShareBounds(plan.completedTasks, plan.totalTasks, ProgressPercentage(plan));
  }

  /** A well-formed plan with no task done shows 0%. */
  lemma ProgressNoneCompleted(plan: Plan)
    requires WellFormed(plan) && plan.completedTasks == 0
    ensures ProgressPercentage(plan) == 0
  {
    WellFormedBounds(plan);
  }

  /** One task done out of three shows 33%; two out of three show 67%. */
  lemma ProgressExamples(plan: Plan)
    ensures plan.totalTasks == 3 && plan.completedTasks == 1 ==> ProgressPercentage(plan) == 33
    ensures plan.totalTasks == 3 && plan.completedTasks == 2 ==> ProgressPercentage(plan) == 67
  {
  }

  // ---------------------------------------------------------------------------
  // Phase card

  /** Tasks of the phase that are done: none exactly when no task is done,
      all exactly when every task is. */
  function CompletedInPhase(phase: Phase): (n: nat)
    ensures n == 0 <==> forall j :: 0 <= j < |phase.tasks| ==> !phase.tasks[j].isCompleted
    ensures n == |phase.tasks| <==> forall j :: 0 <= j < |phase.tasks| ==> phase.tasks[j].isCompleted
  {
    CompletedInExtremes(phase.tasks);
    CompletedIn(phase.tasks)
  }

  /** Tasks of the phase; never fewer than the done ones. */
  function TotalInPhase(phase: Phase): (n: nat)
    ensures CompletedInPhase(phase) <= n
  {
    |phase.tasks|
  }

  /** A phase is shown as complete when it has a task and all its tasks are done. */
  function IsPhaseComplete(phase: Phase): (b: bool)
    ensures b <==> |phase.tasks| > 0 && forall j :: 0 <= j < |phase.tasks| ==> phase.tasks[j].isCompleted
  {
    TotalInPhase(phase) > 0 && CompletedInPhase(phase) == TotalInPhase(phase)
  }

  /** The "done / total" badge never shows more done than total, and shows
      none done exactly when no task of the phase is done. */
  lemma PhaseBadge(phase: Phase)
    ensures CompletedInPhase(phase) <= TotalInPhase(phase)
    ensures CompletedInPhase(phase) == 0 <==> forall j :: 0 <= j < |phase.tasks| ==> !phase.tasks[j].isCompleted
  {
  }

  // ---------------------------------------------------------------------------
  // The recount loop

  /** The nested walk over phases and tasks that a toggle uses to recompute
      both counters. */
  method Recount(phases: seq<Phase>) returns (completedCount: nat, totalCount: nat)
    ensures totalCount == TotalCount(phases)
    ensures completedCount == CompletedCount(phases)
  {
    completedCount, totalCount := 0, 0;
    var i := 0;
    while i < |phases|
      invariant i <= |phases|
      invariant totalCount == TotalCount(phases[..i])
      invariant completedCount == CompletedCount(phases[..i])
    {
      var tasks := phases[i].tasks;
      var j := 0;
      while j < |tasks|
        invariant j <= |tasks|
        invariant totalCount == TotalCount(phases[..i]) + j
        invariant completedCount == CompletedCount(phases[..i]) + CompletedIn(tasks[..j])
      {
        totalCount := totalCount + 1;
        if tasks[j].isCompleted {
          completedCount := completedCount + 1;
        }
        assert tasks[..j + 1][..j] == tasks[..j];
        j := j + 1;
      }
      assert tasks[..j] == tasks;
      var prefix := phases[..i + 1];
      assert prefix[..i] == phases[..i];
      assert TaskCounts(prefix)[..i] == TaskCounts(phases[..i]);
      assert CompletedCounts(prefix)[..i] == CompletedCounts(phases[..i]);
      i := i + 1;
    }
    assert phases[..i] == phases;
  }
}
