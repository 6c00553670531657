/** The plan data model: tasks, phases, the plan with its two aggregate
    counters, the creation form, and the identifier-free shape a generation
    returns. Also the counting functions that define when a plan's counters
    agree with its tree (`WellFormed`). */
module Types {
  import opened Wrappers

  /** The three pacing levels a user may ask for; no other value exists. */
  datatype Intensity = Relaxed | Moderate | Intense

  /** The wire name of an intensity, as the form's select options carry it. */
  function IntensityName(i: Intensity): string {
    match i
    case Relaxed => "relaxed"
    case Moderate => "moderate"
    case Intense => "intense"
  }

  /** Reads an intensity back from its wire name; any other text is no intensity. */
  function ParseIntensity(s: string): (r: Option<Intensity>)
    ensures r.Some? ==> IntensityName(r.value) == s
  {
    if s == "relaxed" then Some(Relaxed)
    else if s == "moderate" then Some(Moderate)
    else if s == "intense" then Some(Intense)
    else None
  }

  /** The enumeration is closed: a string names an intensity exactly when it
      is that intensity's wire name. */
  lemma ParseIntensityIff(s: string, i: Intensity)
    ensures ParseIntensity(s) == Some(i) <==> s == IntensityName(i)
  {
  }

  /** A unit of work. Its completion flag is its only state; description and
      tips may be absent. */
  datatype Task = Task(
    id: string,
    title: string,
    description: Option<string>,
    isCompleted: bool,
    tips: Option<string>)

  /** A named segment of a plan owning an ordered sequence of tasks. */
  datatype Phase = Phase(
    id: string,
    title: string,
    duration: string,
    description: string,
    tasks: seq<Task>)

  /** The durable plan. `createdAt` is a millisecond timestamp; the two
      counters are meant to agree with the tree (see `WellFormed`). */
  datatype Plan = Plan(
    id: string,
    goal: string,
    createdAt: int,
    overview: string,
    phases: seq<Phase>,
    totalTasks: int,
    completedTasks: int)

  /** What the user enters to ask for a plan. */
  datatype PlanFormData = PlanFormData(
    goal: string,
    duration: string,
    context: string,
    intensity: Intensity)

  /** A generated task: all three strings are present; no id, no flag. */
  datatype GeneratedTask = GeneratedTask(title: string, description: string, tips: string)

  /** A generated phase: content only, no id and no completion state. */
  datatype GeneratedPhase = GeneratedPhase(
    title: string,
    duration: string,
    description: string,
    tasks: seq<GeneratedTask>)

  /** The content a generation returns, before identifiers are assigned. */
  datatype GeneratedPlanResponse = GeneratedPlanResponse(overview: string, phases: seq<GeneratedPhase>)

  // ---------------------------------------------------------------------------
  // Counting

  /** Left-to-right sum, the shape of `reduce((acc, x) => acc + x, 0)`. */
  function Sum(xs: seq<nat>): nat {
    if |xs| == 0 then 0 else Sum(xs[..|xs| - 1]) + xs[|xs| - 1]
  }

  /** Number of completed tasks, i.e. `tasks.filter(t => t.isCompleted).length`. */
  function CompletedIn(tasks: seq<Task>): (n: nat)
    ensures n <= |tasks|
  {
    if |tasks| == 0 then 0
    else CompletedIn(tasks[..|tasks| - 1]) + (if tasks[|tasks| - 1].isCompleted then 1 else 0)
  }

  /** The completed count of a task list reaches its length exactly when
      every task is done, and is zero exactly when none is. */
  lemma {:induction false} CompletedInExtremes(tasks: seq<Task>)
    ensures CompletedIn(tasks) == |tasks| <==> forall j :: 0 <= j < |tasks| ==> tasks[j].isCompleted
    ensures CompletedIn(tasks) == 0 <==> forall j :: 0 <= j < |tasks| ==> !tasks[j].isCompleted
  {
    if |tasks| > 0 {
      var init := tasks[..|tasks| - 1];
      CompletedInExtremes(init);
      assert forall j :: 0 <= j < |init| ==> init[j] == tasks[j];
    }
  }

  /** The task count of every phase, in phase order. */
  function TaskCounts(phases: seq<Phase>): (c: seq<nat>)
    ensures |c| == |phases|
  {
    seq(|phases|, i requires 0 <= i < |phases| => |phases[i].tasks|)
  }

  /** The completed-task count of every phase, in phase order. */
  function CompletedCounts(phases: seq<Phase>): (c: seq<nat>)
    ensures |c| == |phases|
  {
    seq(|phases|, i requires 0 <= i < |phases| => CompletedIn(phases[i].tasks))
  }

  /** Number of tasks in the whole tree. */
  function TotalCount(phases: seq<Phase>): nat {
    Sum(TaskCounts(phases))
  }

  /** Number of completed tasks in the whole tree. */
  function CompletedCount(phases: seq<Phase>): nat {
    Sum(CompletedCounts(phases))
  }

  /** True when every task of the tree is completed. */
  predicate AllCompleted(phases: seq<Phase>) {
    forall i, j :: 0 <= i < |phases| && 0 <= j < |phases[i].tasks| ==> phases[i].tasks[j].isCompleted
  }

  /** The counters of a plan agree with its tree. */
  predicate WellFormed(p: Plan) {
    p.totalTasks == TotalCount(p.phases) && p.completedTasks == CompletedCount(p.phases)
  }

  /** True when a (phase, task) index pair addresses a task of `phases`. */
  predicate ValidIndex(phases: seq<Phase>, phaseIndex: nat, taskIndex: nat) {
    phaseIndex < |phases| && taskIndex < |phases[phaseIndex].tasks|
  }

  // ---------------------------------------------------------------------------
  // Facts about sums

  /** Replacing one summand changes the sum by exactly the difference. */
  lemma {:induction false} SumUpdate(xs: seq<nat>, k: nat, v: nat)
    requires k < |xs|
    ensures Sum(xs[k := v]) + xs[k] == Sum(xs) + v
  {
    var n := |xs| - 1;
    var ys := xs[k := v];
    if k == n {
      assert ys[..n] == xs[..n];
    } else {
      assert ys[..n] == xs[..n][k := v];
      SumUpdate(xs[..n], k, v);
    }
  }

  /** A pointwise smaller-or-equal sequence has a smaller-or-equal sum, and the
      sums are equal only when the sequences are. */
  lemma {:induction false} SumPointwise(xs: seq<nat>, ys: seq<nat>)
    requires |xs| == |ys|
    requires forall i :: 0 <= i < |xs| ==> xs[i] <= ys[i]
    ensures Sum(xs) <= Sum(ys)
    ensures Sum(xs) == Sum(ys) <==> xs == ys
  {
    if |xs| > 0 {
      var n := |xs| - 1;
      SumPointwise(xs[..n], ys[..n]);
      if Sum(xs) == Sum(ys) {
        assert xs[..n] == ys[..n];
        assert xs == xs[..n] + [xs[n]] && ys == ys[..n] + [ys[n]];
      }
    }
  }

  /** A sum is zero exactly when every summand is. */
  lemma {:induction false} SumZero(xs: seq<nat>)
    ensures Sum(xs) == 0 <==> forall i :: 0 <= i < |xs| ==> xs[i] == 0
  {
    if |xs| > 0 {
      var n := |xs| - 1;
      SumZero(xs[..n]);
      assert forall i :: 0 <= i < n ==> xs[..n][i] == xs[i];
    }
  }

  /** Replacing one task changes the completed count by the difference of
      the two flags. */
  lemma {:induction false} CompletedInUpdate(tasks: seq<Task>, j: nat, t: Task)
    requires j < |tasks|
    ensures CompletedIn(tasks[j := t]) + (if tasks[j].isCompleted then 1 else 0)
         == CompletedIn(tasks) + (if t.isCompleted then 1 else 0)
  {
    var n := |tasks| - 1;
    var us := tasks[j := t];
    assert CompletedIn(us) == CompletedIn(us[..n]) + (if us[n].isCompleted then 1 else 0);
    assert CompletedIn(tasks) == CompletedIn(tasks[..n]) + (if tasks[n].isCompleted then 1 else 0);
    if j == n {
      assert us[..n] == tasks[..n];
    } else {
      assert us[..n] == tasks[..n][j := t];
      CompletedInUpdate(tasks[..n], j, t);
    }
  }

  // ---------------------------------------------------------------------------
  // Facts about well-formed plans

  /** A well-formed plan's counters satisfy `0 <= completed <= total`. */
  lemma WellFormedBounds(p: Plan)
    requires WellFormed(p)
    ensures 0 <= p.completedTasks <= p.totalTasks
  {
    SumPointwise(CompletedCounts(p.phases), TaskCounts(p.phases));
  }

  /** In a well-formed plan the completed counter reaches the total exactly
      when every task of the tree is completed. */
  lemma WellFormedAllCompleted(p: Plan)
    requires WellFormed(p)
    ensures p.completedTasks == p.totalTasks <==> AllCompleted(p.phases)
  {
    var cs, ts := CompletedCounts(p.phases), TaskCounts(p.phases);
    SumPointwise(cs, ts);
    if AllCompleted(p.phases) {
      forall i | 0 <= i < |cs|
        ensures cs[i] == ts[i]
      {
        CompletedInExtremes(p.phases[i].tasks);
      }
      assert cs == ts;
    }
    if cs == ts {
      forall i, j | 0 <= i < |p.phases| && 0 <= j < |p.phases[i].tasks|
        ensures p.phases[i].tasks[j].isCompleted
      {
        assert cs[i] == ts[i];
        CompletedInExtremes(p.phases[i].tasks);
      }
    }
  }
}
