/** The application shell: turning a generated response into a plan, the
    `{plan, loading, error}` state with its create / update / reset
    transitions, and the two storage effects that load the plan on start-up
    and write it back after every change. The generation call, the random id,
    the clock and JSON (de)serialisation are parameters. */
module App {
  import opened Wrappers
  import opened Types
  import opened Ids
  import PlanView

  // ---------------------------------------------------------------------------
  // Building a plan from a generated response

  /** Task `j` of phase `i`: positional id, copied content, not done. The id
      names this position and no other. */
  function BuildTask(g: GeneratedTask, i: nat, j: nat): (r: Task)
    ensures !r.isCompleted
    ensures forall k: nat, l: nat :: r.id == TaskId(k, l) <==> k == i && l == j
    ensures r.title == g.title && r.description == Some(g.description) && r.tips == Some(g.tips)
  {
    forall k: nat, l: nat | k != i || l != j
      ensures TaskId(k, l) != TaskId(i, j)
    {
      TaskIdInjective(k, l, i, j);
    }
    Task(TaskId(i, j), g.title, Some(g.description), false, Some(g.tips))
  }

  /** Phase `i`: positional id, copied content, tasks built in order. The id
      names this position only, and the phase starts with nothing done. */
  function BuildPhase(g: GeneratedPhase, i: nat): (r: Phase)
    ensures forall k: nat :: r.id == PhaseId(k) <==> k == i
    ensures r.title == g.title && r.duration == g.duration && r.description == g.description
    ensures |r.tasks| == |g.tasks|
    ensures CompletedIn(r.tasks) == 0
  {
    forall k: nat | k != i
      ensures PhaseId(k) != PhaseId(i)
    {
      PhaseIdInjective(k, i);
    }
    var tasks := seq(|g.tasks|, j requires 0 <= j < |g.tasks| => BuildTask(g.tasks[j], i, j));
    CompletedInExtremes(tasks);
    Phase(PhaseId(i), g.title, g.duration, g.description, tasks)
  }

  /** The phases of the built plan, phase `i` built from generated phase `i`. */
  function BuildPhases(phases: seq<GeneratedPhase>): (r: seq<Phase>)
    ensures |r| == |phases|
  {
    seq(|phases|, i requires 0 <= i < |phases| => BuildPhase(phases[i], i))
  }

  /** `phases.reduce((acc, p) => acc + p.tasks.length, 0)`: zero exactly when
      no generated phase has a task. */
  function GeneratedTotal(phases: seq<GeneratedPhase>): (n: nat)
    ensures n == 0 <==> forall i :: 0 <= i < |phases| ==> |phases[i].tasks| == 0
  {
    if |phases| == 0 then 0
    else
      var init := phases[..|phases| - 1];
      assert forall i :: 0 <= i < |init| ==> init[i] == phases[i];
      GeneratedTotal(init) + |phases[|phases| - 1].tasks|
  }

  /** The plan made from a successful generation. `newId` and `now` stand for
      the random identifier and the clock reading taken at creation. */
  function BuildPlan(form: PlanFormData, resp: GeneratedPlanResponse, newId: string, now: int): (r: Plan)
    ensures r.id == newId && r.goal == form.goal && r.createdAt == now && r.overview == resp.overview
    ensures |r.phases| == |resp.phases|
    ensures forall i :: 0 <= i < |resp.phases| ==>
      var p, g := r.phases[i], resp.phases[i];
      p.id == PhaseId(i) && p.title == g.title && p.duration == g.duration
      && p.description == g.description && |p.tasks| == |g.tasks|
    ensures forall i, j :: 0 <= i < |resp.phases| && 0 <= j < |resp.phases[i].tasks| ==>
      var t, g := r.phases[i].tasks[j], resp.phases[i].tasks[j];
      t.id == TaskId(i, j) && t.title == g.title && t.description == Some(g.description)
      && t.tips == Some(g.tips) && !t.isCompleted
    ensures r.completedTasks == 0
  {
    Plan(newId, form.goal, now, resp.overview, BuildPhases(resp.phases), GeneratedTotal(resp.phases), 0)
  }

  /** The left fold over the response counts exactly the tasks of the
      phases built from it. */
  lemma {:induction false} GeneratedTotalIsSum(phases: seq<GeneratedPhase>)
    ensures GeneratedTotal(phases) == TotalCount(BuildPhases(phases))
  {
    if |phases| > 0 {
      var n := |phases| - 1;
      GeneratedTotalIsSum(phases[..n]);
      assert TaskCounts(BuildPhases(phases))[..n] == TaskCounts(BuildPhases(phases[..n]));
    }
  }

  /** A freshly built plan is well formed: its total is the number of tasks
      in the response, and no task is done. */
  lemma BuildPlanWellFormed(form: PlanFormData, resp: GeneratedPlanResponse, newId: string, now: int)
    ensures WellFormed(BuildPlan(form, resp, newId, now))
  {
    var r := BuildPlan(form, resp, newId, now);
    GeneratedTotalIsSum(resp.phases);
    SumZero(CompletedCounts(r.phases));
  }

  /** A response of two phases with three and two tasks gives a plan of five
      open tasks with ids `phase-0`, `phase-1`, `task-0-0` ... `task-1-1`. */
  lemma TwoPhaseExample(form: PlanFormData, resp: GeneratedPlanResponse, newId: string, now: int)
    requires |resp.phases| == 2 && |resp.phases[0].tasks| == 3 && |resp.phases[1].tasks| == 2
    ensures var r := BuildPlan(form, resp, newId, now);
      && r.totalTasks == 5 && r.completedTasks == 0
      && r.phases[0].id == "phase-0" && r.phases[1].id == "phase-1"
      && r.phases[0].tasks[0].id == "task-0-0" && r.phases[0].tasks[2].id == "task-0-2"
      && r.phases[1].tasks[1].id == "task-1-1"
  {
    var ps := resp.phases;
    assert ps[..1][..0] == [];
    assert GeneratedTotal(ps[..1]) == 3;
    assert ps[..1] == ps[..|ps| - 1];
    assert GeneratedTotal(ps) == 5;
  }

  /** However the user clicks after creation, the total stays the number of
      tasks the response had, and the completed counter stays the true count. */
  lemma TogglesAfterCreate(form: PlanFormData, resp: GeneratedPlanResponse, newId: string, now: int,
                           toggles: seq<(nat, nat)>)
    requires PlanView.TogglesFit(TaskCounts(BuildPlan(form, resp, newId, now).phases), toggles)
    ensures var r := PlanView.ApplyToggles(BuildPlan(form, resp, newId, now), toggles);
      r.totalTasks == GeneratedTotal(resp.phases) && r.completedTasks == CompletedCount(r.phases)
  {
    BuildPlanWellFormed(form, resp, newId, now);
  }

  /** Phase ids, task ids, and phase-versus-task ids are pairwise distinct. */
  predicate IdsDistinct(phases: seq<Phase>) {
    && (forall i, k :: 0 <= i < k < |phases| ==> phases[i].id != phases[k].id)
    && (forall i, j, k, l ::
          0 <= i < |phases| && 0 <= j < |phases[i].tasks| && 0 <= k < |phases| && 0 <= l < |phases[k].tasks|
          && (i != k || j != l) ==>
          phases[i].tasks[j].id != phases[k].tasks[l].id)
    && (forall i, k, l ::
          0 <= i < |phases| && 0 <= k < |phases| && 0 <= l < |phases[k].tasks| ==>
          phases[i].id != phases[k].tasks[l].id)
  }

  /** Every identifier in a freshly built plan is unique. */
  lemma BuildPlanIdsDistinct(form: PlanFormData, resp: GeneratedPlanResponse, newId: string, now: int)
    ensures IdsDistinct(BuildPlan(form, resp, newId, now).phases)
  {
    var ps := BuildPlan(form, resp, newId, now).phases;
    forall i, k | 0 <= i < k < |ps|
      ensures ps[i].id != ps[k].id
    {
      PhaseIdInjective(i, k);
    }
    forall i, j, k, l |
      0 <= i < |ps| && 0 <= j < |ps[i].tasks| && 0 <= k < |ps| && 0 <= l < |ps[k].tasks| && (i != k || j != l)
      ensures ps[i].tasks[j].id != ps[k].tasks[l].id
    {
      TaskIdInjective(i, j, k, l);
    }
    forall i, k, l | 0 <= i < |ps| && 0 <= k < |ps| && 0 <= l < |ps[k].tasks|
      ensures ps[i].id != ps[k].tasks[l].id
    {
      PhaseIdIsNotTaskId(i, k, l);
    }
  }

  /** A toggle keeps every identifier where it was, so uniqueness survives it. */
  lemma ToggleKeepsIdsDistinct(plan: Plan, phaseIndex: nat, taskIndex: nat)
    requires IdsDistinct(plan.phases) && ValidIndex(plan.phases, phaseIndex, taskIndex)
    ensures IdsDistinct(PlanView.ToggleTask(plan, phaseIndex, taskIndex).phases)
  {
  }

  // ---------------------------------------------------------------------------
  // Application state

  /** What the shell holds: the active plan if any, whether a generation is
      in flight, and the error message to show, if any. */
  datatype AppState = AppState(currentPlan: Option<Plan>, isLoading: bool, error: Option<string>)

  const InitialState: AppState := AppState(None, false, None)

  /** Shown when a failed generation carries no message of its own. */
  const DefaultErrorMessage: string := "生成计划时遇到了一些问题，请稍后重试。"

  /** `err.message || DefaultErrorMessage`: a missing or empty message falls
      back to the default. */
  function ErrorText(message: Option<string>): (r: string)
    ensures r != ""
    ensures message.Some? && message.value != "" ==> r == message.value
  {
    match message
    case Some(m) => if m != "" then m else DefaultErrorMessage
    case None => DefaultErrorMessage
  }

  /** The moment a create request is issued: loading on, error cleared. */
  function BeginCreate(s: AppState): (r: AppState)
    ensures r.isLoading && r.error == None && r.currentPlan == s.currentPlan
  {
    s.(isLoading := true, error := None)
  }

  /** A whole create request. `outcome` is what generation produced: the
      response, or the message of the error it threw (absent when the error
      carried none). Success replaces the plan wholesale; failure leaves it
      alone and sets a non-empty error. Either way loading ends. */
  function HandleCreatePlan(s: AppState, form: PlanFormData,
                            outcome: Result<GeneratedPlanResponse, Option<string>>,
                            newId: string, now: int): (r: AppState)
    ensures !r.isLoading
    ensures outcome.Success? ==>
      r.currentPlan == Some(BuildPlan(form, outcome.value, newId, now)) && r.error == None
    ensures outcome.Failure? ==>
      r.currentPlan == s.currentPlan && r.error.Some? && r.error.value != ""
    ensures outcome.Failure? && outcome.error.Some? && outcome.error.value != "" ==>
      r.error == outcome.error
  {
    var pending := BeginCreate(s);
    match outcome
    case Success(resp) => pending.(currentPlan := Some(BuildPlan(form, resp, newId, now)), isLoading := false)
    case Failure(message) => pending.(error := Some(ErrorText(message)), isLoading := false)
  }

  /** The view hands back a changed plan, which becomes the active plan. */
  function HandleUpdatePlan(s: AppState, plan: Plan): (r: AppState)
    ensures r.currentPlan == Some(plan) && r.isLoading == s.isLoading && r.error == s.error
  {
    s.(currentPlan := Some(plan))
  }

  /** Discard the active plan and clear the error. */
  function HandleReset(s: AppState): (r: AppState)
    ensures r.currentPlan == None && r.error == None && r.isLoading == s.isLoading
  {
    s.(currentPlan := None, error := None)
  }

  /** Resetting twice is resetting once. */
  lemma ResetIdempotent(s: AppState)
    ensures HandleReset(HandleReset(s)) == HandleReset(s)
  {
  }

  // ---------------------------------------------------------------------------
  // Storage

  /** The single key the plan is kept under. */
  const StorageKey: string := "zhice_user_plan_v1"

  /** Keys other than the plan's key hold the same entries in both stores. */
  ghost predicate OthersUnchanged(before: map<string, string>, after: map<string, string>) {
    forall k :: k != StorageKey ==> (k in after <==> k in before) && (k in after ==> after[k] == before[k])
  }

  /** The store holds exactly the serialised active plan, or nothing when
      there is no active plan. */
  predicate Synced(plan: Option<Plan>, store: map<string, string>, serialize: Plan -> string) {
    match plan
    case Some(p) => StorageKey in store && store[StorageKey] == serialize(p)
    case None => StorageKey !in store
  }

  /** The save effect: write the active plan, or remove the key when there
      is none. */
  function SaveEffect(plan: Option<Plan>, store: map<string, string>, serialize: Plan -> string): (r: map<string, string>)
    ensures Synced(plan, r, serialize)
    ensures OthersUnchanged(store, r)
  {
    match plan
    case Some(p) => store[StorageKey := serialize(p)]
    case None => store - {StorageKey}
  }

  /** The load effect. `parse` returns None when parsing throws. Returns the
      plan to activate, if any, and the store afterwards: unparsable text is
      removed, and an absent or empty entry is left as it is. */
  function LoadEffect(store: map<string, string>, parse: string -> Option<Plan>): (r: (Option<Plan>, map<string, string>))
    ensures r.0.Some? ==> StorageKey in store && parse(store[StorageKey]) == r.0
    ensures StorageKey in store && store[StorageKey] != "" ==> r.0 == parse(store[StorageKey])
    ensures r.1 == if StorageKey in store && store[StorageKey] != "" && parse(store[StorageKey]).None?
                   then store - {StorageKey} else store
    ensures StorageKey !in store || store[StorageKey] == "" ==> r == (None, store)
  {
    if StorageKey !in store || store[StorageKey] == "" then (None, store)
    else
      match parse(store[StorageKey])
      case Some(p) => (Some(p), store)
      case None => (None, store - {StorageKey})
  }

  /** Start-up: the load effect runs, then the save effect runs once with the
      initial empty plan (removing the key), and once more after a loaded
      plan becomes active (writing it back). */
  function Mount(store: map<string, string>, parse: string -> Option<Plan>, serialize: Plan -> string): (r: (AppState, map<string, string>))
    ensures Synced(r.0.currentPlan, r.1, serialize)
    ensures OthersUnchanged(store, r.1)
    ensures !r.0.isLoading && r.0.error == None
    ensures r.0.currentPlan.Some? ==> StorageKey in store && parse(store[StorageKey]) == r.0.currentPlan
    ensures StorageKey in store && store[StorageKey] != "" ==> r.0.currentPlan == parse(store[StorageKey])
    ensures StorageKey !in store || store[StorageKey] == "" ==> r.0.currentPlan == None
  {
    var (loaded, afterLoad) := LoadEffect(store, parse);
    var afterFirstSave := SaveEffect(InitialState.currentPlan, afterLoad, serialize);
    var state := InitialState.(currentPlan := loaded);
    var afterCommit := if loaded != InitialState.currentPlan then SaveEffect(loaded, afterFirstSave, serialize)
                       else afterFirstSave;
    (state, afterCommit)
  }

  // ---------------------------------------------------------------------------
  // Events

  /** The three user intents: submit a form (with what generation produced),
      click a task, and delete the plan. */
  datatype Event =
    | Create(form: PlanFormData, outcome: Result<GeneratedPlanResponse, Option<string>>, newId: string, now: int)
    | Toggle(phaseIndex: nat, taskIndex: nat)
    | Reset

  /** A click can only address a task of the plan on screen. */
  predicate Enabled(s: AppState, e: Event) {
    e.Toggle? ==> s.currentPlan.Some? && ValidIndex(s.currentPlan.value.phases, e.phaseIndex, e.taskIndex)
  }

  /** The state after one intent, without storage. A create ends loading and
      leaves an error exactly when generation failed; a click keeps loading
      and error and leaves a well-formed plan of the same shape; a reset
      leaves neither plan nor error. */
  function Apply(s: AppState, e: Event): (r: AppState)
    requires Enabled(s, e)
    ensures e.Create? ==> !r.isLoading && (r.error == None <==> e.outcome.Success?)
    ensures e.Create? && e.outcome.Failure? ==> r.currentPlan == s.currentPlan
    ensures e.Toggle? ==>
      && r.isLoading == s.isLoading && r.error == s.error
      && r.currentPlan.Some? && WellFormed(r.currentPlan.value)
      && TaskCounts(r.currentPlan.value.phases) == TaskCounts(s.currentPlan.value.phases)
    ensures e.Reset? ==> r.currentPlan == None && r.error == None && r.isLoading == s.isLoading
  {
    match e
    case Create(form, outcome, newId, now) => HandleCreatePlan(s, form, outcome, newId, now)
    case Toggle(i, j) => HandleUpdatePlan(s, PlanView.ToggleTask(s.currentPlan.value, i, j))
    case Reset => HandleReset(s)
  }

  /** One intent followed by the save effect, which runs only when the active
      plan changed. A store that matched the old plan matches the new one. */
  function Step(s: AppState, store: map<string, string>, e: Event, serialize: Plan -> string): (r: (AppState, map<string, string>))
    requires Enabled(s, e)
    ensures Synced(s.currentPlan, store, serialize) ==> Synced(r.0.currentPlan, r.1, serialize)
    ensures OthersUnchanged(store, r.1)
    ensures r.0.currentPlan != s.currentPlan ==> Synced(r.0.currentPlan, r.1, serialize)
  {
    var next := Apply(s, e);
    (next, if next.currentPlan != s.currentPlan then SaveEffect(next.currentPlan, store, serialize) else store)
  }

  /** Every active plan is well formed and has unique identifiers. */
  predicate PlanInvariant(s: AppState) {
    s.currentPlan.Some? ==> WellFormed(s.currentPlan.value) && IdsDistinct(s.currentPlan.value.phases)
  }

  /** Creating, clicking and resetting all keep the plan invariant. */
  lemma StepKeepsPlanInvariant(s: AppState, store: map<string, string>, e: Event, serialize: Plan -> string)
    requires Enabled(s, e) && PlanInvariant(s)
    ensures PlanInvariant(Step(s, store, e, serialize).0)
  {
    match e
    case Create(form, outcome, newId, now) =>
      if outcome.Success? {
        BuildPlanWellFormed(form, outcome.value, newId, now);
        BuildPlanIdsDistinct(form, outcome.value, newId, now);
      }
    case Toggle(i, j) =>
      ToggleKeepsIdsDistinct(s.currentPlan.value, i, j);
    case Reset =>
  }

  /** After a reset from a synced state, a fresh start finds no plan. */
  lemma ResetThenMountFindsNothing(s: AppState, store: map<string, string>,
                                   parse: string -> Option<Plan>, serialize: Plan -> string)
    requires Synced(s.currentPlan, store, serialize)
    ensures Mount(Step(s, store, Reset, serialize).1, parse, serialize).0.currentPlan == None
  {
  }

  /** When parsing inverts serialising, a fresh start restores exactly the
      plan that was active and leaves the store as it was. */
  lemma MountRestores(plan: Option<Plan>, store: map<string, string>,
                      parse: string -> Option<Plan>, serialize: Plan -> string)
    requires forall p :: parse(serialize(p)) == Some(p) && serialize(p) != ""
    requires Synced(plan, store, serialize)
    ensures Mount(store, parse, serialize).0.currentPlan == plan
    ensures Mount(store, parse, serialize).1 == store
  {
  }
}
