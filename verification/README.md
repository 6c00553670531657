# Plan state model

A Dafny model of the plan state of a goal-planning web app. A language
model generates a multi-phase plan. The app turns it into a `Plan`: a tree
of phases and tasks plus two aggregate counters, `totalTasks` and
`completedTasks`. The app then lets the user tick tasks off, shows the
progress, keeps the plan in browser storage and discards it on request.

The project has six modules. `Wrappers` and `Ids` are support modules; the other four follow the source files:

- `Wrappers` (`wrappers.dfy`): `Option` and `Result`. They stand in for `null`/`undefined` and for thrown errors.
- `Types` (`types.dfy`), from `types.ts`:
  - the datatypes `Task`, `Phase`, `Plan`, `PlanFormData` with its closed `Intensity` enumeration, and the identifier-free `GeneratedPlanResponse`;
  - the counting functions over the tree;
  - `WellFormed(plan)`, which holds when both counters agree with the tree.
- `Ids` (`ids.dfy`): the positional identifiers `phase-<i>` and `task-<i>-<j>`. A template literal renders `<i>` as shortest decimal, and this module proves that rendering injective.
- `App` (`App.tsx`):
  - the transform inside `handleCreatePlan`;
  - the `{currentPlan, isLoading, error}` state with its create, update and reset transitions;
  - the load and save storage effects, over an abstract key-value store.
- `PlanView` (`components/PlanView.tsx`):
  - `toggleTask`, including its full rescan of the counters, written as the loop method `Recount`;
  - the rounded progress percentage;
  - the per-phase counts of a phase card.
- `PlanForm` (`components/PlanForm.tsx`): the initial form, the one-field change handler, and the submit guard built on `trim()`.

External effects become parameters:

- the result of generation is a `Result<GeneratedPlanResponse, Option<string>>`, where the failure carries the thrown error's message;
- `crypto.randomUUID()` and `Date.now()` are the `newId` and `now` arguments;
- JSON (de)serialisation is a pair of functions `serialize: Plan -> string` and `parse: string -> Option<Plan>`, where `None` means the parse threw;
- `localStorage` is a `map<string, string>`.

Facts about the code that the model keeps:

- The code does no structural validation of the generated response and has no separate error kinds. It parses the text and casts the result. Any failure reaches `handleCreatePlan` as one thrown error whose message, or a default text, is shown.
- The code has no guard against a late generation result overwriting a newer state.
- A failed storage write is not reported through the error channel.
- `Task.description` and `Task.tips` are optional on a task (`types.ts`).

## Model

| member | source | states |
|---|---|---|
| Types.ParseIntensity | types.ts:35 | a string read as an intensity is that intensity's wire name |
| Types.ParseIntensityIff | components/PlanForm.tsx:92-94 | the intensity enumeration is closed: a string denotes an intensity exactly when it is `relaxed`, `moderate` or `intense` for that intensity |
| Types.CompletedInExtremes | components/PlanView.tsx:114 | the completed count of a task list equals its length iff every task is done, and is zero iff none is |
| Types.WellFormedBounds | types.ts:20-28 | a plan whose counters agree with its tree has `0 <= completedTasks <= totalTasks` |
| Types.WellFormedAllCompleted | components/PlanView.tsx:19-26 | in a well-formed plan, completed equals total exactly when every task of the tree is done |
| Types.CompletedInUpdate | components/PlanView.tsx:16 | replacing one task moves the completed count by the difference of the old and new flags |
| Ids.NatToString | App.tsx:50 | an index is rendered as a non-empty digit string with no leading zero |
| Ids.DigitsValueOfNatToString | App.tsx:55 | reading back a rendered index gives the index |
| Ids.PhaseIdInjective | App.tsx:50 | distinct phase positions get distinct phase ids |
| Ids.TaskIdInjective | App.tsx:55 | distinct (phase, task) positions get distinct task ids |
| Ids.PhaseIdIsNotTaskId | App.tsx:50-55 | no phase id equals any task id |
| App.BuildPlan | App.tsx:44-64 | the built plan takes the given id and time, copies `goal` from the form and `overview` from the response, and keeps phase count and order. Phase i is `phase-i` with its content copied. Task (i, j) is `task-i-j` with its content copied and not done. `completedTasks` is 0 |
| App.BuildTask | App.tsx:54-60 | a built task is not done, carries the generated title, description and tips, and its id `task-i-j` names position (i, j) and no other |
| App.BuildPhase | App.tsx:49-61 | a built phase carries the generated title, duration and description, has as many tasks as the generated one with none done, and its id `phase-i` names position i and no other |
| App.GeneratedTotal | App.tsx:62 | the `reduce` total is zero exactly when no generated phase has a task |
| App.GeneratedTotalIsSum | App.tsx:49-62 | the `reduce` over the response equals the number of tasks in the phases built from it |
| App.BuildPlanWellFormed | App.tsx:49-63 | a freshly built plan is well formed: its total is the tree's task count and its completed count is the tree's done count |
| App.BuildPlanIdsDistinct | App.tsx:49-61 | all phase and task ids in a freshly built plan are pairwise distinct |
| App.TwoPhaseExample | App.tsx:44-64 | a response with phases of 3 and 2 tasks yields total 5, completed 0, ids `phase-0`, `phase-1`, `task-0-0` … `task-1-1` |
| App.TogglesAfterCreate | components/PlanView.tsx:13-34 | after any sequence of clicks on a fresh plan, the total is still the response's task count and the completed counter is the true count |
| App.ToggleKeepsIdsDistinct | components/PlanView.tsx:14-16 | a toggle keeps identifier uniqueness |
| App.ErrorText | App.tsx:69 | the shown error is never empty; a non-empty thrown message is shown as is |
| App.BeginCreate | App.tsx:38-39 | issuing a create turns loading on and clears the error, keeping the plan |
| App.HandleCreatePlan | App.tsx:37-73 | success replaces the plan wholesale with the built plan and leaves no error. Failure keeps the previous plan and sets a non-empty error. Loading always ends |
| App.HandleUpdatePlan | App.tsx:75-77 | the handed plan becomes the active plan; loading and error are untouched |
| App.HandleReset | App.tsx:79-82 | reset leaves no plan and no error |
| App.ResetIdempotent | App.tsx:79-82 | resetting twice equals resetting once |
| App.SaveEffect | App.tsx:29-35 | after the save effect the store holds exactly the serialised plan, or no entry when there is none; other keys are untouched |
| App.LoadEffect | App.tsx:16-26 | a loaded plan is what the stored text parses to. Unparsable text is removed from the store. An absent or empty entry activates nothing and leaves the store as it is |
| App.Mount | App.tsx:15-35 | after start-up the store matches the active plan, the active plan is whatever the stored text parsed to (none for an absent or empty entry), and other keys are untouched |
| App.Apply | App.tsx:37-82 | a create ends loading and leaves an error exactly when generation failed, keeping the plan on failure; a click keeps loading and error and leaves a well-formed plan of the same shape; a reset leaves neither plan nor error |
| App.Step | App.tsx:29-35 | after any create, click or reset, a store that matched the old plan matches the new plan, and other keys are untouched |
| App.StepKeepsPlanInvariant | App.tsx:44-82 | create, click and reset keep the active plan well formed with unique ids |
| App.ResetThenMountFindsNothing | App.tsx:16-26 | after a reset, a fresh start finds no plan |
| App.MountRestores | App.tsx:17-20 | when parsing inverts serialising, a fresh start restores exactly the saved plan and leaves the store unchanged |
| PlanView.Flipped | components/PlanView.tsx:16 | the clicked task's flag is inverted and nothing else about it changes |
| PlanView.ToggleTask | components/PlanView.tsx:13-34 | exactly the addressed task's flag is inverted. Every other task, each phase's id, title, duration and description, and the plan's id, goal, createdAt and overview are unchanged. Both counters agree with the new tree |
| PlanView.ToggleCounters | components/PlanView.tsx:16-32 | on a well-formed plan a toggle keeps the total and moves the completed counter by +1 (task was open) or -1 (task was done) |
| PlanView.ToggleTwice | components/PlanView.tsx:13-34 | toggling the same task twice returns a well-formed plan unchanged |
| PlanView.ApplyToggles | components/PlanView.tsx:13-34 | a sequence of clicks keeps the tree's shape and the plan's identity fields; afterwards the plan is well formed, and its total is unchanged when the start was well formed |
| PlanView.RoundHalfUp | components/PlanView.tsx:38 | the result r is the integer with num/den in [r - 1/2, r + 1/2), i.e. round-half-up |
| PlanView.ProgressPercentage | components/PlanView.tsx:36-39 | 0 when the total is 0, otherwise 100·completed/total rounded half up |
| PlanView.ProgressBounds | components/PlanView.tsx:36-39 | a well-formed plan's percentage lies in [0, 100] |
| PlanView.ProgressAllCompleted | components/PlanView.tsx:36-39 | a well-formed plan with tasks, all done, shows 100 |
| PlanView.ProgressNoneCompleted | components/PlanView.tsx:37-38 | a well-formed plan with nothing done, such as a freshly built one, shows 0 |
| PlanView.ProgressExamples | components/PlanView.tsx:38 | 1 of 3 shows 33, 2 of 3 shows 67 |
| PlanView.CompletedInPhase | components/PlanView.tsx:114 | a phase's done count is zero exactly when no task is done, and equals its task count exactly when every task is done |
| PlanView.TotalInPhase | components/PlanView.tsx:115 | a phase's task count is never below its done count |
| PlanView.IsPhaseComplete | components/PlanView.tsx:116 | a phase shows as complete iff it has at least one task and all its tasks are done |
| PlanView.PhaseBadge | components/PlanView.tsx:114-115 | a phase badge never shows more done than total, and shows 0 done iff no task of the phase is done |
| PlanView.Recount | components/PlanView.tsx:18-26 | the nested rescan loop computes exactly the tree's task count and done count |
| PlanForm.Trim | components/PlanForm.tsx:20 | `trim()` returns the piece of the string between a leading and a trailing all-whitespace run. The piece starts and ends with non-whitespace, and is empty iff the string is all whitespace |
| PlanForm.HandleSubmit | components/PlanForm.tsx:18-23 | the form is submitted iff goal and duration are both not all-whitespace, and it is submitted unchanged and untrimmed |
| PlanForm.InitialFormRefused | components/PlanForm.tsx:11-16 | submitting the initial form is refused |
| PlanForm.HandleChange | components/PlanForm.tsx:25-28 | a change sets exactly the named field to the value and leaves the other three unchanged |
| PlanForm.TypedFormSubmits | components/PlanForm.tsx:11-27 | typing a non-blank goal and duration into the initial form makes it submittable with exactly that data, empty context and `moderate` intensity |

## Left out

- `services/geminiService.ts` is not part of this model. It is a network client plus a prompt template. Generation is the `outcome` argument of `HandleCreatePlan`. A response missing `phases` or `tasks` makes `.map` throw inside the `try`, and that arrives as a `Failure` outcome too.
- `crypto.randomUUID()` and `Date.now()` are the opaque `newId` and `now` arguments. Nothing is claimed about their uniqueness or monotonicity.
- `localStorage` and `JSON.stringify`/`JSON.parse` are abstract. The store is a `map<string, string>`, `serialize` and `parse` are arguments, and `parse` returning `None` stands for a thrown parse error.
- `parse` returning `Some(p)` assumes the stored JSON has the shape of a plan. The source's `JSON.parse` throws only on a syntax error. Valid JSON of another shape, such as `{}`, `[]`, `42` or `"x"`, becomes the active plan as it is, and the view then throws while rendering it at `plan.phases.map`. The model does not express such values.
- Stored text that parses without throwing to a falsy value (`null`, `0`, `false`, `""`) activates nothing in the source. The model folds all of these into `None`. The final state is the same either way: no plan, and the key removed by the save effect.
- The generated response's fields are taken on trust, as the source's cast does. A generated task without `description` or `tips`, or a response or phase without `overview`, `title` or `duration`, gives `undefined` in the built plan. The model's generated strings are always present, so it does not express these cases.
- A `setItem` that throws, such as a quota error, is not modelled.
- PlanView.ProgressPercentage: computes with exact integers, floor((200·completed + total) / (2·total)). JavaScript computes `Math.round((completed / total) * 100)` in IEEE doubles, so the model ignores floating-point rounding of the quotient and product.
- Counters and `createdAt` are unbounded integers. JavaScript numbers are doubles, but these values stay far below 2^53.
- PlanView.ToggleTask: this is a pure `Plan -> Plan` function. The source copies the phases array only shallowly and then flips the flag on the shared task object, so the previous `plan` value is mutated as well. That aliasing is deliberately idealised away.
- PlanView.ToggleTask: requires valid indices. Out-of-range indices make the source throw a `TypeError`, but the view only produces indices of tasks it has rendered.
- PlanForm.HandleChange: requires an intensity value to be one of the three wire names. The source's select offers only those.
- The view gates which intents are possible: the form shows only when there is no plan, submit is disabled while loading, and delete shows only with a plan. `App.Step` accepts any create or reset in any state, which is more general.
- `App.HandleCreatePlan` is one atomic step from `BeginCreate` to the outcome. Async interleaving and late responses are not modelled, and the source has no guard against them.
- PlanForm.IsWhitespace is the ECMAScript WhiteSpace and LineTerminator set, with the space-separator category fixed at its current members. No Unicode-version dependence is modelled.
- Rendering is not modelled: JSX, the phase card's open/closed state, the `confirm()` dialog before delete, and console logging.
