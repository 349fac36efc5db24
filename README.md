# BusinessProcess: a verified model of a small workflow state machine

The repository's logic is one class, `BusinessProcess`, in
`src/lib/business-process.ts`. A process holds the names of its active tasks
(`currentTasks`), the names of the tasks finished so far, in order
(`completedTasks`), the names `start` seeds (`inititalTasks`, spelled as in the
source) and a list of task definitions (`BusinessTask`: a name, a `TaskType`,
a follow-on callback and a constraint callback). `complete(t)` fails with
`TASK_NOT_ACTIVE` when `t` is not active. When `t` has no definition it just
moves `t` from active to completed. Otherwise it fails with
`TASK_CONSTRAINT_FAILED` when the constraint rejects the current state; if the
constraint holds, it appends the follow-on names, drops every occurrence of `t`
from the active list and records `t`. `canComplete` is the matching query,
`resolve` turns `complete` into a boolean and `load` takes over another
process's two lists.

Files:

- `tasks.dfy` (module `Tasks`): the value types (`TaskType`, `Snapshot`,
  `BusinessTask`, `ErrorCode`, `Result`), the definition lookup
  (`FindIndex`, `FindTask`: the first definition with a matching name, like
  `Array.prototype.find`), the filter `RemoveAll`, and `Transition`, the pure
  meaning of one `complete` step on a `Snapshot` of the process. The lemmas
  beside them state each branch of `complete`.
- `process.dfy` (module `Process`): the class `BusinessProcess`. Its fields are
  `seq<string>` fields that `Start`, `Complete` and `Load` reassign. Its
  `Complete` follows the source statement by statement, and its contract ties the
  new state to `Transition` of the old state. `CanComplete` is a function that
  reads the object.
- `scenarios.dfy` (module `Scenarios`): `Run`, the snapshot reached by a
  sequence of `resolve` calls, with the fact that the completed list is
  append-only, and the three-task example (A leads to B and C, C may never
  complete) worked through both on `Transition` and on the class.

The callbacks are total functions of a `Snapshot(initial, active, completed)`:
the initial task names and the two task lists of the process they are passed.
The thrown `CommandError` becomes the `Err` case of `Result`, carrying only its
code.

Two details of the code:

- `start` only reassigns `currentTasks` (lines 17-19). It does not clear
  `completedTasks`, so the completed list is empty after `start` only on a
  fresh process.
- The follow-on names are computed on the state before any change (line 66
  evaluates `getNextTasks(this)` before pushing). They are appended first, and
  then every occurrence of the completed task is filtered out (line 67). So a
  task that names itself as a follow-on is not active afterwards.

## Model

| member | source | states |
|---|---|---|
| `Tasks.DefaultTask` | src/lib/business-process.ts:80-86 | a definition built with the default callbacks yields no follow-on tasks and is always permitted, on every state |
| `Tasks.FindIndex` | src/lib/business-process.ts:53 | the index found holds a definition with that name and no earlier definition has it; there is no index exactly when no definition has the name |
| `Tasks.FindTask` | src/lib/business-process.ts:26 | the definition found is one of the list with the requested name and no earlier definition has it; nothing is found exactly when no definition has the name |
| `Tasks.Transition` | src/lib/business-process.ts:47-69 | the pure meaning of one `complete` step on a snapshot; it has no contract of its own: its branches are stated by `Tasks.NotActiveFails`, `Tasks.UndefinedCompletes`, `Tasks.ConstraintFails`, `Tasks.DefinedCompletes` and `Tasks.SuccessAppends`, and `Process.BusinessProcess.Complete` is proved against it |
| `Tasks.CanCompleteIn` | src/lib/business-process.ts:21-36 | the pure meaning of the `canComplete` query on a snapshot; it has no contract of its own: `Tasks.CanCompleteIffOk` ties it to `Tasks.Transition`, and `Process.BusinessProcess.CanComplete` is proved equal to it |
| `Tasks.RemoveAll` | src/lib/business-process.ts:56 | a name is in the filtered list exactly when it was in the input and differs from the removed name; the list does not grow |
| `Tasks.RemoveAllMultiset` | src/lib/business-process.ts:67 | filtering keeps the multiplicity of every other name and leaves none of the removed name |
| `Tasks.RemoveAllConcat` | src/lib/business-process.ts:66-67 | filtering the active list after appending the follow-on names equals filtering each part and concatenating |
| `Tasks.RemoveAllIdempotent` | src/lib/business-process.ts:56 | filtering twice by the same name is filtering once |
| `Tasks.RemoveAllAbsent` | src/lib/business-process.ts:56 | filtering out a name the list does not hold leaves the list as it is |
| `Tasks.NotActiveFails` | src/lib/business-process.ts:47-50 | completing a task that is not active fails with TASK_NOT_ACTIVE |
| `Tasks.UndefinedCompletes` | src/lib/business-process.ts:53-58 | an active task without a definition completes: the task leaves the active list, every other name keeps its multiplicity, and the task is appended to the completed list |
| `Tasks.ConstraintFails` | src/lib/business-process.ts:61-63 | an active defined task whose constraint is false on the pre-state fails with TASK_CONSTRAINT_FAILED |
| `Tasks.DefinedCompletes` | src/lib/business-process.ts:65-68 | a permitted defined task completes: the new active list is the filtered old list followed by the filtered follow-on names, the task is not active even if it named itself, every other follow-on and old active name is active, multiplicities add up, and the task is appended to the completed list |
| `Tasks.CanCompleteIffOk` | src/lib/business-process.ts:21-36 | the query `canComplete` holds exactly when `complete` would succeed on the same state |
| `Tasks.SuccessAppends` | src/lib/business-process.ts:47-69 | every successful completion was of an active task, leaves it inactive and appends exactly it to the completed list |
| `Tasks.DefaultTaskLikeUndefined` | src/lib/business-process.ts:84-85 | a task whose definition behaves like the default callbacks (no follow-on tasks and permitted, on every state) steps exactly like a task with no definition |
| `Process.BusinessProcess.constructor` | src/lib/business-process.ts:9-15 | a new process keeps the given initial tasks and definitions and has empty active and completed lists |
| `Process.BusinessProcess.Start` | src/lib/business-process.ts:17-19 | the active list becomes the initial tasks, same names in the same order; the completed list is unchanged |
| `Process.BusinessProcess.CanComplete` | src/lib/business-process.ts:21-36 | false for a task that is not active; equal to the snapshot query `CanCompleteIn`, and true exactly when the step function succeeds, without changing the object |
| `Process.BusinessProcess.Complete` | src/lib/business-process.ts:47-69 | succeeds exactly when the step function does and then leaves the state the step function gives (task inactive, task appended to completed); on failure returns the step function's error code and leaves both lists unchanged; TASK_NOT_ACTIVE for an inactive task |
| `Process.BusinessProcess.Resolve` | src/lib/business-process.ts:38-45 | returns true exactly when `complete` succeeds, leaving the same state as it; returns false with both lists unchanged otherwise |
| `Process.BusinessProcess.Load` | src/lib/business-process.ts:71-74 | both lists become the other process's lists; initial tasks and definitions are constants and stay |
| `Scenarios.RunCompletedAppendOnly` | src/lib/business-process.ts:38-45 | along any sequence of `resolve` calls the completed list keeps its old contents as a prefix, gains at most one name per call, and gains only names that were resolved |
| `Scenarios.UndefinedCompletesOnce` | src/lib/business-process.ts:47-58 | resolving an undefined active task twice completes it once: the second call fails because the task is no longer active |
| `Scenarios.ExampleRun` | src/lib/business-process.ts:47-69 | the three-task example: completing A gives active B, C and completed A; completing C fails and changes nothing; completing B gives active C and completed A, B |

## Left out

- `CommandError` is a class of another package; only its code is kept, as `ErrorCode`, and the message strings are dropped.
- Exceptions thrown by the callbacks are not modelled: callbacks are total, pure functions. So `canComplete` turning a throwing constraint into `false` (lines 33-35) and a throw propagating out of `complete` are outside the model, and `Tasks.CanCompleteIffOk` holds only because callbacks cannot throw.
- The callbacks receive a `Snapshot` of the initial tasks and the two task lists rather than the whole process object; they cannot read `definedTasks`, because a definition type whose functions take a list of definitions as input is not a type Dafny admits.
- The constructor keeps the caller's `inititalTasks` and `definedTasks` arrays by reference (lines 13-14); `readonly` forbids reassigning them but not changing them in place, and `start` copies the initial array only when it runs. The model freezes both as constant values at construction, so a caller's later in-place change of either array is not captured.
- Callbacks that mutate the process are not supported; the source assumes they only read.
- `Process.BusinessProcess.Load`: the source assigns the two arrays by reference, so a later in-place `push` on one process shows in the other; the model copies the two sequences as values and does not capture that aliasing.
- `TaskType` is kept as a field of each definition, but nothing depends on it, as in the source.
