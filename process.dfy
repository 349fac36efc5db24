/** The mutable process: two task lists that `start`, `complete` and `load`
    reassign, and the definitions that govern it. */
module Process {
  import opened Tasks

  class BusinessProcess {
    /** Names of the active tasks, in insertion order; duplicates possible. */
    var currentTasks: seq<string>
    /** Names of the completed tasks, in completion order. */
    var completedTasks: seq<string>
    /** The names `start` seeds (the source spells this field `inititalTasks`). */
    const inititalTasks: seq<string>
    const definedTasks: seq<BusinessTask>

    /** A fresh process has no active and no completed task. */
    constructor (inititalTasks: seq<string>, definedTasks: seq<BusinessTask>)
      ensures this.inititalTasks == inititalTasks && this.definedTasks == definedTasks
      ensures currentTasks == [] && completedTasks == []
    {
      this.inititalTasks := inititalTasks;
      this.definedTasks := definedTasks;
      currentTasks := [];
      completedTasks := [];
    }

    /** The part of the process the task callbacks read. */
    function State(): Snapshot
      reads this
    {
      Snapshot(inititalTasks, currentTasks, completedTasks)
    }

    /** Seeds the active list from the initial tasks; progress already recorded
        in the completed list is kept. */
    method Start()
      modifies this
      ensures currentTasks == inititalTasks
      ensures completedTasks == old(completedTasks)
    {
      currentTasks := inititalTasks;
    }

    /** Whether `complete(taskName)` would succeed now; changes nothing. */
    function CanComplete(taskName: string): (r: bool)
      reads this
      ensures taskName !in currentTasks ==> !r
      ensures r == CanCompleteIn(definedTasks, State(), taskName)
      ensures r <==> Transition(definedTasks, State(), taskName).Ok?
    {
      if taskName !in currentTasks then false
      else match FindTask(definedTasks, taskName)
        case None => true
        case Some(found) => found.canComplete(State())
    }

    /** The step function: on success the new lists are those of
        `Transition`; on failure both lists are left as they were. */
    method Complete(taskName: string) returns (r: Result<()>)
      modifies this
      ensures Transition(definedTasks, old(State()), taskName).Ok? <==> r.Ok?
      ensures r.Ok? ==> State() == Transition(definedTasks, old(State()), taskName).value
      ensures r.Err? ==> r.code == Transition(definedTasks, old(State()), taskName).code
      ensures r.Err? ==> currentTasks == old(currentTasks) && completedTasks == old(completedTasks)
      ensures taskName !in old(currentTasks) ==> r == Err(TaskNotActive)
      ensures r.Ok? ==> taskName !in currentTasks && completedTasks == old(completedTasks) + [taskName]
    {
      if taskName !in currentTasks {
        return Err(TaskNotActive);
      }
      var found := FindTask(definedTasks, taskName);
      if found.None? {
        currentTasks := RemoveAll(currentTasks, taskName);
        completedTasks := completedTasks + [taskName];
        return Ok(());
      }
      var ok := found.value.canComplete(State());
      if !ok {
        return Err(TaskConstraintFailed);
      }
      // the follow-on names are computed on the pre-state, then appended
      currentTasks := currentTasks + found.value.nextTasks(State());
      currentTasks := RemoveAll(currentTasks, taskName);
      completedTasks := completedTasks + [taskName];
      return Ok(());
    }

    /** `complete` with its failure turned into `false`. */
    method Resolve(taskName: string) returns (ok: bool)
      modifies this
      ensures ok <==> Transition(definedTasks, old(State()), taskName).Ok?
      ensures ok ==> State() == Transition(definedTasks, old(State()), taskName).value
      ensures !ok ==> currentTasks == old(currentTasks) && completedTasks == old(completedTasks)
    {
      var r := Complete(taskName);
      ok := r.Ok?;
    }

    /** Takes over the two task lists of `process`; the initial tasks and
        definitions of this process stay as they are. */
    method Load(process: BusinessProcess)
      modifies this
      ensures currentTasks == old(process.currentTasks)
      ensures completedTasks == old(process.completedTasks)
    {
      currentTasks := process.currentTasks;
      completedTasks := process.completedTasks;
    }
  }
}
