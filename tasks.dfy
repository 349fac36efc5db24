/** Task definitions of a business process and the pure semantics of one
    completion step: the definition lookup, the filter that drops a completed
    task from the active list, and the step function `Transition`. */
module Tasks {

  /** Classification of a task; no behaviour depends on it. */
  datatype TaskType = UserTask | ServiceTask

  /** What the task callbacks may read of a process: its initial task names
      (`inititalTasks`), its active task names (`currentTasks`) and its
      completed task names, in completion order. */
  datatype Snapshot = Snapshot(initial: seq<string>, active: seq<string>, completed: seq<string>)

  /** An immutable task definition. `nextTasks` yields the names that become
      active when the task completes; `canComplete` is its completion constraint. */
  datatype BusinessTask = BusinessTask(
    taskName: string,
    taskType: TaskType,
    nextTasks: Snapshot -> seq<string>,
    canComplete: Snapshot -> bool)

  /** The machine-readable codes of the two failures of `complete`. */
  datatype ErrorCode = TaskNotActive | TaskConstraintFailed

  datatype Option<T> = None | Some(value: T)

  datatype Result<T> = Ok(value: T) | Err(code: ErrorCode)

  /** The default follow-on callback: no follow-on tasks. */
  function NoNextTasks(s: Snapshot): seq<string> { [] }

  /** The default constraint callback: always permitted. */
  function AlwaysAllowed(s: Snapshot): bool { true }

  /** A definition built with both callbacks left at their defaults. */
  function DefaultTask(name: string, kind: TaskType): (d: BusinessTask)
    ensures d.taskName == name && d.taskType == kind
    ensures forall s :: d.nextTasks(s) == [] && d.canComplete(s)
  {
    BusinessTask(name, kind, NoNextTasks, AlwaysAllowed)
  }

  /** Index of the first definition named `name`, if there is one. */
  function FindIndex(defs: seq<BusinessTask>, name: string): (r: Option<nat>)
    ensures r.Some? ==> r.value < |defs| && defs[r.value].taskName == name
    ensures r.Some? ==> forall j :: 0 <= j < r.value ==> defs[j].taskName != name
    ensures r.None? <==> forall j :: 0 <= j < |defs| ==> defs[j].taskName != name
  {
    if defs == [] then None
    else if defs[0].taskName == name then Some(0)
    else match FindIndex(defs[1..], name)
      case None => None
      case Some(i) => Some(i + 1)
  }

  /** The first definition named `name` (the array `find` of the source). */
  function FindTask(defs: seq<BusinessTask>, name: string): (r: Option<BusinessTask>)
    ensures r.None? <==> forall j :: 0 <= j < |defs| ==> defs[j].taskName != name
    ensures r.Some? ==> r.value.taskName == name
    ensures r.Some? ==> exists i :: 0 <= i < |defs| && r.value == defs[i]
                                  && forall j :: 0 <= j < i ==> defs[j].taskName != name
  {
    match FindIndex(defs, name)
    case None => None
    case Some(i) => Some(defs[i])
  }

  /** `s` with every occurrence of `t` dropped, keeping the order of the rest. */
  function RemoveAll(s: seq<string>, t: string): (r: seq<string>)
    ensures forall x :: x in r <==> x in s && x != t
    ensures |r| <= |s|
  {
    if s == [] then []
    else if s[0] == t then RemoveAll(s[1..], t)
    else [s[0]] + RemoveAll(s[1..], t)
  }

  /** One `complete` step on a snapshot: the new snapshot, or the error code. */
  function Transition(defs: seq<BusinessTask>, s: Snapshot, t: string): Result<Snapshot>
  {
    if t !in s.active then Err(TaskNotActive)
    else match FindTask(defs, t)
      case None => Ok(s.(active := RemoveAll(s.active, t), completed := s.completed + [t]))
      case Some(d) =>
        if !d.canComplete(s) then Err(TaskConstraintFailed)
        else Ok(s.(active := RemoveAll(s.active + d.nextTasks(s), t), completed := s.completed + [t]))
  }

  /** The `canComplete` query on a snapshot. */
  predicate CanCompleteIn(defs: seq<BusinessTask>, s: Snapshot, t: string)
  {
    t in s.active &&
    match FindTask(defs, t)
    case None => true
    case Some(d) => d.canComplete(s)
  }

  // ---------------------------------------------------------------------
  // Properties of the filter

  /** Filtering counts: every other name keeps its multiplicity, `t` has none. */
  lemma {:induction false} RemoveAllMultiset(s: seq<string>, t: string)
    ensures multiset(RemoveAll(s, t)) == multiset(s)[t := 0]
  {
    if s != [] {
      RemoveAllMultiset(s[1..], t);
      assert s == [s[0]] + s[1..];
      assert multiset(s) == multiset{s[0]} + multiset(s[1..]);
    }
  }

  /** Filtering a concatenation filters each part. */
  lemma {:induction false} RemoveAllConcat(a: seq<string>, b: seq<string>, t: string)
    ensures RemoveAll(a + b, t) == RemoveAll(a, t) + RemoveAll(b, t)
  {
    if a != [] {
      assert (a + b)[0] == a[0] && (a + b)[1..] == a[1..] + b;
      RemoveAllConcat(a[1..], b, t);
    } else {
      assert a + b == b;
    }
  }

  /** Filtering twice by the same name is filtering once. */
  lemma {:induction false} RemoveAllIdempotent(s: seq<string>, t: string)
    ensures RemoveAll(RemoveAll(s, t), t) == RemoveAll(s, t)
  {
    if s != [] {
      RemoveAllIdempotent(s[1..], t);
    }
  }

  /** A list that does not hold `t` is left as it is. */
  lemma {:induction false} RemoveAllAbsent(s: seq<string>, t: string)
    requires t !in s
    ensures RemoveAll(s, t) == s
  {
    if s != [] {
      assert s == [s[0]] + s[1..];
      RemoveAllAbsent(s[1..], t);
    }
  }

  // ---------------------------------------------------------------------
  // Properties of one step

  /** Completing a task that is not active fails with TASK_NOT_ACTIVE. */
  lemma NotActiveFails(defs: seq<BusinessTask>, s: Snapshot, t: string)
    requires t !in s.active
    ensures Transition(defs, s, t) == Err(TaskNotActive)
  {
  }

  /** An active task without a definition always completes: `t` leaves the
      active list, every other active name keeps its multiplicity and order,
      and `t` is appended to the completed list. */
  lemma UndefinedCompletes(defs: seq<BusinessTask>, s: Snapshot, t: string)
    requires t in s.active
    requires forall j :: 0 <= j < |defs| ==> defs[j].taskName != t
    ensures Transition(defs, s, t).Ok?
    ensures var n := Transition(defs, s, t).value;
            && n.initial == s.initial
            && n.completed == s.completed + [t]
            && n.active == RemoveAll(s.active, t)
            && t !in n.active
            && multiset(n.active) == multiset(s.active)[t := 0]
  {
    RemoveAllMultiset(s.active, t);
  }

  /** An active task whose constraint fails on the pre-state fails with
      TASK_CONSTRAINT_FAILED. */
  lemma ConstraintFails(defs: seq<BusinessTask>, s: Snapshot, t: string)
    requires t in s.active
    requires FindTask(defs, t).Some? && !FindTask(defs, t).value.canComplete(s)
    ensures Transition(defs, s, t) == Err(TaskConstraintFailed)
  {
  }

  /** A successful completion of a defined task: the follow-on names are added,
      every occurrence of `t` (old or follow-on) is dropped, and `t` is recorded. */
  lemma DefinedCompletes(defs: seq<BusinessTask>, s: Snapshot, t: string)
    requires t in s.active
    requires FindTask(defs, t).Some? && FindTask(defs, t).value.canComplete(s)
    ensures Transition(defs, s, t).Ok?
    ensures var next := FindTask(defs, t).value.nextTasks(s);
            var n := Transition(defs, s, t).value;
            && n.initial == s.initial
            && n.completed == s.completed + [t]
            && n.active == RemoveAll(s.active, t) + RemoveAll(next, t)
            && t !in n.active
            && (forall x :: x in next && x != t ==> x in n.active)
            && (forall x :: x in s.active && x != t ==> x in n.active)
            && multiset(n.active) == (multiset(s.active) + multiset(next))[t := 0]
  {
    var next := FindTask(defs, t).value.nextTasks(s);
    RemoveAllConcat(s.active, next, t);
    RemoveAllMultiset(s.active + next, t);
  }

  /** The query agrees with the step: `canComplete` holds exactly when
      `complete` would succeed. */
  lemma CanCompleteIffOk(defs: seq<BusinessTask>, s: Snapshot, t: string)
    ensures CanCompleteIn(defs, s, t) <==> Transition(defs, s, t).Ok?
  {
  }

  /** Every success appends exactly the completed task; the old completed list
      is kept as a prefix (the completed list is append-only). */
  lemma SuccessAppends(defs: seq<BusinessTask>, s: Snapshot, t: string)
    requires Transition(defs, s, t).Ok?
    ensures Transition(defs, s, t).value.completed == s.completed + [t]
    ensures t in s.active && t !in Transition(defs, s, t).value.active
  {
  }

  /** A task whose definition behaves like the default callbacks (no
      follow-on tasks, always permitted) steps like an undefined one. */
  lemma DefaultTaskLikeUndefined(defs: seq<BusinessTask>, s: Snapshot, t: string)
    requires FindTask(defs, t).Some?
    requires forall s' :: FindTask(defs, t).value.nextTasks(s') == [] && FindTask(defs, t).value.canComplete(s')
    ensures Transition(defs, s, t) == Transition([], s, t)
  {
    assert FindTask([], t).None?;
    assert FindTask(defs, t).value.nextTasks(s) == [];
    assert s.active + [] == s.active;
  }
}
