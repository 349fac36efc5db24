/** Properties of a process driven by a sequence of `resolve` calls, and the
    worked example of a three-task process. */
module Scenarios {
  import opened Tasks
  import opened Process

  /** The snapshot reached by calling `resolve` on each name of `ts` in turn:
      a failing call leaves the snapshot as it was. */
  function Run(defs: seq<BusinessTask>, s: Snapshot, ts: seq<string>): Snapshot
    decreases |ts|
  {
    if ts == [] then s
    else
      var r := Transition(defs, s, ts[0]);
      Run(defs, if r.Ok? then r.value else s, ts[1..])
  }

  /** Along any run the completed list only grows at its end, by at most one
      name per call, and every name it gains was one of the names resolved. */
  lemma {:induction false} RunCompletedAppendOnly(defs: seq<BusinessTask>, s: Snapshot, ts: seq<string>)
    ensures var c := Run(defs, s, ts).completed;
            && |s.completed| <= |c| <= |s.completed| + |ts|
            && c[..|s.completed|] == s.completed
            && forall k :: |s.completed| <= k < |c| ==> c[k] in ts
    decreases |ts|
  {
    if ts != [] {
      var r := Transition(defs, s, ts[0]);
      var s' := if r.Ok? then r.value else s;
      RunCompletedAppendOnly(defs, s', ts[1..]);
      var c := Run(defs, s, ts).completed;
      assert c == Run(defs, s', ts[1..]).completed;
      assert |s.completed| <= |s'.completed| <= |s.completed| + 1;
      assert s'.completed[..|s.completed|] == s.completed;
      assert forall k :: |s.completed| <= k < |s'.completed| ==> s'.completed[k] == ts[0];
      forall k | |s.completed| <= k < |c| ensures c[k] in ts {
        if k >= |s'.completed| {
          assert c[k] in ts[1..];
        } else {
          assert c[k] == s'.completed[k];
        }
      }
    }
  }

  /** A name that has no definition completes once:
      resolving it twice in a row succeeds the first time and fails the second. */
  lemma UndefinedCompletesOnce(defs: seq<BusinessTask>, s: Snapshot, t: string)
    requires t in s.active
    requires forall j :: 0 <= j < |defs| ==> defs[j].taskName != t
    ensures Run(defs, s, [t, t]) == s.(active := RemoveAll(s.active, t), completed := s.completed + [t])
  {
    UndefinedCompletes(defs, s, t);
    var s' := Transition(defs, s, t).value;
    assert Run(defs, s, [t, t]) == Run(defs, s', [t]) by { assert [t, t][1..] == [t]; }
    NotActiveFails(defs, s', t);
    assert Run(defs, s', [t]) == Run(defs, s', []) by { assert [t][1..] == []; }
  }

  /** The definitions of the worked example: A leads to B and C, B has the
      default callbacks, C may never complete. */
  function ExampleTasks(): seq<BusinessTask>
  {
    [ BusinessTask("A", UserTask, s => ["B", "C"], AlwaysAllowed),
      DefaultTask("B", UserTask),
      BusinessTask("C", ServiceTask, NoNextTasks, s => false) ]
  }

  /** The worked example, step by step: after start the active list is [A];
      completing A gives ([B, C], [A]); completing C fails and changes nothing;
      completing B then gives ([C], [A, B]). */
  lemma ExampleRun()
    ensures var s1 := Snapshot(["A"], ["A"], []);
            && Transition(ExampleTasks(), s1, "A") == Ok(Snapshot(["A"], ["B", "C"], ["A"]))
            && Transition(ExampleTasks(), Snapshot(["A"], ["B", "C"], ["A"]), "C") == Err(TaskConstraintFailed)
            && Transition(ExampleTasks(), Snapshot(["A"], ["B", "C"], ["A"]), "B") == Ok(Snapshot(["A"], ["C"], ["A", "B"]))
            && Run(ExampleTasks(), s1, ["A", "C", "B"]) == Snapshot(["A"], ["C"], ["A", "B"])
  {
    var defs := ExampleTasks();
    assert FindTask(defs, "A").Some? && FindTask(defs, "A").value.nextTasks(Snapshot(["A"], ["A"], [])) == ["B", "C"];
    assert ["A"] + ["B", "C"] == ["A", "B", "C"];
    assert ["A", "B", "C"][1..] == ["B", "C"] && ["B", "C"][1..] == ["C"] && ["C"][1..] == [];
    assert "A" != "B" && "A" != "C" && "B" != "C";
    assert RemoveAll(["C"], "A") == ["C"];
    assert RemoveAll(["B", "C"], "A") == ["B", "C"];
    assert RemoveAll(["A", "B", "C"], "A") == ["B", "C"];
    assert "A" in ["A"] && [] + ["A"] == ["A"];
    assert FindTask(defs, "C").Some? && !FindTask(defs, "C").value.canComplete(Snapshot(["A"], ["B", "C"], ["A"]));
    assert FindTask(defs, "B").Some? && FindTask(defs, "B").value.nextTasks(Snapshot(["A"], ["B", "C"], ["A"])) == [];
    assert ["B", "C"] + [] == ["B", "C"];
    assert RemoveAll(["B", "C"], "B") == ["C"];
    assert ["A"] + ["B"] == ["A", "B"];
    assert ["A", "C", "B"][1..] == ["C", "B"];
    assert ["C", "B"][1..] == ["B"];
    assert ["B"][1..] == [];
  }

  /** The worked example driven through the process object, and `load`. */
  method ExampleOnProcess()
  {
    var p := new BusinessProcess(["A"], ExampleTasks());
    p.Start();
    assert p.currentTasks == ["A"] && p.completedTasks == [];
    ExampleRun();
    var r := p.Complete("A");
    assert r.Ok? && p.currentTasks == ["B", "C"] && p.completedTasks == ["A"];
    r := p.Complete("C");
    assert r == Err(TaskConstraintFailed) && p.currentTasks == ["B", "C"];
    var ok := p.Resolve("B");
    assert ok && p.currentTasks == ["C"] && p.completedTasks == ["A", "B"];

    var q := new BusinessProcess([], []);
    q.Load(p);
    assert q.currentTasks == ["C"] && q.completedTasks == ["A", "B"];
    assert q.inititalTasks == [];
  }
}
