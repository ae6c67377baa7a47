/** The keyed gate behind the reader: any number of tasks, each taking its steps one at a time, and
    each free to be cancelled wherever it waits.

    A task looks its gate up under the map lock, queues for the gate, works, lets the gate go, runs the
    eviction check under the map lock, and only then drops its own reference to the gate. */
module SingleFlight {

  type TaskId = nat
  type GateId = nat
  type Key = string

  /** `Leaving` tasks no longer hold the gate and have yet to check; `Checked` tasks have checked and
      still own a reference. */
  datatype Phase = Waiting | Working | Leaving | Checked

  datatype Task = Task(key: Key, gate: GateId, phase: Phase)

  /** `gates` is the shared map, `owner` says which task holds each gate's mutex. */
  datatype State = State(tasks: map<TaskId, Task>, gates: map<Key, GateId>, owner: map<GateId, TaskId>, unused: GateId)

  datatype Action =
    | Enter(t: TaskId, key: Key)
    | Acquire(t: TaskId)
    | Release(t: TaskId)
    | Cancel(t: TaskId)
    | Check(t: TaskId)
    | DropRef(t: TaskId)

  ghost predicate Init(st: State) {
    st.tasks == map[] && st.gates == map[] && st.owner == map[]
  }

  ghost predicate In(st: State, t: TaskId, phase: Phase) {
    t in st.tasks && st.tasks[t].phase == phase
  }

  ghost predicate Enabled(st: State, act: Action) {
    match act
    case Enter(t, _) => t !in st.tasks
    case Acquire(t) => In(st, t, Waiting) && st.tasks[t].gate !in st.owner
    case Release(t) => In(st, t, Working)
    case Cancel(t) => In(st, t, Waiting)
    case Check(t) => In(st, t, Leaving)
    case DropRef(t) => In(st, t, Checked)
  }

  /** The tasks that own a reference to a gate. */
  ghost function Holders(st: State, g: GateId): set<TaskId> {
    set t | t in st.tasks && st.tasks[t].gate == g
  }

  /** `Arc::strong_count`: the tasks' references and the map's. */
  ghost function StrongCount(st: State, g: GateId): nat {
    |Holders(st, g)| + if g in st.gates.Values then 1 else 0
  }

  ghost function Moved(st: State, t: TaskId, phase: Phase): State
    requires t in st.tasks
  {
    st.(tasks := st.tasks[t := st.tasks[t].(phase := phase)])
  }

  ghost function Apply(st: State, act: Action): State
    requires Enabled(st, act)
  {
    match act
    case Enter(t, key) =>
      if key in st.gates then
        st.(tasks := st.tasks[t := Task(key, st.gates[key], Waiting)])
      else
        st.(tasks := st.tasks[t := Task(key, st.unused, Waiting)],
            gates := st.gates[key := st.unused], unused := st.unused + 1)
    case Acquire(t) => Moved(st, t, Working).(owner := st.owner[st.tasks[t].gate := t])
    case Release(t) => Moved(st, t, Leaving).(owner := st.owner - {st.tasks[t].gate})
    case Cancel(t) => Moved(st, t, Leaving)
    case Check(t) =>
      var gates := if StrongCount(st, st.tasks[t].gate) == 2 then st.gates - {st.tasks[t].key} else st.gates;
      Moved(st, t, Checked).(gates := gates)
    case DropRef(t) => st.(tasks := st.tasks - {t})
  }

  // ---- What every step keeps ----

  /** A task that has not checked yet finds its own gate in the map under its key. */
  ghost predicate Linked(st: State) {
    forall t :: t in st.tasks && st.tasks[t].phase != Checked ==>
      st.tasks[t].key in st.gates && st.gates[st.tasks[t].key] == st.tasks[t].gate
  }

  /** A mapped gate belongs to one key. */
  ghost predicate OneKey(st: State) {
    && (forall k, t :: k in st.gates && t in st.tasks && st.tasks[t].gate == st.gates[k] ==> st.tasks[t].key == k)
    && (forall k, m :: k in st.gates && m in st.gates && st.gates[k] == st.gates[m] ==> k == m)
  }

  ghost predicate OwnersWork(st: State) {
    && (forall t :: In(st, t, Working) ==> st.tasks[t].gate in st.owner && st.owner[st.tasks[t].gate] == t)
    && (forall g :: g in st.owner ==> In(st, st.owner[g], Working) && st.tasks[st.owner[g]].gate == g)
  }

  ghost predicate Allocated(st: State) {
    && (forall t :: t in st.tasks ==> st.tasks[t].gate < st.unused)
    && (forall k :: k in st.gates ==> st.gates[k] < st.unused)
  }

  ghost predicate Inv(st: State) {
    Linked(st) && OneKey(st) && OwnersWork(st) && Allocated(st)
  }

  /** The check's count, read as a statement about tasks: the gate goes exactly when no other task has
      a reference to it. */
  lemma CheckEvictsIffAlone(st: State, t: TaskId)
    requires Inv(st) && Enabled(st, Check(t))
    ensures st.tasks[t].key !in Apply(st, Check(t)).gates <==> Holders(st, st.tasks[t].gate) == {t}
    ensures Apply(st, Check(t)).gates ==
            if Holders(st, st.tasks[t].gate) == {t} then st.gates - {st.tasks[t].key} else st.gates
  {
    var holders := Holders(st, st.tasks[t].gate);
    assert st.gates[st.tasks[t].key] in st.gates.Values;
    if |holders| == 1 {
      OnlyOne(holders, t);
    }
  }

  lemma OnlyOne(s: set<TaskId>, t: TaskId)
    requires t in s && |s| == 1
    ensures s == {t}
  {
    assert |s - {t}| == 0;
  }

  lemma CheckKeeps(st: State, t: TaskId)
    requires Inv(st) && Enabled(st, Check(t))
    ensures Inv(Apply(st, Check(t)))
  {
    var st' := Apply(st, Check(t));
    CheckEvictsIffAlone(st, t);
    var holders := Holders(st, st.tasks[t].gate);
    forall u | u in st'.tasks && st'.tasks[u].phase != Checked
      ensures st'.tasks[u].key in st'.gates && st'.gates[st'.tasks[u].key] == st'.tasks[u].gate
    {
      assert u in holders <==> st.tasks[u].gate == st.tasks[t].gate;
    }
  }

  lemma JoinKeeps(st: State, t: TaskId, key: Key)
    requires Inv(st) && Enabled(st, Enter(t, key)) && key in st.gates
    ensures Inv(Apply(st, Enter(t, key)))
  {
    assert OwnersWork(Apply(st, Enter(t, key)));
  }

  lemma CreateKeeps(st: State, t: TaskId, key: Key)
    requires Inv(st) && Enabled(st, Enter(t, key)) && key !in st.gates
    ensures Inv(Apply(st, Enter(t, key)))
  {
    var st' := Apply(st, Enter(t, key));
    assert OwnersWork(st');
    assert Allocated(st');
    forall k, u | k in st'.gates && u in st'.tasks && st'.tasks[u].gate == st'.gates[k]
      ensures st'.tasks[u].key == k
    {
      assert u != t ==> st.tasks[u].gate < st.unused;
      assert k != key ==> st.gates[k] < st.unused;
    }
  }

  lemma AcquireKeeps(st: State, t: TaskId)
    requires Inv(st) && Enabled(st, Acquire(t))
    ensures Inv(Apply(st, Acquire(t)))
  {
    assert OwnersWork(Apply(st, Acquire(t)));
  }

  lemma ReleaseKeeps(st: State, t: TaskId)
    requires Inv(st) && Enabled(st, Release(t))
    ensures Inv(Apply(st, Release(t)))
  {
    assert OwnersWork(Apply(st, Release(t)));
  }

  lemma StepKeeps(st: State, act: Action)
    requires Inv(st) && Enabled(st, act)
    ensures Inv(Apply(st, act))
  {
    match act
    case Enter(t, key) =>
      if key in st.gates {
        JoinKeeps(st, t, key);
      } else {
        CreateKeeps(st, t, key);
      }
    case Check(t) => CheckKeeps(st, t);
    case Acquire(t) => AcquireKeeps(st, t);
    case Release(t) => ReleaseKeeps(st, t);
    case Cancel(t) =>
    case DropRef(t) =>
  }

  // ---- Runs ----

  ghost predicate Step(st: State, st': State) {
    exists act :: Enabled(st, act) && st' == Apply(st, act)
  }

  ghost predicate StepAt(run: seq<State>, i: int)
    requires 0 <= i < |run| - 1
  {
    Step(run[i], run[i + 1])
  }

  ghost predicate IsRun(run: seq<State>) {
    run != [] && Init(run[0]) && forall i :: 0 <= i < |run| - 1 ==> StepAt(run, i)
  }

  lemma ActionAt(run: seq<State>, i: nat) returns (act: Action)
    requires IsRun(run) && i + 1 < |run|
    ensures Enabled(run[i], act) && run[i + 1] == Apply(run[i], act)
  {
    assert StepAt(run, i);
    act :| Enabled(run[i], act) && run[i + 1] == Apply(run[i], act);
  }

  lemma {:induction false} RunKeeps(run: seq<State>, i: nat)
    requires IsRun(run) && i < |run|
    ensures Inv(run[i])
  {
    if i > 0 {
      RunKeeps(run, i - 1);
      var act := ActionAt(run, i - 1);
      StepKeeps(run[i - 1], act);
    }
  }

  /** Two tasks never work on one key at once. */
  lemma OneWorkerPerKey(run: seq<State>, i: nat, t: TaskId, u: TaskId)
    requires IsRun(run) && i < |run|
    requires In(run[i], t, Working) && In(run[i], u, Working) && run[i].tasks[t].key == run[i].tasks[u].key
    ensures t == u
  {
    RunKeeps(run, i);
  }

  /** A gate leaves the map only in a check by the one task that still refers to it, and no task ever
      takes hold of that gate again. */
  lemma EvictedGateIsUnheld(run: seq<State>, i: nat, j: nat, k: Key)
    requires IsRun(run) && i < j < |run|
    requires k in run[i].gates && (k !in run[i + 1].gates || run[i + 1].gates[k] != run[i].gates[k])
    ensures k !in run[i + 1].gates
    ensures exists t :: Holders(run[i], run[i].gates[k]) == {t} && In(run[i + 1], t, Checked)
    ensures Holders(run[j], run[i].gates[k]) <= Holders(run[i], run[i].gates[k])
    ensures forall u :: u in run[j].tasks && run[j].tasks[u].gate == run[i].gates[k] ==>
            run[j].tasks[u].phase == Checked
  {
    var act := ActionAt(run, i);
    RunKeeps(run, i);
    var g := run[i].gates[k];
    assert act.Check?;
    CheckEvictsIffAlone(run[i], act.t);
    assert Holders(run[i], g) == {act.t};
    assert GateGone(run[i + 1], g, act.t) by {
      assert forall u :: u in run[i].tasks && run[i].tasks[u].gate == g ==> u in Holders(run[i], g);
    }
    GoneForGood(run, i + 1, j, g, act.t);
  }

  /** `g` is out of the map and only `t`, which has checked, may still refer to it. */
  ghost predicate GateGone(st: State, g: GateId, t: TaskId) {
    && g < st.unused && g !in st.gates.Values
    && forall u :: u in st.tasks && st.tasks[u].gate == g ==> u == t && st.tasks[u].phase == Checked
  }

  lemma {:induction false} GoneForGood(run: seq<State>, i: nat, j: nat, g: GateId, t: TaskId)
    requires IsRun(run) && i <= j < |run| && GateGone(run[i], g, t)
    ensures GateGone(run[j], g, t)
  {
    if i < j {
      GoneForGood(run, i, j - 1, g, t);
      var act := ActionAt(run, j - 1);
    }
  }

  /** A waiting task can take its gate exactly when no task is working on its key. */
  lemma AcquiresIffNobodyWorks(run: seq<State>, i: nat, t: TaskId)
    requires IsRun(run) && i < |run| && In(run[i], t, Waiting)
    ensures Enabled(run[i], Acquire(t)) <==>
            forall u :: In(run[i], u, Working) ==> run[i].tasks[u].key != run[i].tasks[t].key
  {
    RunKeeps(run, i);
    var st := run[i];
    if st.tasks[t].gate in st.owner {
      assert In(st, st.owner[st.tasks[t].gate], Working);
    }
  }

  /** Callers on distinct keys work side by side. */
  lemma DistinctKeysSideBySide(k: Key, m: Key) returns (run: seq<State>)
    requires k != m
    ensures IsRun(run) && In(run[|run| - 1], 0, Working) && In(run[|run| - 1], 1, Working)
    ensures run[|run| - 1].tasks[0].key == k && run[|run| - 1].tasks[1].key == m
  {
    run := [State(map[], map[], map[], 0)];
    run := Extended(run, Enter(0, k), State(map[0 := Task(k, 0, Waiting)], map[k := 0], map[], 1));
    run := Extended(run, Acquire(0), State(map[0 := Task(k, 0, Working)], map[k := 0], map[0 := 0], 1));
    run := Extended(run, Enter(1, m),
                    State(map[0 := Task(k, 0, Working), 1 := Task(m, 1, Waiting)], map[k := 0, m := 1],
                          map[0 := 0], 2));
    run := Extended(run, Acquire(1),
                    State(map[0 := Task(k, 0, Working), 1 := Task(m, 1, Working)], map[k := 0, m := 1],
                          map[0 := 0, 1 := 1], 2));
  }

  /** One caller works and settles, and leaves no gate behind. */
  lemma SettledKeyLeavesNothing(k: Key) returns (run: seq<State>, i: nat)
    ensures IsRun(run) && i < |run| && In(run[i], 0, Working) && run[i].tasks[0].key == k
    ensures run[|run| - 1].tasks == map[] && run[|run| - 1].gates == map[]
  {
    run := [State(map[], map[], map[], 0)];
    run := Extended(run, Enter(0, k), State(map[0 := Task(k, 0, Waiting)], map[k := 0], map[], 1));
    run := Extended(run, Acquire(0), State(map[0 := Task(k, 0, Working)], map[k := 0], map[0 := 0], 1));
    i := |run| - 1;
    run := Extended(run, Release(0), State(map[0 := Task(k, 0, Leaving)], map[k := 0], map[], 1));
    var leaving := run[|run| - 1];
    RunKeeps(run, |run| - 1);
    assert Holders(leaving, 0) == {0};
    CheckEvictsIffAlone(leaving, 0);
    run := Extended(run, Check(0), State(map[0 := Task(k, 0, Checked)], map[], map[], 1));
    run := Extended(run, DropRef(0), State(map[], map[], map[], 1));
  }

  // ---- Gates left behind ----

  /** The key is still mapped although no task is going to check it. */
  ghost predicate LeftBehind(st: State, k: Key) {
    k in st.gates && forall t :: t in Holders(st, st.gates[k]) ==> st.tasks[t].phase == Checked
  }

  /** A check made while every other reference to the gate belongs to a task between its own check and
      the drop of its reference, and there is such a task. */
  ghost predicate ChecksInDropWindow(st: State, act: Action, k: Key) {
    && act.Check? && Enabled(st, act) && st.tasks[act.t].key == k
    && var others := Holders(st, st.tasks[act.t].gate) - {act.t};
       others != {} && forall u :: u in others ==> st.tasks[u].phase == Checked
  }

  /** A gate is left behind by exactly those checks. */
  lemma LeftBehindExactlyBy(st: State, act: Action, k: Key)
    requires Inv(st) && Enabled(st, act) && !LeftBehind(st, k)
    ensures LeftBehind(Apply(st, act), k) <==> ChecksInDropWindow(st, act, k)
  {
    var st' := Apply(st, act);
    if act.Check? {
      if st.tasks[act.t].key == k {
        CheckLeaves(st, act.t);
      } else {
        CheckSparesOthers(st, act.t, k);
      }
    } else if k in st'.gates && k in st.gates {
      var t :| t in Holders(st, st.gates[k]) && st.tasks[t].phase != Checked;
      assert t in Holders(st', st'.gates[k]) && st'.tasks[t].phase != Checked;
    } else if act.Enter? {
      assert k in st'.gates ==> act.t in Holders(st', st'.gates[k]);
    }
  }

  lemma CheckLeaves(st: State, t: TaskId)
    requires Inv(st) && Enabled(st, Check(t))
    ensures LeftBehind(Apply(st, Check(t)), st.tasks[t].key) <==> ChecksInDropWindow(st, Check(t), st.tasks[t].key)
  {
    CheckEvictsIffAlone(st, t);
    var st' := Apply(st, Check(t));
    var g := st.tasks[t].gate;
    var others := Holders(st, g) - {t};
    assert Holders(st, g) == others + {t};
    assert Holders(st', g) == Holders(st, g);
    assert forall u :: u in others ==> st'.tasks[u] == st.tasks[u];
  }

  lemma CheckSparesOthers(st: State, t: TaskId, k: Key)
    requires Inv(st) && Enabled(st, Check(t)) && !LeftBehind(st, k) && st.tasks[t].key != k
    ensures !LeftBehind(Apply(st, Check(t)), k)
  {
    if k in st.gates {
      var u :| u in Holders(st, st.gates[k]) && st.tasks[u].phase != Checked;
      assert u in Holders(Apply(st, Check(t)), st.gates[k]) && u != t;
    }
  }

  /** A run in which no check falls into another task's drop window leaves no gate behind. */
  lemma {:induction false} NoOverlapNoLeftover(run: seq<State>, i: nat, k: Key)
    requires IsRun(run) && i < |run|
    requires forall j, t :: 0 <= j < i && ChecksInDropWindow(run[j], Check(t), k) ==>
             run[j + 1] != Apply(run[j], Check(t))
    ensures !LeftBehind(run[i], k)
  {
    if i > 0 {
      NoOverlapNoLeftover(run, i - 1, k);
      var act := ActionAt(run, i - 1);
      RunKeeps(run, i - 1);
      LeftBehindExactlyBy(run[i - 1], act, k);
    }
  }

  /** The next caller that is alone on the key when it checks takes the gate away, left behind or not. */
  lemma LoneCallerEvicts(run: seq<State>, i: nat, t: TaskId)
    requires IsRun(run) && i + 1 < |run|
    requires Enabled(run[i], Check(t)) && run[i + 1] == Apply(run[i], Check(t))
    requires forall u :: u in run[i].tasks && run[i].tasks[u].key == run[i].tasks[t].key ==> u == t
    ensures run[i].tasks[t].key !in run[i + 1].gates
  {
    RunKeeps(run, i);
    var g := run[i].tasks[t].gate;
    assert Holders(run[i], g) == {t} by {
      assert t in Holders(run[i], g);
      assert run[i].gates[run[i].tasks[t].key] == g;
      forall u | u in Holders(run[i], g) ensures u == t {}
    }
    CheckEvictsIffAlone(run[i], t);
  }

  lemma StaysUnmapped(st: State, act: Action, t: TaskId, k: Key)
    requires Enabled(st, act) && t in st.tasks && k !in st.gates
    requires forall u :: u in Apply(st, act).tasks && Apply(st, act).tasks[u].key == k ==> u == t
    ensures k !in Apply(st, act).gates
  {
    if act.Enter? {
      assert Apply(st, act).tasks[act.t].key == act.key;
    }
  }

  /** When nobody is on the key, a caller that then runs from entry to check with nobody else on it
      leaves the key unmapped. */
  lemma {:induction false} SoloVisitCleans(run: seq<State>, i: nat, j: nat, t: TaskId, k: Key)
    requires IsRun(run) && i + 1 < j < |run|
    requires Enabled(run[i], Enter(t, k)) && run[i + 1] == Apply(run[i], Enter(t, k))
    requires forall m, u :: i < m <= j && u in run[m].tasks && run[m].tasks[u].key == k ==> u == t
    requires In(run[j], t, Checked) && forall m :: i < m <= j ==> t in run[m].tasks && run[m].tasks[t].key == k
    ensures k !in run[j].gates
  {
    var act := ActionAt(run, j - 1);
    if In(run[j - 1], t, Checked) {
      SoloVisitCleans(run, i, j - 1, t, k);
      StaysUnmapped(run[j - 1], act, t, k);
    } else {
      BecomesChecked(run[j - 1], act, t);
      LoneCallerEvicts(run, j - 1, t);
    }
  }

  /** Only its own check makes a task a checked one. */
  lemma BecomesChecked(st: State, act: Action, t: TaskId)
    requires Enabled(st, act) && In(Apply(st, act), t, Checked) && !In(st, t, Checked)
    ensures act == Check(t)
  {
  }

  /** Two callers of one key whose checks overlap leave the gate behind, with no task left at all. */
  lemma LeftoverIsReachable(k: Key) returns (run: seq<State>)
    ensures IsRun(run) && run[|run| - 1].tasks == map[] && k in run[|run| - 1].gates
  {
    var a, b := 0, 1;
    var gates := map[k := 0];
    run := [State(map[], map[], map[], 0)];
    run := Extended(run, Enter(a, k), State(map[a := Task(k, 0, Waiting)], gates, map[], 1));
    run := Extended(run, Enter(b, k), State(map[a := Task(k, 0, Waiting), b := Task(k, 0, Waiting)], gates, map[], 1));
    run := Extended(run, Cancel(a), State(map[a := Task(k, 0, Leaving), b := Task(k, 0, Waiting)], gates, map[], 1));
    run := Extended(run, Cancel(b), State(map[a := Task(k, 0, Leaving), b := Task(k, 0, Leaving)], gates, map[], 1));
    run := BothCheck(run, k);
    run := Extended(run, DropRef(a), State(map[b := Task(k, 0, Checked)], gates, map[], 1));
    run := Extended(run, DropRef(b), State(map[], gates, map[], 1));
  }

  lemma BothCheck(run: seq<State>, k: Key) returns (run': seq<State>)
    requires IsRun(run)
    requires run[|run| - 1] == State(map[0 := Task(k, 0, Leaving), 1 := Task(k, 0, Leaving)], map[k := 0], map[], 1)
    ensures IsRun(run')
    ensures run'[|run'| - 1] == State(map[0 := Task(k, 0, Checked), 1 := Task(k, 0, Checked)], map[k := 0], map[], 1)
  {
    var both := run[|run| - 1];
    RunKeeps(run, |run| - 1);
    assert 1 in Holders(both, 0);
    CheckEvictsIffAlone(both, 0);
    var one := State(map[0 := Task(k, 0, Checked), 1 := Task(k, 0, Leaving)], map[k := 0], map[], 1);
    run' := Extended(run, Check(0), one);
    RunKeeps(run', |run'| - 1);
    assert 0 in Holders(one, 0);
    CheckEvictsIffAlone(one, 1);
    run' := Extended(run', Check(1),
                     State(map[0 := Task(k, 0, Checked), 1 := Task(k, 0, Checked)], map[k := 0], map[], 1));
  }

  lemma Extended(run: seq<State>, act: Action, st: State) returns (run': seq<State>)
    requires IsRun(run) && Enabled(run[|run| - 1], act) && st == Apply(run[|run| - 1], act)
    ensures IsRun(run') && run <= run' && run'[|run'| - 1] == st
  {
    run' := run + [st];
    forall i | 0 <= i < |run'| - 1 ensures StepAt(run', i) {
      if i < |run| - 1 {
        assert StepAt(run, i);
      } else {
        assert Step(run[|run| - 1], st);
      }
    }
  }
}
