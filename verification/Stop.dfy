/** The latched stop: any number of stoppers and waiters, each check, registration, store and
    notification a step of its own. */
module Stop {

  type TaskId = nat

  /** Where a waiter stands in its loop. A `Notified` future remembers how many notifications had been
      sent when it was created, and is ready once there are more. */
  datatype Waiter =
    | AtTop
    | SawRunning
    | Created(seen: nat)
    | Enrolled(seen: nat)
    | Parked(seen: nat)
    | Returned

  datatype Stopper = Called | Stored | Finished

  datatype State = State(flag: bool, notified: nat, waiters: map<TaskId, Waiter>, stoppers: map<TaskId, Stopper>)

  datatype Action =
    | Arrive(w: TaskId)
    | FirstCheck(w: TaskId)
    | Create(w: TaskId)
    | Enable(w: TaskId)
    | SecondCheck(w: TaskId)
    | Wake(w: TaskId)
    | Dropped(w: TaskId)
    | CallStop(s: TaskId)
    | Store(s: TaskId)
    | Notify(s: TaskId)

  ghost predicate Init(st: State) {
    st == State(false, 0, map[], map[])
  }

  ghost predicate At(st: State, w: TaskId, pc: Waiter) {
    w in st.waiters && st.waiters[w] == pc
  }

  ghost predicate Enabled(st: State, act: Action) {
    match act
    case Arrive(w) => w !in st.waiters
    case FirstCheck(w) => At(st, w, AtTop)
    case Create(w) => At(st, w, SawRunning)
    case Enable(w) => w in st.waiters && st.waiters[w].Created?
    case SecondCheck(w) => w in st.waiters && st.waiters[w].Enrolled?
    case Wake(w) => w in st.waiters && st.waiters[w].Parked? && st.waiters[w].seen != st.notified
    case Dropped(w) => w in st.waiters
    case CallStop(s) => s !in st.stoppers
    case Store(s) => s in st.stoppers && st.stoppers[s] == Called
    case Notify(s) => s in st.stoppers && st.stoppers[s] == Stored
  }

  ghost function Moved(st: State, w: TaskId, pc: Waiter): State {
    st.(waiters := st.waiters[w := pc])
  }

  ghost function Apply(st: State, act: Action): State
    requires Enabled(st, act)
  {
    match act
    case Arrive(w) => Moved(st, w, AtTop)
    case FirstCheck(w) => Moved(st, w, if st.flag then Returned else SawRunning)
    case Create(w) => Moved(st, w, Created(st.notified))
    case Enable(w) => Moved(st, w, Enrolled(st.waiters[w].seen))
    case SecondCheck(w) => Moved(st, w, if st.flag then Returned else Parked(st.waiters[w].seen))
    case Wake(w) => Moved(st, w, AtTop)
    case Dropped(w) => st.(waiters := st.waiters - {w})
    case CallStop(s) => st.(stoppers := st.stoppers[s := Called])
    case Store(s) => st.(flag := true, stoppers := st.stoppers[s := Stored])
    case Notify(s) => st.(notified := st.notified + 1, stoppers := st.stoppers[s := Finished])
  }

  // ---- What every step keeps ----

  ghost predicate SomeFinished(st: State) {
    exists s :: s in st.stoppers && st.stoppers[s] == Finished
  }

  /** The flag is up exactly when some stopper has stored it. */
  ghost predicate FlagLatched(st: State) {
    st.flag <==> exists s :: s in st.stoppers && st.stoppers[s] != Called
  }

  /** No waiter counts a notification that was not sent, and after a finished stop every parked waiter
      has one it did not count. */
  ghost predicate CountsBehind(st: State) {
    forall w :: w in st.waiters ==>
      match st.waiters[w]
      case Created(seen) => seen <= st.notified
      case Enrolled(seen) => seen <= st.notified
      case Parked(seen) => seen <= st.notified && (SomeFinished(st) ==> seen < st.notified)
      case Returned => st.flag
      case _ => true
  }

  /** Nothing is sent before some stop has finished. */
  ghost predicate NothingSentEarly(st: State) {
    !SomeFinished(st) ==> st.notified == 0
  }

  ghost predicate Inv(st: State) {
    FlagLatched(st) && CountsBehind(st) && NothingSentEarly(st)
  }

  lemma StepKeeps(st: State, act: Action)
    requires Inv(st) && Enabled(st, act)
    ensures Inv(Apply(st, act))
  {
    var st' := Apply(st, act);
    if act.CallStop? || act.Store? || act.Notify? {
      StopperKeeps(st, act);
    } else {
      assert st'.stoppers == st.stoppers;
    }
  }

  lemma StopperKeeps(st: State, act: Action)
    requires Inv(st) && Enabled(st, act) && (act.CallStop? || act.Store? || act.Notify?)
    ensures Inv(Apply(st, act))
  {
    var st' := Apply(st, act);
    assert forall s :: s in st.stoppers && s != act.s ==> st'.stoppers[s] == st.stoppers[s];
    assert act.s in st'.stoppers;
    if act.Notify? {
      assert st.stoppers[act.s] != Called;
      assert SomeFinished(st');
    } else {
      assert SomeFinished(st') ==> SomeFinished(st);
      assert SomeFinished(st) ==> SomeFinished(st') by {
        if s :| s in st.stoppers && st.stoppers[s] == Finished {
          assert s in st'.stoppers && st'.stoppers[s] == Finished;
        }
      }
    }
    assert FlagLatched(st') by {
      if s :| s in st.stoppers && st.stoppers[s] != Called {
        assert s in st'.stoppers && st'.stoppers[s] != Called;
      }
    }
  }

  // ---- Runs ----

  /** A run with the action taken between each two states. */
  ghost predicate IsRun(run: seq<State>, acts: seq<Action>) {
    && |run| == |acts| + 1 && Init(run[0])
    && forall i :: 0 <= i < |acts| ==> StepAt(run, acts, i)
  }

  ghost predicate StepAt(run: seq<State>, acts: seq<Action>, i: int)
    requires 0 <= i < |acts| < |run|
  {
    Enabled(run[i], acts[i]) && run[i + 1] == Apply(run[i], acts[i])
  }

  lemma {:induction false} RunKeeps(run: seq<State>, acts: seq<Action>, i: nat)
    requires IsRun(run, acts) && i < |run|
    ensures Inv(run[i])
  {
    if i > 0 {
      RunKeeps(run, acts, i - 1);
      assert StepAt(run, acts, i - 1);
      StepKeeps(run[i - 1], acts[i - 1]);
    }
  }

  /** Once a stop has finished, nobody stays parked: every waiter that has not returned has a step of
      its own to take. */
  lemma NobodyStaysParked(run: seq<State>, acts: seq<Action>, i: nat, w: TaskId)
    requires IsRun(run, acts) && i < |run| && SomeFinished(run[i])
    requires w in run[i].waiters && !run[i].waiters[w].Returned?
    ensures exists act :: OwnStep(act, w) && Enabled(run[i], act)
  {
    RunKeeps(run, acts, i);
    var own :=
      match run[i].waiters[w]
      case AtTop => FirstCheck(w)
      case SawRunning => Create(w)
      case Created(_) => Enable(w)
      case Enrolled(_) => SecondCheck(w)
      case _ => Wake(w);
    assert OwnStep(own, w) && Enabled(run[i], own);
  }

  ghost predicate OwnStep(act: Action, w: TaskId) {
    match act
    case FirstCheck(v) => v == w
    case Create(v) => v == w
    case Enable(v) => v == w
    case SecondCheck(v) => v == w
    case Wake(v) => v == w
    case _ => false
  }

  /** How many of its own steps a waiter is from returning, once the flag is up. */
  ghost function StepsLeft(pc: Waiter): nat {
    match pc
    case Returned => 0
    case AtTop => 1
    case Enrolled(_) => 1
    case Created(_) => 2
    case Parked(_) => 2
    case SawRunning => 3
  }

  ghost function OwnSteps(acts: seq<Action>, w: TaskId): nat {
    if acts == [] then 0
    else OwnSteps(acts[..|acts| - 1], w) + if OwnStep(acts[|acts| - 1], w) then 1 else 0
  }

  /** Every own step after the store brings the waiter one nearer, whatever the others do. */
  lemma StepCountsDown(st: State, act: Action, w: TaskId)
    requires Inv(st) && Enabled(st, act) && st.flag && w in st.waiters && w in Apply(st, act).waiters
    requires act != Dropped(w)
    ensures Apply(st, act).flag
    ensures StepsLeft(Apply(st, act).waiters[w]) + (if OwnStep(act, w) then 1 else 0) == StepsLeft(st.waiters[w])
  {
  }

  /** From any point after the flag went up, a waiter's distance is exactly used up by its own steps: it
      takes at most three more, and has returned when it took as many as it was away. */
  lemma {:induction false} ReturnsWithinItsSteps(run: seq<State>, acts: seq<Action>, i: nat, j: nat, w: TaskId)
    requires IsRun(run, acts) && i <= j < |run| && run[i].flag
    requires forall m :: i <= m <= j ==> w in run[m].waiters
    ensures run[j].flag
    ensures StepsLeft(run[j].waiters[w]) + OwnSteps(acts[i..j], w) == StepsLeft(run[i].waiters[w])
    ensures OwnSteps(acts[i..j], w) <= 3
    ensures run[j].waiters[w].Returned? <==> OwnSteps(acts[i..j], w) == StepsLeft(run[i].waiters[w])
  {
    if i < j {
      ReturnsWithinItsSteps(run, acts, i, j - 1, w);
      assert StepAt(run, acts, j - 1);
      RunKeeps(run, acts, j - 1);
      StepCountsDown(run[j - 1], acts[j - 1], w);
      assert acts[i..j][..j - i - 1] == acts[i..j - 1];
    } else {
      assert acts[i..j] == [];
    }
  }

  /** A finished stop is a raised flag, so the bound above holds from there on, also for waiters that
      arrive later. */
  lemma FinishedMeansFlag(run: seq<State>, acts: seq<Action>, i: nat)
    requires IsRun(run, acts) && i < |run| && SomeFinished(run[i])
    ensures run[i].flag
  {
    RunKeeps(run, acts, i);
  }

  /** A parked waiter stays parked as long as no stop has finished. */
  lemma ParkedUntilNotified(run: seq<State>, acts: seq<Action>, i: nat, w: TaskId)
    requires IsRun(run, acts) && i < |run| && !SomeFinished(run[i])
    ensures !Enabled(run[i], Wake(w))
  {
    RunKeeps(run, acts, i);
  }

  /** A waiter that finds the flag down parks in four steps of its own. */
  lemma ParksWhileRunning(st: State, w: TaskId)
    requires At(st, w, AtTop) && !st.flag
    ensures var seen := Apply(st, FirstCheck(w));
            && Enabled(seen, Create(w)) && Enabled(Apply(seen, Create(w)), Enable(w))
            && var enrolled := Apply(Apply(seen, Create(w)), Enable(w));
               Enabled(enrolled, SecondCheck(w)) && At(Apply(enrolled, SecondCheck(w)), w, Parked(st.notified))
  {
  }

  /** Nobody returns before a stopper has stored the flag. */
  lemma ReturnsOnlyAfterStore(run: seq<State>, acts: seq<Action>, i: nat, w: TaskId)
    requires IsRun(run, acts) && i < |run| && At(run[i], w, Returned)
    ensures exists s :: s in run[i].stoppers && run[i].stoppers[s] != Called
  {
    RunKeeps(run, acts, i);
  }
}
