/** The schema-version row: claims that check and then write under one advisory lock, and heartbeats
    that take no lock and land whenever they land.

    Postgres evaluates `now()` once, when the transaction begins, so a claim judges and stamps with the
    instant it began, however long it then waited; and so does a heartbeat. A claim's write holds the
    row until it ends, and a heartbeat that meets it waits and then looks at the committed row. */
module SchemaVersion {
  import opened Basics

  type TxId = nat

  /** The engine's version and the service's. */
  datatype Version = Version(engine: string, service: string)

  /** The singleton row. `landedAt` is history: when its last write took effect. */
  datatype Owner = Owner(version: Version, pod: string, heartbeat: int, landedAt: int)

  /** The checked phases remember, as history, the row and the instant of the check. */
  datatype Phase =
    | Begun
    | Locked
    | Passed(seen: Option<Owner>, checkedAt: int)
    | Written(seen: Option<Owner>, checkedAt: int)

  datatype Txn =
    | Claim(version: Version, pod: string, liveness: nat, began: int, phase: Phase)
    | Beat(version: Version, began: int)

  datatype State = State(now: int, row: Option<Owner>, lock: Option<TxId>, txns: map<TxId, Txn>)

  datatype Action =
    | Tick(delta: nat)
    | BeginClaim(t: TxId, version: Version, pod: string, liveness: nat)
    | TakeLock(t: TxId)
    | Check(t: TxId)
    | Write(t: TxId)
    | Commit(t: TxId)
    | BeginBeat(t: TxId, version: Version)
    | Land(t: TxId)
    | Abort(t: TxId)

  ghost predicate Init(st: State) {
    st.row.None? && st.lock.None? && st.txns == map[]
  }

  ghost predicate InClaim(st: State, t: TxId) { t in st.txns && st.txns[t].Claim? }
  ghost predicate InBeat(st: State, t: TxId) { t in st.txns && st.txns[t].Beat? }

  /** A claim's uncommitted write holds the row. */
  ghost predicate RowHeld(st: State) {
    st.row.Some? && exists t :: InClaim(st, t) && st.txns[t].phase.Written?
  }

  ghost predicate Enabled(st: State, act: Action) {
    match act
    case Tick(_) => true
    case BeginClaim(t, _, _, _) => t !in st.txns
    case TakeLock(t) => InClaim(st, t) && st.txns[t].phase.Begun? && st.lock.None?
    case Check(t) => InClaim(st, t) && st.txns[t].phase.Locked?
    case Write(t) => InClaim(st, t) && st.txns[t].phase.Passed?
    case Commit(t) => InClaim(st, t) && st.txns[t].phase.Written?
    case BeginBeat(t, _) => t !in st.txns
    case Land(t) => InBeat(st, t) && !RowHeld(st)
    case Abort(t) => t in st.txns
  }

  /** The claim's query finds a live row of another version. */
  predicate Conflicts(row: Option<Owner>, version: Version, began: int, liveness: nat) {
    row.Some? && row.value.version != version && row.value.heartbeat > began - liveness
  }

  ghost predicate HoldsRow(row: Option<Owner>, v: Version) {
    row.Some? && row.value.version == v
  }

  ghost function Ended(st: State, t: TxId): State {
    st.(txns := st.txns - {t}, lock := if st.lock == Some(t) then None else st.lock)
  }

  ghost function InPhase(st: State, t: TxId, phase: Phase): State
    requires InClaim(st, t)
  {
    st.(txns := st.txns[t := st.txns[t].(phase := phase)])
  }

  ghost function Apply(st: State, act: Action): State
    requires Enabled(st, act)
  {
    match act
    case Tick(delta) => st.(now := st.now + delta)
    case BeginClaim(t, version, pod, liveness) =>
      st.(txns := st.txns[t := Claim(version, pod, liveness, st.now, Begun)])
    case TakeLock(t) => InPhase(st, t, Locked).(lock := Some(t))
    case Check(t) =>
      var c := st.txns[t];
      if Conflicts(st.row, c.version, c.began, c.liveness) then Ended(st, t)
      else InPhase(st, t, Passed(st.row, st.now))
    case Write(t) => InPhase(st, t, Written(st.txns[t].phase.seen, st.txns[t].phase.checkedAt))
    case Commit(t) =>
      var c := st.txns[t];
      Ended(st, t).(row := Some(Owner(c.version, c.pod, c.began, st.now)))
    case BeginBeat(t, version) => st.(txns := st.txns[t := Beat(version, st.now)])
    case Land(t) =>
      var b := st.txns[t];
      // UPDATE ... WHERE the row is this version's: otherwise no row is touched.
      var row := if HoldsRow(st.row, b.version) then Some(st.row.value.(heartbeat := b.began, landedAt := st.now))
                 else st.row;
      Ended(st, t).(row := row)
    case Abort(t) => Ended(st, t)
  }

  /** What a heartbeat reports: the number of rows it updated. */
  ghost function RowsUpdated(st: State, t: TxId): nat
    requires InBeat(st, t)
  {
    if HoldsRow(st.row, st.txns[t].version) then 1 else 0
  }

  // ---- When a claim passes, and what each write leaves ----

  /** A claim is refused exactly when the row is another version's and its heartbeat was younger than the
      claim's liveness when the claim began; otherwise it goes on to write. */
  lemma RefusedExactly(st: State, t: TxId)
    requires Enabled(st, Check(t))
    ensures var c, st' := st.txns[t], Apply(st, Check(t));
            var refused := st.row.Some? && st.row.value.version != c.version
                           && c.began - st.row.value.heartbeat < c.liveness;
            && st'.row == st.row
            && (refused ==> t !in st'.txns && st'.lock != Some(t))
            && (!refused ==> t in st'.txns && st'.txns[t] == c.(phase := Passed(st.row, st.now)))
  {
  }

  /** So a claim of the row's own version always passes, and so does one that finds no row or a lapsed one. */
  lemma PassesWhenOwnOrLapsed(st: State, t: TxId)
    requires Enabled(st, Check(t))
    requires || st.row.None? || st.row.value.version == st.txns[t].version
             || st.txns[t].began - st.row.value.heartbeat >= st.txns[t].liveness
    ensures Enabled(Apply(st, Check(t)), Write(t))
  {
    RefusedExactly(st, t);
  }

  /** A claim that passed takes the row for its version and pod, stamped with the instant it began. */
  lemma ClaimTakesTheRow(st: State, t: TxId)
    requires Enabled(st, Write(t))
    ensures Apply(st, Write(t)).row == st.row && Enabled(Apply(st, Write(t)), Commit(t))
    ensures var c, done := st.txns[t], Apply(Apply(st, Write(t)), Commit(t));
            && HoldsRow(done.row, c.version) && done.row.value.pod == c.pod && done.row.value.heartbeat == c.began
            && t !in done.txns && done.lock != Some(t)
  {
  }

  /** A heartbeat updates one row exactly when the row is its version's, and then changes only the stamp, to
      the instant it was started; otherwise it changes nothing. */
  lemma BeatLandsExactly(st: State, t: TxId)
    requires Enabled(st, Land(t))
    ensures var b, row := st.txns[t], Apply(st, Land(t)).row;
            if HoldsRow(st.row, b.version) then
              RowsUpdated(st, t) == 1 && row == Some(Owner(b.version, st.row.value.pod, b.began, st.now))
            else
              RowsUpdated(st, t) == 0 && row == st.row
  {
  }

  // ---- What every step keeps ----

  ghost predicate Checked(phase: Phase) {
    phase.Passed? || phase.Written?
  }

  ghost predicate SameVersion(a: Option<Owner>, b: Option<Owner>) {
    a.Some? == b.Some? && (a.Some? ==> a.value.version == b.value.version)
  }

  /** Whoever is past the lock holds it, so the row's version is still the one it checked. */
  ghost predicate ClaimOk(st: State, t: TxId)
    requires InClaim(st, t)
  {
    var c := st.txns[t];
    && c.began <= st.now
    && (c.phase != Begun ==> st.lock == Some(t))
    && (Checked(c.phase) ==>
          && c.began <= c.phase.checkedAt
          && SameVersion(c.phase.seen, st.row)
          && !Conflicts(c.phase.seen, c.version, c.began, c.liveness))
  }

  ghost predicate Inv(st: State) {
    && (forall t :: InClaim(st, t) ==> ClaimOk(st, t))
    && (st.lock.Some? ==> InClaim(st, st.lock.value))
  }

  lemma StepKeeps(st: State, act: Action)
    requires Inv(st) && Enabled(st, act)
    ensures Inv(Apply(st, act))
  {
    var st' := Apply(st, act);
    forall t | InClaim(st', t) ensures ClaimOk(st', t) {
      if InClaim(st, t) {
        assert ClaimOk(st, t);
      }
    }
  }

  // ---- Runs ----

  ghost predicate Step(st: State, st': State) {
    exists act :: Enabled(st, act) && st' == Apply(st, act)
  }

  ghost predicate StepAt(run: seq<State>, i: int)
    requires 0 <= i < |run| - 1
  {
    Step(run[i], run[i + 1])
  }

  ghost predicate IsRun(run: seq<State>) {
    run != [] && Init(run[0]) && forall i :: 0 <= i < |run| - 1 ==> StepAt(run, i)
  }

  lemma ActionAt(run: seq<State>, i: nat) returns (act: Action)
    requires IsRun(run) && i + 1 < |run|
    ensures Enabled(run[i], act) && run[i + 1] == Apply(run[i], act)
  {
    assert StepAt(run, i);
    act :| Enabled(run[i], act) && run[i + 1] == Apply(run[i], act);
  }

  lemma {:induction false} RunKeeps(run: seq<State>, i: nat)
    requires IsRun(run) && i < |run|
    ensures Inv(run[i])
  {
    if i > 0 {
      RunKeeps(run, i - 1);
      var act := ActionAt(run, i - 1);
      StepKeeps(run[i - 1], act);
    }
  }

  /** Where in the run a claim that is past its check made it. */
  lemma {:induction false} CheckOf(run: seq<State>, i: nat, t: TxId) returns (c: nat)
    requires IsRun(run) && i < |run| && InClaim(run[i], t) && Checked(run[i].txns[t].phase)
    ensures c < i && InClaim(run[c], t) && run[c].txns[t] == run[i].txns[t].(phase := Locked)
    ensures run[c].row == run[i].txns[t].phase.seen && run[c].now == run[i].txns[t].phase.checkedAt
  {
    var act := ActionAt(run, i - 1);
    if InClaim(run[i - 1], t) && Checked(run[i - 1].txns[t].phase) {
      c := CheckOf(run, i - 1, t);
    } else {
      c := i - 1;
    }
  }

  /** The row moves to another version only by a claim whose check found the displaced version's
      heartbeat at least the claimer's liveness old when the claim began, and so at the check. */
  lemma DisplacedOnlyWhenLapsed(run: seq<State>, i: nat, v: Version) returns (t: TxId, c: nat)
    requires IsRun(run) && i + 1 < |run|
    requires HoldsRow(run[i].row, v) && !HoldsRow(run[i + 1].row, v)
    ensures run[i + 1].row.Some? && InClaim(run[i], t) && run[i + 1].row.value.version == run[i].txns[t].version != v
    ensures c < i && InClaim(run[c], t) && run[c].txns[t] == run[i].txns[t].(phase := Locked)
    ensures HoldsRow(run[c].row, v) && run[c].row.value.heartbeat <= run[c].txns[t].began - run[c].txns[t].liveness
    ensures run[c].txns[t].began <= run[c].now
  {
    var act := ActionAt(run, i);
    RunKeeps(run, i);
    assert act.Commit?;
    t := act.t;
    c := CheckOf(run, i, t);
    assert ClaimOk(run[i], t);
    RunKeeps(run, c);
    assert ClaimOk(run[c], t);
  }

  /** Every claimer's liveness is at least `liveness`. */
  ghost predicate AllWaitAtLeast(run: seq<State>, liveness: nat) {
    forall i, t :: 0 <= i < |run| && InClaim(run[i], t) ==> run[i].txns[t].liveness >= liveness
  }

  ghost predicate AlwaysYounger(run: seq<State>, v: Version, liveness: nat) {
    forall i :: 0 <= i < |run| && HoldsRow(run[i].row, v) ==> run[i].row.value.heartbeat > run[i].now - liveness
  }

  /** A version whose heartbeat stays younger than every claimer's liveness is never displaced. */
  lemma {:induction false} YoungNeverDisplaced(run: seq<State>, v: Version, liveness: nat, i: nat, j: nat)
    requires IsRun(run) && AllWaitAtLeast(run, liveness) && AlwaysYounger(run, v, liveness)
    requires i <= j < |run| && HoldsRow(run[i].row, v)
    ensures HoldsRow(run[j].row, v)
  {
    if i < j {
      YoungNeverDisplaced(run, v, liveness, i, j - 1);
      if !HoldsRow(run[j].row, v) {
        var t, c := DisplacedOnlyWhenLapsed(run, j - 1, v);
        assert false;
      }
    }
  }

  /** A version that lands a heartbeat at least every `beat`, each at most `delay` after it was started,
      is never displaced when the two together stay below the liveness. */
  lemma BeatingNeverDisplaced(run: seq<State>, v: Version, liveness: nat, beat: nat, delay: nat, i: nat, j: nat)
    requires IsRun(run) && AllWaitAtLeast(run, liveness) && beat + delay < liveness
    requires forall m :: 0 <= m < |run| && HoldsRow(run[m].row, v) ==>
               run[m].now - run[m].row.value.landedAt <= beat
               && run[m].row.value.landedAt - run[m].row.value.heartbeat <= delay
    requires i <= j < |run| && HoldsRow(run[i].row, v)
    ensures HoldsRow(run[j].row, v)
  {
    YoungNeverDisplaced(run, v, liveness, i, j);
  }

  /** A claim of version `v` commits between two states. */
  ghost predicate ClaimedAt(run: seq<State>, m: int, v: Version)
    requires 0 <= m < |run| - 1
  {
    exists t :: Enabled(run[m], Commit(t)) && run[m].txns[t].version == v && run[m + 1] == Apply(run[m], Commit(t))
  }

  /** A version that does not hold the row updates zero rows with every heartbeat until it claims. */
  lemma {:induction false} DisplacedBeatsNothing(run: seq<State>, v: Version, i: nat, j: nat, t: TxId)
    requires IsRun(run) && i <= j < |run| && !HoldsRow(run[i].row, v)
    requires forall m :: i <= m < j ==> !ClaimedAt(run, m, v)
    ensures !HoldsRow(run[j].row, v)
    ensures InBeat(run[j], t) && run[j].txns[t].version == v ==> RowsUpdated(run[j], t) == 0
    ensures InBeat(run[j], t) && run[j].txns[t].version == v && Enabled(run[j], Land(t)) ==>
              Apply(run[j], Land(t)).row == run[j].row
  {
    if i < j {
      DisplacedBeatsNothing(run, v, i, j - 1, t);
      var act := ActionAt(run, j - 1);
      assert !ClaimedAt(run, j - 1, v);
    }
  }

  /** Two claims are never both past the lock. */
  lemma OneClaimAtATime(run: seq<State>, i: nat, t: TxId, u: TxId)
    requires IsRun(run) && i < |run|
    requires InClaim(run[i], t) && InClaim(run[i], u)
    requires run[i].txns[t].phase != Begun && run[i].txns[u].phase != Begun
    ensures t == u
  {
    RunKeeps(run, i);
    assert ClaimOk(run[i], t) && ClaimOk(run[i], u);
  }

  // ---- A heartbeat between the check and the write does not save the row ----

  lemma Extended(run: seq<State>, act: Action, st: State) returns (run': seq<State>)
    requires IsRun(run) && Enabled(run[|run| - 1], act) && st == Apply(run[|run| - 1], act)
    ensures IsRun(run') && run'[|run'| - 1] == st && run' == run + [st]
  {
    run' := run + [st];
    forall i | 0 <= i < |run'| - 1 ensures StepAt(run', i) {
      if i < |run| - 1 {
        assert StepAt(run, i);
      } else {
        assert Step(run[|run| - 1], st);
      }
    }
  }

  /** Version `v` claims at instant 0 and its claim commits. */
  lemma FirstClaim(v: Version, liveness: nat) returns (run: seq<State>)
    ensures IsRun(run) && run[|run| - 1] == State(0, Some(Owner(v, "a", 0, 0)), None, map[])
  {
    run := [State(0, None, None, map[])];
    run := Extended(run, BeginClaim(0, v, "a", liveness),
                    State(0, None, None, map[0 := Claim(v, "a", liveness, 0, Begun)]));
    run := Extended(run, TakeLock(0), State(0, None, Some(0), map[0 := Claim(v, "a", liveness, 0, Locked)]));
    run := Extended(run, Check(0), State(0, None, Some(0), map[0 := Claim(v, "a", liveness, 0, Passed(None, 0))]));
    run := Extended(run, Write(0), State(0, None, Some(0), map[0 := Claim(v, "a", liveness, 0, Written(None, 0))]));
    run := Extended(run, Commit(0), State(0, Some(Owner(v, "a", 0, 0)), None, map[]));
  }

  /** The check is the only moment that counts: a row whose heartbeat is of this very instant can still
      be displaced, by a claim that checked before that heartbeat landed. */
  lemma FreshRowCanBeDisplaced(v: Version, w: Version, liveness: nat) returns (run: seq<State>)
    requires v != w
    ensures IsRun(run) && |run| >= 2
    ensures var st, st' := run[|run| - 2], run[|run| - 1];
            HoldsRow(st.row, v) && st.row.value.heartbeat == st.now && HoldsRow(st'.row, w)
  {
    var seen := Some(Owner(v, "a", 0, 0));
    run := FirstClaim(v, liveness);
    run := Extended(run, Tick(liveness), State(liveness, seen, None, map[]));
    run := Extended(run, BeginClaim(1, w, "b", liveness),
                    State(liveness, seen, None, map[1 := Claim(w, "b", liveness, liveness, Begun)]));
    run := Extended(run, TakeLock(1), State(liveness, seen, Some(1),
                                            map[1 := Claim(w, "b", liveness, liveness, Locked)]));
    run := Extended(run, Check(1), State(liveness, seen, Some(1),
                                         map[1 := Claim(w, "b", liveness, liveness, Passed(seen, liveness))]));
    run := BeatBetween(run, v, w, liveness);
  }

  lemma BeatBetween(run: seq<State>, v: Version, w: Version, liveness: nat) returns (run': seq<State>)
    requires IsRun(run)
    requires run[|run| - 1] == State(liveness, Some(Owner(v, "a", 0, 0)), Some(1),
                                     map[1 := Claim(w, "b", liveness, liveness,
                                                    Passed(Some(Owner(v, "a", 0, 0)), liveness))])
    ensures IsRun(run') && |run'| >= 2
    ensures var st, st' := run'[|run'| - 2], run'[|run'| - 1];
            HoldsRow(st.row, v) && st.row.value.heartbeat == st.now && HoldsRow(st'.row, w)
  {
    var seen := Some(Owner(v, "a", 0, 0));
    var beaten := Some(Owner(v, "a", liveness, liveness));
    var claim := Claim(w, "b", liveness, liveness, Passed(seen, liveness));
    var written := Claim(w, "b", liveness, liveness, Written(seen, liveness));
    run' := Extended(run, BeginBeat(2, v), State(liveness, seen, Some(1), map[1 := claim, 2 := Beat(v, liveness)]));
    run' := Extended(run', Land(2), State(liveness, beaten, Some(1), map[1 := claim]));
    run' := Extended(run', Write(1), State(liveness, beaten, Some(1), map[1 := written]));
    run' := Extended(run', Commit(1), State(liveness, Some(Owner(w, "b", liveness, liveness)), None, map[]));
  }
}
