/** Person erasure over the shared store: one transaction that records the erasure, and purges that any
    number of workers resume after crashes, interleaved step by step with everything the lane does. */
module Erasure {
  import opened Basics
  import opened LaneStore
  import Lane = LaneProtocol
  import LaneInvariant

  type Person = string
  type Id = nat

  /** A row of `person_erasure`: the streams of its stored manifest, and whether `purged_at` is set. */
  datatype ErasureRow = ErasureRow(manifest: seq<Stream>, purged: bool)

  /** An erase transaction inserts the row, runs the slices, and when its insert took effect stores the
      manifest and stages the event. */
  datatype Phase =
    | Begun
    | Recorded(inserted: bool, manifest: seq<Stream>)
    | Staged(inserted: bool, manifest: seq<Stream>)

  datatype Erase = Erase(person: Person, phase: Phase)
  {
    ghost predicate Inserted() { !phase.Begun? && phase.inserted }
  }

  datatype Job = Job(person: Person, streams: seq<Stream>)

  /** A worker has read the pending rows it will complete, has purged the first `done` streams of the
      current one, and may be inside the transaction that purges the next. */
  datatype Worker = Worker(jobs: seq<Job>, done: nat, txn: Option<Lane.TxId>)

  /** `emptied` is history: the streams each person's purges have committed. */
  datatype State = State(
    lane: Lane.State,
    rows: map<Person, ErasureRow>,
    erases: map<Id, Erase>,
    workers: map<Id, Worker>,
    outbox: seq<Person>,
    emptied: set<(Person, Stream)>)

  datatype Action =
    | LaneStep(act: Lane.Action)
    | EraseBegin(e: Id, person: Person)
    | EraseRecord(e: Id)
    | EraseSlice(e: Id, touched: seq<Stream>)
    | EraseStage(e: Id)
    | EraseCommit(e: Id)
    | EraseAbort(e: Id)
    | WorkerRead(w: Id, people: seq<Person>)
    | PurgeStart(w: Id, t: Lane.TxId, at: int)
    | PurgeFinish(w: Id)
    | WorkerMark(w: Id)
    | WorkerGone(w: Id)

  ghost predicate Init(cfg: Lane.Config, st: State) {
    Lane.Init(cfg, st.lane) && st == State(st.lane, map[], map[], map[], [], {})
  }

  /** An uncommitted insert of the same person's row makes another insert wait. */
  ghost predicate RowWaits(st: State, e: Id, person: Person) {
    exists d :: d in st.erases && d != e && st.erases[d].person == person && st.erases[d].Inserted()
  }

  ghost predicate Owned(st: State, t: Lane.TxId) {
    exists w :: w in st.workers && st.workers[w].txn == Some(t)
  }

  /** The lane ends a transaction; for a worker's transaction only the worker does. */
  ghost predicate Ends(act: Lane.Action, t: Lane.TxId) {
    act == Lane.PurgeCommit(t) || act == Lane.Abort(t)
  }

  ghost predicate Pending(st: State, person: Person) {
    person in st.rows && !st.rows[person].purged
  }

  ghost predicate Busy(st: State, w: Id) {
    w in st.workers && st.workers[w].jobs != []
  }

  ghost predicate Enabled(cfg: Lane.Config, st: State, act: Action) {
    match act
    case LaneStep(a) => Lane.Enabled(cfg, st.lane, a) && forall t :: Owned(st, t) ==> !Ends(a, t)
    case EraseBegin(e, _) => e !in st.erases
    case EraseRecord(e) => e in st.erases && st.erases[e].phase.Begun? && !RowWaits(st, e, st.erases[e].person)
    case EraseSlice(e, _) => e in st.erases && st.erases[e].phase.Recorded?
    case EraseStage(e) => e in st.erases && st.erases[e].phase.Recorded?
    case EraseCommit(e) => e in st.erases && st.erases[e].phase.Staged?
    case EraseAbort(e) => e in st.erases
    case WorkerRead(w, people) => w !in st.workers && forall i :: 0 <= i < |people| ==> Pending(st, people[i])
    case PurgeStart(w, t, at) =>
      && Busy(st, w) && st.workers[w].txn.None? && st.workers[w].done < |st.workers[w].jobs[0].streams|
      && Lane.Enabled(cfg, st.lane, Lane.PurgeBegin(t, st.workers[w].jobs[0].streams[st.workers[w].done], at))
    case PurgeFinish(w) =>
      && Busy(st, w) && st.workers[w].txn.Some? && st.workers[w].done < |st.workers[w].jobs[0].streams|
      && Lane.Enabled(cfg, st.lane, Lane.PurgeCommit(st.workers[w].txn.value))
    case WorkerMark(w) =>
      Busy(st, w) && st.workers[w].txn.None? && st.workers[w].done == |st.workers[w].jobs[0].streams|
    case WorkerGone(w) => w in st.workers && (st.workers[w].txn.Some? ==> st.workers[w].txn.value in st.lane.txns)
  }

  ghost function WithErase(st: State, e: Id, phase: Phase): State
    requires e in st.erases
  {
    st.(erases := st.erases[e := st.erases[e].(phase := phase)])
  }

  ghost function JobsOf(st: State, people: seq<Person>): seq<Job>
    requires forall i :: 0 <= i < |people| ==> Pending(st, people[i])
  {
    seq(|people|, i requires 0 <= i < |people| =>
      assert Pending(st, people[i]);
      Job(people[i], st.rows[people[i]].manifest))
  }

  ghost function Apply(cfg: Lane.Config, st: State, act: Action): State
    requires Enabled(cfg, st, act)
  {
    match act
    case LaneStep(a) => st.(lane := Lane.Apply(cfg, st.lane, a))
    case EraseBegin(e, person) => st.(erases := st.erases[e := Erase(person, Begun)])
    case EraseRecord(e) => WithErase(st, e, Recorded(st.erases[e].person !in st.rows, []))
    case EraseSlice(e, touched) =>
      WithErase(st, e, Recorded(st.erases[e].phase.inserted, st.erases[e].phase.manifest + touched))
    case EraseStage(e) => WithErase(st, e, Staged(st.erases[e].phase.inserted, st.erases[e].phase.manifest))
    case EraseCommit(e) =>
      var x := st.erases[e];
      var ended := st.(erases := st.erases - {e});
      if x.phase.inserted then
        ended.(rows := st.rows[x.person := ErasureRow(x.phase.manifest, false)], outbox := st.outbox + [x.person])
      else ended
    case EraseAbort(e) => st.(erases := st.erases - {e})
    case WorkerRead(w, people) => st.(workers := st.workers[w := Worker(JobsOf(st, people), 0, None)])
    case PurgeStart(w, t, at) =>
      var x := st.workers[w];
      st.(lane := Lane.Apply(cfg, st.lane, Lane.PurgeBegin(t, x.jobs[0].streams[x.done], at)),
          workers := st.workers[w := x.(txn := Some(t))])
    case PurgeFinish(w) =>
      var x := st.workers[w];
      st.(lane := Lane.Apply(cfg, st.lane, Lane.PurgeCommit(x.txn.value)),
          workers := st.workers[w := x.(txn := None, done := x.done + 1)],
          emptied := st.emptied + {(x.jobs[0].person, x.jobs[0].streams[x.done])})
    case WorkerMark(w) =>
      var x := st.workers[w];
      var person := x.jobs[0].person;
      var rows := if Pending(st, person) then st.rows[person := st.rows[person].(purged := true)] else st.rows;
      st.(rows := rows, workers := st.workers[w := Worker(x.jobs[1..], 0, None)])
    case WorkerGone(w) =>
      // Done, failed or crashed: whatever transaction was open is rolled back.
      var gone := st.(workers := st.workers - {w});
      if st.workers[w].txn.None? then gone
      else gone.(lane := Lane.Apply(cfg, st.lane, Lane.Abort(st.workers[w].txn.value)))
  }

  // ---- Erased once ----

  ghost predicate OneEvent(st: State) {
    forall p: Person :: multiset(st.outbox)[p] == if p in st.rows then 1 else 0
  }

  ghost predicate OneInserter(st: State) {
    && (forall e :: e in st.erases && st.erases[e].Inserted() ==> st.erases[e].person !in st.rows)
    && (forall d, e :: d in st.erases && e in st.erases && d != e
                       && st.erases[d].Inserted() && st.erases[e].Inserted() ==>
          st.erases[d].person != st.erases[e].person)
  }

  lemma EraseStepKeeps(cfg: Lane.Config, st: State, act: Action)
    requires OneEvent(st) && OneInserter(st) && Enabled(cfg, st, act)
    ensures OneEvent(Apply(cfg, st, act)) && OneInserter(Apply(cfg, st, act))
  {
    match act
    case EraseRecord(e) => RecordKeeps(cfg, st, e);
    case EraseCommit(e) => CommitKeeps(cfg, st, e);
    case _ => RowsUntouched(cfg, st, act);
  }

  /** No other step adds a row, an event or an insert. */
  lemma RowsUntouched(cfg: Lane.Config, st: State, act: Action)
    requires Enabled(cfg, st, act) && !act.EraseRecord? && !act.EraseCommit?
    ensures var st' := Apply(cfg, st, act);
            && st'.outbox == st.outbox && st'.rows.Keys == st.rows.Keys
            && forall e :: e in st'.erases && st'.erases[e].Inserted() ==>
                 e in st.erases && st.erases[e].Inserted() && st'.erases[e].person == st.erases[e].person
  {
  }

  lemma RecordKeeps(cfg: Lane.Config, st: State, e: Id)
    requires OneEvent(st) && OneInserter(st) && Enabled(cfg, st, EraseRecord(e))
    ensures OneEvent(Apply(cfg, st, EraseRecord(e))) && OneInserter(Apply(cfg, st, EraseRecord(e)))
  {
    var st' := Apply(cfg, st, EraseRecord(e));
    forall d | d in st'.erases && d != e && st'.erases[d].Inserted()
      ensures st'.erases[d].person != st.erases[e].person
    {
      assert st.erases[d].Inserted();
    }
  }

  lemma CommitKeeps(cfg: Lane.Config, st: State, e: Id)
    requires OneEvent(st) && OneInserter(st) && Enabled(cfg, st, EraseCommit(e))
    ensures OneEvent(Apply(cfg, st, EraseCommit(e))) && OneInserter(Apply(cfg, st, EraseCommit(e)))
  {
    var st' := Apply(cfg, st, EraseCommit(e));
    if st.erases[e].phase.inserted {
      assert st.erases[e].Inserted();
      assert forall p :: multiset(st'.outbox)[p] == multiset(st.outbox)[p] + if p == st.erases[e].person then 1 else 0;
    }
  }

  // ---- Purged only when emptied ----

  /** A job is the stored manifest of a recorded person. */
  ghost predicate JobOk(st: State, job: Job) {
    job.person in st.rows && job.streams == st.rows[job.person].manifest
  }

  ghost predicate WorkerOk(st: State, x: Worker) {
    && (forall i :: 0 <= i < |x.jobs| ==> JobOk(st, x.jobs[i]))
    && (x.jobs == [] ==> x.txn.None?)
    && (x.jobs != [] ==>
          && x.done <= |x.jobs[0].streams|
          && (forall k :: 0 <= k < x.done ==> (x.jobs[0].person, x.jobs[0].streams[k]) in st.emptied)
          && (x.txn.Some? ==> x.done < |x.jobs[0].streams| && Purges(st.lane, x.txn.value, x.jobs[0].streams[x.done])))
  }

  /** The open transaction is a purge of that stream. */
  ghost predicate Purges(lane: Lane.State, t: Lane.TxId, s: Stream) {
    Lane.InPurge(lane, t) && lane.txns[t].stream == s
  }

  ghost predicate OneOwner(st: State) {
    forall v, w | v in st.workers && w in st.workers ::
      st.workers[v].txn.Some? && st.workers[v].txn == st.workers[w].txn ==> v == w
  }

  ghost predicate WorkersOk(st: State) {
    (forall w :: w in st.workers ==> WorkerOk(st, st.workers[w])) && OneOwner(st)
  }

  ghost predicate PurgedEmptied(st: State) {
    forall p :: p in st.rows && st.rows[p].purged ==>
      forall s :: s in st.rows[p].manifest ==> (p, s) in st.emptied
  }

  /** A lane step leaves the purges it does not end in place. */
  lemma PurgeStays(cfg: Lane.Config, lane: Lane.State, act: Lane.Action, t: Lane.TxId, s: Stream)
    requires Lane.Enabled(cfg, lane, act) && Purges(lane, t, s) && !Ends(act, t)
    ensures Purges(Lane.Apply(cfg, lane, act), t, s)
  {
  }

  /** The rows only grow, keep their manifests, and the history only grows. */
  ghost predicate Grows(st: State, st': State) {
    && (forall p :: p in st.rows ==>
          p in st'.rows && st'.rows[p].manifest == st.rows[p].manifest && (st.rows[p].purged ==> st'.rows[p].purged))
    && st.emptied <= st'.emptied
  }

  lemma StepGrows(cfg: Lane.Config, st: State, act: Action)
    requires OneInserter(st) && Enabled(cfg, st, act)
    ensures Grows(st, Apply(cfg, st, act))
  {
    if act.EraseCommit? && st.erases[act.e].phase.inserted {
      assert st.erases[act.e].Inserted();
    }
  }

  /** A worker that takes no step itself stays right. */
  lemma IdleWorkerStays(cfg: Lane.Config, st: State, st': State, act: Lane.Action, x: Worker)
    requires WorkerOk(st, x) && Grows(st, st')
    requires Lane.Enabled(cfg, st.lane, act) && st'.lane == Lane.Apply(cfg, st.lane, act)
    requires x.txn.Some? ==> !Ends(act, x.txn.value)
    ensures WorkerOk(st', x)
  {
    if x.txn.Some? {
      PurgeStays(cfg, st.lane, act, x.txn.value, x.jobs[0].streams[x.done]);
    }
  }

  /** The lane step inside a step; steps that touch only the erasure tables are a tick of length zero. */
  ghost function LanePart(st: State, act: Action): Lane.Action
    requires act.PurgeStart? ==> Busy(st, act.w) && st.workers[act.w].done < |st.workers[act.w].jobs[0].streams|
    requires act.PurgeFinish? ==> Busy(st, act.w) && st.workers[act.w].txn.Some?
    requires act.WorkerGone? ==> act.w in st.workers
  {
    match act
    case LaneStep(a) => a
    case PurgeStart(w, t, at) => Lane.PurgeBegin(t, st.workers[w].jobs[0].streams[st.workers[w].done], at)
    case PurgeFinish(w) => Lane.PurgeCommit(st.workers[w].txn.value)
    case WorkerGone(w) => if st.workers[w].txn.Some? then Lane.Abort(st.workers[w].txn.value) else Lane.Tick(0)
    case _ => Lane.Tick(0)
  }

  lemma LaneMoves(cfg: Lane.Config, st: State, act: Action)
    requires Enabled(cfg, st, act)
    ensures Lane.Enabled(cfg, st.lane, LanePart(st, act))
    ensures Apply(cfg, st, act).lane == Lane.Apply(cfg, st.lane, LanePart(st, act))
  {
  }

  ghost predicate WorkerActs(act: Action, w: Id) {
    match act
    case WorkerRead(v, _) => v == w
    case PurgeStart(v, _, _) => v == w
    case PurgeFinish(v) => v == w
    case WorkerMark(v) => v == w
    case WorkerGone(v) => v == w
    case _ => false
  }

  /** No step ends the transaction of a worker that does not take it. */
  lemma OthersGoOn(cfg: Lane.Config, st: State, act: Action, w: Id)
    requires WorkersOk(st) && Enabled(cfg, st, act) && w in st.workers && !WorkerActs(act, w)
    ensures st.workers[w].txn.Some? ==> !Ends(LanePart(st, act), st.workers[w].txn.value)
  {
    if st.workers[w].txn.Some? {
      assert Owned(st, st.workers[w].txn.value);
    }
  }

  lemma WorkerUntouched(cfg: Lane.Config, st: State, act: Action, w: Id)
    requires Enabled(cfg, st, act) && w in Apply(cfg, st, act).workers && !WorkerActs(act, w)
    ensures w in st.workers && Apply(cfg, st, act).workers[w] == st.workers[w]
  {
  }

  lemma OtherWorkers(cfg: Lane.Config, st: State, act: Action, w: Id)
    requires OneInserter(st) && WorkersOk(st) && Enabled(cfg, st, act)
    requires w in Apply(cfg, st, act).workers && !WorkerActs(act, w)
    ensures w in st.workers && Apply(cfg, st, act).workers[w] == st.workers[w]
    ensures WorkerOk(Apply(cfg, st, act), st.workers[w])
  {
    WorkerUntouched(cfg, st, act, w);
    var x := st.workers[w];
    LaneMoves(cfg, st, act);
    StepGrows(cfg, st, act);
    OthersGoOn(cfg, st, act, w);
    IdleWorkerStays(cfg, st, Apply(cfg, st, act), LanePart(st, act), x);
  }

  lemma FinishOk(cfg: Lane.Config, st: State, w: Id)
    requires WorkersOk(st) && Enabled(cfg, st, PurgeFinish(w))
    ensures WorkerOk(Apply(cfg, st, PurgeFinish(w)), Apply(cfg, st, PurgeFinish(w)).workers[w])
  {
    assert WorkerOk(st, st.workers[w]);
  }

  lemma MarkOk(cfg: Lane.Config, st: State, w: Id)
    requires WorkersOk(st) && Enabled(cfg, st, WorkerMark(w))
    ensures WorkerOk(Apply(cfg, st, WorkerMark(w)), Apply(cfg, st, WorkerMark(w)).workers[w])
  {
    assert WorkerOk(st, st.workers[w]);
  }

  lemma StartOk(cfg: Lane.Config, st: State, w: Id, t: Lane.TxId, at: int)
    requires WorkersOk(st) && Enabled(cfg, st, PurgeStart(w, t, at))
    ensures WorkerOk(Apply(cfg, st, PurgeStart(w, t, at)), Apply(cfg, st, PurgeStart(w, t, at)).workers[w])
  {
    assert WorkerOk(st, st.workers[w]);
  }

  lemma OwnStep(cfg: Lane.Config, st: State, act: Action, w: Id)
    requires WorkersOk(st) && Enabled(cfg, st, act)
    requires w in Apply(cfg, st, act).workers && WorkerActs(act, w)
    ensures WorkerOk(Apply(cfg, st, act), Apply(cfg, st, act).workers[w])
  {
    match act
    case PurgeStart(_, t, at) => StartOk(cfg, st, w, t, at);
    case PurgeFinish(_) => FinishOk(cfg, st, w);
    case WorkerMark(_) => MarkOk(cfg, st, w);
    case _ =>
  }

  /** Only starting a purge gives a worker a transaction. */
  lemma TransactionsOnlyEnd(cfg: Lane.Config, st: State, act: Action)
    requires Enabled(cfg, st, act) && !act.PurgeStart?
    ensures forall w :: w in Apply(cfg, st, act).workers && Apply(cfg, st, act).workers[w].txn.Some? ==>
              w in st.workers && st.workers[w].txn == Apply(cfg, st, act).workers[w].txn
  {
  }

  lemma StartedAlone(cfg: Lane.Config, st: State, w: Id, t: Lane.TxId, at: int)
    requires WorkersOk(st) && Enabled(cfg, st, PurgeStart(w, t, at))
    ensures OneOwner(Apply(cfg, st, PurgeStart(w, t, at)))
  {
    forall v | v in st.workers && st.workers[v].txn.Some? ensures st.workers[v].txn != Some(t) {
      assert WorkerOk(st, st.workers[v]);
    }
  }

  lemma OwnersKeep(cfg: Lane.Config, st: State, act: Action)
    requires WorkersOk(st) && Enabled(cfg, st, act)
    ensures OneOwner(Apply(cfg, st, act))
  {
    if act.PurgeStart? {
      StartedAlone(cfg, st, act.w, act.t, act.at);
    } else {
      TransactionsOnlyEnd(cfg, st, act);
    }
  }

  lemma PurgedKeeps(cfg: Lane.Config, st: State, act: Action)
    requires OneInserter(st) && WorkersOk(st) && PurgedEmptied(st) && Enabled(cfg, st, act)
    ensures PurgedEmptied(Apply(cfg, st, act))
  {
    StepGrows(cfg, st, act);
    if act.WorkerMark? {
      assert WorkerOk(st, st.workers[act.w]);
      assert JobOk(st, st.workers[act.w].jobs[0]);
    }
  }

  ghost predicate Inv(st: State) {
    OneEvent(st) && OneInserter(st) && WorkersOk(st) && PurgedEmptied(st)
  }

  lemma StepKeeps(cfg: Lane.Config, st: State, act: Action)
    requires Inv(st) && Enabled(cfg, st, act)
    ensures Inv(Apply(cfg, st, act))
  {
    var st' := Apply(cfg, st, act);
    EraseStepKeeps(cfg, st, act);
    PurgedKeeps(cfg, st, act);
    OwnersKeep(cfg, st, act);
    forall w | w in st'.workers ensures WorkerOk(st', st'.workers[w]) {
      if WorkerActs(act, w) {
        OwnStep(cfg, st, act, w);
      } else {
        OtherWorkers(cfg, st, act, w);
      }
    }
  }

  // ---- Runs ----

  ghost predicate Step(cfg: Lane.Config, st: State, st': State) {
    exists act :: Enabled(cfg, st, act) && st' == Apply(cfg, st, act)
  }

  ghost predicate StepAt(cfg: Lane.Config, run: seq<State>, i: int)
    requires 0 <= i < |run| - 1
  {
    Step(cfg, run[i], run[i + 1])
  }

  ghost predicate IsRun(cfg: Lane.Config, run: seq<State>) {
    run != [] && Init(cfg, run[0]) && forall i :: 0 <= i < |run| - 1 ==> StepAt(cfg, run, i)
  }

  lemma ActionAt(cfg: Lane.Config, run: seq<State>, i: nat) returns (act: Action)
    requires IsRun(cfg, run) && i + 1 < |run|
    ensures Enabled(cfg, run[i], act) && run[i + 1] == Apply(cfg, run[i], act)
  {
    assert StepAt(cfg, run, i);
    act :| Enabled(cfg, run[i], act) && run[i + 1] == Apply(cfg, run[i], act);
  }

  lemma {:induction false} RunKeeps(cfg: Lane.Config, run: seq<State>, i: nat)
    requires IsRun(cfg, run) && i < |run|
    ensures Inv(run[i])
  {
    if i > 0 {
      RunKeeps(cfg, run, i - 1);
      var act := ActionAt(cfg, run, i - 1);
      StepKeeps(cfg, run[i - 1], act);
    }
  }

  /** What the lane sees of a run is a run of the lane, so everything proved of the lane holds here. */
  ghost function LaneRun(run: seq<State>): seq<Lane.State> {
    seq(|run|, i requires 0 <= i < |run| => run[i].lane)
  }

  lemma LaneRunIsRun(cfg: Lane.Config, run: seq<State>)
    requires IsRun(cfg, run)
    ensures Lane.IsRun(cfg, LaneRun(run))
  {
    var lanes := LaneRun(run);
    forall i | 0 <= i < |lanes| - 1 ensures Lane.StepAt(cfg, lanes, i) {
      var act := ActionAt(cfg, run, i);
      LaneMoves(cfg, run[i], act);
      assert Lane.Enabled(cfg, lanes[i], LanePart(run[i], act));
    }
  }

  // ---- Theorems ----

  /** `PersonErased` is staged once for every person with a committed erasure and for nobody else. */
  lemma ErasedExactlyOnce(cfg: Lane.Config, run: seq<State>, i: nat, p: Person)
    requires IsRun(cfg, run) && i < |run|
    ensures multiset(run[i].outbox)[p] == if p in run[i].rows then 1 else 0
  {
    RunKeeps(cfg, run, i);
  }

  /** The first committed manifest stays, and a purge once marked stays marked. */
  lemma {:induction false} FirstManifestStands(cfg: Lane.Config, run: seq<State>, i: nat, j: nat, p: Person)
    requires IsRun(cfg, run) && i <= j < |run| && p in run[i].rows
    ensures p in run[j].rows && run[j].rows[p].manifest == run[i].rows[p].manifest
    ensures run[i].rows[p].purged ==> run[j].rows[p].purged
  {
    if i < j {
      FirstManifestStands(cfg, run, i, j - 1, p);
      RunKeeps(cfg, run, j - 1);
      var act := ActionAt(cfg, run, j - 1);
      StepGrows(cfg, run[j - 1], act);
    }
  }

  /** A person's row appears only with the commit of an erase whose insert took effect, carrying that
      erase's manifest; every other erase of the person leaves rows and events as they are. */
  lemma ManifestComesFromTheInserter(cfg: Lane.Config, run: seq<State>, i: nat, e: Id)
    requires IsRun(cfg, run) && i < |run| && Enabled(cfg, run[i], EraseCommit(e))
    ensures var st, st' := run[i], Apply(cfg, run[i], EraseCommit(e));
            var x := st.erases[e];
            if x.phase.inserted then
              x.person !in st.rows && st'.rows == st.rows[x.person := ErasureRow(x.phase.manifest, false)]
              && st'.outbox == st.outbox + [x.person]
            else st'.rows == st.rows && st'.outbox == st.outbox
  {
    RunKeeps(cfg, run, i);
    assert run[i].erases[e].phase.inserted ==> run[i].erases[e].Inserted();
  }

  /** A row is marked purged only after every stream of its stored manifest was sealed and held no rows,
      at some moment since the row was committed. */
  lemma PurgedOnlyAfterEmptied(cfg: Lane.Config, run: seq<State>, i: nat, p: Person, s: Stream) returns (j: nat)
    requires IsRun(cfg, run) && i < |run|
    requires p in run[i].rows && run[i].rows[p].purged && s in run[i].rows[p].manifest
    ensures j <= i && p in run[j].rows && s in run[j].lane.seals
    ensures forall a :: a in run[j].lane.chunks ==> a.stream != s
  {
    RunKeeps(cfg, run, i);
    j := EmptiedWhen(cfg, run, i, p, s);
    LaneRunIsRun(cfg, run);
    LaneInvariant.RunKeeps(cfg, LaneRun(run), j);
  }

  lemma {:induction false} EmptiedWhen(cfg: Lane.Config, run: seq<State>, i: nat, p: Person, s: Stream) returns (j: nat)
    requires IsRun(cfg, run) && i < |run| && (p, s) in run[i].emptied
    ensures j <= i && p in run[j].rows && s in run[j].lane.seals
  {
    var act := ActionAt(cfg, run, i - 1);
    if (p, s) in run[i - 1].emptied {
      j := EmptiedWhen(cfg, run, i - 1, p, s);
    } else {
      RunKeeps(cfg, run, i - 1);
      assert act.PurgeFinish?;
      assert WorkerOk(run[i - 1], run[i - 1].workers[act.w]);
      assert JobOk(run[i - 1], run[i - 1].workers[act.w].jobs[0]);
      j := i;
    }
  }

  /** A worker that is gone leaves no transaction, no lock and no trace in the tables behind. */
  lemma GoneWorkerLeavesNothing(cfg: Lane.Config, run: seq<State>, i: nat, w: Id)
    requires IsRun(cfg, run) && i < |run| && Enabled(cfg, run[i], WorkerGone(w))
    ensures var st, st' := run[i], Apply(cfg, run[i], WorkerGone(w));
            && w !in st'.workers && st'.rows == st.rows && st'.outbox == st.outbox
            && st'.lane.chunks == st.lane.chunks && st'.lane.seals == st.lane.seals
            && (st.workers[w].txn.Some? ==>
                  && st.workers[w].txn.value !in st'.lane.txns
                  && forall l :: l in st'.lane.locks ==> st'.lane.locks[l] != st.workers[w].txn.value)
  {
  }

  // ---- From the slices to the purge ----

  /** At position `i` a slice of the erase reports the streams it touched. */
  ghost predicate SliceAt(cfg: Lane.Config, run: seq<State>, i: int, e: Id, touched: seq<Stream>)
    requires 0 <= i < |run| - 1
  {
    Enabled(cfg, run[i], EraseSlice(e, touched)) && run[i + 1] == Apply(cfg, run[i], EraseSlice(e, touched))
  }

  /** Some slice of the erase that is open at `j` touched the stream. */
  ghost predicate TouchedBy(cfg: Lane.Config, run: seq<State>, j: nat, e: Id, s: Stream)
    requires j < |run|
  {
    exists i, touched :: 0 <= i < j && SliceAt(cfg, run, i, e, touched) && s in touched && OpenSince(run, i, j, e)
  }

  ghost predicate OpenSince(run: seq<State>, i: int, j: nat, e: Id)
    requires 0 <= i < j < |run|
  {
    forall m :: i < m <= j ==> e in run[m].erases
  }

  ghost predicate InManifest(st: State, e: Id, s: Stream) {
    e in st.erases && !st.erases[e].phase.Begun? && s in st.erases[e].phase.manifest
  }

  lemma ManifestGrows(cfg: Lane.Config, st: State, act: Action, e: Id, s: Stream)
    requires Enabled(cfg, st, act) && InManifest(st, e, s) && e in Apply(cfg, st, act).erases
    ensures InManifest(Apply(cfg, st, act), e, s)
  {
  }

  lemma ManifestFrom(cfg: Lane.Config, st: State, act: Action, e: Id, s: Stream)
    requires Enabled(cfg, st, act) && InManifest(Apply(cfg, st, act), e, s)
    ensures InManifest(st, e, s) || (act.EraseSlice? && act.e == e && s in act.touched)
  {
  }

  lemma {:induction false} TouchedStays(cfg: Lane.Config, run: seq<State>, i: nat, j: nat, e: Id, touched: seq<Stream>,
                                        s: Stream)
    requires IsRun(cfg, run) && i < j < |run| && SliceAt(cfg, run, i, e, touched) && s in touched
    requires OpenSince(run, i, j, e)
    ensures InManifest(run[j], e, s)
  {
    if i + 1 < j {
      TouchedStays(cfg, run, i, j - 1, e, touched, s);
      var act := ActionAt(cfg, run, j - 1);
      ManifestGrows(cfg, run[j - 1], act, e, s);
    }
  }

  lemma {:induction false} StoredWasTouched(cfg: Lane.Config, run: seq<State>, j: nat, e: Id, s: Stream)
    requires IsRun(cfg, run) && j < |run| && InManifest(run[j], e, s)
    ensures TouchedBy(cfg, run, j, e, s)
  {
    var act := ActionAt(cfg, run, j - 1);
    ManifestFrom(cfg, run[j - 1], act, e, s);
    if InManifest(run[j - 1], e, s) {
      StoredWasTouched(cfg, run, j - 1, e, s);
      var i, touched :| 0 <= i < j - 1 && SliceAt(cfg, run, i, e, touched) && s in touched
                        && OpenSince(run, i, j - 1, e);
      assert OpenSince(run, i, j, e);
    } else {
      assert SliceAt(cfg, run, j - 1, e, act.touched) && OpenSince(run, j - 1, j, e);
    }
  }

  /** The manifest an erase stores holds exactly the streams its slices touched. */
  lemma StoredManifestIsWhatSlicesTouched(cfg: Lane.Config, run: seq<State>, j: nat, e: Id, s: Stream)
    requires IsRun(cfg, run) && j < |run| && Enabled(cfg, run[j], EraseCommit(e)) && run[j].erases[e].phase.inserted
    ensures var p := run[j].erases[e].person;
            && p in Apply(cfg, run[j], EraseCommit(e)).rows
            && (s in Apply(cfg, run[j], EraseCommit(e)).rows[p].manifest <==> TouchedBy(cfg, run, j, e, s))
  {
    if InManifest(run[j], e, s) {
      StoredWasTouched(cfg, run, j, e, s);
    }
    if TouchedBy(cfg, run, j, e, s) {
      var i, touched :| 0 <= i < j && SliceAt(cfg, run, i, e, touched) && s in touched && OpenSince(run, i, j, e);
      TouchedStays(cfg, run, i, j, e, touched, s);
    }
  }

  /** Once the erase that stored a person's manifest has committed, at `j`, the person is marked purged only
      after each stream its slices touched was sealed and empty at a moment since. */
  lemma TouchedIsEmptiedBeforePurged(cfg: Lane.Config, run: seq<State>, j: nat, i: nat, e: Id, s: Stream)
    returns (k: nat)
    requires IsRun(cfg, run) && j < i < |run| && Enabled(cfg, run[j], EraseCommit(e)) && run[j].erases[e].phase.inserted
    requires run[j + 1] == Apply(cfg, run[j], EraseCommit(e)) && TouchedBy(cfg, run, j, e, s)
    requires run[j].erases[e].person in run[i].rows && run[i].rows[run[j].erases[e].person].purged
    ensures j < k <= i && s in run[k].lane.seals
    ensures forall a :: a in run[k].lane.chunks ==> a.stream != s
  {
    var p := run[j].erases[e].person;
    StoredManifestIsWhatSlicesTouched(cfg, run, j, e, s);
    FirstManifestStands(cfg, run, j + 1, i, p);
    k := PurgedOnlyAfterEmptied(cfg, run, i, p, s);
    ManifestComesFromTheInserter(cfg, run, j, e);
    if k <= j {
      FirstManifestStands(cfg, run, k, j, p);
    }
  }
}
