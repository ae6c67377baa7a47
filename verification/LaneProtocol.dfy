/** The accumulated lane as every pod runs it against one Postgres: flushes, seals inside pipeline
    transactions, erasure purges and sweeps, each statement a step of its own.

    Statements see committed rows (READ COMMITTED), a transaction's writes appear when it commits,
    and its advisory locks go when it ends. The lock function is any function, so two streams may
    share a lock. A run is a sequence of actions from the empty store. */
module LaneProtocol {
  import opened Basics
  import opened LaneStore
  import opened CommitSpec

  type TxId = nat

  /** `minTime` is the least instant a timestamp can hold. */
  datatype Config = Config(lockId: Stream -> int, retention: nat, minTime: int)

  datatype FlushPc =
    | Locking(todo: seq<Stream>, held: set<Stream>)
    | SealsRead(held: set<Stream>, sealed: map<Stream, int>)
    | RowsRead(facts: Facts)
    | Inserted(facts: Facts, rows: map<Address, Row>)
  {
    function Held(): set<Stream> {
      if Locking? || SealsRead? then held else facts.held
    }
  }

  datatype SealMode = UpTo(last: ChunkSeq) | Current

  /** Where a pipeline transaction stands inside one seal operation. */
  datatype SealPc =
    | Idle
    | WantLock(s: Stream, mode: SealMode, at: int)
    | LockHeld(s: Stream, mode: SealMode, at: int)
    | Unsealed(s: Stream, mode: SealMode, at: int)
    | Measured(s: Stream, mode: SealMode, at: int, highWater: int, seen: map<Address, Row>)
    | Emptied(s: Stream, mode: SealMode, at: int, highWater: int)

  datatype PurgePc = PurgeWants | PurgeHolds | PurgeUpserted(marker: Marker) | PurgeEmptied(marker: Marker)

  /** A pipeline transaction keeps the last sequence each `seal_upto` of it declared as history.
      A sweep deletes expired markers, then the rows of abandoned streams as its statement first saw
      them. Marker deletions are split row by row and may happen at any point of the sweep. */
  datatype Txn =
    | Flush(began: int, batch: seq<Pending>, fpc: FlushPc)
    | Pipeline(spc: SealPc, dels: set<Address>, marks: map<Stream, Marker>, declared: map<Stream, ChunkSeq>)
    | Purge(stream: Stream, purgeAt: int, ppc: PurgePc, pdels: set<Address>)
    | Sweep(cutoff: int, doomed: Option<map<Address, Row>>)

  /** `sealLog` is history: every marker ever committed, with its instant. No step reads it. */
  datatype State = State(
    now: int,
    chunks: map<Address, Row>,
    seals: map<Stream, Marker>,
    locks: map<int, TxId>,
    txns: map<TxId, Txn>,
    sealLog: set<(Stream, int)>)

  datatype Action =
    | Tick(delta: nat)
    | FlushBegin(t: TxId, batch: seq<Pending>, order: seq<Stream>)
    | FlushTryLock(t: TxId)
    | FlushReadSeals(t: TxId)
    | FlushReadRows(t: TxId)
    | FlushInsert(t: TxId)
    | FlushCommit(t: TxId)
    | SealBegin(t: TxId)
    | SealWant(t: TxId, s: Stream, mode: SealMode, at: int)
    | SealLock(t: TxId)
    | SealCheck(t: TxId)
    | SealMeasure(t: TxId)
    | SealEmpty(t: TxId)
    | SealMark(t: TxId)
    | SealCommit(t: TxId)
    | PurgeBegin(t: TxId, s: Stream, at: int)
    | PurgeLock(t: TxId)
    | PurgeUpsert(t: TxId)
    | PurgeEmpty(t: TxId)
    | PurgeCommit(t: TxId)
    | SweepBegin(t: TxId)
    | SweepMarkers(t: TxId, victims: set<Stream>)
    | SweepSnapshot(t: TxId)
    | SweepChunks(t: TxId)
    | MarkPurged(s: Stream)
    | Abort(t: TxId)

  ghost predicate Init(cfg: Config, st: State) {
    && cfg.minTime <= st.now
    && st == State(st.now, map[], map[], map[], map[], {})
  }

  // ---- Reading the tables ----

  ghost function RowsOf(chunks: map<Address, Row>, s: Stream): map<Address, Row> {
    map a | a in chunks && a.stream == s :: chunks[a]
  }

  ghost predicate IsMax(chunks: map<Address, Row>, s: Stream, m: int) {
    && (exists a :: a in chunks && a.stream == s && a.number == m)
    && (forall a :: a in chunks && a.stream == s ==> a.number <= m)
  }

  /** `MAX(seq)` over a stream's rows. */
  ghost function MaxNumber(chunks: map<Address, Row>, s: Stream): (m: Option<int>)
    ensures m.None? <==> RowsOf(chunks, s) == map[]
    ensures m.Some? ==> IsMax(chunks, s, m.value)
  {
    var numbers := set a | a in chunks && a.stream == s :: a.number;
    if numbers == {} then
      assert forall a :: a in RowsOf(chunks, s) ==> a.number in numbers;
      None
    else
      MaxOfSet(numbers);
      var m :| m in numbers && forall n :: n in numbers ==> n <= m;
      assert IsMax(chunks, s, m) by {
        var a :| a in chunks && a.stream == s && a.number == m;
        forall b | b in chunks && b.stream == s ensures b.number <= m {
          assert b.number in numbers;
        }
      }
      assert RowsOf(chunks, s) != map[] by {
        var a :| a in chunks && a.stream == s && a.number == m;
        assert a in RowsOf(chunks, s);
      }
      Some(m)
  }

  lemma {:induction false} MaxOfSet(numbers: set<ChunkSeq>)
    requires numbers != {}
    ensures exists m :: m in numbers && forall n :: n in numbers ==> n <= m
  {
    var x :| x in numbers;
    var rest := numbers - {x};
    if rest == {} {
      assert numbers == {x} by {
        assert numbers == rest + {x};
      }
    } else {
      MaxOfSet(rest);
      var m :| m in rest && forall n :: n in rest ==> n <= m;
      assert forall n :: n in numbers ==> n == x || n in rest;
      if m < x {
        assert x in numbers && forall n :: n in numbers ==> n <= x;
      } else {
        assert m in numbers && forall n :: n in numbers ==> n <= m;
      }
    }
  }

  // ---- Locks ----

  ghost predicate Holds(cfg: Config, st: State, t: TxId, s: Stream) {
    LockOf(cfg.lockId, s) in st.locks && st.locks[LockOf(cfg.lockId, s)] == t
  }

  ghost predicate CanLock(cfg: Config, st: State, t: TxId, s: Stream) {
    LockOf(cfg.lockId, s) in st.locks ==> st.locks[LockOf(cfg.lockId, s)] == t
  }

  ghost function Released(locks: map<int, TxId>, t: TxId): map<int, TxId> {
    map l | l in locks && locks[l] != t :: locks[l]
  }

  // ---- Clocks ----

  /** The instant `retention` before `now`, cut to whole microseconds, or the least instant when the
      clock cannot express it. */
  function Cutoff(cfg: Config, now: int): int {
    var at := (now - cfg.retention) / 1000 * 1000;
    if at < cfg.minTime then cfg.minTime else at
  }

  // ---- Steps ----

  /** A purge that met a marker holds that row until it ends, so no sweep or beat touches it. */
  ghost predicate RowLocked(st: State, s: Stream) {
    exists t :: t in st.txns && st.txns[t].Purge? && st.txns[t].stream == s
                && (st.txns[t].ppc.PurgeUpserted? || st.txns[t].ppc.PurgeEmptied?)
  }

  /** The streams none of whose rows was staged at or after the cutoff. */
  ghost predicate Abandoned(st: State, cutoff: int, s: Stream) {
    forall a :: a in st.chunks && a.stream == s ==> st.chunks[a].stagedAt < cutoff
  }

  ghost predicate Enabled(cfg: Config, st: State, act: Action) {
    match act
    case Tick(_) => true
    case FlushBegin(t, batch, order) =>
      && t !in st.txns && batch != []
      && (set s | s in order) == Streams(batch)
    case FlushTryLock(t) => InFlush(st, t) && st.txns[t].fpc.Locking? && st.txns[t].fpc.todo != []
    case FlushReadSeals(t) => InFlush(st, t) && st.txns[t].fpc.Locking? && st.txns[t].fpc.todo == []
    case FlushReadRows(t) => InFlush(st, t) && st.txns[t].fpc.SealsRead?
    case FlushInsert(t) => InFlush(st, t) && st.txns[t].fpc.RowsRead?
    case FlushCommit(t) => InFlush(st, t) && st.txns[t].fpc.Inserted?
    case SealBegin(t) => t !in st.txns
    case SealWant(t, _, _, at) => InPipeline(st, t) && st.txns[t].spc.Idle? && cfg.minTime <= at <= st.now
    case SealLock(t) => InPipeline(st, t) && st.txns[t].spc.WantLock? && CanLock(cfg, st, t, st.txns[t].spc.s)
    case SealCheck(t) => InPipeline(st, t) && st.txns[t].spc.LockHeld?
    case SealMeasure(t) => InPipeline(st, t) && st.txns[t].spc.Unsealed?
    case SealEmpty(t) => InPipeline(st, t) && st.txns[t].spc.Measured?
    case SealMark(t) => InPipeline(st, t) && st.txns[t].spc.Emptied?
    case SealCommit(t) => InPipeline(st, t) && st.txns[t].spc.Idle?
    case PurgeBegin(t, _, at) => t !in st.txns && cfg.minTime <= at <= st.now
    case PurgeLock(t) => InPurge(st, t) && st.txns[t].ppc.PurgeWants? && CanLock(cfg, st, t, st.txns[t].stream)
    case PurgeUpsert(t) =>
      && InPurge(st, t) && st.txns[t].ppc.PurgeHolds?
      && MaxNumber(st.chunks, st.txns[t].stream) != Some(I64_MAX)
    case PurgeEmpty(t) => InPurge(st, t) && st.txns[t].ppc.PurgeUpserted?
    case PurgeCommit(t) => InPurge(st, t) && st.txns[t].ppc.PurgeEmptied?
    case SweepBegin(t) => t !in st.txns
    case SweepMarkers(t, victims) =>
      && InSweep(st, t)
      && (forall s :: s in victims ==>
            s in st.seals && st.seals[s].sealedAt < st.txns[t].cutoff && !RowLocked(st, s))
    case SweepSnapshot(t) => InSweep(st, t) && st.txns[t].doomed.None?
    case SweepChunks(t) => InSweep(st, t) && st.txns[t].doomed.Some?
    case MarkPurged(s) => s in st.seals && !RowLocked(st, s)
    case Abort(t) => t in st.txns
  }

  ghost predicate InFlush(st: State, t: TxId) { t in st.txns && st.txns[t].Flush? }
  ghost predicate InPipeline(st: State, t: TxId) { t in st.txns && st.txns[t].Pipeline? }
  ghost predicate InPurge(st: State, t: TxId) { t in st.txns && st.txns[t].Purge? }
  ghost predicate InSweep(st: State, t: TxId) { t in st.txns && st.txns[t].Sweep? }

  ghost function Apply(cfg: Config, st: State, act: Action): State
    requires Enabled(cfg, st, act)
  {
    match act
    case Tick(delta) => st.(now := st.now + delta)
    case FlushBegin(t, batch, order) =>
      With(st, t, Flush(st.now, batch, Locking(order, {})))
    case FlushTryLock(t) => TryLocked(cfg, st, t)
    case FlushReadSeals(t) =>
      var held := st.txns[t].fpc.held;
      With(st, t, st.txns[t].(fpc := SealsRead(held, map s | s in held && s in st.seals :: st.seals[s].highWater)))
    case FlushReadRows(t) =>
      var pc := st.txns[t].fpc;
      var existing := map a | a in Addresses(st.txns[t].batch) && a.stream in pc.held && a in st.chunks
                          :: st.chunks[a].chunk;
      With(st, t, st.txns[t].(fpc := RowsRead(Facts(pc.held, pc.sealed, existing))))
    case FlushInsert(t) =>
      var f := st.txns[t];
      var wanted := Inserts(f.batch, f.fpc.facts);
      // ON CONFLICT DO NOTHING: an address that is taken meanwhile is skipped.
      var rows := map a | a in wanted && a !in st.chunks :: Row(wanted[a], f.began);
      With(st, t, f.(fpc := Inserted(f.fpc.facts, rows)))
    case FlushCommit(t) => FlushCommitted(st, t)
    case SealBegin(t) => With(st, t, Pipeline(Idle, {}, map[], map[]))
    case SealWant(t, s, mode, at) => With(st, t, st.txns[t].(spc := WantLock(s, mode, at)))
    case SealLock(t) =>
      var pc := st.txns[t].spc;
      With(st, t, st.txns[t].(spc := LockHeld(pc.s, pc.mode, pc.at))).(locks := st.locks[LockOf(cfg.lockId, pc.s) := t])
    case SealCheck(t) =>
      var pc := st.txns[t].spc;
      var sealed := pc.s in st.seals || pc.s in st.txns[t].marks;
      With(st, t, st.txns[t].(spc := if sealed then Idle else Unsealed(pc.s, pc.mode, pc.at)))
    case SealMeasure(t) => SealMeasured(st, t)
    case SealEmpty(t) =>
      var pc := st.txns[t].spc;
      With(st, t, st.txns[t].(spc := Emptied(pc.s, pc.mode, pc.at, pc.highWater),
                              dels := st.txns[t].dels + RowsOf(st.chunks, pc.s).Keys))
    case SealMark(t) =>
      var pc := st.txns[t].spc;
      var declared := if pc.mode.UpTo? then st.txns[t].declared[pc.s := pc.mode.last] else st.txns[t].declared;
      With(st, t, st.txns[t].(spc := Idle, declared := declared,
                              marks := st.txns[t].marks[pc.s := Marker(pc.highWater, pc.at, false)]))
    case SealCommit(t) => SealCommitted(st, t)
    case PurgeBegin(t, s, at) => With(st, t, Purge(s, at, PurgeWants, {}))
    case PurgeLock(t) =>
      With(st, t, st.txns[t].(ppc := PurgeHolds)).(locks := st.locks[LockOf(cfg.lockId, st.txns[t].stream) := t])
    case PurgeUpsert(t) => PurgeUpserts(st, t)
    case PurgeEmpty(t) =>
      With(st, t, st.txns[t].(ppc := PurgeEmptied(st.txns[t].ppc.marker),
                              pdels := RowsOf(st.chunks, st.txns[t].stream).Keys))
    case PurgeCommit(t) => PurgeCommitted(st, t)
    case SweepBegin(t) => With(st, t, Sweep(Cutoff(cfg, st.now), None))
    case SweepMarkers(t, victims) => st.(seals := st.seals - victims)
    case SweepSnapshot(t) =>
      var doomed := map a | a in st.chunks && Abandoned(st, st.txns[t].cutoff, a.stream) :: st.chunks[a];
      With(st, t, st.txns[t].(doomed := Some(doomed)))
    case SweepChunks(t) => SweptChunks(st, t)
    case MarkPurged(s) => st.(seals := st.seals[s := st.seals[s].(purged := true)])
    case Abort(t) => Ended(st, t)
  }

  ghost function With(st: State, t: TxId, txn: Txn): State {
    st.(txns := st.txns[t := txn])
  }

  /** Commit, refusal, timeout and crash all end a transaction and release its locks. */
  ghost function Ended(st: State, t: TxId): State {
    st.(txns := st.txns - {t}, locks := Released(st.locks, t))
  }

  ghost function TryLocked(cfg: Config, st: State, t: TxId): State
    requires InFlush(st, t) && st.txns[t].fpc.Locking? && st.txns[t].fpc.todo != []
  {
    var f := st.txns[t];
    var s := f.fpc.todo[0];
    if CanLock(cfg, st, t, s) then
      With(st, t, f.(fpc := Locking(f.fpc.todo[1..], f.fpc.held + {s}))).(locks := st.locks[LockOf(cfg.lockId, s) := t])
    else
      With(st, t, f.(fpc := Locking(f.fpc.todo[1..], f.fpc.held)))
  }

  /** A commit whose acknowledgement is lost on the way to the pod is the same step. */
  ghost function FlushCommitted(st: State, t: TxId): State
    requires InFlush(st, t) && st.txns[t].fpc.Inserted?
  {
    Ended(st, t).(chunks := st.txns[t].fpc.rows + st.chunks)
  }

  ghost function SealMeasured(st: State, t: TxId): State
    requires InPipeline(st, t) && st.txns[t].spc.Unsealed?
  {
    var pc := st.txns[t].spc;
    var max := MaxNumber(st.chunks, pc.s);
    var next :=
      match pc.mode
      case UpTo(last) =>
        if max.Some? && max.value > last then Idle
        else Measured(pc.s, pc.mode, pc.at, SaturatingSucc(last), RowsOf(st.chunks, pc.s))
      case Current =>
        var hw := if max.None? then 0 else WrappingSucc(max.value);
        Measured(pc.s, pc.mode, pc.at, hw, RowsOf(st.chunks, pc.s));
    With(st, t, st.txns[t].(spc := next))
  }

  ghost function SealCommitted(st: State, t: TxId): State
    requires InPipeline(st, t)
  {
    var p := st.txns[t];
    Ended(st, t).(chunks := st.chunks - p.dels,
                  seals := st.seals + p.marks,
                  sealLog := st.sealLog + (set s | s in p.marks :: (s, p.marks[s].sealedAt)))
  }

  ghost function PurgeUpserts(st: State, t: TxId): State
    requires InPurge(st, t)
  {
    var p := st.txns[t];
    var max := MaxNumber(st.chunks, p.stream);
    var hw := if max.None? then 0 else max.value + 1;
    var marker :=
      if p.stream in st.seals then
        Marker(Max(hw, st.seals[p.stream].highWater), st.seals[p.stream].sealedAt, false)
      else
        Marker(hw, p.purgeAt, false);
    With(st, t, p.(ppc := PurgeUpserted(marker)))
  }

  ghost function PurgeCommitted(st: State, t: TxId): State
    requires InPurge(st, t) && st.txns[t].ppc.PurgeEmptied?
  {
    var p := st.txns[t];
    Ended(st, t).(chunks := st.chunks - p.pdels,
                  seals := st.seals[p.stream := p.ppc.marker],
                  sealLog := st.sealLog + {(p.stream, p.ppc.marker.sealedAt)})
  }

  /** Deletes the snapshot's rows that are still there unchanged. */
  ghost function SweptChunks(st: State, t: TxId): State
    requires InSweep(st, t) && st.txns[t].doomed.Some?
  {
    var doomed := st.txns[t].doomed.value;
    var gone := set a | a in doomed && a in st.chunks && st.chunks[a] == doomed[a];
    Ended(st, t).(chunks := st.chunks - gone)
  }

  // ---- Runs ----

  ghost predicate Step(cfg: Config, st: State, st': State) {
    exists act :: Enabled(cfg, st, act) && st' == Apply(cfg, st, act)
  }

  /** A run is the sequence of states it passes through. */
  ghost predicate IsRun(cfg: Config, run: seq<State>) {
    && run != [] && Init(cfg, run[0])
    && forall i :: 0 <= i < |run| - 1 ==> StepAt(cfg, run, i)
  }

  ghost predicate StepAt(cfg: Config, run: seq<State>, i: int)
    requires 0 <= i < |run| - 1
  {
    Step(cfg, run[i], run[i + 1])
  }

  /** The action taken at a position of a run. */
  lemma ActionAt(cfg: Config, run: seq<State>, i: nat) returns (act: Action)
    requires IsRun(cfg, run) && i + 1 < |run|
    ensures Enabled(cfg, run[i], act) && run[i + 1] == Apply(cfg, run[i], act)
  {
    assert StepAt(cfg, run, i);
    act :| Enabled(cfg, run[i], act) && run[i + 1] == Apply(cfg, run[i], act);
  }
}
