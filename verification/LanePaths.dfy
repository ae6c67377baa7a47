/** Stretches of a lane's run, built step by step: one frame flushed, one stream sealed, one marker swept. */
module LanePaths {
  import opened Basics
  import opened LaneStore
  import opened CommitSpec
  import opened LaneProtocol
  import LaneTheorems

  ghost predicate IsPath(cfg: Config, path: seq<State>) {
    path != [] && forall i :: 0 <= i < |path| - 1 ==> StepAt(cfg, path, i)
  }

  lemma PathPush(cfg: Config, path: seq<State>, act: Action, st: State) returns (path': seq<State>)
    requires IsPath(cfg, path) && Enabled(cfg, path[|path| - 1], act) && st == Apply(cfg, path[|path| - 1], act)
    ensures IsPath(cfg, path') && path' == path + [st] && path'[0] == path[0] && path'[|path'| - 1] == st
  {
    assert Step(cfg, path[|path| - 1], st);
    path' := PathStep(cfg, path, st);
  }

  lemma PathStep(cfg: Config, path: seq<State>, st: State) returns (path': seq<State>)
    requires IsPath(cfg, path) && Step(cfg, path[|path| - 1], st)
    ensures IsPath(cfg, path') && path' == path + [st] && path'[0] == path[0] && path'[|path'| - 1] == st
  {
    path' := path + [st];
    forall i | 0 <= i < |path'| - 1 ensures StepAt(cfg, path', i) {
      if i < |path| - 1 {
        assert StepAt(cfg, path, i);
      }
    }
  }

  ghost predicate Quiet(st: State) {
    st.txns == map[] && st.locks == map[]
  }

  ghost function LocksFor(cfg: Config, s: Stream): map<int, TxId> {
    map[LockOf(cfg.lockId, s) := 0]
  }

  /** One frame, flushed alone. */
  lemma FlushPath(cfg: Config, st: State, p: Pending) returns (path: seq<State>)
    requires Quiet(st) && p.stream !in st.seals && p.At() !in st.chunks
    ensures IsPath(cfg, path) && path[0] == st
    ensures var end := path[|path| - 1];
            Quiet(end) && end.now == st.now && end.seals == st.seals
            && end.chunks == st.chunks[p.At() := Row(p.chunk, st.now)]
  {
    path := FlushSeals(cfg, st, p);
    var more := InsertPath(cfg, path[|path| - 1], st.now, p);
    path := PathsJoin(cfg, path, more);
    var insert := path[|path| - 1];
    path := PathPush(cfg, path, FlushCommit(0), Apply(cfg, insert, FlushCommit(0)));
    assert Released(insert.locks, 0) == map[];
  }

  /** From a lookup that found no marker on to the insert of the one row. */
  lemma InsertPath(cfg: Config, st: State, began: int, p: Pending) returns (path: seq<State>)
    requires st.txns == map[0 := Flush(began, [p], SealsRead({p.stream}, map[]))] && p.At() !in st.chunks
    ensures IsPath(cfg, path) && path[0] == st
    ensures path[|path| - 1] ==
            st.(txns := map[0 := Flush(began, [p], Inserted(Facts({p.stream}, map[], map[]),
                                                            map[p.At() := Row(p.chunk, began)]))])
  {
    var facts := Facts({p.stream}, map[], map[]);
    SingleInsert(p, facts);
    path := RowsPath(cfg, st, began, p);
    var rows := map[p.At() := Row(p.chunk, began)];
    var wanted := Inserts([p], facts);
    assert (map b | b in wanted && b !in st.chunks :: Row(wanted[b], began)) == rows;
    path := PathPush(cfg, path, FlushInsert(0), st.(txns := map[0 := Flush(began, [p], Inserted(facts, rows))]));
  }

  lemma RowsPath(cfg: Config, st: State, began: int, p: Pending) returns (path: seq<State>)
    requires st.txns == map[0 := Flush(began, [p], SealsRead({p.stream}, map[]))] && p.At() !in st.chunks
    ensures IsPath(cfg, path) && path[0] == st
    ensures path[|path| - 1] == st.(txns := map[0 := Flush(began, [p], RowsRead(Facts({p.stream}, map[], map[])))])
  {
    SingleInsert(p, Facts({p.stream}, map[], map[]));
    assert forall a :: a in Addresses([p]) ==> a !in st.chunks;
    path := PathPush(cfg, [st], FlushReadRows(0),
                     st.(txns := map[0 := Flush(began, [p], RowsRead(Facts({p.stream}, map[], map[])))]));
  }

  lemma SingleInsert(p: Pending, facts: Facts)
    requires facts == Facts({p.stream}, map[], map[])
    ensures Addresses([p]) == {p.At()} && Streams([p]) == {p.stream}
    ensures Inserts([p], facts) == map[p.At() := p.chunk]
  {
    var batch := [p];
    assert batch[0].At() in Addresses(batch);
    assert batch[0].stream in Streams(batch);
    assert !Diverged(batch, p.At());
    assert FirstChunk(batch, p.At()) == p.chunk;
    var inserts := Inserts(batch, facts);
    assert p.At() in inserts && inserts[p.At()] == p.chunk;
    assert inserts.Keys == {p.At()};
  }

  lemma FlushSeals(cfg: Config, st: State, p: Pending) returns (path: seq<State>)
    requires Quiet(st) && p.stream !in st.seals
    ensures IsPath(cfg, path) && path[0] == st
    ensures path[|path| - 1] ==
            st.(txns := map[0 := Flush(st.now, [p], SealsRead({p.stream}, map[]))],
                locks := LocksFor(cfg, p.stream))
  {
    path := FlushLocks(cfg, st, p);
    var locked := path[|path| - 1];
    path := PathPush(cfg, path, FlushReadSeals(0),
                     locked.(txns := map[0 := Flush(st.now, [p], SealsRead({p.stream}, map[]))]));
  }

  lemma FlushLocks(cfg: Config, st: State, p: Pending) returns (path: seq<State>)
    requires Quiet(st)
    ensures IsPath(cfg, path) && path[0] == st
    ensures path[|path| - 1] ==
            st.(txns := map[0 := Flush(st.now, [p], Locking([], {p.stream}))],
                locks := LocksFor(cfg, p.stream))
  {
    var s := p.stream;
    SingleInsert(p, Facts({s}, map[], map[]));
    assert (set u | u in [s]) == {s};
    var begun := st.(txns := map[0 := Flush(st.now, [p], Locking([s], {}))]);
    path := PathPush(cfg, [st], FlushBegin(0, [p], [s]), begun);
    assert [s][1..] == [] && {} + {s} == {s};
    path := PathPush(cfg, path, FlushTryLock(0),
                     begun.(txns := map[0 := Flush(st.now, [p], Locking([], {s}))], locks := LocksFor(cfg, s)));
  }

  // ---- Seals ----

  /** A seal transaction of one stream, holding its lock. */
  ghost function Sealing(cfg: Config, st: State, s: Stream, pc: SealPc, dels: set<Address>): State {
    st.(txns := map[0 := Pipeline(pc, dels, map[], map[])], locks := LocksFor(cfg, s))
  }

  /** The seal is not refused: nothing lies beyond a declared last sequence. */
  ghost predicate Fits(st: State, s: Stream, mode: SealMode) {
    mode.UpTo? ==> forall a :: a in st.chunks && a.stream == s ==> a.number <= mode.last
  }

  /** No state of the path has other chunks than the first. */
  ghost predicate Steady(path: seq<State>) {
    forall m :: 0 <= m < |path| ==> path[m].chunks == path[0].chunks
  }

  ghost function Declared(s: Stream, mode: SealMode): map<Stream, ChunkSeq> {
    if mode.UpTo? then map[s := mode.last] else map[]
  }

  /** A seal of one stream by some pod. */
  lemma SealPath(cfg: Config, st: State, s: Stream, mode: SealMode) returns (path: seq<State>)
    requires Quiet(st) && s !in st.seals && cfg.minTime <= st.now && Fits(st, s, mode)
    ensures IsPath(cfg, path) && path[0] == st
    ensures var end := path[|path| - 1];
            Quiet(end) && end.now == st.now && s in end.seals && end.seals[s].sealedAt == st.now
            && end.seals - {s} == st.seals && end.chunks == st.chunks - RowsOf(st.chunks, s).Keys
  {
    var marker;
    path, marker := SealMarkPath(cfg, st, s, mode);
    var marked := path[|path| - 1];
    path := PathPush(cfg, path, SealCommit(0), SealCommitted(marked, 0));
    assert Released(marked.locks, 0) == map[];
  }

  /** Up to the point where the transaction is about to commit. */
  lemma SealMarkPath(cfg: Config, st: State, s: Stream, mode: SealMode) returns (path: seq<State>, marker: Marker)
    requires Quiet(st) && s !in st.seals && cfg.minTime <= st.now && Fits(st, s, mode)
    ensures IsPath(cfg, path) && path[0] == st && Steady(path) && marker.sealedAt == st.now
    ensures path[|path| - 1] ==
            st.(txns := map[0 := Pipeline(Idle, RowsOf(st.chunks, s).Keys, map[s := marker], Declared(s, mode))],
                locks := LocksFor(cfg, s))
  {
    var high;
    path, high := SealEmptyPath(cfg, st, s, mode);
    marker := Marker(high, st.now, false);
    var txn := Pipeline(Idle, RowsOf(st.chunks, s).Keys, map[s := marker], Declared(s, mode));
    path := PathPush(cfg, path, SealMark(0), st.(txns := map[0 := txn], locks := LocksFor(cfg, s)));
  }

  lemma SealEmptyPath(cfg: Config, st: State, s: Stream, mode: SealMode) returns (path: seq<State>, high: int)
    requires Quiet(st) && s !in st.seals && cfg.minTime <= st.now && Fits(st, s, mode)
    ensures IsPath(cfg, path) && path[0] == st && Steady(path)
    ensures path[|path| - 1] == Sealing(cfg, st, s, Emptied(s, mode, st.now, high), RowsOf(st.chunks, s).Keys)
  {
    path, high := SealMeasurePath(cfg, st, s, mode);
    var dels := RowsOf(st.chunks, s).Keys;
    assert {} + dels == dels;
    path := PathPush(cfg, path, SealEmpty(0), Sealing(cfg, st, s, Emptied(s, mode, st.now, high), dels));
  }

  lemma SealMeasurePath(cfg: Config, st: State, s: Stream, mode: SealMode) returns (path: seq<State>, high: int)
    requires Quiet(st) && s !in st.seals && cfg.minTime <= st.now && Fits(st, s, mode)
    ensures IsPath(cfg, path) && path[0] == st && Steady(path)
    ensures path[|path| - 1] == Sealing(cfg, st, s, Measured(s, mode, st.now, high, RowsOf(st.chunks, s)), {})
  {
    path := SealCheckPath(cfg, st, s, mode);
    var held := path[|path| - 1];
    LaneTheorems.MeasuredExactly(cfg, held, 0);
    var measured := SealMeasured(held, 0);
    high := measured.txns[0].spc.highWater;
    path := PathPush(cfg, path, SealMeasure(0), measured);
    assert measured.txns == Sealing(cfg, st, s, Measured(s, mode, st.now, high, RowsOf(st.chunks, s)), {}).txns;
  }

  lemma SealCheckPath(cfg: Config, st: State, s: Stream, mode: SealMode) returns (path: seq<State>)
    requires Quiet(st) && s !in st.seals && cfg.minTime <= st.now
    ensures IsPath(cfg, path) && path[0] == st && Steady(path)
    ensures path[|path| - 1] == Sealing(cfg, st, s, Unsealed(s, mode, st.now), {})
  {
    path := SealWantPath(cfg, st, s, mode);
    path := PathPush(cfg, path, SealLock(0), Sealing(cfg, st, s, LockHeld(s, mode, st.now), {}));
    path := PathPush(cfg, path, SealCheck(0), Sealing(cfg, st, s, Unsealed(s, mode, st.now), {}));
  }

  lemma SealWantPath(cfg: Config, st: State, s: Stream, mode: SealMode) returns (path: seq<State>)
    requires Quiet(st) && cfg.minTime <= st.now
    ensures IsPath(cfg, path) && path[0] == st && Steady(path)
    ensures path[|path| - 1] == st.(txns := map[0 := Pipeline(WantLock(s, mode, st.now), {}, map[], map[])])
  {
    path := PathPush(cfg, [st], SealBegin(0), st.(txns := map[0 := Pipeline(Idle, {}, map[], map[])]));
    var want := st.(txns := map[0 := Pipeline(WantLock(s, mode, st.now), {}, map[], map[])]);
    path := PathPush(cfg, path, SealWant(0, s, mode, st.now), want);
  }

  // ---- Sweeps ----

  /** Time passes until a sweep takes the marker, whatever flush is open. */
  lemma SweepPath(cfg: Config, st: State, w: TxId, s: Stream, delta: nat) returns (path: seq<State>)
    requires w !in st.txns && NoPurge(st) && (st.locks == map[] || (w != 0 && st.locks == LocksFor(cfg, s)))
    requires s in st.seals && Cutoff(cfg, st.now + delta) > st.seals[s].sealedAt
    ensures IsPath(cfg, path) && path[0] == st
    ensures path[|path| - 1] == st.(now := st.now + delta, seals := st.seals - {s})
  {
    path := SweepMarkersPath(cfg, st, w, s, delta);
    var swept := path[|path| - 1];
    path := PathPush(cfg, path, Abort(w), Ended(swept, w));
    NothingReleased(cfg, st.locks, s, w);
    assert swept.txns - {w} == st.txns;
  }

  lemma SweepMarkersPath(cfg: Config, st: State, w: TxId, s: Stream, delta: nat) returns (path: seq<State>)
    requires w !in st.txns && NoPurge(st) && s in st.seals && Cutoff(cfg, st.now + delta) > st.seals[s].sealedAt
    ensures IsPath(cfg, path) && path[0] == st
    ensures path[|path| - 1] ==
            With(st.(now := st.now + delta, seals := st.seals - {s}), w, Sweep(Cutoff(cfg, st.now + delta), None))
  {
    path := SweepBeginPath(cfg, st, w, delta);
    var sweeping := path[|path| - 1];
    assert !RowLocked(sweeping, s);
    path := PathPush(cfg, path, SweepMarkers(w, {s}), sweeping.(seals := st.seals - {s}));
  }

  lemma SweepBeginPath(cfg: Config, st: State, w: TxId, delta: nat) returns (path: seq<State>)
    requires w !in st.txns
    ensures IsPath(cfg, path) && path[0] == st
    ensures path[|path| - 1] == With(st.(now := st.now + delta), w, Sweep(Cutoff(cfg, st.now + delta), None))
  {
    var later := st.(now := st.now + delta);
    path := PathPush(cfg, [st], Tick(delta), later);
    path := PathPush(cfg, path, SweepBegin(w), With(later, w, Sweep(Cutoff(cfg, later.now), None)));
  }

  lemma NothingReleased(cfg: Config, locks: map<int, TxId>, s: Stream, w: TxId)
    requires locks == map[] || (w != 0 && locks == LocksFor(cfg, s))
    ensures Released(locks, w) == locks
  {
  }

  ghost predicate NoPurge(st: State) {
    forall t :: t in st.txns ==> !st.txns[t].Purge?
  }

  /** Two microseconds past the retention are enough. */
  lemma LongEnough(cfg: Config, now: int)
    requires cfg.minTime <= now
    ensures Cutoff(cfg, now + (cfg.retention + 2000)) > now
  {
    LaneTheorems.CutoffIsRetentionBefore(cfg, now + (cfg.retention + 2000));
  }

  // ---- Paths as wholes ----

  lemma {:induction false} PathsJoin(cfg: Config, path: seq<State>, more: seq<State>) returns (all: seq<State>)
    requires IsPath(cfg, path) && IsPath(cfg, more) && more[0] == path[|path| - 1]
    ensures IsPath(cfg, all) && path <= all && all[0] == path[0] && all[|all| - 1] == more[|more| - 1]
    decreases |more|
  {
    all := path;
    if |more| > 1 {
      assert StepAt(cfg, more, 0);
      all := PathStep(cfg, path, more[1]);
      PathRest(cfg, more);
      all := PathsJoin(cfg, all, more[1..]);
    }
  }

  lemma PathRest(cfg: Config, path: seq<State>)
    requires IsPath(cfg, path) && |path| > 1
    ensures IsPath(cfg, path[1..])
  {
    forall i | 0 <= i < |path[1..]| - 1 ensures StepAt(cfg, path[1..], i) {
      assert StepAt(cfg, path, i + 1);
    }
  }
}
