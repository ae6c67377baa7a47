/** The inductive invariant of the accumulated lane, and its preservation by every step. */
module LaneInvariant {
  import opened Basics
  import opened LaneStore
  import opened CommitSpec
  import opened LaneProtocol

  // ---- What each transaction may rely on ----
  //
  // Every clause speaks of a stream the transaction holds, and says that something is absent or
  // unchanged there. That is what makes it survive the other transactions: they can only delete.

  ghost predicate FlushOk(cfg: Config, st: State, t: TxId)
    requires InFlush(st, t)
  {
    var f := st.txns[t];
    && InTime(cfg, st, f.began)
    && (forall s :: s in f.fpc.Held() ==> Holds(cfg, st, t, s))
    && (f.fpc.SealsRead? ==> NoNewSeal(st, f.fpc.held, f.fpc.sealed))
    && ((f.fpc.RowsRead? || f.fpc.Inserted?) ==>
          NoNewSeal(st, f.fpc.facts.held, f.fpc.facts.sealed) && NoNewRow(st, f.batch, f.fpc.facts))
    && (f.fpc.Inserted? ==>
          var wanted := Inserts(f.batch, f.fpc.facts);
          && f.fpc.rows.Keys == wanted.Keys
          && forall a :: a in wanted ==> f.fpc.rows[a] == Row(wanted[a], f.began))
  }

  ghost predicate NoNewSeal(st: State, held: set<Stream>, sealed: map<Stream, int>) {
    forall s :: s in held && s !in sealed ==> s !in st.seals
  }

  ghost predicate NoNewRow(st: State, batch: seq<Pending>, facts: Facts) {
    && (forall a :: a in facts.existing ==>
          && a.stream in facts.held
          && (a in st.chunks ==> st.chunks[a].chunk == facts.existing[a]))
    && (forall a :: a in Addresses(batch) && a.stream in facts.held && a !in facts.existing ==> a !in st.chunks)
  }

  ghost predicate AllDeleted(st: State, dels: set<Address>, s: Stream) {
    forall a :: a in st.chunks && a.stream == s ==> a in dels
  }

  /** A high water lies above every row it covers, except at the edges of an `i64`: a row at the
      greatest sequence cannot be exceeded, and a deadline seal over such a row wraps. */
  ghost predicate Covers(st: State, s: Stream, highWater: int) {
    highWater == I64_MIN
    || forall a :: a in st.chunks && a.stream == s ==> 
         a.number < highWater || (a.number == highWater && highWater == I64_MAX)
  }

  /** `seal_upto(last)` found no row beyond `last`. */
  ghost predicate Measures(st: State, s: Stream, mode: SealMode, highWater: int) {
    mode.UpTo? ==>
      && highWater == SaturatingSucc(mode.last)
      && forall a :: a in st.chunks && a.stream == s ==> a.number <= mode.last
  }

  ghost predicate InTime(cfg: Config, st: State, at: int) {
    cfg.minTime <= at <= st.now
  }

  ghost predicate PipelineOk(cfg: Config, st: State, t: TxId)
    requires InPipeline(st, t)
  {
    var p := st.txns[t];
    && (forall s :: s in p.marks ==>
          && Holds(cfg, st, t, s) && s !in st.seals && AllDeleted(st, p.dels, s)
          && InTime(cfg, st, p.marks[s].sealedAt) && Covers(st, s, p.marks[s].highWater))
    && (forall a :: a in p.dels ==> a.stream in p.marks || (p.spc.Emptied? && p.spc.s == a.stream))
    && (!p.spc.Idle? ==> InTime(cfg, st, p.spc.at))
    && (!p.spc.Idle? && !p.spc.WantLock? ==> Holds(cfg, st, t, p.spc.s))
    && (p.spc.Unsealed? || p.spc.Measured? || p.spc.Emptied? ==> p.spc.s !in st.seals && p.spc.s !in p.marks)
    && (p.spc.Measured? ==>
          && (forall a :: a in st.chunks && a.stream == p.spc.s ==>
                a in p.spc.seen && p.spc.seen[a] == st.chunks[a])
          && Covers(st, p.spc.s, p.spc.highWater)
          && Measures(st, p.spc.s, p.spc.mode, p.spc.highWater))
    && (p.spc.Emptied? ==>
          && AllDeleted(st, p.dels, p.spc.s)
          && Covers(st, p.spc.s, p.spc.highWater)
          && Measures(st, p.spc.s, p.spc.mode, p.spc.highWater))
    && (forall s :: s in p.declared ==>
          s in p.marks && Measures(st, s, UpTo(p.declared[s]), p.marks[s].highWater))
  }

  ghost predicate PurgeOk(cfg: Config, st: State, t: TxId)
    requires InPurge(st, t)
  {
    var p := st.txns[t];
    && InTime(cfg, st, p.purgeAt)
    && (forall a :: a in p.pdels ==> a.stream == p.stream)
    && (!p.ppc.PurgeWants? ==> Holds(cfg, st, t, p.stream))
    && (p.ppc.PurgeUpserted? || p.ppc.PurgeEmptied? ==>
          && InTime(cfg, st, p.ppc.marker.sealedAt) && !p.ppc.marker.purged && 0 <= p.ppc.marker.highWater
          && (forall a :: a in st.chunks && a.stream == p.stream ==> a.number < p.ppc.marker.highWater)
          && (p.stream in st.seals ==>
                && p.ppc.marker.highWater == Max(0, st.seals[p.stream].highWater)
                && st.seals[p.stream].sealedAt == p.ppc.marker.sealedAt))
    && (p.ppc.PurgeEmptied? ==> AllDeleted(st, p.pdels, p.stream))
  }

  ghost predicate SweepOk(cfg: Config, st: State, t: TxId)
    requires InSweep(st, t)
  {
    var w := st.txns[t];
    && (w.cutoff <= cfg.minTime || w.cutoff <= st.now - cfg.retention)
    && (w.doomed.Some? ==> forall a :: a in w.doomed.value ==> w.doomed.value[a].stagedAt < w.cutoff)
  }

  ghost predicate TxOk(cfg: Config, st: State, t: TxId)
    requires t in st.txns
  {
    match st.txns[t]
    case Flush(_, _, _) => FlushOk(cfg, st, t)
    case Pipeline(_, _, _, _) => PipelineOk(cfg, st, t)
    case Purge(_, _, _, _) => PurgeOk(cfg, st, t)
    case Sweep(_, _) => SweepOk(cfg, st, t)
  }

  // ---- The tables ----

  /** A stream with a committed marker holds no chunk rows. */
  ghost predicate SealExclusion(st: State) {
    forall a :: a in st.chunks ==> a.stream !in st.seals
  }

  ghost predicate MarkersLogged(cfg: Config, st: State) {
    && (forall s :: s in st.seals ==> InTime(cfg, st, st.seals[s].sealedAt) && (s, st.seals[s].sealedAt) in st.sealLog)
    // A marker outlives every instant its retention covers.
    && (forall s, at :: (s, at) in st.sealLog && st.now <= at + cfg.retention ==>
          s in st.seals && st.seals[s].sealedAt == at)
  }

  ghost predicate RowsStaged(cfg: Config, st: State) {
    forall a :: a in st.chunks ==> InTime(cfg, st, st.chunks[a].stagedAt)
  }

  ghost predicate LocksLive(st: State) {
    forall l :: l in st.locks ==> st.locks[l] in st.txns
  }

  ghost predicate Inv(cfg: Config, st: State) {
    && cfg.minTime <= st.now
    && LocksLive(st)
    && SealExclusion(st)
    && MarkersLogged(cfg, st)
    && RowsStaged(cfg, st)
    && forall t :: t in st.txns ==> TxOk(cfg, st, t)
  }

  // ---- Frame: what a step by others leaves a transaction ----

  ghost predicate Spares(cfg: Config, st: State, st': State, u: TxId) {
    && u in st.txns && u in st'.txns && st'.txns[u] == st.txns[u]
    && st.now <= st'.now
    && (forall l :: l in st.locks && st.locks[l] == u ==> l in st'.locks && st'.locks[l] == u)
    && (forall a :: a in st'.chunks && Holds(cfg, st, u, a.stream) ==>
          a in st.chunks && st'.chunks[a] == st.chunks[a])
    && (forall s :: s in st'.seals && Holds(cfg, st, u, s) ==>
          s in st.seals && st'.seals[s].highWater == st.seals[s].highWater
          && st'.seals[s].sealedAt == st.seals[s].sealedAt)
  }

  lemma SparedFlushStaysOk(cfg: Config, st: State, st': State, u: TxId)
    requires InFlush(st, u) && Spares(cfg, st, st', u) && FlushOk(cfg, st, u)
    ensures FlushOk(cfg, st', u)
  {
    var pc := st.txns[u].fpc;
    if pc.RowsRead? || pc.Inserted? {
      forall a | a in pc.facts.existing
        ensures a in st'.chunks ==> st'.chunks[a].chunk == pc.facts.existing[a]
      {
        assert Holds(cfg, st, u, a.stream);
      }
    }
  }

  /** The rows of a held stream only go away. */
  ghost predicate Calm(st: State, st': State, s: Stream) {
    && (forall a :: a in st'.chunks && a.stream == s ==> a in st.chunks && st'.chunks[a] == st.chunks[a])
    && (s !in st.seals ==> s !in st'.seals)
  }

  lemma SparedPipelineStaysOk(cfg: Config, st: State, st': State, u: TxId)
    requires InPipeline(st, u) && Spares(cfg, st, st', u) && PipelineOk(cfg, st, u)
    ensures PipelineOk(cfg, st', u)
  {
    var p := st.txns[u];
    forall s | Holds(cfg, st, u, s) ensures Calm(st, st', s) && Holds(cfg, st', u, s) {}
    forall s | s in p.marks
      ensures AllDeleted(st', p.dels, s) && Covers(st', s, p.marks[s].highWater) && s !in st'.seals
    {
      assert Calm(st, st', s);
    }
    forall s | s in p.declared ensures Measures(st', s, UpTo(p.declared[s]), p.marks[s].highWater) {
      assert Calm(st, st', s);
    }
    if !p.spc.Idle? && !p.spc.WantLock? {
      assert Calm(st, st', p.spc.s);
    }
  }

  lemma SparedStaysOk(cfg: Config, st: State, st': State, u: TxId)
    requires Spares(cfg, st, st', u)
    requires TxOk(cfg, st, u)
    ensures TxOk(cfg, st', u)
  {
    match st.txns[u]
    case Flush(_, _, _) => SparedFlushStaysOk(cfg, st, st', u);
    case Pipeline(_, _, _, _) => SparedPipelineStaysOk(cfg, st, st', u);
    case Purge(_, _, _, _) =>
    case Sweep(_, _) =>
  }

  /** A step that touches neither table and only one transaction. */
  lemma PrivateStep(cfg: Config, st: State, st': State, t: TxId)
    requires Inv(cfg, st)
    requires st'.chunks == st.chunks && st'.seals == st.seals && st'.now == st.now
    requires st'.sealLog == st.sealLog
    requires t in st'.txns && st'.txns.Keys == st.txns.Keys + {t}
    requires forall u :: u in st.txns && u != t ==> st'.txns[u] == st.txns[u]
    requires forall l :: l in st'.locks ==> st'.locks[l] == t || (l in st.locks && st'.locks[l] == st.locks[l])
    requires forall l :: l in st.locks ==> l in st'.locks && st'.locks[l] == st.locks[l]
    requires TxOk(cfg, st', t)
    ensures Inv(cfg, st')
  {
    forall u | u in st'.txns ensures TxOk(cfg, st', u) {
      if u != t {
        SparedStaysOk(cfg, st, st', u);
      }
    }
  }

  // ---- Steps of a flush ----

  lemma FlushBeginKeeps(cfg: Config, st: State, t: TxId, batch: seq<Pending>, order: seq<Stream>)
    requires Inv(cfg, st) && Enabled(cfg, st, FlushBegin(t, batch, order))
    ensures Inv(cfg, Apply(cfg, st, FlushBegin(t, batch, order)))
  {
    PrivateStep(cfg, st, Apply(cfg, st, FlushBegin(t, batch, order)), t);
  }

  lemma FlushTryLockKeeps(cfg: Config, st: State, t: TxId)
    requires Inv(cfg, st) && Enabled(cfg, st, FlushTryLock(t))
    ensures Inv(cfg, Apply(cfg, st, FlushTryLock(t)))
  {
    var st' := Apply(cfg, st, FlushTryLock(t));
    assert TxOk(cfg, st, t);
    forall s | s in st'.txns[t].fpc.Held() ensures Holds(cfg, st', t, s) {
      assert s in st.txns[t].fpc.Held() || s == st.txns[t].fpc.todo[0];
    }
    PrivateStep(cfg, st, st', t);
  }

  lemma FlushReadSealsKeeps(cfg: Config, st: State, t: TxId)
    requires Inv(cfg, st) && Enabled(cfg, st, FlushReadSeals(t))
    ensures Inv(cfg, Apply(cfg, st, FlushReadSeals(t)))
  {
    var st' := Apply(cfg, st, FlushReadSeals(t));
    assert TxOk(cfg, st, t);
    assert st'.txns[t].fpc.Held() == st.txns[t].fpc.Held();
    PrivateStep(cfg, st, st', t);
  }

  lemma FlushReadRowsKeeps(cfg: Config, st: State, t: TxId)
    requires Inv(cfg, st) && Enabled(cfg, st, FlushReadRows(t))
    ensures Inv(cfg, Apply(cfg, st, FlushReadRows(t)))
  {
    var st' := Apply(cfg, st, FlushReadRows(t));
    assert TxOk(cfg, st, t);
    assert st'.txns[t].fpc.Held() == st.txns[t].fpc.Held();
    PrivateStep(cfg, st, st', t);
  }

  lemma FlushInsertKeeps(cfg: Config, st: State, t: TxId)
    requires Inv(cfg, st) && Enabled(cfg, st, FlushInsert(t))
    ensures Inv(cfg, Apply(cfg, st, FlushInsert(t)))
  {
    var st' := Apply(cfg, st, FlushInsert(t));
    assert TxOk(cfg, st, t);
    assert st'.txns[t].fpc.Held() == st.txns[t].fpc.Held();
    PrivateStep(cfg, st, st', t);
  }

  /** The rows a flush is about to commit: on streams it holds, unsealed, at free addresses. */
  lemma FlushRows(cfg: Config, st: State, t: TxId, a: Address)
    requires Inv(cfg, st) && InFlush(st, t) && st.txns[t].fpc.Inserted? && a in st.txns[t].fpc.rows
    ensures Holds(cfg, st, t, a.stream) && a.stream !in st.seals && a !in st.chunks
    ensures InTime(cfg, st, st.txns[t].fpc.rows[a].stagedAt)
  {
    var f := st.txns[t];
    assert TxOk(cfg, st, t);
    assert a in Inserts(f.batch, f.fpc.facts);
    assert a.stream in f.fpc.Held();
  }

  lemma FlushCommitSpares(cfg: Config, st: State, t: TxId, u: TxId)
    requires Inv(cfg, st) && Enabled(cfg, st, FlushCommit(t))
    requires u in st.txns && u != t
    ensures Spares(cfg, st, Apply(cfg, st, FlushCommit(t)), u)
  {
    var st' := Apply(cfg, st, FlushCommit(t));
    forall a | a in st'.chunks && a !in st.chunks ensures !Holds(cfg, st, u, a.stream) {
      FlushRows(cfg, st, t, a);
    }
  }

  lemma FlushCommitKeeps(cfg: Config, st: State, t: TxId)
    requires Inv(cfg, st) && Enabled(cfg, st, FlushCommit(t))
    ensures Inv(cfg, Apply(cfg, st, FlushCommit(t)))
  {
    var st' := Apply(cfg, st, FlushCommit(t));
    forall u | u in st'.txns ensures TxOk(cfg, st', u) {
      FlushCommitSpares(cfg, st, t, u);
      SparedStaysOk(cfg, st, st', u);
    }
    forall a | a in st'.chunks
      ensures a.stream !in st'.seals && InTime(cfg, st', st'.chunks[a].stagedAt)
    {
      if a !in st.chunks {
        FlushRows(cfg, st, t, a);
      }
    }
  }

  // ---- Steps of a seal ----

  lemma SealBeginKeeps(cfg: Config, st: State, t: TxId)
    requires Inv(cfg, st) && Enabled(cfg, st, SealBegin(t))
    ensures Inv(cfg, Apply(cfg, st, SealBegin(t)))
  {
    PrivateStep(cfg, st, Apply(cfg, st, SealBegin(t)), t);
  }

  lemma SealWantKeeps(cfg: Config, st: State, t: TxId, s: Stream, mode: SealMode, at: int)
    requires Inv(cfg, st) && Enabled(cfg, st, SealWant(t, s, mode, at))
    ensures Inv(cfg, Apply(cfg, st, SealWant(t, s, mode, at)))
  {
    assert TxOk(cfg, st, t);
    PrivateStep(cfg, st, Apply(cfg, st, SealWant(t, s, mode, at)), t);
  }

  lemma LockedOk(cfg: Config, st: State, t: TxId)
    requires Enabled(cfg, st, SealLock(t)) && PipelineOk(cfg, st, t)
    ensures PipelineOk(cfg, Apply(cfg, st, SealLock(t)), t)
  {
  }

  lemma SealLockKeeps(cfg: Config, st: State, t: TxId)
    requires Inv(cfg, st) && Enabled(cfg, st, SealLock(t))
    ensures Inv(cfg, Apply(cfg, st, SealLock(t)))
  {
    assert TxOk(cfg, st, t);
    LockedOk(cfg, st, t);
    PrivateStep(cfg, st, Apply(cfg, st, SealLock(t)), t);
  }

  lemma CheckedOk(cfg: Config, st: State, t: TxId)
    requires Enabled(cfg, st, SealCheck(t)) && PipelineOk(cfg, st, t)
    ensures PipelineOk(cfg, Apply(cfg, st, SealCheck(t)), t)
  {
  }

  lemma SealCheckKeeps(cfg: Config, st: State, t: TxId)
    requires Inv(cfg, st) && Enabled(cfg, st, SealCheck(t))
    ensures Inv(cfg, Apply(cfg, st, SealCheck(t)))
  {
    assert TxOk(cfg, st, t);
    CheckedOk(cfg, st, t);
    PrivateStep(cfg, st, Apply(cfg, st, SealCheck(t)), t);
  }

  lemma SealMeasureKeeps(cfg: Config, st: State, t: TxId)
    requires Inv(cfg, st) && Enabled(cfg, st, SealMeasure(t))
    ensures Inv(cfg, Apply(cfg, st, SealMeasure(t)))
  {
    var st' := Apply(cfg, st, SealMeasure(t));
    assert TxOk(cfg, st, t);
    MeasuredOk(cfg, st, t);
    PrivateStep(cfg, st, st', t);
  }

  lemma MeasuredOk(cfg: Config, st: State, t: TxId)
    requires InPipeline(st, t) && st.txns[t].spc.Unsealed?
    requires PipelineOk(cfg, st, t)
    ensures PipelineOk(cfg, SealMeasured(st, t), t)
  {
    var st' := SealMeasured(st, t);
    var s := st.txns[t].spc.s;
    forall a | a in st.chunks && a.stream == s ensures a in RowsOf(st.chunks, s) {}
    forall u | u in st.txns[t].marks
      ensures AllDeleted(st', st.txns[t].dels, u) && Covers(st', u, st.txns[t].marks[u].highWater)
    {
      assert Calm(st, st', u);
    }
    forall u | u in st.txns[t].declared
      ensures Measures(st', u, UpTo(st.txns[t].declared[u]), st.txns[t].marks[u].highWater)
    {
      assert Calm(st, st', u);
    }
  }

  lemma EmptiedOk(cfg: Config, st: State, t: TxId)
    requires Enabled(cfg, st, SealEmpty(t)) && PipelineOk(cfg, st, t)
    ensures PipelineOk(cfg, Apply(cfg, st, SealEmpty(t)), t)
  {
  }

  lemma SealEmptyKeeps(cfg: Config, st: State, t: TxId)
    requires Inv(cfg, st) && Enabled(cfg, st, SealEmpty(t))
    ensures Inv(cfg, Apply(cfg, st, SealEmpty(t)))
  {
    assert TxOk(cfg, st, t);
    EmptiedOk(cfg, st, t);
    PrivateStep(cfg, st, Apply(cfg, st, SealEmpty(t)), t);
  }

  lemma MarkedOk(cfg: Config, st: State, t: TxId)
    requires Enabled(cfg, st, SealMark(t)) && PipelineOk(cfg, st, t)
    ensures PipelineOk(cfg, Apply(cfg, st, SealMark(t)), t)
  {
    var st' := Apply(cfg, st, SealMark(t));
    var p, p' := st.txns[t], st'.txns[t];
    forall s | s in p'.marks && s != p.spc.s ensures s in p.marks && p'.marks[s] == p.marks[s] {}
    forall s | s in p'.declared && s != p.spc.s ensures s in p.declared && p'.declared[s] == p.declared[s] {}
  }

  lemma SealMarkKeeps(cfg: Config, st: State, t: TxId)
    requires Inv(cfg, st) && Enabled(cfg, st, SealMark(t))
    ensures Inv(cfg, Apply(cfg, st, SealMark(t)))
  {
    assert TxOk(cfg, st, t);
    MarkedOk(cfg, st, t);
    PrivateStep(cfg, st, Apply(cfg, st, SealMark(t)), t);
  }

  lemma SealCommitKeeps(cfg: Config, st: State, t: TxId)
    requires Inv(cfg, st) && Enabled(cfg, st, SealCommit(t))
    ensures Inv(cfg, Apply(cfg, st, SealCommit(t)))
  {
    var st' := Apply(cfg, st, SealCommit(t));
    assert TxOk(cfg, st, t);
    forall u | u in st'.txns ensures TxOk(cfg, st', u) {
      SealCommitSpares(cfg, st, t, u);
      SparedStaysOk(cfg, st, st', u);
    }
  }

  lemma SealCommitSpares(cfg: Config, st: State, t: TxId, u: TxId)
    requires Enabled(cfg, st, SealCommit(t)) && PipelineOk(cfg, st, t) && u in st.txns && u != t
    ensures Spares(cfg, st, Apply(cfg, st, SealCommit(t)), u)
  {
  }

  // ---- Steps of a purge ----

  lemma PurgeBeginKeeps(cfg: Config, st: State, t: TxId, s: Stream, at: int)
    requires Inv(cfg, st) && Enabled(cfg, st, PurgeBegin(t, s, at))
    ensures Inv(cfg, Apply(cfg, st, PurgeBegin(t, s, at)))
  {
    PrivateStep(cfg, st, Apply(cfg, st, PurgeBegin(t, s, at)), t);
  }

  lemma PurgeLockKeeps(cfg: Config, st: State, t: TxId)
    requires Inv(cfg, st) && Enabled(cfg, st, PurgeLock(t))
    ensures Inv(cfg, Apply(cfg, st, PurgeLock(t)))
  {
    assert TxOk(cfg, st, t);
    PrivateStep(cfg, st, Apply(cfg, st, PurgeLock(t)), t);
  }

  lemma PurgeUpsertKeeps(cfg: Config, st: State, t: TxId)
    requires Inv(cfg, st) && Enabled(cfg, st, PurgeUpsert(t))
    ensures Inv(cfg, Apply(cfg, st, PurgeUpsert(t)))
  {
    var st' := Apply(cfg, st, PurgeUpsert(t));
    var s := st.txns[t].stream;
    assert TxOk(cfg, st, t);
    forall a | a in st.chunks && a.stream == s ensures a.number < st'.txns[t].ppc.marker.highWater {
      assert a in RowsOf(st.chunks, s);
    }
    if s in st.seals {
      assert RowsOf(st.chunks, s) == map[];
    }
    PrivateStep(cfg, st, st', t);
  }

  lemma PurgeEmptyKeeps(cfg: Config, st: State, t: TxId)
    requires Inv(cfg, st) && Enabled(cfg, st, PurgeEmpty(t))
    ensures Inv(cfg, Apply(cfg, st, PurgeEmpty(t)))
  {
    assert TxOk(cfg, st, t);
    PrivateStep(cfg, st, Apply(cfg, st, PurgeEmpty(t)), t);
  }

  lemma PurgeCommitSpares(cfg: Config, st: State, t: TxId, u: TxId)
    requires Enabled(cfg, st, PurgeCommit(t)) && PurgeOk(cfg, st, t) && u in st.txns && u != t
    ensures Spares(cfg, st, Apply(cfg, st, PurgeCommit(t)), u)
  {
  }

  lemma PurgeCommitKeeps(cfg: Config, st: State, t: TxId)
    requires Inv(cfg, st) && Enabled(cfg, st, PurgeCommit(t))
    ensures Inv(cfg, Apply(cfg, st, PurgeCommit(t)))
  {
    var st' := Apply(cfg, st, PurgeCommit(t));
    assert TxOk(cfg, st, t);
    forall u | u in st'.txns ensures TxOk(cfg, st', u) {
      PurgeCommitSpares(cfg, st, t, u);
      SparedStaysOk(cfg, st, st', u);
    }
  }

  // ---- Steps of a sweep, the clock, the beat and the end of a transaction ----

  lemma SweepBeginKeeps(cfg: Config, st: State, t: TxId)
    requires Inv(cfg, st) && Enabled(cfg, st, SweepBegin(t))
    ensures Inv(cfg, Apply(cfg, st, SweepBegin(t)))
  {
    PrivateStep(cfg, st, Apply(cfg, st, SweepBegin(t)), t);
  }

  lemma SweepMarkersKeeps(cfg: Config, st: State, t: TxId, victims: set<Stream>)
    requires Inv(cfg, st) && Enabled(cfg, st, SweepMarkers(t, victims))
    ensures Inv(cfg, Apply(cfg, st, SweepMarkers(t, victims)))
  {
    var st' := Apply(cfg, st, SweepMarkers(t, victims));
    assert TxOk(cfg, st, t);
    forall u | u in st'.txns ensures TxOk(cfg, st', u) {
      SparedStaysOk(cfg, st, st', u);
    }
  }

  lemma SweepSnapshotKeeps(cfg: Config, st: State, t: TxId)
    requires Inv(cfg, st) && Enabled(cfg, st, SweepSnapshot(t))
    ensures Inv(cfg, Apply(cfg, st, SweepSnapshot(t)))
  {
    assert TxOk(cfg, st, t);
    PrivateStep(cfg, st, Apply(cfg, st, SweepSnapshot(t)), t);
  }

  lemma SweepChunksKeeps(cfg: Config, st: State, t: TxId)
    requires Inv(cfg, st) && Enabled(cfg, st, SweepChunks(t))
    ensures Inv(cfg, Apply(cfg, st, SweepChunks(t)))
  {
    var st' := Apply(cfg, st, SweepChunks(t));
    forall u | u in st'.txns ensures TxOk(cfg, st', u) {
      SparedStaysOk(cfg, st, st', u);
    }
  }

  lemma QuietKeeps(cfg: Config, st: State, act: Action)
    requires act.Tick? || act.MarkPurged? || act.Abort?
    requires Inv(cfg, st) && Enabled(cfg, st, act)
    ensures Inv(cfg, Apply(cfg, st, act))
  {
    var st' := Apply(cfg, st, act);
    forall u | u in st'.txns ensures TxOk(cfg, st', u) {
      SparedStaysOk(cfg, st, st', u);
    }
  }

  // ---- Every step, every run ----

  lemma SealStepKeeps(cfg: Config, st: State, act: Action)
    requires || act.SealBegin? || act.SealWant? || act.SealLock? || act.SealCheck? || act.SealMeasure? || act.SealEmpty?
             || act.SealMark? || act.SealCommit?
    requires Inv(cfg, st) && Enabled(cfg, st, act)
    ensures Inv(cfg, Apply(cfg, st, act))
  {
    match act
    case SealBegin(t) => SealBeginKeeps(cfg, st, t);
    case SealWant(t, s, mode, at) => SealWantKeeps(cfg, st, t, s, mode, at);
    case SealLock(t) => SealLockKeeps(cfg, st, t);
    case SealCheck(t) => SealCheckKeeps(cfg, st, t);
    case SealMeasure(t) => SealMeasureKeeps(cfg, st, t);
    case SealEmpty(t) => SealEmptyKeeps(cfg, st, t);
    case SealMark(t) => SealMarkKeeps(cfg, st, t);
    case SealCommit(t) => SealCommitKeeps(cfg, st, t);
  }

  lemma CleaningStepKeeps(cfg: Config, st: State, act: Action)
    requires || act.PurgeBegin? || act.PurgeLock? || act.PurgeUpsert? || act.PurgeEmpty? || act.PurgeCommit?
             || act.SweepBegin? || act.SweepMarkers? || act.SweepSnapshot? || act.SweepChunks?
    requires Inv(cfg, st) && Enabled(cfg, st, act)
    ensures Inv(cfg, Apply(cfg, st, act))
  {
    match act
    case PurgeBegin(t, s, at) => PurgeBeginKeeps(cfg, st, t, s, at);
    case PurgeLock(t) => PurgeLockKeeps(cfg, st, t);
    case PurgeUpsert(t) => PurgeUpsertKeeps(cfg, st, t);
    case PurgeEmpty(t) => PurgeEmptyKeeps(cfg, st, t);
    case PurgeCommit(t) => PurgeCommitKeeps(cfg, st, t);
    case SweepBegin(t) => SweepBeginKeeps(cfg, st, t);
    case SweepMarkers(t, victims) => SweepMarkersKeeps(cfg, st, t, victims);
    case SweepSnapshot(t) => SweepSnapshotKeeps(cfg, st, t);
    case SweepChunks(t) => SweepChunksKeeps(cfg, st, t);
  }

  lemma FlushStepKeeps(cfg: Config, st: State, act: Action)
    requires || act.FlushBegin? || act.FlushTryLock? || act.FlushReadSeals? || act.FlushReadRows? || act.FlushInsert?
             || act.FlushCommit?
    requires Inv(cfg, st) && Enabled(cfg, st, act)
    ensures Inv(cfg, Apply(cfg, st, act))
  {
    match act
    case FlushBegin(t, batch, order) => FlushBeginKeeps(cfg, st, t, batch, order);
    case FlushTryLock(t) => FlushTryLockKeeps(cfg, st, t);
    case FlushReadSeals(t) => FlushReadSealsKeeps(cfg, st, t);
    case FlushReadRows(t) => FlushReadRowsKeeps(cfg, st, t);
    case FlushInsert(t) => FlushInsertKeeps(cfg, st, t);
    case FlushCommit(t) => FlushCommitKeeps(cfg, st, t);
  }

  lemma StepKeeps(cfg: Config, st: State, act: Action)
    requires Inv(cfg, st) && Enabled(cfg, st, act)
    ensures Inv(cfg, Apply(cfg, st, act))
  {
    if act.Tick? || act.MarkPurged? || act.Abort? {
      QuietKeeps(cfg, st, act);
    } else if || act.FlushBegin? || act.FlushTryLock? || act.FlushReadSeals? || act.FlushReadRows? || act.FlushInsert?
              || act.FlushCommit? {
      FlushStepKeeps(cfg, st, act);
    } else if || act.PurgeBegin? || act.PurgeLock? || act.PurgeUpsert? || act.PurgeEmpty? || act.PurgeCommit?
              || act.SweepBegin? || act.SweepMarkers? || act.SweepSnapshot? || act.SweepChunks? {
      CleaningStepKeeps(cfg, st, act);
    } else {
      SealStepKeeps(cfg, st, act);
    }
  }

  lemma {:induction false} RunKeeps(cfg: Config, run: seq<State>, i: nat)
    requires IsRun(cfg, run) && i < |run|
    ensures Inv(cfg, run[i])
  {
    if i > 0 {
      RunKeeps(cfg, run, i - 1);
      var act := ActionAt(cfg, run, i - 1);
      StepKeeps(cfg, run[i - 1], act);
    }
  }
}
