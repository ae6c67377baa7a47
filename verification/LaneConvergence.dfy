/** What becomes of the frames all pods submit: on a stream that lost no rows the table is exactly the
    committed frames, whatever the batching, duplication, order, deferral and failures. */
module LaneConvergence {
  import opened Basics
  import opened LaneStore
  import opened CommitSpec
  import opened LaneProtocol
  import opened LaneInvariant
  import opened LaneTheorems

  // ---- The table is the committed frames ----

  ghost predicate JudgedDurable(f: Txn, p: Pending)
    requires f.Flush? && f.fpc.Inserted?
  {
    && p in f.batch && p.At() in Addresses(f.batch)
    && Judge(f.batch, f.fpc.facts, p.At()) == Some(Durable)
  }

  /** At position `k` a flush commits that judged the frame Durable; its acknowledgement may be lost. */
  ghost predicate CommitsAt(cfg: Config, run: seq<State>, k: int, p: Pending)
    requires 0 <= k < |run| - 1
  {
    exists t ::
      && Enabled(cfg, run[k], FlushCommit(t)) && run[k + 1] == Apply(cfg, run[k], FlushCommit(t))
      && JudgedDurable(run[k].txns[t], p)
  }

  /** Some flush committed the value at the address between the two positions. */
  ghost predicate CommittedSince(cfg: Config, run: seq<State>, m: nat, i: nat, a: Address, v: Value)
    requires i < |run|
  {
    exists k, p :: m <= k < i && CommitsAt(cfg, run, k, p) && p.At() == a && p.chunk == v
  }

  ghost predicate Committed(cfg: Config, run: seq<State>, i: nat, a: Address, v: Value)
    requires i < |run|
  {
    CommittedSince(cfg, run, 0, i, a, v)
  }

  /** Every row, of any stream, has stood since `m` or was committed by some flush since. */
  lemma {:induction false} RowSince(cfg: Config, run: seq<State>, m: nat, i: nat, a: Address)
    requires IsRun(cfg, run) && m <= i < |run| && a in run[i].chunks
    ensures || (a in run[m].chunks && run[m].chunks[a].chunk == run[i].chunks[a].chunk)
            || CommittedSince(cfg, run, m, i, a, run[i].chunks[a].chunk)
  {
    if m < i && a in run[i - 1].chunks {
      RowStands(cfg, run, i - 1, a);
      RowSince(cfg, run, m, i - 1, a);
      if CommittedSince(cfg, run, m, i - 1, a, run[i].chunks[a].chunk) {
        var k, p :| m <= k < i - 1 && CommitsAt(cfg, run, k, p) && p.At() == a && p.chunk == run[i].chunks[a].chunk;
      }
    } else if m < i {
      var p := GainedFrom(cfg, run, i - 1, a);
    }
  }

  lemma GainedFrom(cfg: Config, run: seq<State>, k: nat, a: Address) returns (p: Pending)
    requires IsRun(cfg, run) && k + 1 < |run| && a !in run[k].chunks && a in run[k + 1].chunks
    ensures CommitsAt(cfg, run, k, p) && p.At() == a && p.chunk == run[k + 1].chunks[a].chunk
  {
    RunKeeps(cfg, run, k);
    var act := ActionAt(cfg, run, k);
    RowGain(cfg, run[k], act, a);
    var f := run[k].txns[act.t];
    p := FirstEntry(f.batch, a);
    assert JudgedDurable(f, p);
  }

  /** Every row of every stream was committed by some flush. */
  lemma RowWasCommitted(cfg: Config, run: seq<State>, i: nat, a: Address)
    requires IsRun(cfg, run) && i < |run| && a in run[i].chunks
    ensures Committed(cfg, run, i, a, run[i].chunks[a].chunk)
  {
    RowSince(cfg, run, 0, i, a);
  }

  // ---- A stretch without deletes ----

  ghost predicate NoFlushHolds(st: State, s: Stream) {
    forall t :: InFlush(st, t) ==> s !in st.txns[t].fpc.Held()
  }

  /** A flush that commits after a moment at which no flush held the stream looked up after it too. */
  lemma LookedUpSince(cfg: Config, run: seq<State>, m: nat, k: nat, t: TxId, s: Stream) returns (r: nat)
    requires IsRun(cfg, run) && m <= k < |run| && NoFlushHolds(run[m], s)
    requires HasFacts(run[k], t) && s in run[k].txns[t].fpc.facts.held
    ensures m <= r && GoesBy(cfg, run, r, k, t)
  {
    r := LookupOf(cfg, run, k, t);
    if r < m {
      HoldsMeanwhile(cfg, run, r, m, k, t);
    }
  }

  lemma HoldsMeanwhile(cfg: Config, run: seq<State>, r: nat, m: nat, k: nat, t: TxId)
    requires GoesBy(cfg, run, r, k, t) && r < m <= k
    ensures InFlush(run[m], t) && run[m].txns[t].fpc.Held() == run[k].txns[t].fpc.facts.held
  {
    assert SameFacts(run[r + 1], run[k], t) && SameFacts(run[r + 1], run[m], t);
  }

  /** On such a stretch every frame committed since is stored. */
  lemma CommittedIsRow(cfg: Config, run: seq<State>, m: nat, k: nat, i: nat, p: Pending)
    requires IsRun(cfg, run) && m <= k < i < |run| && CommitsAt(cfg, run, k, p)
    requires NoFlushHolds(run[m], p.stream) && NoDelete(run, m, i, p.stream)
    ensures p.At() in run[i].chunks && run[i].chunks[p.At()].chunk == p.chunk
  {
    var t :| Enabled(cfg, run[k], FlushCommit(t)) && run[k + 1] == Apply(cfg, run[k], FlushCommit(t))
                   && JudgedDurable(run[k].txns[t], p);
    var n :| 0 <= n < |run[k].txns[t].batch| && run[k].txns[t].batch[n] == p;
    var r := LookedUpSince(cfg, run, m, k, t, p.stream);
    DurableIsTrueUnlessSwept(cfg, run, r, k, t, n);
    NotSweptWithoutDelete(cfg, run, m, i, r, k, p.At());
    NoDeleteFrom(run, m, k + 1, i, p.stream);
    RowSurvives(cfg, run, k + 1, i, p.At());
  }

  /** From any moment at which no flush holds a stream, as long as the stream loses no rows: its rows are
      those of that moment and the frames committed since, also when it was sealed or swept before. */
  lemma ConvergedSince(cfg: Config, run: seq<State>, m: nat, i: nat, a: Address, v: Value)
    requires IsRun(cfg, run) && m <= i < |run| && NoFlushHolds(run[m], a.stream) && NoDelete(run, m, i, a.stream)
    ensures a in run[i].chunks && run[i].chunks[a].chunk == v <==>
            (a in run[m].chunks && run[m].chunks[a].chunk == v) || CommittedSince(cfg, run, m, i, a, v)
  {
    if CommittedSince(cfg, run, m, i, a, v) {
      var k, p :| m <= k < i && CommitsAt(cfg, run, k, p) && p.At() == a && p.chunk == v;
      CommittedIsRow(cfg, run, m, k, i, p);
    }
    if a in run[m].chunks {
      RowSurvives(cfg, run, m, i, a);
    }
    if a in run[i].chunks {
      RowSince(cfg, run, m, i, a);
    }
  }

  /** In every run, on every stream that lost no rows, the rows are exactly the committed frames. */
  lemma Converged(cfg: Config, run: seq<State>, i: nat, a: Address, v: Value)
    requires IsRun(cfg, run) && i < |run| && NoDelete(run, 0, i, a.stream)
    ensures a in run[i].chunks && run[i].chunks[a].chunk == v <==> Committed(cfg, run, i, a, v)
  {
    ConvergedSince(cfg, run, 0, i, a, v);
  }

  /** Two runs that committed the same frames of a stream, under any two lock functions and schedules,
      hold the same chunks of it. */
  lemma RunsConverge(cfg: Config, cfg': Config, run: seq<State>, i: nat, run': seq<State>, j: nat, a: Address)
    requires IsRun(cfg, run) && i < |run| && NoDelete(run, 0, i, a.stream)
    requires IsRun(cfg', run') && j < |run'| && NoDelete(run', 0, j, a.stream)
    requires forall v :: Committed(cfg, run, i, a, v) <==> Committed(cfg', run', j, a, v)
    ensures a in run[i].chunks <==> a in run'[j].chunks
    ensures a in run[i].chunks && a in run'[j].chunks ==> run[i].chunks[a].chunk == run'[j].chunks[a].chunk
  {
    if a in run[i].chunks {
      Converged(cfg, run, i, a, run[i].chunks[a].chunk);
      Converged(cfg', run', j, a, run[i].chunks[a].chunk);
    }
    if a in run'[j].chunks {
      Converged(cfg, run, i, a, run'[j].chunks[a].chunk);
      Converged(cfg', run', j, a, run'[j].chunks[a].chunk);
    }
  }

  // ---- One value per address ----

  /** Frames with one value per address. */
  ghost predicate OneValued(truth: map<Address, Value>, batch: seq<Pending>) {
    forall i :: 0 <= i < |batch| ==> batch[i].At() in truth && batch[i].chunk == truth[batch[i].At()]
  }

  ghost predicate OneValuedRun(truth: map<Address, Value>, run: seq<State>) {
    forall i, t :: 0 <= i < |run| && InFlush(run[i], t) ==> OneValued(truth, run[i].txns[t].batch)
  }

  ghost predicate AllTrue(truth: map<Address, Value>, st: State) {
    && (forall a :: a in st.chunks ==> a in truth && st.chunks[a].chunk == truth[a])
    && (forall t :: InFlush(st, t) ==> FlushTrue(truth, st.txns[t].fpc))
  }

  ghost predicate FlushTrue(truth: map<Address, Value>, pc: FlushPc) {
    && (pc.RowsRead? || pc.Inserted? ==>
          forall a :: a in pc.facts.existing ==> a in truth && pc.facts.existing[a] == truth[a])
    && (pc.Inserted? ==> forall a :: a in pc.rows ==> a in truth && pc.rows[a].chunk == truth[a])
  }

  lemma TrueReads(cfg: Config, truth: map<Address, Value>, st: State, act: Action, t: TxId)
    requires act == FlushReadSeals(t) || act == FlushReadRows(t) || act == FlushInsert(t)
    requires Enabled(cfg, st, act) && AllTrue(truth, st) && OneValued(truth, st.txns[t].batch)
    ensures FlushTrue(truth, Apply(cfg, st, act).txns[t].fpc)
  {
    var f := st.txns[t];
    assert FlushTrue(truth, f.fpc);
    if act.FlushInsert? {
      var rows := Apply(cfg, st, act).txns[t].fpc.rows;
      forall a | a in rows ensures a in truth && rows[a].chunk == truth[a] {
        var i :| 0 <= i < |f.batch| && f.batch[i] == FirstEntry(f.batch, a);
      }
    }
  }

  lemma TrueRows(cfg: Config, truth: map<Address, Value>, st: State, act: Action, a: Address)
    requires Enabled(cfg, st, act) && AllTrue(truth, st) && a in Apply(cfg, st, act).chunks
    ensures a in truth && Apply(cfg, st, act).chunks[a].chunk == truth[a]
  {
    if act.FlushCommit? {
      assert FlushTrue(truth, st.txns[act.t].fpc);
    } else if !act.SealCommit? && !act.PurgeCommit? && !act.SweepChunks? {
      ChunksUntouched(cfg, st, act);
    }
  }

  lemma TrueStep(cfg: Config, truth: map<Address, Value>, st: State, act: Action)
    requires Enabled(cfg, st, act) && AllTrue(truth, st)
    requires forall t :: InFlush(st, t) ==> OneValued(truth, st.txns[t].batch)
    ensures AllTrue(truth, Apply(cfg, st, act))
  {
    var st' := Apply(cfg, st, act);
    forall u | InFlush(st', u) ensures FlushTrue(truth, st'.txns[u].fpc) {
      OtherFlushes(cfg, st, act, u);
      if act == FlushReadSeals(u) || act == FlushReadRows(u) || act == FlushInsert(u) {
        TrueReads(cfg, truth, st, act, u);
      }
    }
    forall a | a in st'.chunks ensures a in truth && st'.chunks[a].chunk == truth[a] {
      TrueRows(cfg, truth, st, act, a);
    }
  }

  lemma {:induction false} TrueThroughout(cfg: Config, truth: map<Address, Value>, run: seq<State>, i: nat)
    requires IsRun(cfg, run) && OneValuedRun(truth, run) && i < |run|
    ensures AllTrue(truth, run[i])
  {
    if i > 0 {
      TrueThroughout(cfg, truth, run, i - 1);
      var act := ActionAt(cfg, run, i - 1);
      TrueStep(cfg, truth, run[i - 1], act);
    }
  }

  /** No chunk of a one-valued run is ever answered Conflict. */
  lemma NoConflict(cfg: Config, truth: map<Address, Value>, run: seq<State>, i: nat, t: TxId, k: nat)
    requires IsRun(cfg, run) && OneValuedRun(truth, run) && i < |run|
    requires InFlush(run[i], t) && run[i].txns[t].fpc.Inserted? && k < |run[i].txns[t].batch|
    ensures Judge(run[i].txns[t].batch, run[i].txns[t].fpc.facts, run[i].txns[t].batch[k].At()) != Some(Conflict)
  {
    TrueThroughout(cfg, truth, run, i);
    var f := run[i].txns[t];
    var a := f.batch[k].At();
    assert OneValued(truth, f.batch) && FlushTrue(truth, f.fpc);
    assert !Diverged(f.batch, a);
    OneChunkUnlessDiverged(f.batch, k);
  }

  /** At position `k` a flush begins whose batch carries the frame. */
  ghost predicate SubmitsAt(cfg: Config, run: seq<State>, k: int, p: Pending)
    requires 0 <= k < |run| - 1
  {
    exists t, batch, order :: Enabled(cfg, run[k], FlushBegin(t, batch, order)) && p in batch
                              && run[k + 1] == Apply(cfg, run[k], FlushBegin(t, batch, order))
  }

  /** Some flush before position `i` carried a frame for the address. */
  ghost predicate Submitted(cfg: Config, run: seq<State>, i: nat, a: Address)
    requires i < |run|
  {
    exists k, p :: 0 <= k < i && SubmitsAt(cfg, run, k, p) && p.At() == a
  }

  lemma BatchStays(cfg: Config, st: State, act: Action, t: TxId)
    requires Enabled(cfg, st, act) && InFlush(Apply(cfg, st, act), t) && !(act.FlushBegin? && act.t == t)
    ensures InFlush(st, t) && st.txns[t].batch == Apply(cfg, st, act).txns[t].batch
  {
  }

  lemma {:induction false} SubmittedFrom(cfg: Config, run: seq<State>, i: nat, t: TxId, p: Pending) returns (k: nat)
    requires IsRun(cfg, run) && i < |run| && InFlush(run[i], t) && p in run[i].txns[t].batch
    ensures k < i && SubmitsAt(cfg, run, k, p)
  {
    var act := ActionAt(cfg, run, i - 1);
    if act.FlushBegin? && act.t == t {
      k := i - 1;
    } else {
      BatchStays(cfg, run[i - 1], act, t);
      k := SubmittedFrom(cfg, run, i - 1, t, p);
    }
  }

  /** Whatever was committed was submitted. */
  lemma CommittedWasSubmitted(cfg: Config, run: seq<State>, i: nat, a: Address, v: Value)
    requires IsRun(cfg, run) && i < |run| && Committed(cfg, run, i, a, v)
    ensures Submitted(cfg, run, i, a)
  {
    var k, p :| 0 <= k < i && CommitsAt(cfg, run, k, p) && p.At() == a && p.chunk == v;
    var t :| Enabled(cfg, run[k], FlushCommit(t)) && run[k + 1] == Apply(cfg, run[k], FlushCommit(t))
             && JudgedDurable(run[k].txns[t], p);
    var b := SubmittedFrom(cfg, run, k, t, p);
  }

  /** So once some flush has committed every address submitted to a stream that lost no rows, and each address
      has one value, the rows are exactly the submitted frames. */
  lemma AllSettledConverge(cfg: Config, truth: map<Address, Value>, run: seq<State>, i: nat, a: Address)
    requires IsRun(cfg, run) && OneValuedRun(truth, run) && i < |run| && NoDelete(run, 0, i, a.stream)
    requires Submitted(cfg, run, i, a) ==> exists v :: Committed(cfg, run, i, a, v)
    ensures a in run[i].chunks <==> Submitted(cfg, run, i, a)
    ensures a in run[i].chunks ==> a in truth && run[i].chunks[a].chunk == truth[a]
  {
    TrueThroughout(cfg, truth, run, i);
    if Submitted(cfg, run, i, a) {
      var v :| Committed(cfg, run, i, a, v);
      Converged(cfg, run, i, a, v);
    }
    if a in run[i].chunks {
      RowWasCommitted(cfg, run, i, a);
      CommittedWasSubmitted(cfg, run, i, a, run[i].chunks[a].chunk);
    }
  }
}
