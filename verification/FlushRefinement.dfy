/** The protocol's flush, taken without interruption, does what the transaction code does: it holds the streams
    whose locks are free, learns the same facts, and stores the same rows. */
module FlushRefinement {
  import opened Basics
  import opened LaneStore
  import opened CommitSpec
  import opened LaneProtocol
  import CommitBatch

  // ---- The locks ----

  /** A stream's lock can be had when nobody else holds it. */
  lemma FreeIsCanLock(cfg: Config, st: State, t: TxId, batch: seq<Pending>)
    ensures CommitBatch.FreeStreams(batch, cfg.lockId, st.locks, t)
            == set s | s in Streams(batch) && CanLock(cfg, st, t, s)
    ensures forall s :: CanLock(cfg, st, t, s) <==>
              LockOf(cfg.lockId, s) !in st.locks || st.locks[LockOf(cfg.lockId, s)] == t
  {
  }

  ghost predicate Trying(st: State, t: TxId) {
    InFlush(st, t) && st.txns[t].fpc.Locking?
  }

  /** All the try-locks that are left, one after another. */
  ghost function TriedAll(cfg: Config, st: State, t: TxId): (st': State)
    requires Trying(st, t)
    ensures Trying(st', t) && st'.txns[t].fpc.todo == []
    decreases |st.txns[t].fpc.todo|
  {
    if st.txns[t].fpc.todo == [] then st else TriedAll(cfg, Apply(cfg, st, FlushTryLock(t)), t)
  }

  /** Locks the flush takes on the way make no other lock harder to get: it ends up with exactly the streams it
      could lock at the start. */
  lemma {:induction false} HeldAreTheFree(cfg: Config, st: State, t: TxId)
    requires Trying(st, t)
    ensures var st', f := TriedAll(cfg, st, t), st.txns[t];
            && st'.txns[t].fpc.held == f.fpc.held + (set s | s in f.fpc.todo && CanLock(cfg, st, t, s))
            && st'.txns[t].batch == f.batch && st'.txns[t].began == f.began
            && st'.chunks == st.chunks && st'.seals == st.seals && st'.now == st.now
    decreases |st.txns[t].fpc.todo|
  {
    var todo := st.txns[t].fpc.todo;
    if todo != [] {
      OneTry(cfg, st, t);
      HeldAreTheFree(cfg, Apply(cfg, st, FlushTryLock(t)), t);
      assert todo == [todo[0]] + todo[1..];
    }
  }

  lemma OneTry(cfg: Config, st: State, t: TxId)
    requires Trying(st, t) && st.txns[t].fpc.todo != []
    ensures Enabled(cfg, st, FlushTryLock(t)) && Trying(Apply(cfg, st, FlushTryLock(t)), t)
    ensures var next, f := Apply(cfg, st, FlushTryLock(t)), st.txns[t];
            && next == With(st.(locks := next.locks), t, next.txns[t])
            && next.txns[t].batch == f.batch && next.txns[t].began == f.began
            && next.txns[t].fpc.todo == f.fpc.todo[1..]
            && next.txns[t].fpc.held
               == f.fpc.held + (if CanLock(cfg, st, t, f.fpc.todo[0]) then {f.fpc.todo[0]} else {})
            && forall s :: CanLock(cfg, next, t, s) <==> CanLock(cfg, st, t, s)
  {
  }

  // ---- The whole flush ----

  ghost function HighWaters(st: State): map<Stream, int> {
    map s | s in st.seals :: st.seals[s].highWater
  }

  ghost function Chunks(st: State): map<Address, Value> {
    map a | a in st.chunks :: st.chunks[a].chunk
  }

  /** The two lookups together. */
  lemma LookupsAreFactsOf(cfg: Config, st: State, t: TxId)
    requires Enabled(cfg, st, FlushReadSeals(t)) && st.txns[t].fpc.held <= Streams(st.txns[t].batch)
    ensures var sealed := Apply(cfg, st, FlushReadSeals(t));
            && Enabled(cfg, sealed, FlushReadRows(t))
            && var f := st.txns[t];
               Apply(cfg, sealed, FlushReadRows(t)) ==
               With(st, t, f.(fpc := RowsRead(CommitBatch.FactsOf(f.batch, f.fpc.held, HighWaters(st), Chunks(st)))))
  {
    var f := st.txns[t];
    var facts := CommitBatch.FactsOf(f.batch, f.fpc.held, HighWaters(st), Chunks(st));
    var sealed := Apply(cfg, st, FlushReadSeals(t));
    assert Streams(f.batch) * f.fpc.held == f.fpc.held;
    assert sealed.txns[t].fpc.sealed == facts.sealed;
    var read := Apply(cfg, sealed, FlushReadRows(t));
    assert read.txns[t].fpc.facts.existing == facts.existing;
  }

  /** From its begin to its commit with nobody in between, a flush judges by the facts `commit_batch` gathers and
      adds exactly the rows it inserts. */
  lemma UninterruptedFlush(cfg: Config, st: State, t: TxId, batch: seq<Pending>, order: seq<Stream>)
    returns (read: State, done: State)
    requires Enabled(cfg, st, FlushBegin(t, batch, order))
    ensures var facts := CommitBatch.FactsOf(batch, CommitBatch.FreeStreams(batch, cfg.lockId, st.locks, t),
                                             HighWaters(st), Chunks(st));
            && InFlush(read, t) && read.txns[t] == Flush(st.now, batch, RowsRead(facts))
            && done.seals == st.seals
            && done.chunks == (map a | a in Inserts(batch, facts) && a !in st.chunks
                                   :: Row(Inserts(batch, facts)[a], st.now)) + st.chunks
  {
    var begun := Apply(cfg, st, FlushBegin(t, batch, order));
    var tried := TriedAll(cfg, begun, t);
    HeldAreTheFree(cfg, begun, t);
    FreeIsCanLock(cfg, st, t, batch);
    assert forall s :: CanLock(cfg, begun, t, s) <==> CanLock(cfg, st, t, s);
    var free := CommitBatch.FreeStreams(batch, cfg.lockId, st.locks, t);
    assert forall s :: s in order <==> s in (set u | u in order);
    assert tried.txns[t].fpc.held == free;
    LookupsAreFactsOf(cfg, tried, t);
    read := Apply(cfg, Apply(cfg, tried, FlushReadSeals(t)), FlushReadRows(t));
    done := Apply(cfg, Apply(cfg, read, FlushInsert(t)), FlushCommit(t));
  }
}
