/** What every run of the accumulated lane keeps. */
module LaneTheorems {
  import opened Basics
  import opened LaneStore
  import opened CommitSpec
  import opened LaneProtocol
  import opened LaneInvariant

  // ---- Seal exclusion ----

  /** In every state of every run a stream with a committed marker holds no chunk rows, and a flush
      that is about to commit refuses every chunk of a stream whose marker stands. */
  lemma SealedStreamIsEmptyAndRefuses(cfg: Config, run: seq<State>, i: nat, s: Stream)
    requires IsRun(cfg, run) && i < |run| && s in run[i].seals
    ensures forall a :: a in run[i].chunks ==> a.stream != s
    ensures forall t, a ::
              && InFlush(run[i], t) && run[i].txns[t].fpc.Inserted?
              && a in Addresses(run[i].txns[t].batch) && a.stream == s
              && s in run[i].txns[t].fpc.facts.held
              ==> Judge(run[i].txns[t].batch, run[i].txns[t].fpc.facts, a).Some?
                  && Judge(run[i].txns[t].batch, run[i].txns[t].fpc.facts, a).value.Refused?
  {
    RunKeeps(cfg, run, i);
    var st := run[i];
    forall t, a |
      && InFlush(st, t) && st.txns[t].fpc.Inserted?
      && a in Addresses(st.txns[t].batch) && a.stream == s && s in st.txns[t].fpc.facts.held
      ensures Judge(st.txns[t].batch, st.txns[t].fpc.facts, a).Some?
      ensures Judge(st.txns[t].batch, st.txns[t].fpc.facts, a).value.Refused?
    {
      assert TxOk(cfg, st, t);
    }
  }

  // ---- Which steps touch the chunks ----

  ghost predicate OfFlush(act: Action) {
    || act.FlushBegin? || act.FlushTryLock? || act.FlushReadSeals? || act.FlushReadRows? || act.FlushInsert?
    || act.FlushCommit?
  }

  ghost predicate OfSeal(act: Action) {
    || act.SealBegin? || act.SealWant? || act.SealLock? || act.SealCheck? || act.SealMeasure? || act.SealEmpty?
    || act.SealMark? || act.SealCommit?
  }

  lemma FlushTouchesNothing(cfg: Config, st: State, act: Action)
    requires Enabled(cfg, st, act) && OfFlush(act) && !act.FlushCommit?
    ensures Apply(cfg, st, act).chunks == st.chunks && Apply(cfg, st, act).seals == st.seals
    ensures Apply(cfg, st, act).sealLog == st.sealLog
  {
  }

  lemma SealTouchesNothing(cfg: Config, st: State, act: Action)
    requires Enabled(cfg, st, act) && OfSeal(act) && !act.SealCommit?
    ensures Apply(cfg, st, act).chunks == st.chunks && Apply(cfg, st, act).seals == st.seals
    ensures Apply(cfg, st, act).sealLog == st.sealLog
  {
  }

  lemma RestTouchesNothing(cfg: Config, st: State, act: Action)
    requires Enabled(cfg, st, act) && !OfFlush(act) && !OfSeal(act)
    ensures !act.PurgeCommit? ==> Apply(cfg, st, act).sealLog == st.sealLog
    ensures !act.PurgeCommit? && !act.SweepChunks? ==> Apply(cfg, st, act).chunks == st.chunks
    ensures !act.PurgeCommit? && !act.SweepMarkers? && !act.MarkPurged? ==> Apply(cfg, st, act).seals == st.seals
  {
  }

  lemma ChunksUntouched(cfg: Config, st: State, act: Action)
    requires Enabled(cfg, st, act) && !act.FlushCommit? && !act.SealCommit? && !act.PurgeCommit? && !act.SweepChunks?
    ensures Apply(cfg, st, act).chunks == st.chunks
  {
    if OfFlush(act) {
      FlushTouchesNothing(cfg, st, act);
    } else if OfSeal(act) {
      SealTouchesNothing(cfg, st, act);
    } else {
      RestTouchesNothing(cfg, st, act);
    }
  }

  /** A row goes away by a seal or purge that holds its stream, or by a sweep, and then it was staged
      longer ago than the retention. */
  lemma RowLoss(cfg: Config, st: State, act: Action, a: Address)
    requires Inv(cfg, st) && Enabled(cfg, st, act) && a in st.chunks && a !in Apply(cfg, st, act).chunks
    ensures act.SealCommit? || act.PurgeCommit? || act.SweepChunks?
    ensures act.SweepChunks? ==> st.chunks[a].stagedAt < st.now - cfg.retention
    ensures !act.SweepChunks? ==> Holds(cfg, st, act.t, a.stream)
  {
    if act.SealCommit? || act.PurgeCommit? || act.SweepChunks? {
      assert TxOk(cfg, st, act.t);
    } else if !act.FlushCommit? {
      ChunksUntouched(cfg, st, act);
    }
  }

  /** The step puts a row where there was none. */
  ghost predicate Gains(cfg: Config, st: State, act: Action, a: Address)
    requires Enabled(cfg, st, act)
  {
    a !in st.chunks && a in Apply(cfg, st, act).chunks
  }

  /** A row appears only with the commit of a flush that holds its stream and judged it Durable. */
  lemma RowGain(cfg: Config, st: State, act: Action, a: Address)
    requires Inv(cfg, st) && Enabled(cfg, st, act)
    ensures Gains(cfg, st, act, a) ==>
              act.FlushCommit? && Holds(cfg, st, act.t, a.stream)
              && a in Inserts(st.txns[act.t].batch, st.txns[act.t].fpc.facts)
              && Apply(cfg, st, act).chunks[a].chunk == FirstChunk(st.txns[act.t].batch, a)
  {
    if act.FlushCommit? {
      assert TxOk(cfg, st, act.t);
      if Gains(cfg, st, act, a) {
        FlushRows(cfg, st, act.t, a);
      }
    } else if !act.SealCommit? && !act.PurgeCommit? && !act.SweepChunks? {
      ChunksUntouched(cfg, st, act);
    }
  }

  // ---- Verdicts ----

  /** A step of the run in which a sweep deletes the row, staged longer ago than the retention. */
  ghost predicate SweptAt(cfg: Config, run: seq<State>, k: int, a: Address)
    requires 0 <= k < |run| - 1
  {
    && a in run[k].chunks && a !in run[k + 1].chunks
    && run[k].chunks[a].stagedAt < run[k].now - cfg.retention
    && exists w :: Enabled(cfg, run[k], SweepChunks(w)) && run[k + 1] == Apply(cfg, run[k], SweepChunks(w))
  }

  ghost predicate HasFacts(st: State, t: TxId) {
    InFlush(st, t) && (st.txns[t].fpc.RowsRead? || st.txns[t].fpc.Inserted?)
  }

  /** The flush `t` looked its rows up at position `r` and still goes by that lookup at position `i`. */
  ghost predicate GoesBy(cfg: Config, run: seq<State>, r: nat, i: nat, t: TxId) {
    && r < i < |run| && Enabled(cfg, run[r], FlushReadRows(t)) && run[r + 1] == Apply(cfg, run[r], FlushReadRows(t))
    && forall m :: r < m <= i ==> SameFacts(run[r + 1], run[m], t)
  }

  ghost predicate SameFacts(st: State, st': State, t: TxId) {
    && HasFacts(st, t) && HasFacts(st', t)
    && st'.txns[t].batch == st.txns[t].batch && st'.txns[t].fpc.facts == st.txns[t].fpc.facts
  }

  /** A step may start a flush or advance the flush `act.t`; every other flush stays as it was. */
  lemma OtherFlushes(cfg: Config, st: State, act: Action, u: TxId)
    requires Enabled(cfg, st, act) && InFlush(Apply(cfg, st, act), u)
    ensures || (InFlush(st, u) && Apply(cfg, st, act).txns[u] == st.txns[u])
            || Apply(cfg, st, act).txns[u].fpc.Locking?
            || (act == FlushReadSeals(u) || act == FlushReadRows(u) || act == FlushInsert(u))
  {
  }

  lemma FactsFrom(cfg: Config, st: State, act: Action, t: TxId)
    requires Enabled(cfg, st, act) && HasFacts(Apply(cfg, st, act), t) && act != FlushReadRows(t)
    ensures SameFacts(st, Apply(cfg, st, act), t)
  {
    OtherFlushes(cfg, st, act, t);
  }

  lemma {:induction false} LookupOf(cfg: Config, run: seq<State>, i: nat, t: TxId) returns (r: nat)
    requires IsRun(cfg, run) && i < |run| && HasFacts(run[i], t)
    ensures GoesBy(cfg, run, r, i, t)
  {
    var act := ActionAt(cfg, run, i - 1);
    if act == FlushReadRows(t) {
      r := i - 1;
    } else {
      FactsFrom(cfg, run[i - 1], act, t);
      r := LookupOf(cfg, run, i - 1, t);
    }
  }

  /** While a flush holds a stream, only a sweep takes a row of it, and only an old one. */
  lemma HeldRowLostBySweep(cfg: Config, run: seq<State>, i: nat, t: TxId, a: Address)
    requires IsRun(cfg, run) && i + 1 < |run| && InFlush(run[i], t) && a.stream in run[i].txns[t].fpc.Held()
    requires a in run[i].chunks && a !in run[i + 1].chunks
    ensures SweptAt(cfg, run, i, a)
  {
    RunKeeps(cfg, run, i);
    assert TxOk(cfg, run[i], t);
    var act := ActionAt(cfg, run, i);
    RowLoss(cfg, run[i], act, a);
  }

  lemma HeldRowNotGained(cfg: Config, run: seq<State>, i: nat, t: TxId, a: Address)
    requires IsRun(cfg, run) && i + 1 < |run| && InFlush(run[i], t) && InFlush(run[i + 1], t)
    requires a.stream in run[i].txns[t].fpc.Held() && a !in run[i].chunks
    ensures a !in run[i + 1].chunks
  {
    RunKeeps(cfg, run, i);
    assert TxOk(cfg, run[i], t);
    var act := ActionAt(cfg, run, i);
    if a in run[i + 1].chunks {
      RowGain(cfg, run[i], act, a);
    }
  }

  /** Once a row of a held stream is gone, it stays gone while the flush goes by its lookup. */
  lemma {:induction false} GoneStaysGone(cfg: Config, run: seq<State>, r: nat, m: nat, i: nat, t: TxId, a: Address)
    requires IsRun(cfg, run) && GoesBy(cfg, run, r, i, t) && r < m <= i
    requires a !in run[m].chunks && a.stream in run[i].txns[t].fpc.facts.held
    ensures a !in run[i].chunks
  {
    if m < i {
      assert SameFacts(run[r + 1], run[i - 1], t) && SameFacts(run[r + 1], run[i], t);
      GoneStaysGone(cfg, run, r, m, i - 1, t, a);
      HeldRowNotGained(cfg, run, i - 1, t, a);
    }
  }

  /** A row that is there at `i` was never swept since the lookup. */
  lemma PresentNotSwept(cfg: Config, run: seq<State>, r: nat, i: nat, t: TxId, a: Address)
    requires IsRun(cfg, run) && GoesBy(cfg, run, r, i, t) && a.stream in run[i].txns[t].fpc.facts.held
    ensures a in run[i].chunks ==> !SweptBetween(cfg, run, r, i, a)
  {
    if SweptBetween(cfg, run, r, i, a) {
      var k :| r < k < i && SweptAt(cfg, run, k, a);
      GoneStaysGone(cfg, run, r, k + 1, i, t, a);
    }
  }

  lemma RowStands(cfg: Config, run: seq<State>, i: nat, a: Address)
    requires IsRun(cfg, run) && i + 1 < |run| && a in run[i].chunks && a in run[i + 1].chunks
    ensures run[i + 1].chunks[a] == run[i].chunks[a]
  {
    RunKeeps(cfg, run, i);
    var act := ActionAt(cfg, run, i);
    FirstValueStands(cfg, run[i], act, a);
  }

  /** Since the lookup the row stands as it was, up to `i` or up to the sweep at `k`. */
  lemma {:induction false} StandsUntil(cfg: Config, run: seq<State>, r: nat, i: nat, t: TxId, a: Address)
    returns (k: nat)
    requires IsRun(cfg, run) && GoesBy(cfg, run, r, i, t)
    requires a in run[r].chunks && a.stream in run[i].txns[t].fpc.facts.held
    ensures r < k <= i && a in run[k].chunks && run[k].chunks[a] == run[r].chunks[a]
    ensures k < i ==> SweptAt(cfg, run, k, a)
  {
    if r + 1 == i {
      k := i;
    } else {
      assert SameFacts(run[r + 1], run[i - 1], t) && SameFacts(run[r + 1], run[i], t);
      k := StandsUntil(cfg, run, r, i - 1, t, a);
      if k == i - 1 && a in run[i].chunks {
        RowStands(cfg, run, i - 1, a);
        k := i;
      } else if k == i - 1 {
        HeldRowLostBySweep(cfg, run, i - 1, t, a);
      }
    }
  }

  /** A sweep takes the row after the flush looked it up at `r` and before it commits at `i`. */
  ghost predicate SweptBetween(cfg: Config, run: seq<State>, r: nat, i: nat, a: Address)
    requires i < |run|
  {
    exists k :: r < k < i && SweptAt(cfg, run, k, a)
  }

  /** What an answer says about the store the commit leaves. A Durable answer is true exactly when no
      sweep took the row between the flush's lookup and its commit. */
  lemma VerdictsTellTheTruth(cfg: Config, run: seq<State>, i: nat, t: TxId, k: nat) returns (r: nat)
    requires IsRun(cfg, run) && i < |run|
    requires Enabled(cfg, run[i], FlushCommit(t)) && k < |run[i].txns[t].batch|
    ensures GoesBy(cfg, run, r, i, t)
    ensures var f := run[i].txns[t];
            var a := f.batch[k].At();
            var after := Apply(cfg, run[i], FlushCommit(t)).chunks;
            match Judge(f.batch, f.fpc.facts, a)
            case None => a.stream !in f.fpc.facts.held
            case Some(Durable) =>
              if SweptBetween(cfg, run, r, i, a) then a !in after
              else a in after && after[a].chunk == f.batch[k].chunk
            case Some(Refused(hw)) => a.stream in f.fpc.facts.sealed && hw == Max(f.fpc.facts.sealed[a.stream], 0)
            case Some(Conflict) =>
              || (exists j :: 0 <= j < |f.batch| && f.batch[j].At() == a && f.batch[j].chunk != f.batch[k].chunk)
              || (a in f.fpc.facts.existing && f.fpc.facts.existing[a] != f.batch[k].chunk)
            case Some(Unmapped) => false
  {
    r := LookupOf(cfg, run, i, t);
    var f := run[i].txns[t];
    var a := f.batch[k].At();
    if Judge(f.batch, f.fpc.facts, a) == Some(Durable) {
      DurableIsTrueUnlessSwept(cfg, run, r, i, t, k);
    } else if Judge(f.batch, f.fpc.facts, a) == Some(Conflict) {
      ConflictHasAnother(f.batch, f.fpc.facts, k);
    }
  }

  lemma ConflictHasAnother(batch: seq<Pending>, facts: Facts, k: nat)
    requires k < |batch| && Judge(batch, facts, batch[k].At()) == Some(Conflict)
    ensures var a := batch[k].At();
            || (exists j :: 0 <= j < |batch| && batch[j].At() == a && batch[j].chunk != batch[k].chunk)
            || (a in facts.existing && facts.existing[a] != batch[k].chunk)
  {
    var a := batch[k].At();
    if Diverged(batch, a) {
      var m, n :| 0 <= m < |batch| && 0 <= n < |batch|
                  && batch[m].At() == a && batch[n].At() == a && batch[m].chunk != batch[n].chunk;
      assert batch[m].chunk != batch[k].chunk || batch[n].chunk != batch[k].chunk;
    } else {
      OneChunkUnlessDiverged(batch, k);
    }
  }

  lemma NotSweptIfAbsent(cfg: Config, run: seq<State>, r: nat, i: nat, t: TxId, a: Address)
    requires IsRun(cfg, run) && GoesBy(cfg, run, r, i, t)
    requires a !in run[r].chunks && a.stream in run[i].txns[t].fpc.facts.held
    ensures !SweptBetween(cfg, run, r, i, a)
  {
    forall k | r < k < i ensures !SweptAt(cfg, run, k, a) {
      assert SameFacts(run[r + 1], run[k], t) && SameFacts(run[r + 1], run[i], t);
      GoneStaysGone(cfg, run, r, r + 1, k, t, a);
    }
  }

  lemma DurableIsTrueUnlessSwept(cfg: Config, run: seq<State>, r: nat, i: nat, t: TxId, k: nat)
    requires IsRun(cfg, run) && GoesBy(cfg, run, r, i, t)
    requires Enabled(cfg, run[i], FlushCommit(t)) && k < |run[i].txns[t].batch|
    requires Judge(run[i].txns[t].batch, run[i].txns[t].fpc.facts, run[i].txns[t].batch[k].At()) == Some(Durable)
    ensures var a := run[i].txns[t].batch[k].At();
            var after := Apply(cfg, run[i], FlushCommit(t)).chunks;
            if SweptBetween(cfg, run, r, i, a) then a !in after
            else a in after && after[a].chunk == run[i].txns[t].batch[k].chunk
  {
    var a := run[i].txns[t].batch[k].At();
    RunKeeps(cfg, run, i);
    CommitLeaves(cfg, run[i], t, k);
    FoundAtLookup(cfg, run, r, i, t, a);
    KeptIffNotSwept(cfg, run, r, i, t, a);
  }

  /** A row found at the lookup is still there exactly when no sweep took it; one not found is not swept. */
  lemma KeptIffNotSwept(cfg: Config, run: seq<State>, r: nat, i: nat, t: TxId, a: Address)
    requires IsRun(cfg, run) && GoesBy(cfg, run, r, i, t) && a.stream in run[i].txns[t].fpc.facts.held
    ensures a in run[r].chunks ==> (a in run[i].chunks <==> !SweptBetween(cfg, run, r, i, a))
    ensures a !in run[r].chunks ==> a !in run[i].chunks && !SweptBetween(cfg, run, r, i, a)
  {
    PresentNotSwept(cfg, run, r, i, t, a);
    if a in run[r].chunks {
      var m := StandsUntil(cfg, run, r, i, t, a);
    } else {
      NotSweptIfAbsent(cfg, run, r, i, t, a);
      GoneStaysGone(cfg, run, r, r + 1, i, t, a);
    }
  }

  /** The lookup found what was stored when it was made. */
  lemma FoundAtLookup(cfg: Config, run: seq<State>, r: nat, i: nat, t: TxId, a: Address)
    requires GoesBy(cfg, run, r, i, t) && a in Addresses(run[i].txns[t].batch)
             && a.stream in run[i].txns[t].fpc.facts.held
    ensures a in run[i].txns[t].fpc.facts.existing <==> a in run[r].chunks
  {
    assert SameFacts(run[r + 1], run[i], t);
  }

  /** A commit leaves a Durable chunk in the store unless it found the row and the row is gone. */
  lemma CommitLeaves(cfg: Config, st: State, t: TxId, k: nat)
    requires Inv(cfg, st) && Enabled(cfg, st, FlushCommit(t)) && k < |st.txns[t].batch|
    requires Judge(st.txns[t].batch, st.txns[t].fpc.facts, st.txns[t].batch[k].At()) == Some(Durable)
    ensures var f := st.txns[t];
            var a := f.batch[k].At();
            var after := Apply(cfg, st, FlushCommit(t)).chunks;
            && (a in after <==> a in st.chunks || a !in f.fpc.facts.existing)
            && (a in after ==> after[a].chunk == f.batch[k].chunk)
  {
    var f := st.txns[t];
    var a := f.batch[k].At();
    assert TxOk(cfg, st, t);
    OneChunkUnlessDiverged(f.batch, k);
    if a !in f.fpc.facts.existing {
      assert a in Inserts(f.batch, f.fpc.facts);
    }
  }

  lemma ClockRises(cfg: Config, run: seq<State>, i: nat, j: nat)
    requires IsRun(cfg, run) && i <= j < |run|
    ensures run[i].now <= run[j].now
    decreases j - i
  {
    if i < j {
      ClockRises(cfg, run, i, j - 1);
      var act := ActionAt(cfg, run, j - 1);
      NowRises(cfg, run[j - 1], act);
    }
  }

  lemma NowRises(cfg: Config, st: State, act: Action)
    requires Enabled(cfg, st, act)
    ensures st.now <= Apply(cfg, st, act).now
  {
  }

  /** A Durable answer is true whenever the row the flush found, if it found one, is younger than the
      retention at the commit. */
  lemma DurableWithinRetention(cfg: Config, run: seq<State>, r: nat, i: nat, t: TxId, k: nat)
    requires IsRun(cfg, run) && GoesBy(cfg, run, r, i, t)
    requires Enabled(cfg, run[i], FlushCommit(t)) && k < |run[i].txns[t].batch|
    requires Judge(run[i].txns[t].batch, run[i].txns[t].fpc.facts, run[i].txns[t].batch[k].At()) == Some(Durable)
    requires var a := run[i].txns[t].batch[k].At();
             a in run[r].chunks ==> run[r].chunks[a].stagedAt >= run[i].now - cfg.retention
    ensures var a := run[i].txns[t].batch[k].At();
            var after := Apply(cfg, run[i], FlushCommit(t)).chunks;
            a in after && after[a].chunk == run[i].txns[t].batch[k].chunk
  {
    var a := run[i].txns[t].batch[k].At();
    DurableIsTrueUnlessSwept(cfg, run, r, i, t, k);
    assert SameFacts(run[r + 1], run[i], t);
    if a in run[r].chunks {
      var m := StandsUntil(cfg, run, r, i, t, a);
      ClockRises(cfg, run, m, i);
      PresentNotSwept(cfg, run, r, i, t, a);
    } else {
      NotSweptIfAbsent(cfg, run, r, i, t, a);
    }
  }

  /** From every state with a Durable answer pending on an abandoned stream, a sweep leads to a false one. */
  lemma SweepOutrunsDurable(cfg: Config, st: State, t: TxId, w: TxId, a: Address) returns (swept: State)
    requires InFlush(st, t) && st.txns[t].fpc.Inserted? && w !in st.txns
    requires a in Addresses(st.txns[t].batch) && a in st.chunks && a !in st.txns[t].fpc.rows
    requires Judge(st.txns[t].batch, st.txns[t].fpc.facts, a) == Some(Durable)
    requires Abandoned(st, Cutoff(cfg, st.now), a.stream)
    ensures exists st1, st2 :: Step(cfg, st, st1) && Step(cfg, st1, st2) && Step(cfg, st2, swept)
    ensures swept.txns == st.txns && Enabled(cfg, swept, FlushCommit(t))
    ensures a !in Apply(cfg, swept, FlushCommit(t)).chunks
  {
    var st1, st2 := SweepSnapshotTaken(cfg, st, w);
    assert Abandoned(st1, st1.txns[w].cutoff, a.stream);
    swept := Apply(cfg, st2, SweepChunks(w));
    assert Step(cfg, st2, swept);
    assert swept.txns == st.txns;
  }

  lemma SweepSnapshotTaken(cfg: Config, st: State, w: TxId) returns (st1: State, st2: State)
    requires w !in st.txns
    ensures Step(cfg, st, st1) && Step(cfg, st1, st2)
    ensures st1 == With(st, w, Sweep(Cutoff(cfg, st.now), None))
    ensures InSweep(st2, w) && st2.txns[w].doomed.Some? && st2 == With(st1, w, st2.txns[w])
    ensures forall a :: a in st2.txns[w].doomed.value <==>
              a in st.chunks && Abandoned(st1, Cutoff(cfg, st.now), a.stream)
    ensures forall a :: a in st2.txns[w].doomed.value ==> st2.txns[w].doomed.value[a] == st.chunks[a]
  {
    st1 := Apply(cfg, st, SweepBegin(w));
    assert Enabled(cfg, st1, SweepSnapshot(w));
    st2 := Apply(cfg, st1, SweepSnapshot(w));
    assert Step(cfg, st, st1);
    assert Step(cfg, st1, st2);
  }

  // ---- Values ----

  /** No step changes a committed row in place: it stays as first committed until it is deleted. */
  lemma FirstValueStands(cfg: Config, st: State, act: Action, a: Address)
    requires Inv(cfg, st) && Enabled(cfg, st, act)
    requires a in st.chunks && a in Apply(cfg, st, act).chunks
    ensures Apply(cfg, st, act).chunks[a] == st.chunks[a]
  {
    if !act.FlushCommit? && !act.SealCommit? && !act.PurgeCommit? && !act.SweepChunks? {
      ChunksUntouched(cfg, st, act);
    }
  }

  /** No row of the stream disappears between two positions of the run. */
  ghost predicate NoDelete(run: seq<State>, i: nat, j: nat, s: Stream)
    requires i <= j < |run|
  {
    forall k :: i <= k < j ==> KeepsRows(run[k], run[k + 1], s)
  }

  ghost predicate KeepsRows(st: State, st': State, s: Stream) {
    forall a :: a in st.chunks && a.stream == s ==> a in st'.chunks
  }

  lemma {:induction false} RowSurvives(cfg: Config, run: seq<State>, i: nat, j: nat, a: Address)
    requires IsRun(cfg, run) && i <= j < |run|
    requires NoDelete(run, i, j, a.stream) && a in run[i].chunks
    ensures a in run[j].chunks && run[j].chunks[a] == run[i].chunks[a]
  {
    if i < j {
      RowSurvives(cfg, run, i, j - 1, a);
      RunKeeps(cfg, run, j - 1);
      assert KeepsRows(run[j - 1], run[j - 1 + 1], a.stream);
      var act := ActionAt(cfg, run, j - 1);
      FirstValueStands(cfg, run[j - 1], act, a);
    }
  }

  // ---- A verified seal drops nothing ----

  /** What `replay_verified(last)` demands of the table before it returns the chunks it hashed. */
  ghost predicate Replays(chunks: map<Address, Row>, s: Stream, last: ChunkSeq, values: seq<Value>) {
    && |values| == last + 1
    && forall n: ChunkSeq :: n <= last ==> Address(s, n) in chunks && chunks[Address(s, n)].chunk == values[n]
  }

  /** The rows the sealing commit removes are the verified chunks and no others. */
  lemma VerifiedSealDropsNothing(cfg: Config, run: seq<State>, i: nat, k: nat, t: TxId, s: Stream,
                                 last: ChunkSeq, values: seq<Value>)
    requires IsRun(cfg, run) && i <= k < |run|
    requires Replays(run[i].chunks, s, last, values) && NoDelete(run, i, k, s)
    requires Enabled(cfg, run[k], SealCommit(t))
    requires s in run[k].txns[t].declared && run[k].txns[t].declared[s] == last
    ensures forall a: Address :: a.stream == s ==> (a in run[k].chunks <==> a.number <= last)
    ensures forall a: Address :: a.stream == s && a in run[k].chunks ==> run[k].chunks[a].chunk == values[a.number]
    ensures var after := Apply(cfg, run[k], SealCommit(t));
            && (forall a :: a in after.chunks ==> a.stream != s)
            && s in after.seals && after.seals[s].highWater == SaturatingSucc(last)
  {
    var st := run[k];
    RunKeeps(cfg, run, k);
    assert TxOk(cfg, st, t);
    forall a: Address | a.stream == s && a.number <= last
      ensures a in st.chunks && st.chunks[a].chunk == values[a.number]
    {
      assert a == Address(s, a.number);
      RowSurvives(cfg, run, i, k, a);
    }
  }

  /** A row stored since the stream last lost rows is in the sealed values. */
  lemma SealKeepsEveryRow(cfg: Config, run: seq<State>, i: nat, m: nat, k: nat, t: TxId, a: Address,
                          last: ChunkSeq, values: seq<Value>)
    requires IsRun(cfg, run) && i <= k && m <= k < |run|
    requires Replays(run[i].chunks, a.stream, last, values)
    requires NoDelete(run, i, k, a.stream) && NoDelete(run, m, k, a.stream)
    requires Enabled(cfg, run[k], SealCommit(t))
    requires a.stream in run[k].txns[t].declared && run[k].txns[t].declared[a.stream] == last
    requires a in run[m].chunks
    ensures a.number <= last && values[a.number] == run[m].chunks[a].chunk
  {
    RowSurvives(cfg, run, m, k, a);
    VerifiedSealDropsNothing(cfg, run, i, k, t, a.stream, last, values);
  }

  /** No sweep took a row of a stream that lost none. */
  lemma NotSweptWithoutDelete(cfg: Config, run: seq<State>, m: nat, k: nat, r: nat, q: nat, a: Address)
    requires m <= r < q <= k < |run| && NoDelete(run, m, k, a.stream)
    ensures !SweptBetween(cfg, run, r, q, a)
  {
    forall j | r < j < q ensures !SweptAt(cfg, run, j, a) {
      assert KeepsRows(run[j], run[j + 1], a.stream);
    }
  }

  /** A chunk answered Durable by a flush that looked up and committed since the stream last lost rows is in
      the sealed state, with its value. The seal commits at `k`, the flush looked up at `r` and commits
      at `q`. */
  lemma SealKeepsEveryDurableChunk(cfg: Config, run: seq<State>, i: nat, m: nat, r: nat, q: nat, k: nat, t: TxId,
                                   u: TxId, n: nat, last: ChunkSeq, values: seq<Value>)
    requires IsRun(cfg, run) && i <= k && m <= r < q < k < |run| && GoesBy(cfg, run, r, q, u)
    requires Enabled(cfg, run[q], FlushCommit(u)) && run[q + 1] == Apply(cfg, run[q], FlushCommit(u))
    requires n < |run[q].txns[u].batch|
    requires Judge(run[q].txns[u].batch, run[q].txns[u].fpc.facts, run[q].txns[u].batch[n].At()) == Some(Durable)
    requires var s := run[q].txns[u].batch[n].stream;
             && Replays(run[i].chunks, s, last, values) && NoDelete(run, i, k, s) && NoDelete(run, m, k, s)
             && Enabled(cfg, run[k], SealCommit(t))
             && s in run[k].txns[t].declared && run[k].txns[t].declared[s] == last
    ensures var p := run[q].txns[u].batch[n]; p.number <= last && values[p.number] == p.chunk
  {
    var a := run[q].txns[u].batch[n].At();
    DurableIsTrueUnlessSwept(cfg, run, r, q, u, n);
    NotSweptWithoutDelete(cfg, run, m, k, r, q, a);
    NoDeleteFrom(run, m, q + 1, k, a.stream);
    SealKeepsEveryRow(cfg, run, i, q + 1, k, t, a, last, values);
  }

  lemma NoDeleteFrom(run: seq<State>, m: nat, n: nat, k: nat, s: Stream)
    requires m <= n <= k < |run| && NoDelete(run, m, k, s)
    ensures NoDelete(run, n, k, s)
  {
    forall j | n <= j < k ensures KeepsRows(run[j], run[j + 1], s) {}
  }

  // ---- Markers ----

  /** While a marker stands its high water never falls and its instant never moves; only a sweep
      removes it. */
  lemma MarkerOnlyRises(cfg: Config, st: State, act: Action, s: Stream)
    requires Inv(cfg, st) && Enabled(cfg, st, act) && s in st.seals
    ensures var st' := Apply(cfg, st, act);
            if s in st'.seals then
              st'.seals[s].highWater >= st.seals[s].highWater && st'.seals[s].sealedAt == st.seals[s].sealedAt
            else
              act.SweepMarkers? && st.seals[s].sealedAt < st.now - cfg.retention
  {
    if act.SealCommit? || act.PurgeCommit? || act.SweepMarkers? {
      assert TxOk(cfg, st, act.t);
    } else if !act.MarkPurged? {
      MarkersUntouched(cfg, st, act);
    }
  }

  /** Over any stretch of a run through which the marker stands. */
  lemma {:induction false} StandingMarkerOnlyRises(cfg: Config, run: seq<State>, i: nat, j: nat, s: Stream)
    requires IsRun(cfg, run) && i <= j < |run|
    requires forall k :: i <= k <= j ==> s in run[k].seals
    ensures run[j].seals[s].highWater >= run[i].seals[s].highWater
    ensures run[j].seals[s].sealedAt == run[i].seals[s].sealedAt
  {
    if i < j {
      StandingMarkerOnlyRises(cfg, run, i, j - 1, s);
      RunKeeps(cfg, run, j - 1);
      var act := ActionAt(cfg, run, j - 1);
      MarkerOnlyRises(cfg, run[j - 1], act, s);
    }
  }

  /** A seal goes on past its check exactly when no marker stands on the stream, committed or its own. */
  lemma CheckedExactly(cfg: Config, st: State, t: TxId)
    requires Enabled(cfg, st, SealCheck(t))
    ensures var pc, pc' := st.txns[t].spc, Apply(cfg, st, SealCheck(t)).txns[t].spc;
            && (pc' == Unsealed(pc.s, pc.mode, pc.at) <==> pc.s !in st.seals && pc.s !in st.txns[t].marks)
            && (pc'.Unsealed? || pc'.Idle?)
  {
  }

  /** `seal_upto` goes on past its measuring exactly when no row of the stream lies beyond the declared last
      sequence; a deadline seal always does. */
  lemma MeasuredExactly(cfg: Config, st: State, t: TxId)
    requires Enabled(cfg, st, SealMeasure(t))
    ensures var pc, pc' := st.txns[t].spc, Apply(cfg, st, SealMeasure(t)).txns[t].spc;
            && (pc'.Measured? || pc'.Idle?)
            && (pc.mode.Current? ==> pc'.Measured?)
            && (pc.mode.UpTo? ==>
                  (pc'.Measured? <==> forall a :: a in st.chunks && a.stream == pc.s ==> a.number <= pc.mode.last))
            && (pc'.Measured? ==> pc'.s == pc.s && pc'.mode == pc.mode && MeasuresAs(st, t, pc.s, pc'.highWater))
  {
    var pc := st.txns[t].spc;
    var max := MaxNumber(st.chunks, pc.s);
    if max.None? {
      forall a | a in st.chunks ensures a.stream != pc.s {
        assert a in RowsOf(st.chunks, pc.s) <==> a.stream == pc.s;
      }
    } else {
      var a :| a in st.chunks && a.stream == pc.s && a.number == max.value;
    }
  }

  /** A purge goes on past its upsert exactly when no row of its stream is at the greatest sequence. */
  lemma UpsertsExactly(cfg: Config, st: State, t: TxId)
    requires InPurge(st, t) && st.txns[t].ppc.PurgeHolds?
    ensures Enabled(cfg, st, PurgeUpsert(t)) <==> Address(st.txns[t].stream, I64_MAX) !in st.chunks
  {
    var s := st.txns[t].stream;
    var max := MaxNumber(st.chunks, s);
    if max == Some(I64_MAX) {
      var a :| a in st.chunks && a.stream == s && a.number == I64_MAX;
      assert a == Address(s, I64_MAX);
    }
    if Address(s, I64_MAX) in st.chunks {
      assert Address(s, I64_MAX) in RowsOf(st.chunks, s);
    }
  }

  // ---- What a sweep takes ----

  /** The cutoff is the retention before now to within a microsecond, and the least instant when the
      calendar does not reach that far. */
  lemma CutoffIsRetentionBefore(cfg: Config, now: int)
    ensures var at := now - cfg.retention;
            if cfg.minTime <= at then at - 1000 < Cutoff(cfg, now) <= at else Cutoff(cfg, now) == cfg.minTime
  {
  }

  /** A sweep goes by the cutoff of its own begin, may take a marker exactly when that is older than the
      cutoff and no purge holds it, and deletes exactly the rows it finds on streams with no younger row. */
  lemma SweepTakesExactly(cfg: Config, st: State, t: TxId)
    ensures t !in st.txns ==> Enabled(cfg, st, SweepBegin(t))
    ensures t !in st.txns ==> Apply(cfg, st, SweepBegin(t)).txns[t] == Sweep(Cutoff(cfg, st.now), None)
    ensures InSweep(st, t) ==>
              forall s :: Enabled(cfg, st, SweepMarkers(t, {s})) <==>
                          s in st.seals && st.seals[s].sealedAt < st.txns[t].cutoff && !RowLocked(st, s)
    ensures InSweep(st, t) && st.txns[t].doomed.None? ==>
              Enabled(cfg, st, SweepSnapshot(t)) && Apply(cfg, st, SweepSnapshot(t)).txns[t].doomed.Some?
  {
  }

  lemma SweepDooms(cfg: Config, st: State, t: TxId, a: Address)
    requires Enabled(cfg, st, SweepSnapshot(t))
    ensures Apply(cfg, st, SweepSnapshot(t)).txns[t].doomed.Some?
    ensures var doomed := Apply(cfg, st, SweepSnapshot(t)).txns[t].doomed.value;
            && (a in doomed <==> a in st.chunks
                                 && forall b :: b in st.chunks && b.stream == a.stream ==>
                                      st.chunks[b].stagedAt < st.txns[t].cutoff)
            && (a in doomed ==> doomed[a] == st.chunks[a])
  {
  }

  /** The delete spares what changed since the sweep looked. */
  lemma SweepDeletes(cfg: Config, st: State, t: TxId, a: Address)
    requires Enabled(cfg, st, SweepChunks(t))
    ensures var doomed, after := st.txns[t].doomed.value, Apply(cfg, st, SweepChunks(t)).chunks;
            && (a in after <==> a in st.chunks && !(a in doomed && doomed[a] == st.chunks[a]))
            && (a in after ==> after[a] == st.chunks[a])
  {
  }

  /** Marking a seal purged flags that marker and changes nothing else. */
  lemma MarkPurgedExactly(cfg: Config, st: State, s: Stream)
    requires Enabled(cfg, st, MarkPurged(s))
    ensures var st' := Apply(cfg, st, MarkPurged(s));
            && st'.chunks == st.chunks && st'.txns == st.txns && st'.locks == st.locks
            && st'.seals.Keys == st.seals.Keys
            && st'.seals[s] == Marker(st.seals[s].highWater, st.seals[s].sealedAt, true)
            && forall u :: u in st.seals && u != s ==> st'.seals[u] == st.seals[u]
  {
  }

  // ---- Where a marker's high water comes from ----

  /** A transaction is about to mark, or has marked, the stream with that high water. */
  ghost predicate Carries(st: State, t: TxId, s: Stream, high: int) {
    && InPipeline(st, t)
    && var p := st.txns[t];
       || (s in p.marks && p.marks[s].highWater == high)
       || ((p.spc.Measured? || p.spc.Emptied?) && p.spc.s == s && p.spc.highWater == high)
  }

  /** What a seal measures on the stream: up to a declared last sequence beyond which there is no row, or one
      past the last row. */
  ghost predicate MeasuresAs(st: State, t: TxId, s: Stream, high: int) {
    && InPipeline(st, t) && st.txns[t].spc.Unsealed? && st.txns[t].spc.s == s
    && var max := MaxNumber(st.chunks, s);
       match st.txns[t].spc.mode
       case UpTo(last) => high == SaturatingSucc(last) && (max.Some? ==> max.value <= last)
       case Current => high == if max.None? then 0 else WrappingSucc(max.value)
  }

  lemma CarryStep(cfg: Config, st: State, act: Action, t: TxId, s: Stream, high: int)
    requires Enabled(cfg, st, act) && Carries(Apply(cfg, st, act), t, s, high)
    ensures Carries(st, t, s, high) || (act == SealMeasure(t) && MeasuresAs(st, t, s, high))
  {
    if act == SealMeasure(t) {
      MeasureCarries(cfg, st, t, s, high);
    } else if OfSeal(act) {
      SealStepCarries(cfg, st, act, t, s, high);
    } else {
      OtherPipelines(cfg, st, act, t);
    }
  }

  lemma MeasureCarries(cfg: Config, st: State, t: TxId, s: Stream, high: int)
    requires Enabled(cfg, st, SealMeasure(t)) && Carries(Apply(cfg, st, SealMeasure(t)), t, s, high)
    ensures Carries(st, t, s, high) || MeasuresAs(st, t, s, high)
  {
  }

  /** No step but the measuring one makes up a high water. */
  lemma SealStepCarries(cfg: Config, st: State, act: Action, t: TxId, s: Stream, high: int)
    requires Enabled(cfg, st, act) && OfSeal(act) && act != SealMeasure(t) && Carries(Apply(cfg, st, act), t, s, high)
    ensures Carries(st, t, s, high)
  {
  }

  lemma OtherPipelines(cfg: Config, st: State, act: Action, t: TxId)
    requires Enabled(cfg, st, act) && !OfSeal(act) && InPipeline(Apply(cfg, st, act), t)
    ensures InPipeline(st, t) && Apply(cfg, st, act).txns[t] == st.txns[t]
  {
  }

  /** The seal `t` measured the stream at `j` and has carried the high water up to `i`. */
  ghost predicate MeasuredAt(cfg: Config, run: seq<State>, j: nat, i: nat, t: TxId, s: Stream, high: int) {
    && j < i < |run| && Enabled(cfg, run[j], SealMeasure(t)) && MeasuresAs(run[j], t, s, high)
    && run[j + 1] == Apply(cfg, run[j], SealMeasure(t))
    && forall m :: j < m <= i ==> Carries(run[m], t, s, high)
  }

  lemma {:induction false} MeasuredFrom(cfg: Config, run: seq<State>, i: nat, t: TxId, s: Stream, high: int)
    returns (j: nat)
    requires IsRun(cfg, run) && i < |run| && Carries(run[i], t, s, high)
    ensures MeasuredAt(cfg, run, j, i, t, s, high)
  {
    var act := ActionAt(cfg, run, i - 1);
    CarryStep(cfg, run[i - 1], act, t, s, high);
    if Carries(run[i - 1], t, s, high) {
      j := MeasuredFrom(cfg, run, i - 1, t, s, high);
    } else {
      j := i - 1;
    }
  }

  /** A deadline seal of the stream measures it while a row stands at the greatest sequence. */
  ghost predicate MeasuresGreatest(st: State, t: TxId, s: Stream) {
    && InPipeline(st, t) && st.txns[t].spc.Unsealed? && st.txns[t].spc.s == s && st.txns[t].spc.mode.Current?
    && Address(s, I64_MAX) in st.chunks
  }

  lemma WrapMeasured(st: State, t: TxId, s: Stream)
    requires MeasuresAs(st, t, s, I64_MIN)
    ensures MeasuresGreatest(st, t, s)
  {
    var max := MaxNumber(st.chunks, s);
    var a :| a in st.chunks && a.stream == s && a.number == max.value;
    assert a == Address(s, I64_MAX);
  }

  lemma CarrierHolds(cfg: Config, run: seq<State>, i: nat, t: TxId, s: Stream, high: int)
    requires IsRun(cfg, run) && i < |run| && Carries(run[i], t, s, high)
    ensures Holds(cfg, run[i], t, s)
  {
    RunKeeps(cfg, run, i);
    assert TxOk(cfg, run[i], t);
  }

  /** A row of a stream that a seal holds is not gained while it does. */
  lemma SealedRowNotGained(cfg: Config, run: seq<State>, i: nat, t: TxId, high: int, a: Address)
    requires IsRun(cfg, run) && i + 1 < |run| && Carries(run[i], t, a.stream, high) && a in run[i + 1].chunks
    ensures a in run[i].chunks && run[i].chunks[a] == run[i + 1].chunks[a]
  {
    CarrierHolds(cfg, run, i, t, a.stream, high);
    RunKeeps(cfg, run, i);
    var act := ActionAt(cfg, run, i);
    RowGain(cfg, run[i], act, a);
    if a in run[i].chunks {
      RowStands(cfg, run, i, a);
    }
  }

  /** Whatever rows of the stream are left when a seal has measured it were there, as they are, when it did. */
  lemma {:induction false} LeftWasMeasured(cfg: Config, run: seq<State>, j: nat, i: nat, t: TxId, high: int, a: Address)
    requires IsRun(cfg, run) && MeasuredAt(cfg, run, j, i, t, a.stream, high) && a in run[i].chunks
    ensures a in run[j].chunks && run[j].chunks[a] == run[i].chunks[a]
  {
    if j + 1 < i {
      SealedRowNotGained(cfg, run, i - 1, t, high, a);
      LeftWasMeasured(cfg, run, j, i - 1, t, high, a);
    }
  }

  lemma CommitCovers(cfg: Config, st: State, t: TxId, a: Address)
    requires Inv(cfg, st) && Enabled(cfg, st, SealCommit(t)) && a in st.chunks && a.stream in st.txns[t].marks
    ensures a !in Apply(cfg, st, SealCommit(t)).chunks && a.stream in Apply(cfg, st, SealCommit(t)).seals
    ensures var high := Apply(cfg, st, SealCommit(t)).seals[a.stream].highWater;
            && high == st.txns[t].marks[a.stream].highWater
            && (a.number < high || (a.number == high && high == I64_MAX) || high == I64_MIN)
            && (a.stream in st.txns[t].declared ==>
                  high == SaturatingSucc(st.txns[t].declared[a.stream]) && (a.number < high || a.number == I64_MAX))
  {
    assert TxOk(cfg, st, t);
  }

  /** When a seal commits, its high water lies above every row it removes; only at the greatest sequence
      does `seal_upto` fall level with the row, and a deadline seal wrap to the least number when it
      measured the stream with a row at the greatest sequence. */
  lemma SealedHighWaterCovers(cfg: Config, run: seq<State>, i: nat, t: TxId, a: Address)
    requires IsRun(cfg, run) && i < |run| && Enabled(cfg, run[i], SealCommit(t))
    requires a in run[i].chunks && a.stream in run[i].txns[t].marks
    ensures a !in Apply(cfg, run[i], SealCommit(t)).chunks && a.stream in Apply(cfg, run[i], SealCommit(t)).seals
    ensures var high := Apply(cfg, run[i], SealCommit(t)).seals[a.stream].highWater;
            && (|| a.number < high || (a.number == high && high == I64_MAX)
                || (high == I64_MIN && exists j :: 0 <= j < i && MeasuresGreatest(run[j], t, a.stream)))
            && (a.stream in run[i].txns[t].declared ==>
                  high == SaturatingSucc(run[i].txns[t].declared[a.stream]) && (a.number < high || a.number == I64_MAX))
  {
    RunKeeps(cfg, run, i);
    CommitCovers(cfg, run[i], t, a);
    var high := run[i].txns[t].marks[a.stream].highWater;
    var j := MeasuredFrom(cfg, run, i, t, a.stream, high);
    if high == I64_MIN {
      WrapMeasured(run[j], t, a.stream);
    }
  }

  /** A purge of a stream whose marker stands, an erasure done again among them, removes no row, lifts the
      high water at most to zero and keeps the marker's instant. */
  lemma PurgeAgainChangesNothing(cfg: Config, run: seq<State>, i: nat, t: TxId)
    requires IsRun(cfg, run) && i < |run| && Enabled(cfg, run[i], PurgeCommit(t))
    requires run[i].txns[t].stream in run[i].seals
    ensures var st, st', s := run[i], Apply(cfg, run[i], PurgeCommit(t)), run[i].txns[t].stream;
            && st'.chunks == st.chunks
            && st'.seals == st.seals[s := Marker(Max(0, st.seals[s].highWater), st.seals[s].sealedAt, false)]
  {
    RunKeeps(cfg, run, i);
    assert TxOk(cfg, run[i], t);
    assert forall a :: a in run[i].txns[t].pdels ==> a !in run[i].chunks;
    assert run[i].chunks - run[i].txns[t].pdels == run[i].chunks;
  }

  /** A purge's high water lies above every row it removes, without exception. */
  lemma PurgedHighWaterCovers(cfg: Config, run: seq<State>, i: nat, t: TxId, a: Address)
    requires IsRun(cfg, run) && i < |run| && Enabled(cfg, run[i], PurgeCommit(t))
    requires a in run[i].chunks && a.stream == run[i].txns[t].stream
    ensures a !in Apply(cfg, run[i], PurgeCommit(t)).chunks
    ensures a.number < Apply(cfg, run[i], PurgeCommit(t)).seals[a.stream].highWater
  {
    RunKeeps(cfg, run, i);
    assert TxOk(cfg, run[i], t);
  }

  lemma MarkersUntouched(cfg: Config, st: State, act: Action)
    requires Enabled(cfg, st, act) && !act.SealCommit? && !act.PurgeCommit? && !act.SweepMarkers? && !act.MarkPurged?
    ensures Apply(cfg, st, act).seals == st.seals
  {
    if OfFlush(act) && !act.FlushCommit? {
      FlushTouchesNothing(cfg, st, act);
    } else if OfSeal(act) {
      SealTouchesNothing(cfg, st, act);
    } else if !OfFlush(act) {
      RestTouchesNothing(cfg, st, act);
    }
  }

  /** `validate_stream`: boot is refused unless markers outlive the stream's redeliveries. */
  predicate RetentionAccepted(maxAge: nat, retention: nat) {
    !(maxAge == 0 || retention < maxAge)
  }

  /** A frame published no later than a seal of its stream, and decided within `maxAge` of its
      publication, meets that seal's marker whatever sweeps ran, and is refused. */
  lemma StragglerMeetsMarker(cfg: Config, run: seq<State>, i: nat, s: Stream, sealedAt: int,
                             published: int, maxAge: nat, t: TxId)
    requires IsRun(cfg, run) && i < |run|
    requires (s, sealedAt) in run[i].sealLog
    requires published <= sealedAt && run[i].now <= published + maxAge
    requires RetentionAccepted(maxAge, cfg.retention)
    ensures s in run[i].seals && run[i].seals[s].sealedAt == sealedAt
    ensures Enabled(cfg, run[i], FlushReadSeals(t)) && s in run[i].txns[t].fpc.held ==>
              s in Apply(cfg, run[i], FlushReadSeals(t)).txns[t].fpc.sealed
  {
    RunKeeps(cfg, run, i);
  }

  /** A sweep takes the stream's marker at this position, set longer ago than the retention. */
  ghost predicate MarkerSweptAt(cfg: Config, run: seq<State>, k: int, s: Stream)
    requires 0 <= k < |run| - 1
  {
    && s in run[k].seals && s !in run[k + 1].seals && run[k].seals[s].sealedAt < run[k].now - cfg.retention
    && exists w, victims :: Enabled(cfg, run[k], SweepMarkers(w, victims)) && s in victims
                            && run[k + 1] == Apply(cfg, run[k], SweepMarkers(w, victims))
  }

  /** A marker of the stream is committed at this position. */
  ghost predicate MarkedAt(run: seq<State>, k: int, s: Stream)
    requires 0 <= k < |run| - 1
  {
    s !in run[k].seals && s in run[k + 1].seals
  }

  /** Between two positions a sweep took the stream's marker, and none was committed since. */
  ghost predicate SweptSince(cfg: Config, run: seq<State>, b: nat, r: nat, s: Stream)
    requires r < |run|
  {
    exists k :: b <= k < r && SweptForGood(cfg, run, k, r, s)
  }

  ghost predicate SweptForGood(cfg: Config, run: seq<State>, k: nat, r: nat, s: Stream)
    requires k < r < |run|
  {
    MarkerSweptAt(cfg, run, k, s) && forall m :: k < m < r ==> !MarkedAt(run, m, s)
  }

  lemma MarkerLostBySweep(cfg: Config, run: seq<State>, k: nat, s: Stream)
    requires IsRun(cfg, run) && k + 1 < |run| && s in run[k].seals && s !in run[k + 1].seals
    ensures MarkerSweptAt(cfg, run, k, s)
  {
    RunKeeps(cfg, run, k);
    var act := ActionAt(cfg, run, k);
    MarkerOnlyRises(cfg, run[k], act, s);
    assert Enabled(cfg, run[k], SweepMarkers(act.t, act.victims)) && s in act.victims;
  }

  lemma {:induction false} GoneMeansSwept(cfg: Config, run: seq<State>, b: nat, r: nat, s: Stream)
    requires IsRun(cfg, run) && b <= r < |run| && s in run[b].seals && s !in run[r].seals
    ensures SweptSince(cfg, run, b, r, s)
  {
    if s in run[r - 1].seals {
      MarkerLostBySweep(cfg, run, r - 1, s);
      assert SweptForGood(cfg, run, r - 1, r, s);
    } else {
      GoneMeansSwept(cfg, run, b, r - 1, s);
      var k :| b <= k < r - 1 && SweptForGood(cfg, run, k, r - 1, s);
      SweptExtends(cfg, run, k, r, s);
    }
  }

  lemma SweptExtends(cfg: Config, run: seq<State>, k: nat, r: nat, s: Stream)
    requires k < r - 1 < r < |run| && SweptForGood(cfg, run, k, r - 1, s) && s !in run[r].seals
    ensures SweptForGood(cfg, run, k, r, s)
  {
    assert !MarkedAt(run, r - 1, s);
  }

  lemma {:induction false} SweptStaysGone(cfg: Config, run: seq<State>, k: nat, r: nat, s: Stream)
    requires k < r < |run| && SweptForGood(cfg, run, k, r, s)
    ensures s !in run[r].seals
  {
    if k + 1 < r {
      assert SweptForGood(cfg, run, k, r - 1, s);
      SweptStaysGone(cfg, run, k, r - 1, s);
      assert !MarkedAt(run, r - 1, s);
    }
  }

  /** A flush whose chunk was submitted while its stream's marker stood, at `b`, misses the marker at its
      lookup, at `r`, if and only if a sweep took the marker in between and none was committed since. */
  lemma MissesMarkerIffSwept(cfg: Config, run: seq<State>, b: nat, r: nat, t: TxId, s: Stream)
    requires IsRun(cfg, run) && b <= r < |run| && s in run[b].seals
    requires Enabled(cfg, run[r], FlushReadSeals(t)) && s in run[r].txns[t].fpc.held
    ensures s !in Apply(cfg, run[r], FlushReadSeals(t)).txns[t].fpc.sealed <==> SweptSince(cfg, run, b, r, s)
  {
    if s !in run[r].seals {
      GoneMeansSwept(cfg, run, b, r, s);
    }
    if SweptSince(cfg, run, b, r, s) {
      var k :| b <= k < r && SweptForGood(cfg, run, k, r, s);
      SweptStaysGone(cfg, run, k, r, s);
    }
  }

  lemma LogUntouched(cfg: Config, st: State, act: Action)
    requires Enabled(cfg, st, act) && !act.FlushCommit? && !act.SealCommit? && !act.PurgeCommit?
    ensures Apply(cfg, st, act).sealLog == st.sealLog
  {
    if OfFlush(act) {
      FlushTouchesNothing(cfg, st, act);
    } else if OfSeal(act) {
      SealTouchesNothing(cfg, st, act);
    } else {
      RestTouchesNothing(cfg, st, act);
    }
  }

  /** The log the straggler theorem speaks of holds exactly the markers that were ever committed. */
  lemma EveryMarkerIsLogged(cfg: Config, st: State, act: Action, s: Stream)
    requires Inv(cfg, st) && Enabled(cfg, st, act)
    ensures var st' := Apply(cfg, st, act);
            && st.sealLog <= st'.sealLog
            && (s in st'.seals ==> (s, st'.seals[s].sealedAt) in st'.sealLog)
            && (forall at :: (s, at) in st'.sealLog && (s, at) !in st.sealLog ==>
                  s !in st.seals && s in st'.seals && st'.seals[s].sealedAt == at)
  {
    StepKeeps(cfg, st, act);
    if act.SealCommit? || act.PurgeCommit? {
      assert TxOk(cfg, st, act.t);
    } else if !act.FlushCommit? {
      LogUntouched(cfg, st, act);
    }
  }
}
