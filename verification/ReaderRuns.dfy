/** Reads through the fold cache while the whole lane goes on: flushes, seals, purges and sweeps of any
    pods take their steps between a read's take, its two queries and its store.

    The cache is kept by the chunks its states were folded from; `ChunkReader` ties the states to them.
    Evictions drop any entries at all. */
module ReaderRuns {
  import opened Basics
  import opened LaneStore
  import Lane = LaneProtocol
  import LaneInvariant
  import LaneTheorems
  import opened StreamFold
  import opened Reader

  type Id = nat

  /** A read between its steps. `lost` is history: a row of the stream went away between the queries.
      `rows` is the table the row query saw, and `cacheable` is false for a read that met a marker.
      `base` is what the read kept of the cached chunks. */
  datatype Read =
    | Taken(s: Stream, prior: seq<Value>)
    | Headed(s: Stream, base: seq<Value>, lost: bool)
    | Answered(s: Stream, base: seq<Value>, values: seq<Value>, rows: Table, lost: bool, cacheable: bool)

  datatype State = State(lane: Lane.State, folds: map<Stream, seq<Value>>, open: map<Id, Read>)

  datatype Action =
    | LaneStep(act: Lane.Action)
    | Take(r: Id, s: Stream)
    | Head(r: Id)
    | Rows(r: Id, values: seq<Value>)
    | Store(r: Id, evicted: set<Stream>)
    | Forget(s: Stream)
    | Dropped(r: Id)

  ghost predicate Init(cfg: Lane.Config, st: State) {
    Lane.Init(cfg, st.lane) && st.folds == map[] && st.open == map[]
  }

  /** The chunks of one stream by sequence. */
  ghost function TableOf(chunks: map<Address, Row>, s: Stream): (table: Table)
    ensures Storable(table)
    ensures forall k: ChunkSeq :: k in table <==> Address(s, k) in chunks
    ensures forall k: ChunkSeq :: k in table ==> table[k] == chunks[Address(s, k)].chunk
  {
    var numbers := set a | a in chunks && a.stream == s :: a.number;
    map k: BigInt | k in numbers :: chunks[Address(s, k)].chunk
  }

  /** The head query's count matches the cached mark. */
  ghost predicate Backed(table: Table, prior: seq<Value>) {
    |prior| <= I64_MAX && |Below(table, |prior| - 1)| == |prior|
  }

  ghost predicate InPhase(st: State, r: Id, taken: bool) {
    r in st.open && if taken then st.open[r].Taken? else st.open[r].Headed?
  }

  ghost predicate Enabled(cfg: Lane.Config, st: State, act: Action) {
    match act
    case LaneStep(a) => Lane.Enabled(cfg, st.lane, a)
    case Take(r, _) => r !in st.open
    case Head(r) => InPhase(st, r, true)
    case Rows(r, values) =>
      InPhase(st, r, false) && Resumes(st.open[r].base, TableOf(st.lane.chunks, st.open[r].s), values)
    case Store(r, _) => r in st.open && st.open[r].Answered?
    case Forget(_) => true
    case Dropped(r) => r in st.open
  }

  /** A read that waits between its queries notices, as history, that a row of its stream went away. */
  ghost function Noticed(read: Read, before: map<Address, Row>, after: map<Address, Row>): Read {
    if read.Headed? && exists a :: a in before && a !in after && a.stream == read.s then Headed(read.s, read.base, true)
    else read
  }

  ghost function Apply(cfg: Lane.Config, st: State, act: Action): State
    requires Enabled(cfg, st, act)
  {
    match act
    case LaneStep(a) =>
      var lane := Lane.Apply(cfg, st.lane, a);
      State(lane, st.folds, map r | r in st.open :: Noticed(st.open[r], st.lane.chunks, lane.chunks))
    case Take(r, s) =>
      st.(folds := st.folds - {s}, open := st.open[r := Taken(s, if s in st.folds then st.folds[s] else [])])
    case Head(r) =>
      var s := st.open[r].s;
      var table := TableOf(st.lane.chunks, s);
      var next :=
        if s in st.lane.seals then Answered(s, [], [], table, false, false)
        else Headed(s, if Backed(table, st.open[r].prior) then st.open[r].prior else [], false);
      st.(open := st.open[r := next])
    case Rows(r, values) =>
      var x := st.open[r];
      st.(open := st.open[r := Answered(x.s, x.base, values, TableOf(st.lane.chunks, x.s), x.lost, true)])
    case Store(r, evicted) =>
      var x := st.open[r];
      var keep := !x.cacheable || (x.s in st.folds && |st.folds[x.s]| >= |x.values|);
      var folds := if keep then st.folds else st.folds[x.s := x.values];
      st.(folds := folds - evicted, open := st.open - {r})
    case Forget(s) => st.(folds := st.folds - {s})
    case Dropped(r) => st.(open := st.open - {r})
  }

  // ---- What every step keeps ----

  ghost predicate ReadOk(truth: map<Address, Value>, st: State, x: Read) {
    match x
    case Taken(s, prior) => Agrees(truth, s, prior)
    case Headed(s, base, lost) =>
      Agrees(truth, s, base) && (!lost ==> HasPrefix(TableOf(st.lane.chunks, s), |base|))
    case Answered(s, base, values, rows, lost, _) =>
      && Agrees(truth, s, base) && Agrees(truth, s, values) && TableAgrees(truth, s, rows)
      && (!lost ==> HasPrefix(rows, |base|))
  }

  /** The chunks are the longest contiguous prefix of the table. */
  ghost predicate IsPlain(values: seq<Value>, rows: Table) {
    PrefixEnds(rows, |values|) && values == PrefixValues(rows, |values|)
  }

  ghost predicate Inv(truth: map<Address, Value>, st: State) {
    && (forall s :: s in st.folds ==> Agrees(truth, s, st.folds[s]))
    && (forall r :: r in st.open ==> ReadOk(truth, st, st.open[r]))
  }

  /** Every stored chunk is the one `truth` puts at its address. */
  ghost predicate LaneAgrees(truth: map<Address, Value>, lane: Lane.State) {
    forall a :: a in lane.chunks ==> a in truth && lane.chunks[a].chunk == truth[a]
  }

  lemma TableIsTrue(truth: map<Address, Value>, lane: Lane.State, s: Stream)
    requires LaneAgrees(truth, lane)
    ensures TableAgrees(truth, s, TableOf(lane.chunks, s))
  {
  }

  lemma HeadOk(cfg: Lane.Config, truth: map<Address, Value>, st: State, r: Id)
    requires Inv(truth, st) && LaneAgrees(truth, st.lane) && Enabled(cfg, st, Head(r))
    ensures ReadOk(truth, Apply(cfg, st, Head(r)), Apply(cfg, st, Head(r)).open[r])
  {
    var x := st.open[r];
    var table := TableOf(st.lane.chunks, x.s);
    assert ReadOk(truth, st, x);
    TableIsTrue(truth, st.lane, x.s);
    if x.s !in st.lane.seals && x.prior != [] {
      CountProvesPrefix(table, |x.prior| - 1);
    }
  }

  lemma RowsOk(cfg: Lane.Config, truth: map<Address, Value>, st: State, r: Id, values: seq<Value>)
    requires Inv(truth, st) && LaneAgrees(truth, st.lane) && Enabled(cfg, st, Rows(r, values))
    ensures ReadOk(truth, Apply(cfg, st, Rows(r, values)), Apply(cfg, st, Rows(r, values)).open[r])
  {
    var x := st.open[r];
    assert ReadOk(truth, st, x);
    TableIsTrue(truth, st.lane, x.s);
    AgreesOn(truth, x.s, x.base, TableOf(st.lane.chunks, x.s), values);
  }

  lemma LaneStepOk(cfg: Lane.Config, truth: map<Address, Value>, st: State, a: Lane.Action, r: Id)
    requires Inv(truth, st) && Enabled(cfg, st, LaneStep(a)) && r in st.open
    ensures ReadOk(truth, Apply(cfg, st, LaneStep(a)), Apply(cfg, st, LaneStep(a)).open[r])
  {
    var st' := Apply(cfg, st, LaneStep(a));
    var x, x' := st.open[r], st'.open[r];
    assert ReadOk(truth, st, x);
    if x'.Headed? && !x'.lost {
      var before, after := TableOf(st.lane.chunks, x.s), TableOf(st'.lane.chunks, x.s);
      forall k: int | 0 <= k < |x.base| ensures k in after {
        var number: ChunkSeq := k;
        assert number in before;
        assert Address(x.s, number) in st'.lane.chunks;
      }
    }
  }

  lemma StepKeeps(cfg: Lane.Config, truth: map<Address, Value>, st: State, act: Action)
    requires Inv(truth, st) && LaneAgrees(truth, st.lane) && Enabled(cfg, st, act)
    ensures Inv(truth, Apply(cfg, st, act))
  {
    var st' := Apply(cfg, st, act);
    forall r | r in st'.open ensures ReadOk(truth, st', st'.open[r]) {
      if act.LaneStep? {
        LaneStepOk(cfg, truth, st, act.act, r);
      } else if act == Head(r) {
        HeadOk(cfg, truth, st, r);
      } else if act.Rows? && act.r == r {
        RowsOk(cfg, truth, st, r, act.values);
      } else if r in st.open {
        assert ReadOk(truth, st, st.open[r]);
      }
    }
    if act.Store? {
      assert ReadOk(truth, st, st.open[act.r]);
    }
  }

  // ---- Runs ----

  ghost predicate Step(cfg: Lane.Config, st: State, st': State) {
    exists act :: Enabled(cfg, st, act) && st' == Apply(cfg, st, act)
  }

  ghost predicate StepAt(cfg: Lane.Config, run: seq<State>, i: int)
    requires 0 <= i < |run| - 1
  {
    Step(cfg, run[i], run[i + 1])
  }

  ghost predicate IsRun(cfg: Lane.Config, run: seq<State>) {
    run != [] && Init(cfg, run[0]) && forall i :: 0 <= i < |run| - 1 ==> StepAt(cfg, run, i)
  }

  lemma ActionAt(cfg: Lane.Config, run: seq<State>, i: nat) returns (act: Action)
    requires IsRun(cfg, run) && i + 1 < |run|
    ensures Enabled(cfg, run[i], act) && run[i + 1] == Apply(cfg, run[i], act)
  {
    assert StepAt(cfg, run, i);
    act :| Enabled(cfg, run[i], act) && run[i + 1] == Apply(cfg, run[i], act);
  }

  ghost function LaneRun(run: seq<State>): seq<Lane.State> {
    seq(|run|, i requires 0 <= i < |run| => run[i].lane)
  }

  /** What the lane does in a run of the reader is a run of the lane. */
  lemma LaneRunIsRun(cfg: Lane.Config, run: seq<State>)
    requires IsRun(cfg, run)
    ensures Lane.IsRun(cfg, LaneRun(run))
  {
    var lanes := LaneRun(run);
    forall i | 0 <= i < |lanes| - 1 ensures Lane.StepAt(cfg, lanes, i) {
      var act := ActionAt(cfg, run, i);
      var a := if act.LaneStep? then act.act else Lane.Tick(0);
      assert Lane.Enabled(cfg, lanes[i], a) && lanes[i + 1] == Lane.Apply(cfg, lanes[i], a);
    }
  }

  lemma LaneKeeps(cfg: Lane.Config, run: seq<State>, i: nat)
    requires IsRun(cfg, run) && i < |run|
    ensures LaneInvariant.Inv(cfg, run[i].lane)
  {
    LaneRunIsRun(cfg, run);
    LaneInvariant.RunKeeps(cfg, LaneRun(run), i);
  }

  ghost predicate AlwaysAgrees(truth: map<Address, Value>, run: seq<State>) {
    forall i :: 0 <= i < |run| ==> LaneAgrees(truth, run[i].lane)
  }

  lemma {:induction false} RunKeeps(cfg: Lane.Config, truth: map<Address, Value>, run: seq<State>, i: nat)
    requires IsRun(cfg, run) && AlwaysAgrees(truth, run) && i < |run|
    ensures Inv(truth, run[i])
  {
    if i > 0 {
      RunKeeps(cfg, truth, run, i - 1);
      var act := ActionAt(cfg, run, i - 1);
      StepKeeps(cfg, truth, run[i - 1], act);
    }
  }

  // ---- Addresses that keep their value ----

  /** The address held a row, lost it, and holds one again. */
  ghost predicate Reinserted(run: seq<State>, i: int, m: int, j: int, a: Address) {
    && 0 <= i < m < j < |run|
    && a in run[i].lane.chunks && a !in run[m].lane.chunks && a in run[j].lane.chunks
  }

  /** A deleted and re-inserted address carries its old value. Frames with other values may be sent, and
      are answered Conflict. */
  ghost predicate ReinsertsKeepValues(run: seq<State>) {
    forall i, m, j, a :: Reinserted(run, i, m, j, a) ==> run[j].lane.chunks[a].chunk == run[i].lane.chunks[a].chunk
  }

  lemma {:induction false} KeptOrReinserted(cfg: Lane.Config, run: seq<State>, i: nat, j: nat, a: Address)
    returns (m: nat)
    requires IsRun(cfg, run) && i <= j < |run| && a in run[i].lane.chunks && a in run[j].lane.chunks
    ensures run[j].lane.chunks[a] == run[i].lane.chunks[a] || Reinserted(run, i, m, j, a)
  {
    m := i;
    if i < j && a in run[j - 1].lane.chunks {
      m := KeptOrReinserted(cfg, run, i, j - 1, a);
      LaneRunIsRun(cfg, run);
      LaneTheorems.RowStands(cfg, LaneRun(run), j - 1, a);
    } else if i < j {
      m := j - 1;
    }
  }

  lemma OneValueEach(cfg: Lane.Config, run: seq<State>, i: nat, j: nat, a: Address)
    requires IsRun(cfg, run) && ReinsertsKeepValues(run) && i < |run| && j < |run|
    requires a in run[i].lane.chunks && a in run[j].lane.chunks
    ensures run[i].lane.chunks[a].chunk == run[j].lane.chunks[a].chunk
  {
    var m := KeptOrReinserted(cfg, run, if i <= j then i else j, if i <= j then j else i, a);
  }

  /** The first value each address ever held. */
  ghost function FirstValues(run: seq<State>): map<Address, Value> {
    if run == [] then map[]
    else
      var chunks := run[|run| - 1].lane.chunks;
      (map a | a in chunks :: chunks[a].chunk) + FirstValues(run[..|run| - 1])
  }

  lemma {:induction false} FirstValueFrom(run: seq<State>, a: Address) returns (i: nat)
    requires a in FirstValues(run)
    ensures i < |run| && a in run[i].lane.chunks && FirstValues(run)[a] == run[i].lane.chunks[a].chunk
  {
    var before := run[..|run| - 1];
    if a in FirstValues(before) {
      i := FirstValueFrom(before, a);
    } else {
      i := |run| - 1;
    }
  }

  lemma {:induction false} HasFirstValue(run: seq<State>, i: nat, a: Address)
    requires i < |run| && a in run[i].lane.chunks
    ensures a in FirstValues(run)
  {
    if i < |run| - 1 {
      HasFirstValue(run[..|run| - 1], i, a);
    }
  }

  /** When re-inserted addresses keep their values, every row of the run carries its address's first one. */
  lemma FirstValuesAgree(cfg: Lane.Config, run: seq<State>)
    requires IsRun(cfg, run) && ReinsertsKeepValues(run)
    ensures AlwaysAgrees(FirstValues(run), run)
  {
    forall i, a | 0 <= i < |run| && a in run[i].lane.chunks
      ensures a in FirstValues(run) && run[i].lane.chunks[a].chunk == FirstValues(run)[a]
    {
      HasFirstValue(run, i, a);
      var j := FirstValueFrom(run, a);
      OneValueEach(cfg, run, i, j, a);
    }
  }

  // ---- Theorems ----

  /** An answer is new, and then of the table as it stands, or stays as it was. */
  lemma AnsweredBy(cfg: Lane.Config, st: State, act: Action, r: Id)
    requires Enabled(cfg, st, act) && r in Apply(cfg, st, act).open && Apply(cfg, st, act).open[r].Answered?
    requires LaneInvariant.SealExclusion(st.lane)
    ensures r in st.open
    ensures var x, x' := st.open[r], Apply(cfg, st, act).open[r];
            if x.Answered? then x' == x
            else x'.rows == TableOf(st.lane.chunks, x'.s) && Resumes(x'.base, x'.rows, x'.values)
  {
    if act == Head(r) && st.open[r].s in st.lane.seals {
      EmptyTable(st.lane.chunks, st.open[r].s);
    }
  }

  /** Where in the run a read saw the table it answers for, and that it resumed from what it kept. */
  lemma {:induction false} AnsweredFrom(cfg: Lane.Config, run: seq<State>, i: nat, r: Id) returns (j: nat)
    requires IsRun(cfg, run) && i < |run| && r in run[i].open && run[i].open[r].Answered?
    ensures j < i && run[i].open[r].rows == TableOf(run[j].lane.chunks, run[i].open[r].s)
    ensures Resumes(run[i].open[r].base, run[i].open[r].rows, run[i].open[r].values)
  {
    var act := ActionAt(cfg, run, i - 1);
    LaneKeeps(cfg, run, i - 1);
    AnsweredBy(cfg, run[i - 1], act, r);
    if run[i - 1].open[r].Answered? {
      j := AnsweredFrom(cfg, run, i - 1, r);
    } else {
      j := i - 1;
    }
  }

  lemma PlainIffStands(base: seq<Value>, rows: Table, values: seq<Value>)
    requires Resumes(base, rows, values)
    ensures IsPlain(values, rows) <==> Stands(base, rows)
  {
    var n := EndOf(rows, 0);
    ResumesPrefixIffStands(base, rows, values, n);
    if IsPlain(values, rows) {
      PrefixEndsOnce(rows, n, |values|);
    }
  }

  /** In every run, of every read: it answers the plain reading of the table it saw if and only if what it
      kept of the cache still stands in that table. */
  lemma ReadIsPlainIffBaseStands(cfg: Lane.Config, run: seq<State>, i: nat, r: Id)
    requires IsRun(cfg, run) && i < |run| && r in run[i].open && run[i].open[r].Answered?
    ensures IsPlain(run[i].open[r].values, run[i].open[r].rows) <==> Stands(run[i].open[r].base, run[i].open[r].rows)
  {
    var j := AnsweredFrom(cfg, run, i, r);
    PlainIffStands(run[i].open[r].base, run[i].open[r].rows, run[i].open[r].values);
  }

  /** When re-inserted addresses keep their values, every read, whatever it lost, answers the first values
      of the stream, and the plain reading if and only if no row it had kept was missing at its row query. */
  lemma ReadsFollowFirstValues(cfg: Lane.Config, run: seq<State>, i: nat, r: Id)
    requires IsRun(cfg, run) && ReinsertsKeepValues(run) && i < |run| && r in run[i].open && run[i].open[r].Answered?
    ensures Agrees(FirstValues(run), run[i].open[r].s, run[i].open[r].values)
    ensures IsPlain(run[i].open[r].values, run[i].open[r].rows)
            <==> HasPrefix(run[i].open[r].rows, |run[i].open[r].base|)
    ensures !run[i].open[r].lost ==> IsPlain(run[i].open[r].values, run[i].open[r].rows)
  {
    var x := run[i].open[r];
    FirstValuesAgree(cfg, run);
    RunKeeps(cfg, FirstValues(run), run, i);
    assert ReadOk(FirstValues(run), run[i], x);
    ReadIsPlainIffBaseStands(cfg, run, i, r);
    if HasPrefix(x.rows, |x.base|) {
      BaseStands(FirstValues(run), x.s, x.base, x.rows, x.rows);
    }
  }

  /** Cache refinement: in every run whose re-inserted addresses keep their values, every read that lost no
      row between its queries answers, for every accumulator, the plain reading of a table the lane held at
      one moment of the run: the fold of its longest contiguous prefix, the prefix's end, and a gap exactly
      when a stored sequence lies beyond it. */
  lemma ReadsArePlain<S>(cfg: Lane.Config, run: seq<State>, i: nat, r: Id, acc: Accumulator<S>) returns (j: nat, n: nat)
    requires IsRun(cfg, run) && ReinsertsKeepValues(run) && i < |run|
    requires r in run[i].open && run[i].open[r].Answered? && !run[i].open[r].lost
    ensures j < i && run[i].open[r].rows == TableOf(run[j].lane.chunks, run[i].open[r].s)
    ensures PrefixEnds(run[i].open[r].rows, n)
    ensures Resumed(acc, run[i].open[r].values, run[i].open[r].rows) == Reading(acc, run[i].open[r].rows, n)
  {
    ReadsFollowFirstValues(cfg, run, i, r);
    j := AnsweredFrom(cfg, run, i, r);
    n := |run[i].open[r].values|;
  }

  // ---- The verified seal, from the replay to the marker ----

  lemma ReplayedTable<S>(acc: Accumulator<S>, chunks: map<Address, Row>, s: Stream, last: ChunkSeq)
    requires Replayable(acc, TableOf(chunks, s), last)
    ensures LaneTheorems.Replays(chunks, s, last, PrefixValues(TableOf(chunks, s), last + 1))
  {
    var table := TableOf(chunks, s);
    forall n: ChunkSeq | n <= last
      ensures Address(s, n) in chunks && chunks[Address(s, n)].chunk == PrefixValues(table, last + 1)[n]
    {
      assert n in table;
    }
  }

  /** When a verified replay of the table succeeds and a seal up to the same sequence commits with no row
      of the stream deleted in between, the commit removes exactly the chunks that were folded and
      hashed, and leaves the marker one past them. */
  lemma SealedIsWhatWasVerified<S>(cfg: Lane.Config, lanes: seq<Lane.State>, i: nat, k: nat, t: Lane.TxId, s: Stream,
                                   last: ChunkSeq, acc: Accumulator<S>)
    requires Lane.IsRun(cfg, lanes) && i <= k < |lanes| && LaneTheorems.NoDelete(lanes, i, k, s)
    requires Replayable(acc, TableOf(lanes[i].chunks, s), last)
    requires Lane.Enabled(cfg, lanes[k], Lane.SealCommit(t))
    requires s in lanes[k].txns[t].declared && lanes[k].txns[t].declared[s] == last
    ensures var verified := PrefixValues(TableOf(lanes[i].chunks, s), last + 1);
            var after := Lane.Apply(cfg, lanes[k], Lane.SealCommit(t));
            && PrefixEnds(TableOf(lanes[k].chunks, s), last + 1)
            && PrefixValues(TableOf(lanes[k].chunks, s), last + 1) == verified
            && !BeyondPrefix(TableOf(lanes[k].chunks, s), last + 1)
            && TableOf(after.chunks, s) == map[]
            && s in after.seals && after.seals[s].highWater == last + 1
  {
    var verified := PrefixValues(TableOf(lanes[i].chunks, s), last + 1);
    var after := Lane.Apply(cfg, lanes[k], Lane.SealCommit(t));
    ReplayedTable(acc, lanes[i].chunks, s, last);
    LaneTheorems.VerifiedSealDropsNothing(cfg, lanes, i, k, t, s, last, verified);
    ExactTable(lanes[k].chunks, s, last, verified);
    EmptyTable(after.chunks, s);
  }

  // ---- The deadline seal, from its measuring step to the marker ----

  lemma MaxIsDeadlineHighWater(chunks: map<Address, Row>, s: Stream)
    ensures var max := Lane.MaxNumber(chunks, s);
            IsDeadlineHighWater(TableOf(chunks, s), if max.None? then 0 else WrappingSucc(max.value))
  {
    var max, table := Lane.MaxNumber(chunks, s), TableOf(chunks, s);
    if max.None? {
      forall a | a in chunks ensures a.stream != s {
        assert a in Lane.RowsOf(chunks, s) <==> a.stream == s;
      }
      EmptyTable(chunks, s);
    } else {
      var a :| a in chunks && a.stream == s && a.number == max.value;
      assert a == Address(s, a.number);
      forall k | k in table ensures k <= max.value {
        var n: ChunkSeq := k;
        assert Address(s, n) in chunks;
      }
      assert Greatest(table, max.value);
    }
  }

  /** Whatever a seal's commit removes was there, with the same value, when the seal measured the stream; a
      deadline seal's marker is one past the last row of that table; and if nothing was deleted since, the
      commit removes that whole table. */
  lemma SealRemovesWhatItMeasured(cfg: Lane.Config, lanes: seq<Lane.State>, i: nat, t: Lane.TxId, s: Stream)
    returns (j: nat)
    requires Lane.IsRun(cfg, lanes) && i < |lanes| && Lane.Enabled(cfg, lanes[i], Lane.SealCommit(t))
    requires s in lanes[i].txns[t].marks
    ensures j < i
    ensures var high := lanes[i].txns[t].marks[s].highWater;
            var measured, removed := TableOf(lanes[j].chunks, s), TableOf(lanes[i].chunks, s);
            var after := Lane.Apply(cfg, lanes[i], Lane.SealCommit(t));
            && LaneTheorems.MeasuredAt(cfg, lanes, j, i, t, s, high)
            && (lanes[j].txns[t].spc.mode.Current? ==> IsDeadlineHighWater(measured, high))
            && (forall k :: k in removed ==> k in measured && measured[k] == removed[k])
            && (LaneTheorems.NoDelete(lanes, j, i, s) ==> removed == measured)
            && TableOf(after.chunks, s) == map[] && s in after.seals && after.seals[s].highWater == high
  {
    var high := lanes[i].txns[t].marks[s].highWater;
    j := LaneTheorems.MeasuredFrom(cfg, lanes, i, t, s, high);
    MaxIsDeadlineHighWater(lanes[j].chunks, s);
    RemovedWasMeasured(cfg, lanes, j, i, t, s, high);
    SealEmpties(cfg, lanes, i, t, s);
  }

  lemma RemovedWasMeasured(cfg: Lane.Config, lanes: seq<Lane.State>, j: nat, i: nat, t: Lane.TxId, s: Stream, high: int)
    requires Lane.IsRun(cfg, lanes) && LaneTheorems.MeasuredAt(cfg, lanes, j, i, t, s, high)
    ensures var measured, removed := TableOf(lanes[j].chunks, s), TableOf(lanes[i].chunks, s);
            && (forall k :: k in removed ==> k in measured && measured[k] == removed[k])
            && (LaneTheorems.NoDelete(lanes, j, i, s) ==> removed == measured)
  {
    var measured, removed := TableOf(lanes[j].chunks, s), TableOf(lanes[i].chunks, s);
    forall k | k in removed ensures k in measured && measured[k] == removed[k] {
      var n: ChunkSeq := k;
      LaneTheorems.LeftWasMeasured(cfg, lanes, j, i, t, high, Address(s, n));
    }
    if LaneTheorems.NoDelete(lanes, j, i, s) {
      SameTable(cfg, lanes, j, i, s);
      assert removed == measured;
    }
  }

  lemma SameTable(cfg: Lane.Config, lanes: seq<Lane.State>, j: nat, i: nat, s: Stream)
    requires Lane.IsRun(cfg, lanes) && j <= i < |lanes| && LaneTheorems.NoDelete(lanes, j, i, s)
    ensures forall k :: k in TableOf(lanes[j].chunks, s) ==> k in TableOf(lanes[i].chunks, s)
  {
    forall k | k in TableOf(lanes[j].chunks, s) ensures k in TableOf(lanes[i].chunks, s) {
      var n: ChunkSeq := k;
      LaneTheorems.RowSurvives(cfg, lanes, j, i, Address(s, n));
    }
  }

  lemma SealEmpties(cfg: Lane.Config, lanes: seq<Lane.State>, i: nat, t: Lane.TxId, s: Stream)
    requires Lane.IsRun(cfg, lanes) && i < |lanes| && Lane.Enabled(cfg, lanes[i], Lane.SealCommit(t))
    requires s in lanes[i].txns[t].marks
    ensures var after := Lane.Apply(cfg, lanes[i], Lane.SealCommit(t));
            TableOf(after.chunks, s) == map[] && s in after.seals && after.seals[s] == lanes[i].txns[t].marks[s]
  {
    LaneInvariant.RunKeeps(cfg, lanes, i);
    LaneInvariant.StepKeeps(cfg, lanes[i], Lane.SealCommit(t));
    EmptyTable(Lane.Apply(cfg, lanes[i], Lane.SealCommit(t)).chunks, s);
  }

  lemma ExactTable(chunks: map<Address, Row>, s: Stream, last: ChunkSeq, values: seq<Value>)
    requires |values| == last + 1 && last < I64_MAX
    requires forall a: Address :: a.stream == s ==> (a in chunks <==> a.number <= last)
    requires forall a: Address :: a.stream == s && a in chunks ==> chunks[a].chunk == values[a.number]
    ensures PrefixEnds(TableOf(chunks, s), last + 1) && PrefixValues(TableOf(chunks, s), last + 1) == values
    ensures !BeyondPrefix(TableOf(chunks, s), last + 1)
  {
    var table := TableOf(chunks, s);
    forall n: ChunkSeq ensures n in table <==> n <= last {
      assert Address(s, n) in chunks <==> n <= last;
    }
    forall n: ChunkSeq | n <= last ensures table[n] == values[n] {
      assert Address(s, n) in chunks;
    }
    assert PrefixValues(table, last + 1) == values;
  }

  lemma EmptyTable(chunks: map<Address, Row>, s: Stream)
    requires forall a :: a in chunks ==> a.stream != s
    ensures TableOf(chunks, s) == map[]
  {
    var table := TableOf(chunks, s);
    forall k: BigInt ensures k !in table {
      if 0 <= k {
        assert Address(s, k) !in chunks;
      }
    }
  }
}
