/** Two runs that show what reads through the cache need: a stream sealed, swept and used again with
    another value, and a seal that commits between a read's two queries. */
module StaleRead {
  import opened Basics
  import opened LaneStore
  import opened LaneProtocol
  import opened LanePaths
  import opened StreamFold
  import Reader
  import ReaderRuns

  // ---- Runs of the reader ----

  lemma Pushed(cfg: Config, run: seq<ReaderRuns.State>, act: ReaderRuns.Action, st: ReaderRuns.State)
    returns (run': seq<ReaderRuns.State>)
    requires ReaderRuns.IsRun(cfg, run) && ReaderRuns.Enabled(cfg, run[|run| - 1], act)
    requires st == ReaderRuns.Apply(cfg, run[|run| - 1], act)
    ensures ReaderRuns.IsRun(cfg, run') && run <= run' && run'[|run'| - 1] == st
  {
    run' := run + [st];
    forall i | 0 <= i < |run'| - 1 ensures ReaderRuns.StepAt(cfg, run', i) {
      if i < |run| - 1 {
        assert ReaderRuns.StepAt(cfg, run, i);
      } else {
        assert ReaderRuns.Step(cfg, run[|run| - 1], st);
      }
    }
  }

  /** All a lane step changes about an open read is that it may have lost a row. */
  ghost predicate SameButLost(x: ReaderRuns.Read, x': ReaderRuns.Read) {
    x' == x || (x.Headed? && x' == ReaderRuns.Headed(x.s, x.base, true))
  }

  ghost predicate AllSameButLost(open: map<nat, ReaderRuns.Read>, open': map<nat, ReaderRuns.Read>) {
    open'.Keys == open.Keys && forall r :: r in open ==> SameButLost(open[r], open'[r])
  }

  /** The lane goes down a path while reads wait. */
  lemma {:induction false} Followed(cfg: Config, run: seq<ReaderRuns.State>, path: seq<State>)
    returns (run': seq<ReaderRuns.State>)
    requires ReaderRuns.IsRun(cfg, run) && IsPath(cfg, path) && run[|run| - 1].lane == path[0]
    ensures ReaderRuns.IsRun(cfg, run') && run <= run'
    ensures var st, st' := run[|run| - 1], run'[|run'| - 1];
            st'.lane == path[|path| - 1] && st'.folds == st.folds && AllSameButLost(st.open, st'.open)
    decreases |path|
  {
    run' := run;
    if |path| > 1 {
      assert StepAt(cfg, path, 0);
      var act :| Enabled(cfg, path[0], act) && path[1] == Apply(cfg, path[0], act);
      var step := ReaderRuns.LaneStep(act);
      run' := Pushed(cfg, run, step, ReaderRuns.Apply(cfg, run[|run| - 1], step));
      PathRest(cfg, path);
      run' := Followed(cfg, run', path[1..]);
    }
  }

  /** A table with one chunk, at sequence 0. */
  ghost predicate Single(st: State, s: Stream, v: Value) {
    s !in st.seals && (forall a: Address :: a.stream == s ==> (a in st.chunks <==> a.number == 0))
    && st.chunks[Address(s, 0)].chunk == v
  }

  lemma SingleTable(st: State, s: Stream, v: Value)
    requires Single(st, s, v)
    ensures ReaderRuns.TableOf(st.chunks, s) == map[0 := v]
  {
    var table := ReaderRuns.TableOf(st.chunks, s);
    forall k: BigInt ensures k in table <==> k == 0 {
      if 0 <= k {
        assert k in table <==> Address(s, k) in st.chunks;
      }
    }
  }

  /** A read of a one-chunk stream, up to its answer: it folds what the cache holds, or the chunk. */
  lemma ReadPath(cfg: Config, run: seq<ReaderRuns.State>, s: Stream, cached: Option<Value>, v: Value)
    returns (run': seq<ReaderRuns.State>)
    requires ReaderRuns.IsRun(cfg, run)
    requires var st := run[|run| - 1];
             st.open == map[] && Single(st.lane, s, v)
             && st.folds == if cached.Some? then map[s := [cached.value]] else map[]
    ensures ReaderRuns.IsRun(cfg, run')
    ensures run'[|run'| - 1] == ReaderRuns.State(run[|run| - 1].lane, map[],
              map[0 := ReaderRuns.Answered(s, if cached.Some? then [cached.value] else [],
                                           [if cached.Some? then cached.value else v], map[0 := v], false, true)])
  {
    var st := run[|run| - 1];
    var prior := if cached.Some? then [cached.value] else [];
    var table: Table := map[0 := v];
    SingleTable(st.lane, s, v);
    run' := Pushed(cfg, run, ReaderRuns.Take(0, s),
                   ReaderRuns.State(st.lane, map[], map[0 := ReaderRuns.Taken(s, prior)]));
    assert ReaderRuns.Backed(table, prior) by {
      if prior != [] {
        Reader.CountProvesPrefix(table, 0);
      } else {
        assert Reader.Below(table, -1) == {};
      }
    }
    run' := Pushed(cfg, run', ReaderRuns.Head(0),
                   ReaderRuns.State(st.lane, map[], map[0 := ReaderRuns.Headed(s, prior, false)]));
    var values := [if cached.Some? then cached.value else v];
    assert Reader.Resumes(prior, table, values);
    run' := Pushed(cfg, run', ReaderRuns.Rows(0, values),
                   ReaderRuns.State(st.lane, map[],
                                    map[0 := ReaderRuns.Answered(s, prior, values, table, false, true)]));
  }

  /** For every configuration and any two values: the read loses no row between its queries, and still
      answers with the value of the stream's former life. */
  lemma StaleReadIsReachable(cfg: Config, s: Stream, was: Value, now: Value) returns (run: seq<ReaderRuns.State>)
    requires was != now
    ensures ReaderRuns.IsRun(cfg, run)
    ensures run[|run| - 1].open == map[0 := ReaderRuns.Answered(s, [was], [was], map[0 := now], false, true)]
    ensures !ReaderRuns.IsPlain([was], map[0 := now])
  {
    run := WrittenAndRead(cfg, s, was);
    var st := run[|run| - 1];
    var path := SealPath(cfg, st.lane, s, Current);
    run := Followed(cfg, run, path);
    LongEnough(cfg, run[|run| - 1].lane.now);
    path := SweepPath(cfg, run[|run| - 1].lane, 0, s, cfg.retention + 2000);
    run := Followed(cfg, run, path);
    path := FlushPath(cfg, run[|run| - 1].lane, Pending(s, "", 0, now));
    run := Followed(cfg, run, path);
    run := ReadPath(cfg, run, s, Some(was), now);
    Reader.ReusedStreamReadsStale(Accumulator(0, (state, n, c) => Some(state)), was, now);
  }

  lemma WrittenAndRead(cfg: Config, s: Stream, v: Value) returns (run: seq<ReaderRuns.State>)
    ensures ReaderRuns.IsRun(cfg, run)
    ensures var st := run[|run| - 1];
            && st.open == map[] && st.folds == map[s := [v]]
            && Quiet(st.lane) && cfg.minTime <= st.lane.now && st.lane.seals == map[]
            && st.lane.chunks.Keys == {Address(s, 0)} && st.lane.chunks[Address(s, 0)].chunk == v
  {
    var start := State(cfg.minTime, map[], map[], map[], map[], {});
    run := [ReaderRuns.State(start, map[], map[])];
    var path := FlushPath(cfg, start, Pending(s, "", 0, v));
    run := Followed(cfg, run, path);
    var lane := run[|run| - 1].lane;
    run := ReadPath(cfg, run, s, None, v);
    run := Pushed(cfg, run, ReaderRuns.Store(0, {}), ReaderRuns.State(lane, map[s := [v]], map[]));
  }

  /** A stream of two chunks, the first of them cached, and a read that has made its head query. */
  lemma HeadedRun(cfg: Config, s: Stream, v: Value, w: Value) returns (run: seq<ReaderRuns.State>)
    ensures ReaderRuns.IsRun(cfg, run)
    ensures var st := run[|run| - 1];
            && Quiet(st.lane) && cfg.minTime <= st.lane.now && st.lane.seals == map[]
            && st.lane.chunks.Keys == {Address(s, 0), Address(s, 1)}
            && ReaderRuns.TableOf(st.lane.chunks, s) == map[0 := v, 1 := w]
            && st.open == map[0 := ReaderRuns.Headed(s, [v], false)]
  {
    run := WrittenAndRead(cfg, s, v);
    var path := FlushPath(cfg, run[|run| - 1].lane, Pending(s, "", 1, w));
    run := Followed(cfg, run, path);
    var st := run[|run| - 1];
    var table: Table := map[0 := v, 1 := w];
    TwoChunks(st.lane.chunks, s, v, w);
    run := Pushed(cfg, run, ReaderRuns.Take(0, s),
                  ReaderRuns.State(st.lane, map[], map[0 := ReaderRuns.Taken(s, [v])]));
    Reader.CountProvesPrefix(table, 0);
    assert ReaderRuns.Backed(table, [v]);
    run := Pushed(cfg, run, ReaderRuns.Head(0),
                  ReaderRuns.State(st.lane, map[], map[0 := ReaderRuns.Headed(s, [v], false)]));
  }

  lemma TwoChunks(chunks: map<Address, Row>, s: Stream, v: Value, w: Value)
    requires chunks.Keys == {Address(s, 0), Address(s, 1)}
    requires chunks[Address(s, 0)].chunk == v && chunks[Address(s, 1)].chunk == w
    ensures ReaderRuns.TableOf(chunks, s) == map[0 := v, 1 := w]
  {
    var table := ReaderRuns.TableOf(chunks, s);
    forall k: BigInt ensures k in table <==> k == 0 || k == 1 {
      if 0 <= k {
        assert k in table <==> Address(s, k) in chunks;
      }
    }
  }

  /** A seal that commits between the two queries: the read keeps the cached chunk 0, fetches nothing, and
      answers chunk 0 without a gap. That is the reading neither of the table its head query saw nor of
      the table its row query saw. */
  lemma RacedReadIsReachable(cfg: Config, s: Stream, v: Value, w: Value) returns (run: seq<ReaderRuns.State>, h: nat)
    ensures ReaderRuns.IsRun(cfg, run) && h < |run|
    ensures run[h].open == map[0 := ReaderRuns.Headed(s, [v], false)]
    ensures ReaderRuns.TableOf(run[h].lane.chunks, s) == map[0 := v, 1 := w]
    ensures run[|run| - 1].open.Keys == {0} && run[|run| - 1].open[0].Answered?
    ensures var x := run[|run| - 1].open[0];
            && x.values == [v] && x.rows == map[] && !BeyondPrefix(x.rows, 1)
            && !ReaderRuns.IsPlain(x.values, x.rows) && !ReaderRuns.IsPlain(x.values, map[0 := v, 1 := w])
  {
    run := HeadedRun(cfg, s, v, w);
    h := |run| - 1;
    run := SealedMeanwhile(cfg, run, s);
    run := AnswersKept(cfg, run, s, v);
    var both: Table := map[0 := v, 1 := w];
    assert 1 in both;
  }

  /** A read that kept one chunk and fetches nothing answers that chunk. */
  lemma AnswersKept(cfg: Config, run: seq<ReaderRuns.State>, s: Stream, v: Value) returns (run': seq<ReaderRuns.State>)
    requires ReaderRuns.IsRun(cfg, run)
    requires var st := run[|run| - 1];
             && st.open.Keys == {0} && st.open[0].Headed? && st.open[0].s == s && st.open[0].base == [v]
             && ReaderRuns.TableOf(st.lane.chunks, s) == map[]
    ensures ReaderRuns.IsRun(cfg, run') && run <= run'
    ensures run'[|run'| - 1].open.Keys == {0} && run'[|run'| - 1].open[0].Answered?
    ensures run'[|run'| - 1].open[0].values == [v] && run'[|run'| - 1].open[0].rows == map[]
  {
    assert Reader.Resumes([v], map[], [v]);
    run' := Pushed(cfg, run, ReaderRuns.Rows(0, [v]), ReaderRuns.Apply(cfg, run[|run| - 1], ReaderRuns.Rows(0, [v])));
  }

  /** A seal of the stream commits while reads wait. */
  lemma SealedMeanwhile(cfg: Config, run: seq<ReaderRuns.State>, s: Stream) returns (run': seq<ReaderRuns.State>)
    requires ReaderRuns.IsRun(cfg, run)
    requires var st := run[|run| - 1].lane; Quiet(st) && s !in st.seals && cfg.minTime <= st.now
    ensures ReaderRuns.IsRun(cfg, run') && run <= run'
    ensures AllSameButLost(run[|run| - 1].open, run'[|run'| - 1].open)
    ensures ReaderRuns.TableOf(run'[|run'| - 1].lane.chunks, s) == map[]
  {
    var st := run[|run| - 1].lane;
    var path := SealPath(cfg, st, s, Current);
    run' := Followed(cfg, run, path);
    assert forall a :: a in RowsOf(st.chunks, s).Keys <==> a in st.chunks && a.stream == s;
    ReaderRuns.EmptyTable(run'[|run'| - 1].lane.chunks, s);
  }
}
