/** A verified seal from the empty store: the chunks 0..last are stored one by one, replayed, and sealed up to
    `last`. So what is proved of verified seals is proved of something that happens. */
module VerifiedSeal {
  import opened Basics
  import opened LaneStore
  import opened LaneProtocol
  import opened LanePaths
  import opened LaneTheorems

  /** The rows of a stream's first `n` chunks, all staged at one instant. */
  ghost function FirstRows(s: Stream, values: seq<Value>, n: nat, at: int): (rows: map<Address, Row>)
    requires n <= |values| <= I64_MAX + 1
    ensures forall a :: a in rows <==> a.stream == s && a.number < n
    ensures forall a :: a in rows ==> rows[a] == Row(values[a.number], at)
  {
    if n == 0 then map[] else FirstRows(s, values, n - 1, at)[Address(s, n - 1) := Row(values[n - 1], at)]
  }

  /** Each chunk is flushed alone. */
  lemma {:induction false} StoredRun(cfg: Config, s: Stream, values: seq<Value>, n: nat) returns (run: seq<State>)
    requires n <= |values| <= I64_MAX + 1
    ensures IsRun(cfg, run)
    ensures var st := run[|run| - 1];
            Quiet(st) && st.now == cfg.minTime && st.seals == map[] && st.chunks == FirstRows(s, values, n, cfg.minTime)
  {
    if n == 0 {
      run := [State(cfg.minTime, map[], map[], map[], map[], {})];
    } else {
      run := StoredRun(cfg, s, values, n - 1);
      var more := FlushPath(cfg, run[|run| - 1], Pending(s, "", n - 1, values[n - 1]));
      run := PathsJoin(cfg, run, more);
    }
  }

  /** For every configuration, stream and list of chunks: at `i` all of them are stored and the replay up to
      the last succeeds, no row goes away, and at the end the seal up to it is about to commit. */
  lemma VerifiedSealIsReachable(cfg: Config, s: Stream, last: ChunkSeq, values: seq<Value>)
    returns (run: seq<State>, i: nat)
    requires |values| == last + 1
    ensures IsRun(cfg, run) && i < |run| - 1
    ensures Replays(run[i].chunks, s, last, values) && NoDelete(run, i, |run| - 1, s)
    ensures Enabled(cfg, run[|run| - 1], SealCommit(0))
    ensures s in run[|run| - 1].txns[0].declared && run[|run| - 1].txns[0].declared[s] == last
    ensures var after := Apply(cfg, run[|run| - 1], SealCommit(0));
            after.chunks == map[] && s in after.seals && after.seals[s].highWater == SaturatingSucc(last)
  {
    run := StoredRun(cfg, s, values, last + 1);
    i := |run| - 1;
    var st := run[i];
    var more, marker := SealMarkPath(cfg, st, s, UpTo(last));
    run := SteadyJoin(cfg, run, more);
    SteadyKeeps(run, i, s);
    VerifiedSealDropsNothing(cfg, run, i, |run| - 1, 0, s, last, values);
    assert forall a :: a in st.chunks ==> a in RowsOf(st.chunks, s).Keys;
  }

  /** Joining on a path that changes no chunks. */
  lemma {:induction false} SteadyJoin(cfg: Config, path: seq<State>, more: seq<State>) returns (all: seq<State>)
    requires IsPath(cfg, path) && IsPath(cfg, more) && more[0] == path[|path| - 1] && Steady(more)
    ensures IsPath(cfg, all) && path <= all && |all| == |path| + |more| - 1 && all[|all| - 1] == more[|more| - 1]
    ensures forall m :: |path| - 1 <= m < |all| ==> all[m].chunks == more[0].chunks
    decreases |more|
  {
    all := path;
    if |more| > 1 {
      assert StepAt(cfg, more, 0);
      all := PathStep(cfg, path, more[1]);
      PathRest(cfg, more);
      assert forall m :: 0 <= m < |more[1..]| ==> more[1..][m].chunks == more[0].chunks;
      all := SteadyJoin(cfg, all, more[1..]);
    }
  }

  lemma SteadyKeeps(run: seq<State>, i: nat, s: Stream)
    requires i < |run| && forall m :: i <= m < |run| ==> run[m].chunks == run[i].chunks
    ensures NoDelete(run, i, |run| - 1, s)
  {
    forall k | i <= k < |run| - 1 ensures KeepsRows(run[k], run[k + 1], s) {}
  }
}
