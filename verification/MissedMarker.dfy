/** The run in which a straggler is submitted in time and still misses its stream's marker: the flush begins
    while the marker stands, and the marker expires and is swept before the flush looks for it. */
module MissedMarker {
  import opened Basics
  import opened LaneStore
  import opened CommitSpec
  import opened LaneProtocol
  import opened LanePaths
  import LaneInvariant
  import opened LaneTheorems

  /** A stream sealed at the first instant, from the empty store. */
  lemma SealedRun(cfg: Config, s: Stream) returns (run: seq<State>)
    ensures IsRun(cfg, run)
    ensures var st := run[|run| - 1];
            && Quiet(st) && st.now == cfg.minTime && st.chunks == map[]
            && s in st.seals && st.seals[s].sealedAt == cfg.minTime && (s, cfg.minTime) in st.sealLog
  {
    var start := State(cfg.minTime, map[], map[], map[], map[], {});
    run := SealPath(cfg, start, s, Current);
    LaneInvariant.RunKeeps(cfg, run, |run| - 1);
  }

  /** A frame is submitted to a flush, which takes the stream's lock. */
  lemma SubmittedRun(cfg: Config, run: seq<State>, p: Pending) returns (run': seq<State>)
    requires IsRun(cfg, run) && Quiet(run[|run| - 1])
    ensures IsRun(cfg, run') && run <= run' && |run| + 1 < |run'|
    ensures Enabled(cfg, run[|run| - 1], FlushBegin(0, [p], [p.stream]))
    ensures run'[|run|] == Apply(cfg, run[|run| - 1], FlushBegin(0, [p], [p.stream]))
    ensures var st := run[|run| - 1];
            run'[|run'| - 1] == st.(txns := map[0 := Flush(st.now, [p], Locking([], {p.stream}))],
                                    locks := LocksFor(cfg, p.stream))
  {
    var st, s := run[|run| - 1], p.stream;
    SingleInsert(p, Facts({s}, map[], map[]));
    assert (set u | u in [s]) == {s};
    var begun := st.(txns := map[0 := Flush(st.now, [p], Locking([s], {}))]);
    run' := PathPush(cfg, run, FlushBegin(0, [p], [s]), begun);
    assert [s][1..] == [] && {} + {s} == {s};
    run' := PathPush(cfg, run', FlushTryLock(0),
                     begun.(txns := map[0 := Flush(st.now, [p], Locking([], {s}))], locks := LocksFor(cfg, s)));
  }

  /** For every configuration, every accepted retention and every frame: the stream is sealed at one instant,
      and at `b`, at that very instant, with the marker standing, the frame is submitted. The flush then
      answers it Durable and stores it on the sealed stream. */
  lemma MissedMarkerIsReachable(cfg: Config, maxAge: nat, p: Pending) returns (run: seq<State>, b: nat)
    requires RetentionAccepted(maxAge, cfg.retention)
    ensures IsRun(cfg, run) && b + 1 < |run|
    ensures p.stream in run[b].seals && (p.stream, run[b].now) in run[b].sealLog
    ensures Enabled(cfg, run[b], FlushBegin(0, [p], [p.stream]))
    ensures run[b + 1] == Apply(cfg, run[b], FlushBegin(0, [p], [p.stream]))
    ensures Enabled(cfg, run[|run| - 1], FlushCommit(0))
    ensures var st := run[|run| - 1];
            && st.txns[0].batch == [p] && p.At() in Addresses([p])
            && Judge([p], st.txns[0].fpc.facts, p.At()) == Some(Durable)
            && p.At() in Apply(cfg, st, FlushCommit(0)).chunks
  {
    run := SealedRun(cfg, p.stream);
    b := |run| - 1;
    run := SubmittedRun(cfg, run, p);
    LongEnough(cfg, cfg.minTime);
    var more := SweepPath(cfg, run[|run| - 1], 1, p.stream, cfg.retention + 2000);
    run := PathsJoin(cfg, run, more);
    var swept := run[|run| - 1];
    var looked := swept.(txns := map[0 := Flush(cfg.minTime, [p], SealsRead({p.stream}, map[]))]);
    run := PathPush(cfg, run, FlushReadSeals(0), looked);
    more := InsertPath(cfg, looked, cfg.minTime, p);
    run := PathsJoin(cfg, run, more);
    SingleInsert(p, Facts({p.stream}, map[], map[]));
    assert !Diverged([p], p.At());
  }

  /** A retention shorter than the greatest age, by as little as a microsecond, is rightly refused: a frame
      published no later than its stream's seal is looked up within that age and finds no marker. */
  lemma ShortRetentionMisses(cfg: Config, maxAge: nat, p: Pending) returns (run: seq<State>)
    requires cfg.retention + 1000 <= maxAge
    ensures !RetentionAccepted(maxAge, cfg.retention)
    ensures IsRun(cfg, run) && Enabled(cfg, run[|run| - 1], FlushReadSeals(0))
    ensures var st := run[|run| - 1];
            && (p.stream, cfg.minTime) in st.sealLog && st.now <= cfg.minTime + maxAge
            && st.txns[0].batch == [p] && p.stream in st.txns[0].fpc.held
            && p.stream !in Apply(cfg, st, FlushReadSeals(0)).txns[0].fpc.sealed
  {
    run := SealedRun(cfg, p.stream);
    run := SubmittedRun(cfg, run, p);
    CutoffIsRetentionBefore(cfg, cfg.minTime + maxAge);
    var more := SweepPath(cfg, run[|run| - 1], 1, p.stream, maxAge);
    run := PathsJoin(cfg, run, more);
  }
}
