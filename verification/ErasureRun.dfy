/** An erasure from the first transaction to the last mark: a chunk is stored, a person's one slice touches its
    stream, the erase commits its row and its event, and a worker purges the stream and marks the row. */
module ErasureRun {
  import opened Basics
  import opened LaneStore
  import Lane = LaneProtocol
  import LanePaths
  import LaneTheorems
  import opened Erasure

  lemma Pushed(cfg: Lane.Config, run: seq<State>, act: Action, st: State) returns (run': seq<State>)
    requires IsRun(cfg, run) && Enabled(cfg, run[|run| - 1], act) && st == Apply(cfg, run[|run| - 1], act)
    ensures IsRun(cfg, run') && run' == run + [st] && run'[|run'| - 1] == st
  {
    run' := run + [st];
    forall i | 0 <= i < |run'| - 1 ensures StepAt(cfg, run', i) {
      if i < |run| - 1 {
        assert StepAt(cfg, run, i);
      } else {
        assert Step(cfg, run[|run| - 1], st);
      }
    }
  }

  /** The lane goes down a path while no worker is about. */
  lemma {:induction false} Followed(cfg: Lane.Config, run: seq<State>, path: seq<Lane.State>) returns (run': seq<State>)
    requires IsRun(cfg, run) && run[|run| - 1].workers == map[]
    requires LanePaths.IsPath(cfg, path) && run[|run| - 1].lane == path[0]
    ensures IsRun(cfg, run') && run <= run'
    ensures run'[|run'| - 1] == run[|run| - 1].(lane := path[|path| - 1])
    decreases |path|
  {
    run' := run;
    if |path| > 1 {
      assert Lane.StepAt(cfg, path, 0);
      var act :| Lane.Enabled(cfg, path[0], act) && path[1] == Lane.Apply(cfg, path[0], act);
      run' := Pushed(cfg, run, LaneStep(act), run[|run| - 1].(lane := path[1]));
      LanePaths.PathRest(cfg, path);
      run' := Followed(cfg, run', path[1..]);
    }
  }

  /** One chunk is stored. */
  lemma StoredRun(cfg: Lane.Config, s: Stream, v: Value) returns (run: seq<State>)
    ensures IsRun(cfg, run)
    ensures var st := run[|run| - 1];
            && LanePaths.Quiet(st.lane) && st.lane.now == cfg.minTime && st.lane.seals == map[]
            && st.lane.chunks == map[Address(s, 0) := Row(v, cfg.minTime)]
            && st == State(st.lane, map[], map[], map[], [], {})
  {
    var start := Lane.State(cfg.minTime, map[], map[], map[], map[], {});
    run := [State(start, map[], map[], map[], [], {})];
    var path := LanePaths.FlushPath(cfg, start, Pending(s, "", 0, v));
    run := Followed(cfg, run, path);
  }

  /** A first erase, open in the given phase. */
  ghost function Erasing(lane: Lane.State, person: Person, phase: Phase): State {
    State(lane, map[], map[0 := Erase(person, phase)], map[], [], {})
  }

  /** It records the person, and its one slice touches the stream. */
  lemma SlicedRun(cfg: Lane.Config, run: seq<State>, person: Person, s: Stream) returns (run': seq<State>)
    requires IsRun(cfg, run) && run[|run| - 1] == State(run[|run| - 1].lane, map[], map[], map[], [], {})
    ensures IsRun(cfg, run') && run <= run'
    ensures run'[|run'| - 1] == Erasing(run[|run| - 1].lane, person, Recorded(true, [s]))
  {
    var lane := run[|run| - 1].lane;
    run' := Pushed(cfg, run, EraseBegin(0, person), Erasing(lane, person, Begun));
    run' := Pushed(cfg, run', EraseRecord(0), Erasing(lane, person, Recorded(true, [])));
    assert [] + [s] == [s];
    run' := Pushed(cfg, run', EraseSlice(0, [s]), Erasing(lane, person, Recorded(true, [s])));
  }

  /** It stores its manifest, stages its event and commits. */
  lemma ErasedRun(cfg: Lane.Config, run: seq<State>, person: Person, s: Stream) returns (run': seq<State>)
    requires IsRun(cfg, run) && run[|run| - 1] == Erasing(run[|run| - 1].lane, person, Recorded(true, [s]))
    ensures IsRun(cfg, run') && run <= run'
    ensures run'[|run'| - 1] ==
            State(run[|run| - 1].lane, map[person := ErasureRow([s], false)], map[], map[], [person], {})
  {
    var lane := run[|run| - 1].lane;
    run' := Pushed(cfg, run, EraseStage(0), Erasing(lane, person, Staged(true, [s])));
    run' := Pushed(cfg, run', EraseCommit(0),
                   State(lane, map[person := ErasureRow([s], false)], map[], map[], [person], {}));
  }

  // ---- One purge ----

  /** The lane with one open purge that holds its stream's lock. */
  ghost function Purging(cfg: Lane.Config, lane: Lane.State, s: Stream, pc: Lane.PurgePc, dels: set<Address>)
    : Lane.State
  {
    lane.(txns := map[0 := Lane.Purge(s, lane.now, pc, dels)], locks := LanePaths.LocksFor(cfg, s))
  }

  lemma LockStep(cfg: Lane.Config, lane: Lane.State, s: Stream) returns (begun: Lane.State)
    requires LanePaths.Quiet(lane) && cfg.minTime <= lane.now
    ensures Lane.Enabled(cfg, lane, Lane.PurgeBegin(0, s, lane.now))
    ensures begun == Lane.Apply(cfg, lane, Lane.PurgeBegin(0, s, lane.now))
    ensures Lane.Enabled(cfg, begun, Lane.PurgeLock(0))
    ensures Lane.Apply(cfg, begun, Lane.PurgeLock(0)) == Purging(cfg, lane, s, Lane.PurgeHolds, {})
  {
    begun := Lane.Apply(cfg, lane, Lane.PurgeBegin(0, s, lane.now));
  }

  lemma UpsertStep(cfg: Lane.Config, lane: Lane.State, s: Stream) returns (marker: Marker)
    requires LanePaths.Quiet(lane) && Address(s, I64_MAX) !in lane.chunks
    ensures var locked := Purging(cfg, lane, s, Lane.PurgeHolds, {});
            && Lane.Enabled(cfg, locked, Lane.PurgeUpsert(0))
            && Lane.Apply(cfg, locked, Lane.PurgeUpsert(0)) == Purging(cfg, lane, s, Lane.PurgeUpserted(marker), {})
  {
    var locked := Purging(cfg, lane, s, Lane.PurgeHolds, {});
    LaneTheorems.UpsertsExactly(cfg, locked, 0);
    marker := Lane.PurgeUpserts(locked, 0).txns[0].ppc.marker;
  }

  /** The lane when the purge is about to commit. */
  ghost function Emptied(cfg: Lane.Config, lane: Lane.State, s: Stream, marker: Marker): Lane.State {
    Purging(cfg, lane, s, Lane.PurgeEmptied(marker), Lane.RowsOf(lane.chunks, s).Keys)
  }

  lemma EmptyStep(cfg: Lane.Config, lane: Lane.State, s: Stream, marker: Marker)
    ensures var upserted := Purging(cfg, lane, s, Lane.PurgeUpserted(marker), {});
            && Lane.Enabled(cfg, upserted, Lane.PurgeEmpty(0))
            && Lane.Apply(cfg, upserted, Lane.PurgeEmpty(0)) == Emptied(cfg, lane, s, marker)
  {
  }

  lemma CommitStep(cfg: Lane.Config, lane: Lane.State, s: Stream, marker: Marker)
    ensures var emptied := Emptied(cfg, lane, s, marker);
            && Lane.Enabled(cfg, emptied, Lane.PurgeCommit(0))
            && var done := Lane.Apply(cfg, emptied, Lane.PurgeCommit(0));
               done.chunks == lane.chunks - Lane.RowsOf(lane.chunks, s).Keys && s in done.seals
  {
  }

  /** The worker's state while it purges the one stream of the one row. */
  ghost function Working(lane: Lane.State, person: Person, s: Stream, txn: Option<Lane.TxId>): State {
    State(lane, map[person := ErasureRow([s], false)], map[], map[0 := Worker([Job(person, [s])], 0, txn)],
          [person], {})
  }

  /** A worker reads the pending row and takes the lock of its stream. */
  lemma StartedRun(cfg: Lane.Config, run: seq<State>, person: Person, s: Stream) returns (run': seq<State>)
    requires IsRun(cfg, run)
    requires run[|run| - 1] ==
             State(run[|run| - 1].lane, map[person := ErasureRow([s], false)], map[], map[], [person], {})
    requires LanePaths.Quiet(run[|run| - 1].lane) && cfg.minTime <= run[|run| - 1].lane.now
    ensures IsRun(cfg, run') && run <= run'
    ensures run'[|run'| - 1] ==
            Working(Purging(cfg, run[|run| - 1].lane, s, Lane.PurgeHolds, {}), person, s, Some(0))
  {
    var st := run[|run| - 1];
    var begun := LockStep(cfg, st.lane, s);
    run' := ReadRun(cfg, run, person, s);
    run' := Pushed(cfg, run', PurgeStart(0, 0, st.lane.now), Working(begun, person, s, Some(0)));
    run' := OwnedStep(cfg, run', Lane.PurgeLock(0), Purging(cfg, st.lane, s, Lane.PurgeHolds, {}));
  }

  lemma ReadRun(cfg: Lane.Config, run: seq<State>, person: Person, s: Stream) returns (run': seq<State>)
    requires IsRun(cfg, run)
    requires run[|run| - 1] ==
             State(run[|run| - 1].lane, map[person := ErasureRow([s], false)], map[], map[], [person], {})
    ensures IsRun(cfg, run') && run <= run' && run'[|run'| - 1] == Working(run[|run| - 1].lane, person, s, None)
  {
    var st := run[|run| - 1];
    assert Erasure.Pending(st, person);
    assert JobsOf(st, [person]) == [Job(person, [s])];
    run' := Pushed(cfg, run, WorkerRead(0, [person]), Working(st.lane, person, s, None));
  }

  /** It seals and empties the stream, and is about to commit. */
  lemma EmptiedRun(cfg: Lane.Config, run: seq<State>, lane: Lane.State, person: Person, s: Stream)
    returns (run': seq<State>, marker: Marker)
    requires IsRun(cfg, run) && LanePaths.Quiet(lane) && Address(s, I64_MAX) !in lane.chunks
    requires run[|run| - 1] == Working(Purging(cfg, lane, s, Lane.PurgeHolds, {}), person, s, Some(0))
    ensures IsRun(cfg, run') && run <= run'
    ensures run'[|run'| - 1] ==
            Working(Emptied(cfg, lane, s, marker), person, s, Some(0))
  {
    marker := UpsertStep(cfg, lane, s);
    EmptyStep(cfg, lane, s, marker);
    run' := OwnedStep(cfg, run, Lane.PurgeUpsert(0), Purging(cfg, lane, s, Lane.PurgeUpserted(marker), {}));
    run' := OwnedStep(cfg, run', Lane.PurgeEmpty(0), Emptied(cfg, lane, s, marker));
  }

  /** It commits and marks the row. */
  lemma MarkedRun(cfg: Lane.Config, run: seq<State>, lane: Lane.State, person: Person, s: Stream, marker: Marker)
    returns (run': seq<State>)
    requires IsRun(cfg, run)
    requires run[|run| - 1] ==
             Working(Emptied(cfg, lane, s, marker), person, s, Some(0))
    ensures IsRun(cfg, run') && run <= run'
    ensures var st := run'[|run'| - 1];
            && st.rows == map[person := ErasureRow([s], true)] && st.outbox == [person]
            && st.lane.chunks == lane.chunks - Lane.RowsOf(lane.chunks, s).Keys && s in st.lane.seals
  {
    CommitStep(cfg, lane, s, marker);
    run' := FinishedRun(cfg, run, person, s);
    var after := run'[|run'| - 1];
    assert Erasure.Pending(after, person);
    run' := Pushed(cfg, run', WorkerMark(0), Apply(cfg, after, WorkerMark(0)));
  }

  lemma FinishedRun(cfg: Lane.Config, run: seq<State>, person: Person, s: Stream) returns (run': seq<State>)
    requires IsRun(cfg, run) && run[|run| - 1] == Working(run[|run| - 1].lane, person, s, Some(0))
    requires Lane.Enabled(cfg, run[|run| - 1].lane, Lane.PurgeCommit(0))
    ensures IsRun(cfg, run') && run <= run'
    ensures run'[|run'| - 1] ==
            State(Lane.Apply(cfg, run[|run| - 1].lane, Lane.PurgeCommit(0)), map[person := ErasureRow([s], false)],
                  map[], map[0 := Worker([Job(person, [s])], 1, None)], [person], {(person, s)})
  {
    assert {} + {(person, s)} == {(person, s)};
    run' := Pushed(cfg, run, PurgeFinish(0), Apply(cfg, run[|run| - 1], PurgeFinish(0)));
  }

  /** A lane step that ends no transaction may be taken whoever owns one. */
  lemma OwnedStep(cfg: Lane.Config, run: seq<State>, act: Lane.Action, lane: Lane.State) returns (run': seq<State>)
    requires IsRun(cfg, run) && Lane.Enabled(cfg, run[|run| - 1].lane, act) && !act.PurgeCommit? && !act.Abort?
    requires lane == Lane.Apply(cfg, run[|run| - 1].lane, act)
    ensures IsRun(cfg, run') && run <= run' && run'[|run'| - 1] == run[|run| - 1].(lane := lane)
  {
    run' := Pushed(cfg, run, LaneStep(act), run[|run| - 1].(lane := lane));
  }

  /** For every configuration, person, stream and chunk: the chunk is stored at `i`, and at the end the person's
      event is staged, the row is marked purged, the stream is sealed and the chunk is gone. */
  lemma CompleteErasureIsReachable(cfg: Lane.Config, person: Person, s: Stream, v: Value)
    returns (run: seq<State>, i: nat)
    ensures IsRun(cfg, run) && i < |run| && Address(s, 0) in run[i].lane.chunks && person !in run[i].rows
    ensures var st := run[|run| - 1];
            && st.rows == map[person := ErasureRow([s], true)] && st.outbox == [person]
            && s in st.lane.seals && st.lane.chunks == map[]
  {
    run := StoredRun(cfg, s, v);
    i := |run| - 1;
    var lane := run[i].lane;
    run := SlicedRun(cfg, run, person, s);
    run := ErasedRun(cfg, run, person, s);
    run := StartedRun(cfg, run, person, s);
    var marker;
    run, marker := EmptiedRun(cfg, run, lane, person, s);
    run := MarkedRun(cfg, run, lane, person, s, marker);
    assert Lane.RowsOf(lane.chunks, s).Keys == {Address(s, 0)};
  }
}
