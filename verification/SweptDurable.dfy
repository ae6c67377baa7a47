/** The run that ends in a false Durable answer: a chunk is stored, grows older than the retention, is sent
    again, and a sweep takes it after the second flush has looked it up. */
module SweptDurable {
  import opened Basics
  import opened LaneStore
  import opened CommitSpec
  import opened LaneProtocol
  import opened LanePaths
  import opened LaneTheorems

  /** A flush of a frame that is already stored, up to its insert of nothing. */
  lemma DuplicatePath(cfg: Config, st: State, p: Pending) returns (path: seq<State>)
    requires Quiet(st) && p.stream !in st.seals && p.At() in st.chunks && st.chunks[p.At()].chunk == p.chunk
    ensures IsPath(cfg, path) && path[0] == st
    ensures path[|path| - 1] ==
            st.(txns := map[0 := Flush(st.now, [p], Inserted(Facts({p.stream}, map[], map[p.At() := p.chunk]), map[]))],
                locks := LocksFor(cfg, p.stream))
  {
    var facts := Facts({p.stream}, map[], map[p.At() := p.chunk]);
    path := FlushSeals(cfg, st, p);
    var seals := path[|path| - 1];
    SingleInsert(p, Facts({p.stream}, map[], map[]));
    assert Apply(cfg, seals, FlushReadRows(0)).txns[0].fpc.facts.existing == map[p.At() := p.chunk];
    var read := seals.(txns := map[0 := Flush(st.now, [p], RowsRead(facts))]);
    path := PathPush(cfg, path, FlushReadRows(0), read);
    NothingToInsert(p, facts);
    path := PathPush(cfg, path, FlushInsert(0), read.(txns := map[0 := Flush(st.now, [p], Inserted(facts, map[]))]));
  }

  lemma NothingToInsert(p: Pending, facts: Facts)
    requires facts == Facts({p.stream}, map[], map[p.At() := p.chunk])
    ensures Inserts([p], facts) == map[] && p.At() in Addresses([p])
    ensures Judge([p], facts, p.At()) == Some(Durable)
  {
    SingleInsert(p, Facts({p.stream}, map[], map[]));
    assert !Diverged([p], p.At());
    assert FirstChunk([p], p.At()) == p.chunk;
  }

  /** The lane holds the frame alone, and the clock has left the retention behind. */
  lemma AgedPath(cfg: Config, p: Pending) returns (path: seq<State>)
    ensures IsPath(cfg, path) && Init(cfg, path[0])
    ensures var st := path[|path| - 1];
            && Quiet(st) && st.seals == map[] && st.chunks == map[p.At() := Row(p.chunk, cfg.minTime)]
            && Cutoff(cfg, st.now) > cfg.minTime
  {
    var start := State(cfg.minTime, map[], map[], map[], map[], {});
    path := FlushPath(cfg, start, p);
    var stored := path[|path| - 1];
    path := PathPush(cfg, path, Tick(cfg.retention + 2000), stored.(now := stored.now + (cfg.retention + 2000)));
  }

  /** For every configuration and every frame a run from the empty store ends where a flush is about to
      answer it Durable and its commit leaves no row. */
  lemma FalseDurableIsReachable(cfg: Config, p: Pending) returns (run: seq<State>)
    ensures IsRun(cfg, run) && Enabled(cfg, run[|run| - 1], FlushCommit(0))
    ensures var st := run[|run| - 1];
            && st.txns[0].batch == [p] && p.At() in Addresses([p])
            && Judge([p], st.txns[0].fpc.facts, p.At()) == Some(Durable)
            && p.At() !in Apply(cfg, st, FlushCommit(0)).chunks
  {
    run := AgedPath(cfg, p);
    var more := DuplicatePath(cfg, run[|run| - 1], p);
    run := PathsJoin(cfg, run, more);
    var st := run[|run| - 1];
    NothingToInsert(p, st.txns[0].fpc.facts);
    var swept := SweepOutrunsDurable(cfg, st, 0, 1, p.At());
    var st1, st2 :| Step(cfg, st, st1) && Step(cfg, st1, st2) && Step(cfg, st2, swept);
    run := PathStep(cfg, run, st1);
    run := PathStep(cfg, run, st2);
    run := PathStep(cfg, run, swept);
  }
}
