/** The durable purge as one worker performs it: each stream in a transaction of its own, each person
    marked when all is done, everything safe to do again. */
module Purge {
  import opened Basics
  import opened LaneStore
  import opened LaneProtocol
  import LaneInvariant
  import LaneTheorems
  import Erasure

  type Person = Erasure.Person
  type ErasureRow = Erasure.ErasureRow

  datatype Tables = Tables(chunks: map<Address, Row>, seals: map<Stream, Marker>)

  // ---- One stream ----

  /** `MAX(seq) + 1` fits a `bigint`. */
  ghost predicate Purgeable(x: Tables, s: Stream) {
    MaxNumber(x.chunks, s) != Some(I64_MAX)
  }

  /** A stream can be purged exactly when it has no row at the greatest sequence. */
  lemma PurgeableExactly(x: Tables, s: Stream)
    ensures Purgeable(x, s) <==> Address(s, I64_MAX) !in x.chunks
  {
    var max := MaxNumber(x.chunks, s);
    if max == Some(I64_MAX) {
      var a :| a in x.chunks && a.stream == s && a.number == I64_MAX;
      assert a == Address(s, I64_MAX);
    }
    if Address(s, I64_MAX) in x.chunks {
      assert Address(s, I64_MAX) in RowsOf(x.chunks, s);
    }
  }

  /** The high water is not negative, lies above every row and not below the standing marker, and is the least
      number that does. */
  lemma NewHighIsLeast(x: Tables, s: Stream, high: int)
    ensures CoversAll(x, s, NewHigh(x, s))
    ensures CoversAll(x, s, high) ==> NewHigh(x, s) <= high
  {
    var max := MaxNumber(x.chunks, s);
    if max.None? {
      forall a | a in x.chunks ensures a.stream != s {
        assert a in RowsOf(x.chunks, s) <==> a.stream == s;
      }
    } else {
      var a :| a in x.chunks && a.stream == s && a.number == max.value;
    }
  }

  ghost predicate CoversAll(x: Tables, s: Stream, high: int) {
    && 0 <= high && (forall a :: a in x.chunks && a.stream == s ==> a.number < high)
    && (s in x.seals ==> x.seals[s].highWater <= high)
  }

  ghost predicate AllPurgeable(x: Tables, streams: set<Stream>) {
    forall s :: s in streams ==> Purgeable(x, s)
  }

  ghost function NewHigh(x: Tables, s: Stream): int {
    var max := MaxNumber(x.chunks, s);
    var above := if max.None? then 0 else max.value + 1;
    if s in x.seals then Max(above, x.seals[s].highWater) else above
  }

  ghost function PurgedOne(x: Tables, s: Stream, at: int): Tables {
    Tables(map a | a in x.chunks && a.stream != s :: x.chunks[a],
           x.seals[s := MarkerOf(x, s, at)])
  }

  /** The streams in order; the first that cannot be purged ends it. */
  ghost function Purged(x: Tables, streams: seq<Stream>, at: int): (Tables, bool)
    decreases |streams|
  {
    if streams == [] then (x, true)
    else if !Purgeable(x, streams[0]) then (x, false)
    else Purged(PurgedOne(x, streams[0], at), streams[1..], at)
  }

  ghost function MarkerOf(x: Tables, s: Stream, at: int): Marker {
    Marker(NewHigh(x, s), if s in x.seals then x.seals[s].sealedAt else at, false)
  }

  /** The purge `t` has upserted that marker for the stream. */
  ghost predicate Upserted(st: LaneProtocol.State, t: TxId, s: Stream, at: int, marker: Marker) {
    && HasMarker(st, t)
    && st.txns[t].stream == s && st.txns[t].purgeAt == at && st.txns[t].ppc.marker == marker
  }

  lemma UpsertStep(cfg: Config, st: LaneProtocol.State, act: Action, t: TxId, s: Stream, at: int, marker: Marker)
    requires LaneProtocol.Enabled(cfg, st, act) && Upserted(LaneProtocol.Apply(cfg, st, act), t, s, at, marker)
    ensures || Upserted(st, t, s, at, marker)
            || (act == PurgeUpsert(t) && st.txns[t].stream == s && st.txns[t].purgeAt == at
                && marker == MarkerOf(Tables(st.chunks, st.seals), s, at))
  {
    if act == PurgeUpsert(t) {
      UpsertSets(cfg, st, t);
    } else {
      OtherPurges(cfg, st, act, t);
    }
  }

  lemma UpsertSets(cfg: Config, st: LaneProtocol.State, t: TxId)
    requires LaneProtocol.Enabled(cfg, st, PurgeUpsert(t))
    ensures var p := st.txns[t];
            LaneProtocol.Apply(cfg, st, PurgeUpsert(t)).txns[t] ==
            p.(ppc := PurgeUpserted(MarkerOf(Tables(st.chunks, st.seals), p.stream, p.purgeAt)))
  {
  }

  /** No other step gives a purge a marker. */
  lemma OtherPurges(cfg: Config, st: LaneProtocol.State, act: Action, t: TxId)
    requires LaneProtocol.Enabled(cfg, st, act) && act != PurgeUpsert(t)
    requires HasMarker(LaneProtocol.Apply(cfg, st, act), t)
    ensures HasMarker(st, t)
    ensures var p, p' := st.txns[t], LaneProtocol.Apply(cfg, st, act).txns[t];
            p'.ppc.marker == p.ppc.marker && p'.stream == p.stream && p'.purgeAt == p.purgeAt
  {
    if LaneTheorems.OfFlush(act) {
      FlushSparesPurge(cfg, st, act, t);
    } else if LaneTheorems.OfSeal(act) {
      SealSparesPurge(cfg, st, act, t);
    }
  }

  ghost predicate HasMarker(st: LaneProtocol.State, t: TxId) {
    InPurge(st, t) && (st.txns[t].ppc.PurgeUpserted? || st.txns[t].ppc.PurgeEmptied?)
  }

  lemma FlushSparesPurge(cfg: Config, st: LaneProtocol.State, act: Action, t: TxId)
    requires LaneProtocol.Enabled(cfg, st, act) && LaneTheorems.OfFlush(act)
    requires InPurge(LaneProtocol.Apply(cfg, st, act), t)
    ensures InPurge(st, t) && LaneProtocol.Apply(cfg, st, act).txns[t] == st.txns[t]
  {
  }

  lemma SealSparesPurge(cfg: Config, st: LaneProtocol.State, act: Action, t: TxId)
    requires LaneProtocol.Enabled(cfg, st, act) && LaneTheorems.OfSeal(act)
    requires InPurge(LaneProtocol.Apply(cfg, st, act), t)
    ensures InPurge(st, t) && LaneProtocol.Apply(cfg, st, act).txns[t] == st.txns[t]
  {
  }

  /** Where in the run a purge upserted its marker: that of one purge of the stream as it then was. */
  lemma {:induction false} UpsertOf(cfg: Config, run: seq<LaneProtocol.State>, i: nat, t: TxId, s: Stream, at: int,
                                    marker: Marker) returns (j: nat)
    requires LaneProtocol.IsRun(cfg, run) && i < |run| && Upserted(run[i], t, s, at, marker)
    ensures j < i && LaneProtocol.Enabled(cfg, run[j], PurgeUpsert(t)) && run[j].txns[t].stream == s
    ensures marker == MarkerOf(Tables(run[j].chunks, run[j].seals), s, at)
  {
    var act := LaneProtocol.ActionAt(cfg, run, i - 1);
    UpsertStep(cfg, run[i - 1], act, t, s, at, marker);
    if Upserted(run[i - 1], t, s, at, marker) {
      j := UpsertOf(cfg, run, i - 1, t, s, at, marker);
    } else {
      j := i - 1;
    }
  }

  /** In every run, whatever was swept while the transaction was open: its commit empties exactly its stream
      and sets exactly its marker, to the one a purge sets on the tables as they were at its upsert, at `j`.
      The high water is no lower than for the tables at the commit, and with a marker standing the commit is
      the purge of that one stream in full. */
  lemma LanePurgeInRuns(cfg: Config, run: seq<LaneProtocol.State>, i: nat, t: TxId) returns (j: nat)
    requires LaneProtocol.IsRun(cfg, run) && i < |run| && LaneProtocol.Enabled(cfg, run[i], PurgeCommit(t))
    ensures j < i && LaneProtocol.Enabled(cfg, run[j], PurgeUpsert(t)) && run[j].txns[t].stream == run[i].txns[t].stream
    ensures var s, at := run[i].txns[t].stream, run[i].txns[t].purgeAt;
            var done := LaneProtocol.Apply(cfg, run[i], PurgeCommit(t));
            var one := PurgedOne(Tables(run[i].chunks, run[i].seals), s, at);
            && done.chunks == one.chunks
            && done.seals == run[i].seals[s := MarkerOf(Tables(run[j].chunks, run[j].seals), s, at)]
            && done.seals[s].highWater >= one.seals[s].highWater
            && (s in run[i].seals ==> done.seals == one.seals)
  {
    var p := run[i].txns[t];
    j := UpsertOf(cfg, run, i, t, p.stream, p.purgeAt, p.ppc.marker);
    LaneInvariant.RunKeeps(cfg, run, i);
    CommitPurges(cfg, run[i], t);
  }

  lemma CommitPurges(cfg: Config, st: LaneProtocol.State, t: TxId)
    requires LaneInvariant.Inv(cfg, st) && LaneProtocol.Enabled(cfg, st, PurgeCommit(t))
    ensures var s := st.txns[t].stream;
            var done := LaneProtocol.Apply(cfg, st, PurgeCommit(t));
            var one := PurgedOne(Tables(st.chunks, st.seals), s, st.txns[t].purgeAt);
            && done.chunks == one.chunks && done.seals == st.seals[s := st.txns[t].ppc.marker]
            && done.seals[s].highWater >= one.seals[s].highWater
            && (s in st.seals ==> done.seals == one.seals)
  {
    var p := st.txns[t];
    assert LaneInvariant.TxOk(cfg, st, t);
    SameRows(st.chunks - p.pdels, PurgedOne(Tables(st.chunks, st.seals), p.stream, p.purgeAt).chunks);
    if p.stream in st.seals {
      assert RowsOf(st.chunks, p.stream) == map[];
    }
  }

  // ---- What a purge leaves ----

  /** The streams are sealed and empty, with a high water above every row they had and not below the one
      they had; a standing marker keeps its instant; all else is as before. */
  ghost predicate IsPurged(x: Tables, x': Tables, streams: set<Stream>, at: int) {
    && (forall a :: a in x'.chunks <==> a in x.chunks && a.stream !in streams)
    && (forall a :: a in x'.chunks ==> x'.chunks[a] == x.chunks[a])
    && (forall s :: s in x'.seals <==> s in x.seals || s in streams)
    && (forall s :: s in x'.seals ==> x'.seals[s] == MarkerAfter(x, streams, at, s))
  }

  ghost function MarkerAfter(x: Tables, streams: set<Stream>, at: int, s: Stream): Marker
    requires s in x.seals || s in streams
  {
    if s in streams then MarkerOf(x, s, at)
    else x.seals[s]
  }

  ghost function Named(streams: seq<Stream>): set<Stream> {
    set s | s in streams
  }

  lemma SameMax(chunks: map<Address, Row>, chunks': map<Address, Row>, s: Stream)
    requires forall a: Address :: a.stream == s ==> (a in chunks <==> a in chunks')
    ensures MaxNumber(chunks, s) == MaxNumber(chunks', s)
  {
    var m, m' := MaxNumber(chunks, s), MaxNumber(chunks', s);
    if RowsOf(chunks, s) == map[] {
      assert forall a :: a in RowsOf(chunks', s) ==> a in RowsOf(chunks, s);
    } else {
      var a :| a in RowsOf(chunks, s);
      assert a in RowsOf(chunks', s);
    }
  }

  lemma OnePurged(x: Tables, s: Stream, at: int)
    ensures IsPurged(x, PurgedOne(x, s, at), {s}, at)
  {
  }

  /** A purge leaves every other stream as purgeable as it was, and its own empty. */
  lemma HighAfter(x: Tables, x': Tables, streams: set<Stream>, at: int, s: Stream)
    requires IsPurged(x, x', streams, at) && AllPurgeable(x, streams)
    ensures NewHigh(x', s) == NewHigh(x, s)
    ensures Purgeable(x', s) <==> Purgeable(x, s)
  {
    if s in streams {
      assert RowsOf(x'.chunks, s) == map[];
    } else {
      SameMax(x.chunks, x'.chunks, s);
    }
  }

  lemma Chained(x: Tables, y: Tables, z: Tables, first: Stream, rest: set<Stream>, at: int)
    requires IsPurged(x, y, {first}, at) && IsPurged(y, z, rest, at) && Purgeable(x, first)
    ensures IsPurged(x, z, {first} + rest, at)
  {
    forall s | s in z.seals ensures z.seals[s] == MarkerAfter(x, {first} + rest, at, s) {
      HighAfter(x, y, {first}, at, s);
    }
  }

  lemma PurgeableBefore(x: Tables, y: Tables, first: Stream, rest: set<Stream>, at: int)
    requires IsPurged(x, y, {first}, at) && Purgeable(x, first) && AllPurgeable(y, rest)
    ensures AllPurgeable(x, {first} + rest)
  {
    forall s | s in rest ensures Purgeable(x, s) {
      HighAfter(x, y, {first}, at, s);
    }
  }

  /** A purge of the list gets through its first `n` streams and leaves them purged; it succeeds exactly
      when that is all of them, and otherwise the next one could not be purged to begin with. */
  ghost predicate Reaches(x: Tables, after: (Tables, bool), streams: seq<Stream>, n: nat, at: int) {
    && n <= |streams| && IsPurged(x, after.0, Named(streams[..n]), at) && AllPurgeable(x, Named(streams[..n]))
    && (after.1 <==> n == |streams|)
    && (n < |streams| ==> !Purgeable(x, streams[n]))
  }

  lemma ReachesPush(x: Tables, y: Tables, after: (Tables, bool), streams: seq<Stream>, n: nat, at: int)
    requires streams != [] && Purgeable(x, streams[0]) && IsPurged(x, y, {streams[0]}, at)
    requires Reaches(y, after, streams[1..], n, at)
    ensures Reaches(x, after, streams, n + 1, at)
  {
    var rest := streams[1..];
    Chained(x, y, after.0, streams[0], Named(rest[..n]), at);
    PurgeableBefore(x, y, streams[0], Named(rest[..n]), at);
    NamedPush(streams, n + 1);
    if n < |rest| {
      HighAfter(x, y, {streams[0]}, at, rest[n]);
    }
  }

  lemma NoneReached(x: Tables, streams: seq<Stream>, at: int)
    requires streams == [] || !Purgeable(x, streams[0])
    ensures Reaches(x, (x, streams == []), streams, 0, at)
  {
    assert Named(streams[..0]) == {};
  }

  lemma {:induction false} PurgeMeets(x: Tables, streams: seq<Stream>, at: int) returns (n: nat)
    ensures Reaches(x, Purged(x, streams, at), streams, n, at)
    decreases |streams|
  {
    if streams == [] || !Purgeable(x, streams[0]) {
      n := 0;
      NoneReached(x, streams, at);
    } else {
      var y := PurgedOne(x, streams[0], at);
      OnePurged(x, streams[0], at);
      var m := PurgeMeets(y, streams[1..], at);
      ReachesPush(x, y, Purged(y, streams[1..], at), streams, m, at);
      n := m + 1;
    }
  }

  lemma NamedPush(streams: seq<Stream>, n: nat)
    requires 0 < n <= |streams|
    ensures Named(streams[..n]) == {streams[0]} + Named(streams[1..][..n - 1])
  {
    assert streams[..n] == [streams[0]] + streams[1..][..n - 1];
  }

  // ---- Doing it again ----

  /** Equal but for the instants at which new markers were set. */
  ghost predicate SameOutcome(x: Tables, y: Tables) {
    && x.chunks == y.chunks
    && (forall s :: s in x.seals <==> s in y.seals)
    && (forall s :: s in x.seals ==>
          x.seals[s].highWater == y.seals[s].highWater && x.seals[s].purged == y.seals[s].purged)
  }

  /** A purge that stopped anywhere, and is then done again from the start at a later instant, ends as an
      uninterrupted one, whether it gets through or not: same rows, same markers and high waters. */
  lemma RedoChangesNothing(x: Tables, streams: seq<Stream>, k: nat, at: int, later: int)
    requires k <= |streams|
    ensures var part := Purged(x, streams[..k], at).0;
            && Purged(part, streams, later).1 == Purged(x, streams, at).1
            && SameOutcome(Purged(part, streams, later).0, Purged(x, streams, at).0)
  {
    var part := Purged(x, streams[..k], at).0;
    var m := PurgeMeets(x, streams[..k], at);
    var n := PurgeMeets(x, streams, at);
    var r := PurgeMeets(part, streams, later);
    assert streams[..k][..m] == streams[..m];
    AlikeAfter(x, part, Named(streams[..m]), at);
    NotBeyond(x, streams, m, n);
    SameReach(x, part, streams, n, r);
    Redone(x, part, Purged(part, streams, later).0, Purged(x, streams, at).0, Named(streams[..m]), Named(streams[..n]),
           at, later);
  }

  /** The same streams can be purged, to the same high waters. */
  ghost predicate Alike(x: Tables, y: Tables) {
    forall s :: (Purgeable(y, s) <==> Purgeable(x, s)) && NewHigh(y, s) == NewHigh(x, s)
  }

  lemma AlikeAfter(x: Tables, y: Tables, streams: set<Stream>, at: int)
    requires IsPurged(x, y, streams, at) && AllPurgeable(x, streams)
    ensures Alike(x, y)
  {
    forall s ensures (Purgeable(y, s) <==> Purgeable(x, s)) && NewHigh(y, s) == NewHigh(x, s) {
      HighAfter(x, y, streams, at, s);
    }
  }

  /** The first `n` streams can be purged, and the next one, if there is one, cannot. */
  ghost predicate PurgeableUpTo(x: Tables, streams: seq<Stream>, n: nat) {
    n <= |streams| && AllPurgeable(x, Named(streams[..n])) && (n < |streams| ==> !Purgeable(x, streams[n]))
  }

  lemma InNamed(streams: seq<Stream>, m: nat, n: nat)
    requires n < m <= |streams|
    ensures streams[n] in Named(streams[..m])
  {
    assert streams[..m][n] == streams[n];
  }

  /** No stretch of purgeable streams reaches past one that is not. */
  lemma NotBeyond(x: Tables, streams: seq<Stream>, m: nat, n: nat)
    requires m <= |streams| && AllPurgeable(x, Named(streams[..m])) && PurgeableUpTo(x, streams, n)
    ensures m <= n && Named(streams[..m]) <= Named(streams[..n])
  {
    if n < m {
      InNamed(streams, m, n);
    } else {
      assert streams[..m] == streams[..n][..m];
    }
  }

  lemma SameReach(x: Tables, y: Tables, streams: seq<Stream>, n: nat, r: nat)
    requires Alike(x, y) && PurgeableUpTo(x, streams, n) && PurgeableUpTo(y, streams, r)
    ensures n == r
  {
    NotBeyond(x, streams, r, n);
    NotBeyond(y, streams, n, r);
  }

  lemma Redone(x: Tables, part: Tables, again: Tables, once: Tables, done: set<Stream>, streams: set<Stream>, at: int,
               later: int)
    requires IsPurged(x, part, done, at) && IsPurged(part, again, streams, later) && IsPurged(x, once, streams, at)
    requires done <= streams && Alike(x, part)
    ensures SameOutcome(again, once)
  {
    forall a | a in again.chunks ensures a in once.chunks && again.chunks[a] == once.chunks[a] {
      assert a in part.chunks;
    }
    forall a | a in once.chunks ensures a in again.chunks {
      assert a in part.chunks;
    }
    SameRows(again.chunks, once.chunks);
    forall s ensures s in again.seals <==> s in once.seals {
      assert s in part.seals <==> s in x.seals || s in done;
    }
    forall s | s in again.seals
      ensures again.seals[s].highWater == once.seals[s].highWater && again.seals[s].purged == once.seals[s].purged
    {
      SameMarker(x, part, again, once, done, streams, at, later, s);
    }
  }

  lemma SameMarker(x: Tables, part: Tables, again: Tables, once: Tables, done: set<Stream>, streams: set<Stream>,
                   at: int, later: int, s: Stream)
    requires IsPurged(x, part, done, at) && IsPurged(part, again, streams, later) && IsPurged(x, once, streams, at)
    requires done <= streams && NewHigh(part, s) == NewHigh(x, s) && s in again.seals && s in once.seals
    ensures again.seals[s].highWater == once.seals[s].highWater && again.seals[s].purged == once.seals[s].purged
  {
    assert again.seals[s] == MarkerAfter(part, streams, later, s);
    assert once.seals[s] == MarkerAfter(x, streams, at, s);
    if s !in streams {
      assert part.seals[s] == MarkerAfter(x, done, at, s);
    }
  }

  lemma SameRows(a: map<Address, Row>, b: map<Address, Row>)
    requires forall x :: x in a <==> x in b
    requires forall x :: x in a ==> a[x] == b[x]
    ensures a == b
  {
  }

  // ---- One person after another ----

  /** Everything the person's row names can be purged. */
  ghost predicate Completes(x: Tables, row: ErasureRow, person: Person, outside: set<Person>) {
    person in outside && AllPurgeable(x, Named(row.manifest))
  }

  /** The pending rows in order; the first that fails ends it, with its streams purged as far as that got. */
  ghost function Drained(x: Tables, rows: map<Person, ErasureRow>, pending: seq<Person>, at: seq<int>,
                         outside: set<Person>)
    : (Tables, nat)
    requires |at| == |pending| && forall i :: 0 <= i < |pending| ==> pending[i] in rows
    decreases |pending|
  {
    if pending == [] then (x, 0)
    else
      var after := Purged(x, rows[pending[0]].manifest, at[0]);
      if !after.1 || pending[0] !in outside then (after.0, 0)
      else
        var rest := Drained(after.0, rows, pending[1..], at[1..], outside);
        (rest.0, rest.1 + 1)
  }

  ghost function DrainedFrom(x: Tables, rows: map<Person, ErasureRow>, pending: seq<Person>, at: seq<int>,
                             outside: set<Person>, c: nat): (Tables, nat)
    requires c <= |pending| && |at| == |pending| && forall i :: 0 <= i < |pending| ==> pending[i] in rows
  {
    Drained(x, rows, pending[c..], at[c..], outside)
  }

  ghost function Later(rest: (Tables, nat), n: nat): (Tables, nat) {
    (rest.0, rest.1 + n)
  }

  /** What is left to drain, one row on. */
  lemma DrainStep(all: (Tables, nat), x: Tables, rows: map<Person, ErasureRow>, pending: seq<Person>, at: seq<int>,
                  outside: set<Person>, c: nat)
    requires c < |pending| && |at| == |pending| && forall i :: 0 <= i < |pending| ==> pending[i] in rows
    requires all == Later(DrainedFrom(x, rows, pending, at, outside, c), c)
    ensures var after := Purged(x, rows[pending[c]].manifest, at[c]);
            all == if !after.1 || pending[c] !in outside then (after.0, c)
                   else Later(DrainedFrom(after.0, rows, pending, at, outside, c + 1), c + 1)
  {
    assert pending[c..][1..] == pending[c + 1..] && at[c..][1..] == at[c + 1..];
  }

  lemma PurgedIffAllPurgeable(x: Tables, streams: seq<Stream>, at: int)
    ensures Purged(x, streams, at).1 <==> AllPurgeable(x, Named(streams))
    ensures Alike(x, Purged(x, streams, at).0)
    ensures Purged(x, streams, at).1 ==> IsPurged(x, Purged(x, streams, at).0, Named(streams), at)
    ensures forall s :: ClosedIn(x, s) ==> ClosedIn(Purged(x, streams, at).0, s)
  {
    var n := PurgeMeets(x, streams, at);
    if n == |streams| {
      assert streams[..n] == streams;
    } else {
      assert streams[n] in Named(streams);
    }
    AlikeAfter(x, Purged(x, streams, at).0, Named(streams[..n]), at);
  }

  /** A marker stands for the stream and no row of it is left. */
  ghost predicate ClosedIn(x: Tables, s: Stream) {
    s in x.seals && forall a :: a in x.chunks ==> a.stream != s
  }

  ghost predicate AllClosed(x: Tables, streams: seq<Stream>) {
    forall s :: s in streams ==> ClosedIn(x, s)
  }

  /** A drain opens nothing, and closes every stream of the rows it completes. */
  lemma {:induction false} DrainCloses(x: Tables, rows: map<Person, ErasureRow>, pending: seq<Person>, at: seq<int>,
                                       outside: set<Person>)
    requires |at| == |pending| && forall i :: 0 <= i < |pending| ==> pending[i] in rows
    ensures var d := Drained(x, rows, pending, at, outside);
            && d.1 <= |pending|
            && (forall s :: ClosedIn(x, s) ==> ClosedIn(d.0, s))
            && (forall i :: 0 <= i < d.1 ==> AllClosed(d.0, rows[pending[i]].manifest))
    decreases |pending|
  {
    if pending != [] {
      var first := rows[pending[0]].manifest;
      PurgedIffAllPurgeable(x, first, at[0]);
      var after := Purged(x, first, at[0]);
      if after.1 && pending[0] in outside {
        DrainCloses(after.0, rows, pending[1..], at[1..], outside);
        var d := Drained(x, rows, pending, at, outside);
        forall i | 0 <= i < d.1 ensures AllClosed(d.0, rows[pending[i]].manifest) {
          if i > 0 {
            assert pending[1..][i - 1] == pending[i];
          }
        }
      }
    }
  }

  lemma SameCompletion(x: Tables, y: Tables, row: ErasureRow, person: Person, outside: set<Person>)
    requires Alike(x, y)
    ensures Completes(y, row, person, outside) <==> Completes(x, row, person, outside)
  {
  }

  /** A drain completes exactly the longest run of rows, from the first, all of whose streams could be
      purged to begin with and whose other purges go through. */
  lemma {:induction false} DrainStopsAtFirstFailure(x: Tables, rows: map<Person, ErasureRow>, pending: seq<Person>,
                                                    at: seq<int>, outside: set<Person>)
    requires |at| == |pending| && forall i :: 0 <= i < |pending| ==> pending[i] in rows
    ensures var n := Drained(x, rows, pending, at, outside).1;
            && n <= |pending|
            && (forall i :: 0 <= i < n ==> Completes(x, rows[pending[i]], pending[i], outside))
            && (n < |pending| ==> !Completes(x, rows[pending[n]], pending[n], outside))
    decreases |pending|
  {
    if pending != [] {
      var first := rows[pending[0]].manifest;
      PurgedIffAllPurgeable(x, first, at[0]);
      var y := Purged(x, first, at[0]).0;
      if Completes(x, rows[pending[0]], pending[0], outside) {
        DrainStopsAtFirstFailure(y, rows, pending[1..], at[1..], outside);
        forall i | 0 <= i < |pending| ensures Completes(y, rows[pending[i]], pending[i], outside)
                                              <==> Completes(x, rows[pending[i]], pending[i], outside)
        {
          SameCompletion(x, y, rows[pending[i]], pending[i], outside);
        }
        var n := Drained(y, rows, pending[1..], at[1..], outside).1;
        forall i | 0 <= i < n + 1 ensures Completes(x, rows[pending[i]], pending[i], outside) {
          if i > 0 {
            assert pending[1..][i - 1] == pending[i];
          }
        }
      }
    }
  }

  // ---- The worker ----

  class Store {
    var chunks: map<Address, Row>
    var seals: map<Stream, Marker>
    var rows: map<Person, ErasureRow>

    ghost function View(): Tables
      reads this
    {
      Tables(chunks, seals)
    }

    /** `MAX(seq)` of a stream. */
    method MaxSeq(s: Stream) returns (max: Option<int>)
      ensures max == MaxNumber(chunks, s)
    {
      max := None;
      var left := chunks.Keys;
      while left != {}
        invariant left <= chunks.Keys
        invariant max.None? ==> forall a :: a in chunks && a !in left ==> a.stream != s
        invariant max.Some? ==> exists a :: a in chunks && a.stream == s && a.number == max.value
        invariant max.Some? ==> forall a :: a in chunks && a !in left && a.stream == s ==> a.number <= max.value
        decreases left
      {
        var a :| a in left;
        if a.stream == s && (max.None? || max.value < a.number) {
          max := Some(a.number);
        }
        left := left - {a};
      }
      MaxIs(chunks, s, max);
    }

    static lemma MaxIs(chunks: map<Address, Row>, s: Stream, max: Option<int>)
      requires max.None? ==> forall a :: a in chunks ==> a.stream != s
      requires max.Some? ==> IsMax(chunks, s, max.value)
      ensures max == MaxNumber(chunks, s)
    {
      if max.None? {
        assert RowsOf(chunks, s) == map[];
      } else {
        var a :| a in chunks && a.stream == s && a.number == max.value;
        assert a in RowsOf(chunks, s);
      }
    }

    /** One stream's transaction: seal or raise, empty, commit. An overflowing high water rolls it back. */
    method PurgeStream(s: Stream, at: int) returns (ok: bool)
      modifies this`chunks, this`seals
      ensures ok == Purgeable(old(View()), s)
      ensures View() == if ok then PurgedOne(old(View()), s, at) else old(View())
    {
      var max := MaxSeq(s);
      if max == Some(I64_MAX) {
        return false;
      }
      var above := if max.None? then 0 else max.value + 1;
      if s in seals {
        seals := seals[s := seals[s].(highWater := Max(above, seals[s].highWater), purged := false)];
      } else {
        seals := seals[s := Marker(above, at, false)];
      }
      chunks := map a | a in chunks && a.stream != s :: chunks[a];
      ok := true;
    }

    method PurgeStreams(streams: seq<Stream>, at: int) returns (ok: bool)
      modifies this`chunks, this`seals
      ensures (View(), ok) == Purged(old(View()), streams, at)
    {
      for i := 0 to |streams|
        invariant Purged(View(), streams[i..], at) == Purged(old(View()), streams, at)
      {
        assert streams[i..][1..] == streams[i + 1..];
        ok := PurgeStream(streams[i], at);
        if !ok {
          return;
        }
      }
      ok := true;
    }

    /** `outside` says whether the presence and blob purges go through. Only then is the row marked. */
    method CompleteOne(person: Person, at: int, outside: bool) returns (ok: bool)
      modifies this
      ensures person !in old(rows) || old(rows)[person].purged ==> ok && View() == old(View()) && rows == old(rows)
      ensures person in old(rows) && !old(rows)[person].purged ==>
                var after := Purged(old(View()), old(rows)[person].manifest, at);
                && View() == after.0 && ok == (after.1 && outside)
                && rows == if ok then old(rows)[person := old(rows)[person].(purged := true)] else old(rows)
    {
      if person !in rows || rows[person].purged {
        return true;
      }
      ok := PurgeStreams(rows[person].manifest, at);
      ok := ok && outside;
      if ok {
        rows := rows[person := rows[person].(purged := true)];
      }
    }

    /** Completes pending rows in order, each at its own instant, and stops at the first that fails: exactly
        the rows before it are marked, every stream of a marked row is sealed and empty, and the tables are
        those of one purge after another. */
    method DrainPending(pending: seq<Person>, at: seq<int>, outside: set<Person>) returns (completed: nat)
      requires |at| == |pending| && forall i :: 0 <= i < |pending| ==> pending[i] in rows && !rows[pending[i]].purged
      requires forall i, j :: 0 <= i < j < |pending| ==> pending[i] != pending[j]
      modifies this
      ensures (View(), completed) == Drained(old(View()), old(rows), pending, at, outside)
      ensures completed <= |pending| && Marked(old(rows), rows, pending[..completed])
      ensures forall i :: 0 <= i < completed ==> Completes(old(View()), old(rows)[pending[i]], pending[i], outside)
      ensures completed < |pending| ==>
                !Completes(old(View()), old(rows)[pending[completed]], pending[completed], outside)
      ensures forall i :: 0 <= i < completed ==> AllClosed(View(), old(rows)[pending[i]].manifest)
    {
      DrainStopsAtFirstFailure(View(), rows, pending, at, outside);
      DrainCloses(View(), rows, pending, at, outside);
      ghost var all := Drained(View(), rows, pending, at, outside);
      completed := 0;
      var ok := true;
      assert pending[0..] == pending && at[0..] == at;
      while ok && completed < |pending|
        invariant completed <= |pending| && Marked(old(rows), rows, pending[..completed])
        invariant ok ==> all == Later(DrainedFrom(View(), old(rows), pending, at, outside, completed), completed)
        invariant !ok ==> all == (View(), completed)
        decreases |pending| - completed, ok
      {
        var person := pending[completed];
        ghost var was := rows;
        assert person !in pending[..completed];
        assert rows[person] == old(rows)[person];
        DrainStep(all, View(), old(rows), pending, at, outside, completed);
        ok := CompleteOne(person, at[completed], person in outside);
        if ok {
          MarkedPush(old(rows), was, rows, pending, completed);
          completed := completed + 1;
        }
      }
    }

    /** The listed rows are marked and nothing else changed. */
    static ghost predicate Marked(rows: map<Person, ErasureRow>, rows': map<Person, ErasureRow>, people: seq<Person>) {
      && rows'.Keys == rows.Keys
      && forall p :: p in rows ==> rows'[p] == if p in people then rows[p].(purged := true) else rows[p]
    }

    static lemma MarkedPush(rows: map<Person, ErasureRow>, was: map<Person, ErasureRow>, now: map<Person, ErasureRow>,
                            pending: seq<Person>, n: nat)
      requires n < |pending| && pending[n] in rows && Marked(rows, was, pending[..n])
      requires pending[n] in was && now == was[pending[n] := was[pending[n]].(purged := true)]
      ensures Marked(rows, now, pending[..n + 1])
    {
      assert pending[..n + 1] == pending[..n] + [pending[n]];
    }
  }
}
