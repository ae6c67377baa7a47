/** The per-pod fold cache: an incremental reading that must agree with a plain replay of the table. */
module Reader {
  import opened Basics
  import opened LaneStore
  import opened StreamFold

  datatype CachedFold<S> = CachedFold(state: S, contiguousTo: Option<ChunkSeq>, lastUsed: nat)

  /** `existing.contiguous_to >= contiguous_to` on options: None is below every sequence. */
  predicate AtLeast(a: Option<ChunkSeq>, b: Option<ChunkSeq>) {
    b.None? || (a.Some? && a.value >= b.value)
  }

  function Floor(mark: Option<ChunkSeq>): int {
    if mark.None? then -1 else mark.value
  }

  function LengthOf(mark: Option<ChunkSeq>): nat {
    Floor(mark) + 1
  }

  // ---- What the head query proves ----

  /** Rows at or below the cached mark. */
  ghost function Below(table: Table, mark: int): set<BigInt> {
    set k | k in table && k <= mark
  }

  /** `0 .. n-1`. */
  ghost function FirstNumbers(n: nat): (numbers: set<BigInt>)
    requires n <= I64_MAX + 1
    ensures |numbers| == n && forall k: BigInt :: k in numbers <==> 0 <= k < n
  {
    if n == 0 then {} else FirstNumbers(n - 1) + {n - 1}
  }

  lemma SubsetOfSameSize(a: set<BigInt>, b: set<BigInt>)
    requires a <= b && |a| == |b|
    ensures a == b
  {
    assert b == a + (b - a);
    assert |b| == |a| + |b - a|;
  }

  lemma SubsetIsSmaller(a: set<BigInt>, b: set<BigInt>)
    requires a <= b
    ensures |a| <= |b|
  {
    assert b == a + (b - a);
  }

  /** Counting the rows up to the mark decides whether the cached prefix is fully present: pigeonhole. */
  lemma CountProvesPrefix(table: Table, mark: ChunkSeq)
    requires Storable(table)
    ensures |Below(table, mark)| == mark + 1 <==> HasPrefix(table, mark + 1)
  {
    var rows, all := Below(table, mark), FirstNumbers(mark + 1);
    assert rows <= all;
    SubsetIsSmaller(rows, all);
    if |rows| == mark + 1 {
      SubsetOfSameSize(rows, all);
      forall k: int | 0 <= k < mark + 1 ensures k in table {
        assert k in all;
      }
    } else {
      assert rows != all;
      var k :| k in all && k !in rows;
      assert k !in table;
    }
  }

  // ---- What a resumed read returns ----

  /** The chunks a read folds: those the cache had folded, then the stored ones that follow on. */
  ghost predicate Resumes(base: seq<Value>, table: Table, values: seq<Value>) {
    && base <= values
    && Follows(|base|, values, table)
    && |values| !in table
  }

  /** From `from` on, the values are those stored at their positions. */
  ghost predicate Follows(from: nat, values: seq<Value>, table: Table) {
    forall k: int :: from <= k < |values| ==> k in table && table[k] == values[k]
  }

  lemma FollowsPush(from: nat, values: seq<Value>, table: Table, v: Value)
    requires Follows(from, values, table) && |values| in table && table[|values|] == v
    ensures Follows(from, values + [v], table)
  {
  }

  ghost function Resumed<S>(acc: Accumulator<S>, values: seq<Value>, table: Table): Result<Accumulated<S>, FoldError> {
    var folded := FoldValues(acc, values);
    if folded.None? then Err(ChunkUndecodable)
    else Ok(Accumulated(folded.value, MarkOf(|values|), BeyondPrefix(table, |values|)))
  }

  /** The folded chunks are the stored contiguous prefix exactly when every chunk the cache had folded
      is still stored with the same value. */
  lemma ResumesPrefixIffStands(base: seq<Value>, table: Table, values: seq<Value>, n: nat)
    requires Resumes(base, table, values) && PrefixEnds(table, n)
    ensures values == PrefixValues(table, n) <==> Stands(base, table)
  {
    if Stands(base, table) {
      forall k: int | 0 <= k < |values| ensures k in table && table[k] == values[k] {
        if k < |base| {
          assert values[k] == base[k];
        }
      }
      PrefixEndsOnce(table, n, |values|);
      assert values == PrefixValues(table, n);
    } else if values == PrefixValues(table, n) {
      forall k: int | 0 <= k < |base| ensures k in table && table[k] == base[k] {
        assert values[k] == base[k];
      }
    }
  }

  /** Then the read is the plain reading of the table. */
  lemma StandingReadIsReading<S>(acc: Accumulator<S>, base: seq<Value>, table: Table, values: seq<Value>, n: nat)
    requires Resumes(base, table, values) && PrefixEnds(table, n) && Stands(base, table)
    ensures Resumed(acc, values, table) == Reading(acc, table, n)
  {
    ResumesPrefixIffStands(base, table, values, n);
  }

  /** A cache that outlives a seal, the marker's sweep and the reuse of the stream: the count is right,
      the value is not, and the read reports the old chunk. */
  lemma ReusedStreamReadsStale<S>(acc: Accumulator<S>, was: Value, now: Value)
    requires was != now
    ensures |Below(map[0 := now], 0)| == 1
    ensures Resumes([was], map[0 := now], [was]) && PrefixEnds(map[0 := now], 1)
    ensures [was] != PrefixValues(map[0 := now], 1)
  {
    var table: Table := map[0 := now];
    CountProvesPrefix(table, 0);
  }

  // ---- One value per address ----

  /** The chunks are those `truth` puts at the stream's first addresses. */
  ghost predicate Agrees(truth: map<Address, Value>, s: Stream, values: seq<Value>) {
    |values| <= I64_MAX + 1
    && forall k: ChunkSeq :: k < |values| ==> Address(s, k) in truth && truth[Address(s, k)] == values[k]
  }

  ghost predicate TableAgrees(truth: map<Address, Value>, s: Stream, table: Table) {
    forall k: ChunkSeq :: k in table ==> Address(s, k) in truth && truth[Address(s, k)] == table[k]
  }

  lemma AgreesOn(truth: map<Address, Value>, s: Stream, base: seq<Value>, table: Table, values: seq<Value>)
    requires Agrees(truth, s, base) && TableAgrees(truth, s, table) && Storable(table)
    requires Resumes(base, table, values)
    ensures Agrees(truth, s, values)
  {
    assert |values| > |base| ==> |values| - 1 in table;
    forall k: ChunkSeq | k < |values| ensures Address(s, k) in truth && truth[Address(s, k)] == values[k] {
      if k < |base| {
        assert values[k] == base[k];
      }
    }
  }

  lemma BaseStands(truth: map<Address, Value>, s: Stream, base: seq<Value>, head: Table, table: Table)
    requires Agrees(truth, s, base) && TableAgrees(truth, s, table)
    requires HasPrefix(head, |base|) && head.Keys <= table.Keys
    ensures Stands(base, table)
  {
    forall k: int | 0 <= k < |base| ensures k in table && table[k] == base[k] {
      var number: ChunkSeq := k;
      assert k in head;
    }
  }

  // ---- The cache ----

  /** A fold at least as long as the new one is already cached. */
  predicate Longer<S>(folds: map<Stream, CachedFold<S>>, s: Stream, mark: Option<ChunkSeq>) {
    s in folds && AtLeast(folds[s].contiguousTo, mark)
  }

  ghost function Put<S>(folds: map<Stream, CachedFold<S>>, s: Stream, entry: CachedFold<S>)
    : map<Stream, CachedFold<S>>
  {
    if Longer(folds, s, entry.contiguousTo) then folds else folds[s := entry]
  }

  ghost function PutValues<S>(folds: map<Stream, CachedFold<S>>, folded: map<Stream, seq<Value>>, s: Stream,
                              mark: Option<ChunkSeq>, values: seq<Value>): map<Stream, seq<Value>> {
    if Longer(folds, s, mark) then folded else folded[s := values]
  }

  ghost function Kept(folded: map<Stream, seq<Value>>, keys: set<Stream>): map<Stream, seq<Value>> {
    map s | s in folded && s in keys :: folded[s]
  }

  /** Whatever was evicted was last used no later than whatever stayed. */
  ghost predicate OldestGone<S>(before: map<Stream, CachedFold<S>>, after: map<Stream, CachedFold<S>>) {
    forall u, v :: u in before && u !in after && v in after && v in before ==>
      before[u].lastUsed <= before[v].lastUsed
  }

  ghost predicate Evicted<S>(before: map<Stream, CachedFold<S>>, after: map<Stream, CachedFold<S>>, capacity: nat) {
    && after.Keys <= before.Keys && (forall u :: u in after ==> after[u] == before[u])
    && |after| == (if |before| <= capacity then |before| else capacity)
    && OldestGone(before, after)
  }

  /** An entry used later than every other survives. */
  lemma MostRecentSurvives<S>(before: map<Stream, CachedFold<S>>, after: map<Stream, CachedFold<S>>, capacity: nat,
                              s: Stream)
    requires 1 <= capacity && Evicted(before, after, capacity)
    requires s in before && forall u :: u in before && u != s ==> before[u].lastUsed < before[s].lastUsed
    ensures s in after
  {
    assert before.Keys != {};
    assert |before.Keys| > 0;
    assert |after.Keys| > 0;
    var v :| v in after;
    assert s in before && v in before;
  }

  class ChunkReader<S> {
    const registry: string -> Accumulator<S>
    var folds: map<Stream, CachedFold<S>>
    var clock: nat
    var capacity: nat
    /** The chunks each cached state was folded from. */
    ghost var folded: map<Stream, seq<Value>>

    constructor (registry: string -> Accumulator<S>, capacity: nat)
      ensures Valid() && folds == map[] && this.registry == registry
      ensures this.capacity == if capacity < 1 then 1 else capacity
    {
      this.registry := registry;
      folds, folded := map[], map[];
      clock := 0;
      this.capacity := if capacity < 1 then 1 else capacity;
    }

    function Acc(s: Stream): Accumulator<S> {
      registry(s.accumulator)
    }

    /** A cached state is the fold of the chunks it stands for, and its mark is where they end. */
    ghost predicate Backs(s: Stream, entry: CachedFold<S>, values: seq<Value>) {
      FoldValues(Acc(s), values) == Some(entry.state) && LengthOf(entry.contiguousTo) == |values|
    }

    ghost predicate Valid()
      reads this
    {
      1 <= capacity && |folds| <= capacity && Backed()
    }

    ghost predicate Backed()
      reads this
    {
      AllBacked(folds, folded, clock)
    }

    ghost predicate AllBacked(folds: map<Stream, CachedFold<S>>, folded: map<Stream, seq<Value>>, clock: nat) {
      && folded.Keys == folds.Keys
      && (forall s :: s in folds ==> Backs(s, folds[s], folded[s]) && folds[s].lastUsed < clock)
    }

    lemma KeptStayBacked(folds: map<Stream, CachedFold<S>>, folded: map<Stream, seq<Value>>, clock: nat,
                         left: map<Stream, CachedFold<S>>, capacity: nat)
      requires AllBacked(folds, folded, clock) && Evicted(folds, left, capacity)
      ensures AllBacked(left, Kept(folded, left.Keys), clock)
    {
      assert forall s :: s in left ==> s in folds && s in folded;
    }

    /** Every cached chunk is the one `truth` puts at its address. */
    ghost predicate Faithful(truth: map<Address, Value>)
      reads this
    {
      forall s :: s in folded ==> Agrees(truth, s, folded[s])
    }

    method Take(s: Stream) returns (entry: Option<CachedFold<S>>)
      requires Valid()
      modifies this
      ensures Valid() && unchanged(`clock) && unchanged(`capacity)
      ensures entry == if s in old(folds) then Some(old(folds)[s]) else None
      ensures folds == old(folds) - {s} && folded == old(folded) - {s}
    {
      entry := if s in folds then Some(folds[s]) else None;
      Drop(s);
    }

    method Forget(s: Stream)
      requires Valid()
      modifies this
      ensures Valid() && unchanged(`clock) && unchanged(`capacity)
      ensures folds == old(folds) - {s} && folded == old(folded) - {s}
    {
      Drop(s);
    }

    method Drop(s: Stream)
      requires folded.Keys == folds.Keys
      modifies this`folds, this`folded
      ensures folds == old(folds) - {s} && folded == old(folded) - {s}
      ensures s in old(folds) ==> |folds| == |old(folds)| - 1
      ensures s !in old(folds) ==> |folds| == |old(folds)|
    {
      assert s in folds ==> folds.Keys == (folds - {s}).Keys + {s};
      assert s !in folds ==> folds - {s} == folds;
      folds := folds - {s};
      folded := folded - {s};
    }

    method LeastRecentlyUsed() returns (s: Stream)
      requires folds != map[]
      ensures s in folds && forall u :: u in folds ==> folds[s].lastUsed <= folds[u].lastUsed
    {
      var left := folds.Keys;
      s :| s in left;
      left := left - {s};
      while left != {}
        invariant left <= folds.Keys && s in folds
        invariant forall u :: u in folds && u !in left ==> folds[s].lastUsed <= folds[u].lastUsed
        decreases left
      {
        var u :| u in left;
        if folds[u].lastUsed < folds[s].lastUsed {
          s := u;
        }
        left := left - {u};
      }
    }

    /** Evicts least recently used entries down to the capacity. */
    method Evict()
      requires folded.Keys == folds.Keys
      modifies this`folds, this`folded
      ensures Evicted(old(folds), folds, capacity) && folded == Kept(old(folded), folds.Keys)
    {
      while |folds| > capacity
        invariant folded == Kept(old(folded), folds.Keys) && folds.Keys <= old(folds).Keys
        invariant forall u :: u in folds ==> folds[u] == old(folds)[u]
        invariant |folds| == |old(folds)| || (capacity <= |folds| && capacity < |old(folds)|)
        invariant OldestGone(old(folds), folds)
        decreases |folds|
      {
        assert |folds| > 0;
        var evict := LeastRecentlyUsed();
        Drop(evict);
      }
    }

    /** Keeps the longer of two folds of one stream, then evicts. */
    method Store(s: Stream, state: S, mark: Option<ChunkSeq>, ghost values: seq<Value>)
      requires Valid() && Backs(s, CachedFold(state, mark, 0), values)
      modifies this
      ensures Valid() && unchanged(`capacity) && clock == old(clock) + 1
      ensures Evicted(Put(old(folds), s, CachedFold(state, mark, old(clock))), folds, capacity)
      ensures folded == Kept(PutValues(old(folds), old(folded), s, mark, values), folds.Keys)
      ensures !Longer(old(folds), s, mark) ==> s in folds
      // A fold of at least as many chunks stays as it is; a shorter one is replaced.
      ensures s in old(folds) && |old(folded)[s]| >= |values| ==>
                forall u :: u in folds ==> u in old(folds) && folds[u] == old(folds)[u]
      ensures !(s in old(folds) && |old(folded)[s]| >= |values|) ==>
                s in folds && folds[s] == CachedFold(state, mark, old(clock)) && folded[s] == values
    {
      Remember(s, state, mark, values);
      ghost var all, put := folds, folded;
      Evict();
      KeptStayBacked(all, put, clock, folds, capacity);
      if !Longer(old(folds), s, mark) {
        MostRecentSurvives(all, folds, capacity, s);
      }
    }

    method Remember(s: Stream, state: S, mark: Option<ChunkSeq>, ghost values: seq<Value>)
      requires Valid() && Backs(s, CachedFold(state, mark, 0), values)
      modifies this
      ensures unchanged(`capacity) && clock == old(clock) + 1
      ensures folds == Put(old(folds), s, CachedFold(state, mark, old(clock)))
      ensures folded == PutValues(old(folds), old(folded), s, mark, values) && Backed()
    {
      var now := clock;
      clock := clock + 1;
      if !Longer(folds, s, mark) {
        folds := folds[s := CachedFold(state, mark, now)];
        folded := folded[s := values];
      }
    }

    /** What the head query lets a read keep of the cached fold. */
    method Resume(s: Stream, cached: Option<CachedFold<S>>, head: Table, ghost prior: seq<Value>)
      returns (state: S, mark: Option<ChunkSeq>, ghost base: seq<Value>)
      requires Storable(head)
      requires if cached.Some? then Backs(s, cached.value, prior) else prior == []
      ensures Backs(s, CachedFold(state, mark, 0), base)
      ensures base == if HasPrefix(head, |prior|) && |prior| <= I64_MAX then prior else []
    {
      var cachedMark := if cached.Some? then cached.value.contiguousTo else None;
      var prefixRows := |set k | k in head && k <= Floor(cachedMark)|;
      var wanted := if cachedMark.None? then 0 else WrappingSucc(cachedMark.value);
      PrefixBacked(head, cachedMark);
      if prefixRows == wanted {
        state := if cached.Some? then cached.value.state else Acc(s).init;
        mark, base := cachedMark, prior;
      } else {
        state, mark, base := Acc(s).init, None, [];
      }
    }

    /** One read. `sealed` and `head` are what the head query saw, `table` what the row query saw; other
        pods may have written in between. */
    method AccumulateInner(s: Stream, sealed: bool, head: Table, table: Table)
      returns (r: Result<Accumulated<S>, FoldError>, ghost base: seq<Value>, ghost values: seq<Value>)
      requires Valid() && Storable(head) && Storable(table)
      modifies this
      ensures Valid()
      ensures sealed ==> r == Ok(Accumulated(Acc(s).init, None, false)) && folded == old(folded) - {s}
      ensures !sealed ==> Resumes(base, table, values) && r == Resumed(Acc(s), values, table)
      ensures !sealed ==> base == if s in old(folded) && HasPrefix(head, |old(folded)[s]|)
                                     && |old(folded)[s]| <= I64_MAX
                                  then old(folded)[s] else []
      ensures forall u :: u in folded && u != s ==> u in old(folded) && folded[u] == old(folded)[u]
      ensures s in folded ==> folded[s] == values
      ensures !sealed && r.Ok? ==> s in folded
    {
      ghost var prior := if s in folded then folded[s] else [];
      var cached := Take(s);
      if sealed {
        return Ok(Accumulated(Acc(s).init, None, false)), [], [];
      }
      var state, mark;
      state, mark, base := Resume(s, cached, head, prior);
      r, values := FoldOn(s, state, mark, table, base);
      if r.Ok? {
        var reached: Option<ChunkSeq> := if r.value.contiguousTo.None? then None else Some(r.value.contiguousTo.value);
        Store(s, r.value.state, reached, values);
      }
    }

    /** Across any calls, as long as every address carries one value, a read answers the stream's first
        chunks, and the cache stays faithful. The answer is the plain reading of the rows it fetched exactly
        when no row it had kept was missing among them; so whenever no row went away between the queries. */
    method State(s: Stream, sealed: bool, head: Table, table: Table, ghost truth: map<Address, Value>)
      returns (r: Result<Accumulated<S>, FoldError>, ghost base: seq<Value>, ghost values: seq<Value>, ghost n: nat)
      requires Valid() && Storable(head) && Storable(table)
      requires Faithful(truth) && TableAgrees(truth, s, table)
      modifies this
      ensures Valid() && Faithful(truth)
      ensures sealed ==> r == Ok(Accumulated(Acc(s).init, None, false))
      ensures !sealed ==> Resumes(base, table, values) && r == Resumed(Acc(s), values, table)
      ensures !sealed ==> Agrees(truth, s, values)
      ensures !sealed ==> base == [] || (s in old(folded) && base == old(folded)[s] && HasPrefix(head, |base|))
      ensures PrefixEnds(table, n)
      ensures !sealed ==> (values == PrefixValues(table, n) <==> HasPrefix(table, |base|))
      ensures (if sealed then table == map[] else HasPrefix(table, |base|)) ==> r == Reading(Acc(s), table, n)
    {
      r, base, values := AccumulateInner(s, sealed, head, table);
      n := EndOf(table, 0);
      if sealed {
        EmptyReading(Acc(s), table, n);
      } else {
        ReadIsReading(Acc(s), truth, s, base, table, values, n);
      }
    }

    static lemma EmptyReading(acc: Accumulator<S>, table: Table, n: nat)
      requires PrefixEnds(table, n)
      ensures table == map[] ==> Reading(acc, table, n) == Ok(Accumulated(acc.init, None, false))
    {
      if table == map[] {
        PrefixEndsOnce(table, 0, n);
        assert PrefixValues(table, n) == [];
      }
    }

    /** What a read folds is faithful again, and is the plain reading exactly when every kept row is there. */
    static lemma ReadIsReading(acc: Accumulator<S>, truth: map<Address, Value>, s: Stream, base: seq<Value>,
                               table: Table, values: seq<Value>, n: nat)
      requires Agrees(truth, s, base) && TableAgrees(truth, s, table) && Storable(table)
      requires Resumes(base, table, values) && PrefixEnds(table, n)
      ensures Agrees(truth, s, values)
      ensures values == PrefixValues(table, n) <==> HasPrefix(table, |base|)
      ensures HasPrefix(table, |base|) ==> Resumed(acc, values, table) == Reading(acc, table, n)
    {
      AgreesOn(truth, s, base, table, values);
      ResumesPrefixIffStands(base, table, values, n);
      if HasPrefix(table, |base|) {
        BaseStands(truth, s, base, table, table);
        StandingReadIsReading(acc, base, table, values, n);
      }
    }

    /** The head query's test, for every mark. */
    static lemma PrefixBacked(head: Table, mark: Option<ChunkSeq>)
      requires Storable(head)
      ensures |Below(head, Floor(mark))| == (if mark.None? then 0 else WrappingSucc(mark.value))
              <==> HasPrefix(head, LengthOf(mark)) && LengthOf(mark) <= I64_MAX
    {
      if mark.Some? {
        CountProvesPrefix(head, mark.value);
      } else {
        assert Below(head, -1) == {};
      }
    }

    /** The row loop: folds the stored chunks that continue the base. */
    method FoldOn(s: Stream, state0: S, mark0: Option<ChunkSeq>, table: Table, ghost base: seq<Value>)
      returns (r: Result<Accumulated<S>, FoldError>, ghost values: seq<Value>)
      requires Storable(table) && Backs(s, CachedFold(state0, mark0, 0), base)
      ensures Resumes(base, table, values) && r == Resumed(Acc(s), values, table)
      ensures r.Ok? ==> |values| <= I64_MAX + 1
    {
      var rows := Select(table, LengthOf(mark0), I64_MAX);
      var state := state0;
      var expected := LengthOf(mark0);
      var i := 0;
      values := base;
      while i < |rows| && rows[i].number == expected
        invariant 0 <= i <= |rows| && expected == |values| <= I64_MAX + 1
        invariant base <= values && Follows(|base|, values, table)
        invariant NoneBetween(table, expected - 1, NextNumber(rows, i)) && expected - 1 < NextNumber(rows, i)
        invariant FoldValues(Acc(s), values) == Some(state)
        decreases |rows| - i
      {
        NextRow(rows, table, LengthOf(mark0), i);
        FoldPush(Acc(s), values, rows[i].chunk);
        FollowsPush(|base|, values, table, rows[i].chunk);
        var next := Acc(s).Fold(state, expected, rows[i].chunk);
        values := values + [rows[i].chunk];
        if next.None? {
          values := FailsThroughout(Acc(s), table, base, values);
          return Err(ChunkUndecodable), values;
        }
        state := next.value;
        expected := expected + 1;
        i := i + 1;
      }
      // The loop leaves at the first row that does not continue the run: a gap.
      var gap := i < |rows|;
      GapIsBeyond(rows, table, LengthOf(mark0), i, expected);
      return Ok(Accumulated(state, MarkOf(expected), gap)), values;
    }

    static lemma GapIsBeyond(rows: seq<Fetched>, table: Table, lo: int, i: nat, expected: nat)
      requires IsSelection(rows, table, lo, I64_MAX) && i <= |rows|
      requires NoneBetween(table, expected - 1, NextNumber(rows, i)) && expected - 1 < NextNumber(rows, i)
      requires i < |rows| ==> rows[i].number != expected
      ensures i < |rows| <==> BeyondPrefix(table, expected)
      ensures expected !in table
    {
      if i < |rows| {
        assert rows[i].number in table;
      }
    }

    static lemma FailsThroughout(acc: Accumulator<S>, table: Table, base: seq<Value>, part: seq<Value>)
      returns (all: seq<Value>)
      requires base <= part && Follows(|base|, part, table) && FoldValues(acc, part).None?
      ensures Resumes(base, table, all) && FoldValues(acc, all).None?
    {
      all := Completed(table, base, part);
      assert all[..|part|] == part;
      FoldStaysFailed(acc, all, |part|);
    }

    /** Extends the folded chunks to the end of the stored run. */
    static lemma Completed(table: Table, base: seq<Value>, some: seq<Value>) returns (all: seq<Value>)
      requires base <= some
      requires Follows(|base|, some, table)
      ensures Resumes(base, table, all) && some <= all
      decreases set k | k in table && |some| <= k
    {
      all := some;
      if |some| in table {
        var here := set k | k in table && |some| <= k;
        var next := set k | k in table && |some| + 1 <= k;
        assert |some| in here && |some| !in next && next <= here;
        FollowsPush(|base|, some, table, table[|some|]);
        all := Completed(table, base, some + [table[|some|]]);
      }
    }
  }
}
