/** Folding the chunks of one stream: what a reading of the table means, and the loops of the engine
    that replay a table from its start. */
module StreamFold {
  import opened Basics
  import opened LaneStore

  /** An accumulator's empty state and its fold. A chunk the fold cannot decode yields None. */
  datatype Accumulator<!S> = Accumulator(init: S, step: (S, nat, Value) -> Option<S>)
  {
    function Fold(state: S, number: nat, chunk: Value): Option<S> {
      step(state, number, chunk)
    }
  }

  /** The chunk rows of one stream by sequence. */
  type Table = map<BigInt, Value>

  /** Every row was written by a flush, whose sequences are never negative. */
  ghost predicate Storable(table: Table) {
    forall k :: k in table ==> 0 <= k
  }

  // ---- The specification ----

  function FoldValues<S>(acc: Accumulator<S>, values: seq<Value>): Option<S> {
    if values == [] then
      Some(acc.init)
    else
      var before := FoldValues(acc, values[..|values| - 1]);
      if before.None? then None else acc.Fold(before.value, |values| - 1, values[|values| - 1])
  }

  lemma FoldPush<S>(acc: Accumulator<S>, values: seq<Value>, v: Value)
    ensures FoldValues(acc, values + [v]) ==
            var before := FoldValues(acc, values);
            if before.None? then None else acc.Fold(before.value, |values|, v)
  {
    assert (values + [v])[..|values|] == values;
  }

  /** Once a chunk fails to fold, every longer prefix fails. */
  lemma {:induction false} FoldStaysFailed<S>(acc: Accumulator<S>, values: seq<Value>, n: nat)
    requires n <= |values| && FoldValues(acc, values[..n]).None?
    ensures FoldValues(acc, values).None?
  {
    if n < |values| {
      assert values[..|values| - 1][..n] == values[..n];
      FoldStaysFailed(acc, values[..|values| - 1], n);
    } else {
      assert values[..n] == values;
    }
  }

  ghost predicate HasPrefix(table: Table, n: nat) {
    forall k: int :: 0 <= k < n ==> k in table
  }

  /** `n` is the length of the longest contiguous prefix from sequence 0. */
  ghost predicate PrefixEnds(table: Table, n: nat) {
    HasPrefix(table, n) && n !in table
  }

  lemma PrefixEndsOnce(table: Table, m: nat, n: nat)
    requires PrefixEnds(table, m) && PrefixEnds(table, n)
    ensures m == n
  {
  }

  ghost function PrefixValues(table: Table, n: nat): (values: seq<Value>)
    requires HasPrefix(table, n)
    ensures |values| == n && forall k: int :: 0 <= k < n ==> values[k] == table[k]
  {
    if n == 0 then [] else PrefixValues(table, n - 1) + [table[n - 1]]
  }

  /** The values are those stored at 0, 1, 2, ... */
  ghost predicate Stands(values: seq<Value>, table: Table) {
    forall k: int :: 0 <= k < |values| ==> k in table && table[k] == values[k]
  }

  lemma StandingIsPrefix(values: seq<Value>, table: Table)
    requires Stands(values, table)
    ensures HasPrefix(table, |values|) && PrefixValues(table, |values|) == values
  {
  }

  lemma StandsPush(values: seq<Value>, table: Table, v: Value)
    requires Stands(values, table) && |values| in table && table[|values|] == v
    ensures Stands(values + [v], table)
  {
  }

  /** The values stand at the start of the table and fold to the state. */
  ghost predicate FoldsTo<S>(acc: Accumulator<S>, table: Table, values: seq<Value>, state: S) {
    Stands(values, table) && FoldValues(acc, values) == Some(state)
  }

  /** One more stored chunk: the fold goes on, or fails there. */
  lemma FoldsOn<S>(acc: Accumulator<S>, table: Table, values: seq<Value>, state: S, v: Value)
    requires FoldsTo(acc, table, values, state) && |values| in table && table[|values|] == v
    ensures var next := acc.Fold(state, |values|, v);
            if next.Some? then FoldsTo(acc, table, values + [v], next.value)
            else Stands(values + [v], table) && FoldValues(acc, values + [v]).None?
  {
    FoldPush(acc, values, v);
    StandsPush(values, table, v);
  }

  /** A failed fold of a standing run fails the reading. */
  lemma FailedRunFailsReading<S>(acc: Accumulator<S>, values: seq<Value>, table: Table, n: nat)
    requires Stands(values, table) && FoldValues(acc, values).None? && |values| <= n && HasPrefix(table, n)
    ensures FoldValues(acc, PrefixValues(table, n)).None?
  {
    StandingIsPrefix(values, table);
    PrefixOfPrefix(table, |values|, n);
    FoldStaysFailed(acc, PrefixValues(table, n), |values|);
  }

  lemma PrefixOfPrefix(table: Table, m: nat, n: nat)
    requires m <= n && HasPrefix(table, n)
    ensures PrefixValues(table, m) == PrefixValues(table, n)[..m]
  {
  }

  datatype Accumulated<S> = Accumulated(state: S, contiguousTo: Option<int>, gap: bool)

  datatype FoldError = ChunkUndecodable | SealTruncated(contiguousTo: int)

  function MarkOf(n: nat): Option<int> {
    if n == 0 then None else Some(n - 1)
  }

  ghost predicate BeyondPrefix(table: Table, n: nat) {
    exists k :: k in table && k > n
  }

  /** The plain reading: fold the longest contiguous prefix, report its end, and report a gap exactly
      when a stored sequence lies beyond it. */
  ghost function Reading<S>(acc: Accumulator<S>, table: Table, n: nat): Result<Accumulated<S>, FoldError>
    requires PrefixEnds(table, n)
  {
    var folded := FoldValues(acc, PrefixValues(table, n));
    if folded.None? then Err(ChunkUndecodable)
    else Ok(Accumulated(folded.value, MarkOf(n), BeyondPrefix(table, n)))
  }

  /** The end of the contiguous prefix exists because a table is finite. */
  lemma EndOf(table: Table, from: nat) returns (n: nat)
    requires HasPrefix(table, from)
    ensures from <= n && PrefixEnds(table, n)
    decreases set k | k in table && from <= k
  {
    n := from;
    if from in table {
      var here := set k | k in table && from <= k;
      var next := set k | k in table && from + 1 <= k;
      assert from in here && from !in next && next <= here;
      n := EndOf(table, from + 1);
    }
  }

  // ---- SELECT seq, chunk ... ORDER BY seq ----

  datatype Fetched = Fetched(number: BigInt, chunk: Value)

  ghost predicate NoneBetween(table: Table, x: int, y: int) {
    forall k :: k in table ==> !(x < k < y)
  }

  ghost predicate Adjacent(rows: seq<Fetched>, table: Table, i: int)
    requires 0 < i < |rows|
  {
    rows[i - 1].number < rows[i].number && NoneBetween(table, rows[i - 1].number, rows[i].number)
  }

  /** The rows with `lo <= seq <= hi` in ascending order: no stored sequence lies between two of them,
      nor between them and the bounds. */
  ghost predicate IsSelection(rows: seq<Fetched>, table: Table, lo: int, hi: int) {
    && (forall i :: 0 <= i < |rows| ==>
          lo <= rows[i].number <= hi && rows[i].number in table && table[rows[i].number] == rows[i].chunk)
    && (forall i :: 0 < i < |rows| ==> Adjacent(rows, table, i))
    && (rows == [] ==> NoneBetween(table, lo - 1, hi + 1))
    && (rows != [] ==>
          && NoneBetween(table, lo - 1, rows[0].number)
          && NoneBetween(table, rows[|rows| - 1].number, hi + 1))
  }

  method Smallest(keys: set<BigInt>) returns (least: BigInt)
    requires keys != {}
    ensures least in keys && forall k :: k in keys ==> least <= k
  {
    least :| least in keys;
    var left := keys - {least};
    while left != {}
      invariant left <= keys && least in keys
      invariant forall k :: k in keys && k !in left ==> least <= k
      decreases left
    {
      var k :| k in left;
      if k < least {
        least := k;
      }
      left := left - {k};
    }
  }

  method Select(table: Table, lo: int, hi: int) returns (rows: seq<Fetched>)
    ensures IsSelection(rows, table, lo, hi)
  {
    rows := [];
    var left := set k | k in table && lo <= k <= hi;
    ghost var floor := lo - 1;
    while left != {}
      invariant floor == if rows == [] then lo - 1 else rows[|rows| - 1].number
      invariant forall k :: k in left <==> k in table && floor < k <= hi
      invariant lo - 1 <= floor
      invariant forall i :: 0 <= i < |rows| ==>
                  lo <= rows[i].number <= hi && rows[i].number in table && table[rows[i].number] == rows[i].chunk
      invariant forall i :: 0 < i < |rows| ==> Adjacent(rows, table, i)
      invariant rows != [] ==> NoneBetween(table, lo - 1, rows[0].number)
      decreases left
    {
      var k := Smallest(left);
      assert NoneBetween(table, floor, k);
      ghost var before := rows;
      rows := rows + [Fetched(k, table[k])];
      left := left - {k};
      forall i | 0 < i < |rows| ensures Adjacent(rows, table, i) {
        if i < |before| {
          assert Adjacent(before, table, i);
        }
      }
      floor := k;
    }
    assert NoneBetween(table, floor, hi + 1);
  }

  /** The number the next unread row carries, or one past every number. */
  function NextNumber(rows: seq<Fetched>, i: nat): int {
    if i < |rows| then rows[i].number else I64_MAX + 1
  }

  /** Between a fetched row and the next nothing is stored. */
  lemma NextRow(rows: seq<Fetched>, table: Table, lo: int, i: nat)
    requires IsSelection(rows, table, lo, I64_MAX) && i < |rows|
    ensures NoneBetween(table, rows[i].number, NextNumber(rows, i + 1)) && rows[i].number < NextNumber(rows, i + 1)
    ensures rows[i].number in table && table[rows[i].number] == rows[i].chunk
  {
    if i + 1 < |rows| {
      assert Adjacent(rows, table, i + 1);
    }
  }

  // ---- replay_verified ----

  ghost predicate Replayable<S>(acc: Accumulator<S>, table: Table, last: ChunkSeq) {
    && last < I64_MAX && HasPrefix(table, last + 1)
    && FoldValues(acc, PrefixValues(table, last + 1)).Some?
  }

  /** A replay succeeds exactly when sequences 0..last are all stored and fold, and then returns their fold
      and the chunks that are hashed; one that meets a gap first reports where the stored run ends, one that
      meets a chunk that does not fold reports that. At the greatest
      sequence the bound `last + 1` wraps and every replay is refused. */
  ghost predicate IsReplay<S>(acc: Accumulator<S>, table: Table, last: ChunkSeq,
                              r: Result<(S, seq<Value>), FoldError>) {
    match r
    case Ok((state, values)) =>
      Replayable(acc, table, last) && values == PrefixValues(table, last + 1) && FoldValues(acc, values) == Some(state)
    case Err(ChunkUndecodable) => !Replayable(acc, table, last) && exists n :: FailsAt(acc, table, last, n)
    case Err(SealTruncated(end)) =>
      !Replayable(acc, table, last) && (last < I64_MAX ==> -1 <= end < last && PrefixEnds(table, end + 1))
  }

  /** A stored prefix up to `last` does not fold. */
  ghost predicate FailsAt<S>(acc: Accumulator<S>, table: Table, last: ChunkSeq, n: nat) {
    n <= last + 1 && HasPrefix(table, n) && FoldValues(acc, PrefixValues(table, n)).None?
  }

  method ReplayVerified<S>(acc: Accumulator<S>, table: Table, last: ChunkSeq)
    returns (r: Result<(S, seq<Value>), FoldError>)
    ensures IsReplay(acc, table, last, r)
    ensures r.Ok? <==> Replayable(acc, table, last)
  {
    var rows := Select(table, 0, last);
    var state := acc.init;
    var values: seq<Value> := [];
    var expected := 0;
    for i := 0 to |rows|
      invariant expected == i == |values| && Numbered(rows, i)
      invariant FoldsTo(acc, table, values, state)
    {
      if rows[i].number != expected {
        RowsBreakOff(rows, table, last, i);
        TruncatedReplay(acc, table, last, values);
        return Err(SealTruncated(expected - 1));
      }
      FoldsOn(acc, table, values, state, rows[i].chunk);
      values := values + [rows[i].chunk];
      var folded := acc.Fold(state, expected, rows[i].chunk);
      if folded.None? {
        FailedReplay(acc, table, last, values);
        return Err(ChunkUndecodable);
      }
      state := folded.value;
      expected := expected + 1;
    }
    RowsBreakOff(rows, table, last, expected);
    var expectedRaw := if expected <= I64_MAX then expected else I64_MAX;
    if expectedRaw != WrappingSucc(last) {
      if last < I64_MAX {
        TruncatedReplay(acc, table, last, values);
      }
      return Err(SealTruncated(expectedRaw - 1));
    }
    StandingIsPrefix(values, table);
    return Ok((state, values));
  }

  /** The first `i` rows carry the numbers 0, 1, 2, ... */
  ghost predicate Numbered(rows: seq<Fetched>, i: nat) {
    i <= |rows| && (i > 0 ==> rows[i - 1].number == i - 1)
  }

  /** Where the rows stop counting up, the next sequence is not stored. */
  lemma RowsBreakOff(rows: seq<Fetched>, table: Table, last: ChunkSeq, i: nat)
    requires IsSelection(rows, table, 0, last) && Numbered(rows, i)
    ensures i <= last + 1
    ensures i < |rows| && rows[i].number != i ==> i <= last && i !in table
    ensures i == |rows| && i <= last ==> i !in table
  {
    if 0 < i < |rows| {
      assert Adjacent(rows, table, i);
    }
  }

  /** Where the stored run ends at or before `last`, no replay up to `last` succeeds. */
  lemma TruncatedReplay<S>(acc: Accumulator<S>, table: Table, last: ChunkSeq, values: seq<Value>)
    requires Stands(values, table) && |values| !in table && |values| <= last
    ensures IsReplay(acc, table, last, Err(SealTruncated(|values| - 1)))
  {
    StandingIsPrefix(values, table);
  }

  lemma FailedReplay<S>(acc: Accumulator<S>, table: Table, last: ChunkSeq, values: seq<Value>)
    requires Stands(values, table) && FoldValues(acc, values).None? && |values| <= last + 1
    ensures IsReplay(acc, table, last, Err(ChunkUndecodable))
  {
    NotReplayable(acc, table, last, values);
    StandingFails(acc, table, last, values);
  }

  lemma NotReplayable<S>(acc: Accumulator<S>, table: Table, last: ChunkSeq, values: seq<Value>)
    requires Stands(values, table) && FoldValues(acc, values).None? && |values| <= last + 1
    ensures !Replayable(acc, table, last)
  {
    if HasPrefix(table, last + 1) {
      FailedRunFailsReading(acc, values, table, last + 1);
    }
  }

  lemma StandingFails<S>(acc: Accumulator<S>, table: Table, last: ChunkSeq, values: seq<Value>)
    requires Stands(values, table) && FoldValues(acc, values).None? && |values| <= last + 1
    ensures FailsAt(acc, table, last, |values|)
  {
    StandingIsPrefix(values, table);
  }

  // ---- fold_current: the deadline seal ----

  ghost predicate Greatest(table: Table, m: BigInt) {
    m in table && forall k :: k in table ==> k <= m
  }

  /** One past the last row of a table that has rows, and 0 for one that has none. */
  ghost predicate IsDeadlineHighWater(table: Table, highWater: int) {
    if table == map[] then highWater == 0
    else exists m: BigInt :: Greatest(table, m) && highWater == WrappingSucc(m)
  }

  lemma HighWaterOfLast(table: Table, rows: seq<Fetched>)
    requires IsSelection(rows, table, I64_MIN, I64_MAX)
    ensures IsDeadlineHighWater(table, if rows == [] then 0 else WrappingSucc(rows[|rows| - 1].number))
  {
    if rows == [] {
      assert forall k :: k in table ==> I64_MIN - 1 < k < I64_MAX + 1;
    } else {
      var m := rows[|rows| - 1].number;
      assert m in table;
      assert forall k :: k in table ==> k < I64_MAX + 1;
      assert Greatest(table, m);
    }
  }

  /** The plain reading's state, or its failure, and a high water one past the last row. */
  ghost predicate IsDeadlineSeal<S>(acc: Accumulator<S>, table: Table, n: nat, r: Result<(int, S), FoldError>)
    requires PrefixEnds(table, n)
  {
    match Reading(acc, table, n)
    case Err(e) => r == Err(e)
    case Ok(read) => r.Ok? && r.value.1 == read.state && IsDeadlineHighWater(table, r.value.0)
  }

  lemma FailedSeal<S>(acc: Accumulator<S>, table: Table, values: seq<Value>)
    requires Stands(values, table) && FoldValues(acc, values).None?
    ensures forall n: nat :: PrefixEnds(table, n) ==> IsDeadlineSeal(acc, table, n, Err(ChunkUndecodable))
  {
    forall n: nat | PrefixEnds(table, n) ensures IsDeadlineSeal(acc, table, n, Err(ChunkUndecodable)) {
      assert |values| <= n;
      FailedRunFailsReading(acc, values, table, n);
    }
  }

  lemma CompletedSeal<S>(acc: Accumulator<S>, table: Table, values: seq<Value>, state: S, highWater: int)
    requires FoldsTo(acc, table, values, state) && |values| !in table && IsDeadlineHighWater(table, highWater)
    ensures forall n: nat :: PrefixEnds(table, n) ==> IsDeadlineSeal(acc, table, n, Ok((highWater, state)))
  {
    StandingIsPrefix(values, table);
    forall n: nat | PrefixEnds(table, n) ensures IsDeadlineSeal(acc, table, n, Ok((highWater, state))) {
      PrefixEndsOnce(table, n, |values|);
    }
  }

  /** The state is the plain reading's, whatever negative rows the table also holds. The marker's high
      water is one past the last row; over a row at the greatest sequence it wraps. */
  method FoldCurrent<S>(acc: Accumulator<S>, table: Table) returns (r: Result<(int, S), FoldError>)
    ensures forall n: nat :: PrefixEnds(table, n) ==> IsDeadlineSeal(acc, table, n, r)
  {
    var rows := Select(table, I64_MIN, I64_MAX);
    HighWaterOfLast(table, rows);
    var highWater := if |rows| == 0 then 0 else WrappingSucc(rows[|rows| - 1].number);
    var state := acc.init;
    var expected := 0;
    ghost var values: seq<Value> := [];
    var i := 0;
    while i < |rows|
      invariant 0 <= i <= |rows| && expected == |values|
      invariant FoldsTo(acc, table, values, state)
      invariant expected > 0 ==> expected - 1 < NextNumber(rows, i)
      invariant NoneBetween(table, expected - 1, NextNumber(rows, i))
    {
      NextRow(rows, table, I64_MIN, i);
      if rows[i].number < 0 {
        i := i + 1;
        continue;
      }
      if rows[i].number != expected {
        break;
      }
      FoldsOn(acc, table, values, state, rows[i].chunk);
      values := values + [rows[i].chunk];
      var folded := acc.Fold(state, expected, rows[i].chunk);
      if folded.None? {
        FailedSeal(acc, table, values);
        return Err(ChunkUndecodable);
      }
      state := folded.value;
      expected := expected + 1;
      i := i + 1;
    }
    CompletedSeal(acc, table, values, state, highWater);
    return Ok((highWater, state));
  }

  /** It lies above every stored sequence exactly when none is the greatest a `bigint` holds. */
  lemma DeadlineHighWaterAbove(table: Table, highWater: int)
    requires Storable(table) && IsDeadlineHighWater(table, highWater)
    ensures (forall k :: k in table ==> k < highWater) <==> I64_MAX !in table
  {
  }
}
