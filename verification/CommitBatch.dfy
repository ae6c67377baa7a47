/** `commit_batch`: one flush transaction over a batch, its loops proved against `CommitSpec`. */
module CommitBatch {
  import opened Basics
  import opened LaneStore
  import opened CommitSpec

  datatype FlushOutcome = FlushOutcome(buffered: nat, durable: nat, refused: nat, conflicts: nat, impacts: nat)

  datatype Impact = ResourceChanged(noun: string, key: string)

  // ---- Ownership ----

  ghost predicate Owns(batch: seq<Pending>, i: nat, a: Address) {
    && i < |batch| && batch[i].At() == a
    && forall j :: 0 <= j < i ==> batch[j].At() != a
  }

  lemma {:induction false} OwnerIsFirst(batch: seq<Pending>, i: nat, a: Address)
    requires Owns(batch, i, a)
    ensures a in Addresses(batch) && FirstEntry(batch, a) == batch[i]
  {
    assert batch[i].At() in Addresses(batch);
    if i > 0 {
      var rest := batch[1..];
      assert rest[i - 1] == batch[i];
      assert forall j :: 0 <= j < i - 1 ==> rest[j] == batch[j + 1];
      OwnerIsFirst(rest, i - 1, a);
      assert batch[0].At() != a;
    }
  }

  /** The first pass: who owns each address, and which addresses carry two chunks. */
  method Ownership(batch: seq<Pending>) returns (owner: map<Address, nat>, diverged: set<Address>)
    ensures IsOwnership(batch, owner, diverged)
  {
    owner, diverged := map[], {};
    for i := 0 to |batch|
      invariant forall j :: 0 <= j < i ==> batch[j].At() in owner
      invariant forall a :: a in owner ==> owner[a] < i && Owns(batch, owner[a], a)
      invariant forall a :: a in diverged ==> Diverged(batch, a)
      invariant forall j :: 0 <= j < i && batch[j].chunk != batch[owner[batch[j].At()]].chunk ==>
                batch[j].At() in diverged
    {
      var a := batch[i].At();
      if a !in owner {
        owner := owner[a := i];
      } else if batch[owner[a]].chunk != batch[i].chunk {
        assert Diverged(batch, a);
        diverged := diverged + {a};
      }
    }
    forall a | a in owner ensures batch[owner[a]] == FirstEntry(batch, a) {
      OwnerIsFirst(batch, owner[a], a);
    }
    forall a | Diverged(batch, a) ensures a in diverged {
      var i, j :| 0 <= i < |batch| && 0 <= j < |batch|
                  && batch[i].At() == a && batch[j].At() == a && batch[i].chunk != batch[j].chunk;
      assert batch[i].chunk != batch[owner[a]].chunk || batch[j].chunk != batch[owner[a]].chunk;
    }
  }

  /** The streams of the batch, each once. */
  method ListStreams(keys: set<Stream>) returns (streams: seq<Stream>)
    ensures forall s :: s in streams <==> s in keys
    ensures forall i, j :: 0 <= i < j < |streams| ==> streams[i] != streams[j]
  {
    streams := [];
    var left := keys;
    while left != {}
      invariant left <= keys
      invariant forall s :: s in streams <==> s in keys && s !in left
      invariant forall i, j :: 0 <= i < j < |streams| ==> streams[i] != streams[j]
      decreases left
    {
      var s :| s in left;
      streams := streams + [s];
      left := left - {s};
    }
  }

  // ---- guard.rs ----

  /** A try-lock succeeds on a lock nobody holds, and on one the transaction already holds. */
  predicate Free(lockId: Stream -> int, locks: map<int, nat>, me: nat, s: Stream) {
    LockOf(lockId, s) in locks ==> locks[LockOf(lockId, s)] == me
  }

  /** Takes the locks one by one, keeping those it gets. Streams that share a lock are held or missed
      together, and no other transaction loses a lock. */
  method TryHold(streams: seq<Stream>, lockId: Stream -> int, locks: map<int, nat>, me: nat)
    returns (acquired: seq<bool>, taken: map<int, nat>)
    ensures |acquired| == |streams|
    ensures forall i :: 0 <= i < |streams| ==>
              (acquired[i] <==>
               LockOf(lockId, streams[i]) !in locks || locks[LockOf(lockId, streams[i])] == me)
    ensures forall i :: 0 <= i < |streams| && acquired[i] ==>
              LockOf(lockId, streams[i]) in taken && taken[LockOf(lockId, streams[i])] == me
    ensures forall i, j | 0 <= i < |streams| && 0 <= j < |streams| ::
              LockOf(lockId, streams[i]) == LockOf(lockId, streams[j]) ==> acquired[i] == acquired[j]
    ensures forall l :: l in locks ==> l in taken && taken[l] == locks[l]
    ensures forall l :: l in taken && l !in locks ==>
              taken[l] == me && exists i :: 0 <= i < |streams| && LockOf(lockId, streams[i]) == l
  {
    acquired, taken := [], locks;
    for i := 0 to |streams|
      invariant |acquired| == i
      invariant forall j :: 0 <= j < i ==> (acquired[j] <==> Free(lockId, locks, me, streams[j]))
      invariant forall j :: 0 <= j < i && acquired[j] ==>
                  LockOf(lockId, streams[j]) in taken && taken[LockOf(lockId, streams[j])] == me
      invariant forall l :: l in locks ==> l in taken && taken[l] == locks[l]
      invariant forall l :: l in taken && l !in locks ==>
                  taken[l] == me && exists j :: 0 <= j < i && LockOf(lockId, streams[j]) == l
    {
      var l := LockOf(lockId, streams[i]);
      var held := l in taken ==> taken[l] == me;
      if held {
        taken := taken[l := me];
      }
      acquired := acquired + [held];
    }
  }

  datatype SealRow = SealRow(ord: int, highWater: int)

  /** The join's rows come back in any order; each names its stream by its 1-based ordinal. */
  ghost predicate IsSealJoin(rows: seq<SealRow>, streams: seq<Stream>, seals: map<Stream, int>) {
    && (forall r :: r in rows ==> 1 <= r.ord <= |streams| && streams[r.ord - 1] in seals
                                  && r.highWater == seals[streams[r.ord - 1]])
    && (forall i :: 0 <= i < |streams| && streams[i] in seals ==> SealRow(i + 1, seals[streams[i]]) in rows)
  }

  function SealOf(seals: map<Stream, int>, s: Stream): Option<int> {
    if s in seals then Some(Max(seals[s], 0)) else None
  }

  /** Fills one slot per stream by ordinal; an ordinal outside the streams is a protocol error. */
  method ReadSeals(streams: seq<Stream>, rows: seq<SealRow>, ghost seals: map<Stream, int>)
    returns (sealed: Option<seq<Option<int>>>)
    ensures sealed.None? <==> exists k :: 0 <= k < |rows| && !(1 <= rows[k].ord <= |streams|)
    ensures sealed.Some? ==> |sealed.value| == |streams|
    ensures IsSealJoin(rows, streams, seals) ==>
              sealed.Some? && forall i :: 0 <= i < |streams| ==> sealed.value[i] == SealOf(seals, streams[i])
  {
    var slots: seq<Option<int>> := seq(|streams|, i => None);
    for k := 0 to |rows|
      invariant |slots| == |streams|
      invariant forall j :: 0 <= j < k ==> 1 <= rows[j].ord <= |streams| && slots[rows[j].ord - 1].Some?
      invariant IsSealJoin(rows, streams, seals) ==>
                  forall i :: 0 <= i < |slots| && slots[i].Some? ==> slots[i] == SealOf(seals, streams[i])
    {
      if !(1 <= rows[k].ord <= |streams|) {
        return None;
      }
      assert rows[k] in rows;
      slots := slots[rows[k].ord - 1 := Some(Max(rows[k].highWater, 0))];
    }
    sealed := Some(slots);
    if IsSealJoin(rows, streams, seals) {
      forall i | 0 <= i < |streams| ensures slots[i] == SealOf(seals, streams[i]) {
        if streams[i] in seals {
          var j :| 0 <= j < |rows| && rows[j] == SealRow(i + 1, seals[streams[i]]);
          assert slots[rows[j].ord - 1].Some?;
        }
      }
    }
  }

  // ---- Judging ----

  /** One change notice per noun and key that gained a chunk. */
  function ImpactsOf(batch: seq<Pending>, inserted: map<Address, Value>): set<Impact>
    requires inserted.Keys <= Addresses(batch)
  {
    set a | a in inserted :: ResourceChanged(FirstEntry(batch, a).noun, a.stream.key)
  }

  /** The branches of the verdict loop for one owned address: its verdict, and whether it is inserted. */
  method JudgeOne(facts: Facts, a: Address, chunk: Value, diverged: bool) returns (verdict: Verdict, insert: bool)
    ensures verdict == Decision(facts, a, chunk, diverged)
    ensures insert <==> Decided(facts, a, diverged)
  {
    insert := false;
    if a.stream in facts.sealed {
      verdict := Refused(Max(facts.sealed[a.stream], 0));
    } else if a in facts.existing {
      verdict := if diverged || facts.existing[a] != chunk then Conflict else Durable;
    } else if diverged {
      verdict := Conflict;
    } else {
      verdict, insert := Durable, true;
    }
  }

  ghost function Decision(facts: Facts, a: Address, chunk: Value, diverged: bool): Verdict {
    if a.stream in facts.sealed then Refused(Max(facts.sealed[a.stream], 0))
    else if diverged || (a in facts.existing && facts.existing[a] != chunk) then Conflict
    else Durable
  }

  ghost predicate Decided(facts: Facts, a: Address, diverged: bool) {
    a.stream !in facts.sealed && a !in facts.existing && !diverged
  }

  /** The verdict loop over the owned addresses of the streams whose lock was taken. */
  method JudgeOwned(batch: seq<Pending>, facts: Facts, owner: map<Address, nat>, diverged: set<Address>)
    returns (verdictOf: map<Address, Verdict>, inserted: map<Address, Value>, touched: set<Impact>)
    requires forall a :: a in owner ==> owner[a] < |batch|
    ensures forall a :: a in verdictOf <==> a in owner && a.stream in facts.held
    ensures forall a :: a in verdictOf ==> verdictOf[a] == Decision(facts, a, batch[owner[a]].chunk, a in diverged)
    ensures forall a :: a in inserted <==> a in verdictOf && Decided(facts, a, a in diverged)
    ensures forall a :: a in inserted ==> inserted[a] == batch[owner[a]].chunk
    ensures touched == set a | a in inserted :: ResourceChanged(batch[owner[a]].noun, batch[owner[a]].stream.key)
  {
    verdictOf, inserted, touched := map[], map[], {};
    var left := set a | a in owner && a.stream in facts.held;
    while left != {}
      invariant forall a :: a in left ==> a in owner && a.stream in facts.held && a !in verdictOf
      invariant forall a :: a in owner && a.stream in facts.held ==> a in left || a in verdictOf
      invariant forall a :: a in verdictOf ==> a in owner && a.stream in facts.held
      invariant forall a :: a in verdictOf ==> verdictOf[a] == Decision(facts, a, batch[owner[a]].chunk, a in diverged)
      invariant forall a :: a in inserted <==> a in verdictOf && Decided(facts, a, a in diverged)
      invariant forall a :: a in inserted ==> inserted[a] == batch[owner[a]].chunk
      invariant touched == set a | a in inserted :: ResourceChanged(batch[owner[a]].noun, batch[owner[a]].stream.key)
      decreases left
    {
      var a :| a in left;
      var pending := batch[owner[a]];
      var verdict, insert := JudgeOne(facts, a, pending.chunk, a in diverged);
      if insert {
        inserted := inserted[a := pending.chunk];
        touched := touched + {ResourceChanged(pending.noun, pending.stream.key)};
      }
      verdictOf := verdictOf[a := verdict];
      left := left - {a};
    }
  }

  /** With the first pass's ownership, the loop's decision is the specification's. */
  lemma DecisionIsJudgement(batch: seq<Pending>, facts: Facts, a: Address)
    requires a in Addresses(batch) && a.stream in facts.held
    ensures Judge(batch, facts, a) == Some(Decision(facts, a, FirstEntry(batch, a).chunk, Diverged(batch, a)))
    ensures a in Inserts(batch, facts) <==> Decided(facts, a, Diverged(batch, a))
  {
  }

  /** The first pass's results: each address's owner, and the diverged addresses. */
  ghost predicate IsOwnership(batch: seq<Pending>, owner: map<Address, nat>, diverged: set<Address>) {
    && owner.Keys == Addresses(batch)
    && (forall a {:trigger owner[a]} :: a in owner ==> owner[a] < |batch| && batch[owner[a]] == FirstEntry(batch, a))
    && (forall a {:trigger a in diverged} :: a in owner ==> (a in diverged <==> Diverged(batch, a)))
  }

  /** The verdict loop's verdicts are the specification's. */
  lemma LoopVerdicts(batch: seq<Pending>, facts: Facts, owner: map<Address, nat>, diverged: set<Address>,
                     verdictOf: map<Address, Verdict>)
    requires IsOwnership(batch, owner, diverged)
    requires forall a :: a in verdictOf ==> a in owner && a.stream in facts.held
                                            && verdictOf[a] == Decision(facts, a, batch[owner[a]].chunk, a in diverged)
    ensures forall a :: a in verdictOf ==> Judge(batch, facts, a) == Some(verdictOf[a])
  {
    forall a | a in verdictOf ensures Judge(batch, facts, a) == Some(verdictOf[a]) {
      DecisionIsJudgement(batch, facts, a);
    }
  }

  /** So are its inserts. */
  lemma LoopInserts(batch: seq<Pending>, facts: Facts, owner: map<Address, nat>, diverged: set<Address>,
                    inserted: map<Address, Value>)
    requires IsOwnership(batch, owner, diverged)
    requires forall a :: a in inserted <==> a in owner && a.stream in facts.held && Decided(facts, a, a in diverged)
    requires forall a :: a in inserted ==> inserted[a] == batch[owner[a]].chunk
    ensures inserted == Inserts(batch, facts)
  {
    var wanted := Inserts(batch, facts);
    forall a | a in wanted ensures a in inserted && inserted[a] == wanted[a] {
      assert owner[a] < |batch| && (a in diverged <==> Diverged(batch, a));
    }
    forall a | a in inserted ensures a in wanted {
      DecisionIsJudgement(batch, facts, a);
    }
    SameMap(inserted, wanted);
  }

  lemma SameMap(m: map<Address, Value>, n: map<Address, Value>)
    requires forall a :: a in n ==> a in m && m[a] == n[a]
    requires forall a :: a in m ==> a in n
    ensures m == n
  {
  }

  /** So are its impacts. */
  lemma LoopImpacts(batch: seq<Pending>, owner: map<Address, nat>, diverged: set<Address>,
                    inserted: map<Address, Value>, touched: set<Impact>)
    requires IsOwnership(batch, owner, diverged) && inserted.Keys <= Addresses(batch)
    requires touched == set a | a in inserted :: ResourceChanged(batch[owner[a]].noun, batch[owner[a]].stream.key)
    ensures touched == ImpactsOf(batch, inserted)
  {
    forall a | a in inserted
      ensures batch[owner[a]] == FirstEntry(batch, a) && FirstEntry(batch, a).stream == a.stream
    {
      assert owner[a] < |batch|;
    }
  }

  // ---- Counting ----

  function Count(verdicts: seq<Option<Verdict>>, p: Option<Verdict> -> bool): nat {
    if verdicts == [] then 0
    else Count(verdicts[..|verdicts| - 1], p) + if p(verdicts[|verdicts| - 1]) then 1 else 0
  }

  const Answered := (v: Option<Verdict>) => v.Some?
  const IsDurable := (v: Option<Verdict>) => v == Some(Durable)
  const IsConflict := (v: Option<Verdict>) => v == Some(Conflict)
  const IsRefused := (v: Option<Verdict>) => v.Some? && v.value.Refused?

  method CountThat(verdicts: seq<Option<Verdict>>, p: Option<Verdict> -> bool) returns (n: nat)
    ensures n == Count(verdicts, p)
  {
    n := 0;
    for i := 0 to |verdicts|
      invariant n == Count(verdicts[..i], p)
    {
      assert verdicts[..i + 1][..i] == verdicts[..i];
      if p(verdicts[i]) {
        n := n + 1;
      }
    }
    assert verdicts[..|verdicts|] == verdicts;
  }

  /** The positions of a prefix whose answers are as wanted. */
  ghost function Positions(verdicts: seq<Option<Verdict>>, n: nat, p: Option<Verdict> -> bool): set<nat>
    requires n <= |verdicts|
  {
    set i: nat | i < n && p(verdicts[i])
  }

  lemma {:induction false} CountIsSize(verdicts: seq<Option<Verdict>>, n: nat, p: Option<Verdict> -> bool)
    requires n <= |verdicts|
    ensures Count(verdicts[..n], p) == |Positions(verdicts, n, p)|
  {
    if n > 0 {
      CountIsSize(verdicts, n - 1, p);
      assert verdicts[..n][..n - 1] == verdicts[..n - 1];
      var before, here := Positions(verdicts, n - 1, p), Positions(verdicts, n, p);
      if p(verdicts[n - 1]) {
        assert here == before + {n - 1};
      } else {
        assert here == before;
      }
    } else {
      assert Positions(verdicts, 0, p) == {};
    }
  }

  /** The counts are the numbers of entries answered so. */
  lemma CountsAreSizes(verdicts: seq<Option<Verdict>>)
    ensures Count(verdicts, Answered) == |set i: nat | i < |verdicts| && verdicts[i].Some?|
    ensures Count(verdicts, IsDurable) == |set i: nat | i < |verdicts| && verdicts[i] == Some(Durable)|
    ensures Count(verdicts, IsConflict) == |set i: nat | i < |verdicts| && verdicts[i] == Some(Conflict)|
    ensures Count(verdicts, IsRefused)
            == |set i: nat | i < |verdicts| && verdicts[i].Some? && verdicts[i].value.Refused?|
  {
    var n := |verdicts|;
    assert verdicts[..n] == verdicts;
    CountIsSize(verdicts, n, Answered);
    CountIsSize(verdicts, n, IsDurable);
    CountIsSize(verdicts, n, IsConflict);
    CountIsSize(verdicts, n, IsRefused);
    assert Positions(verdicts, n, Answered) == set i: nat | i < n && verdicts[i].Some?;
    assert Positions(verdicts, n, IsDurable) == set i: nat | i < n && verdicts[i] == Some(Durable);
    assert Positions(verdicts, n, IsConflict) == set i: nat | i < n && verdicts[i] == Some(Conflict);
    assert Positions(verdicts, n, IsRefused) == set i: nat | i < n && verdicts[i].Some? && verdicts[i].value.Refused?;
  }

  /** Answered entries are durable, refused or conflicting, and nothing else. */
  lemma {:induction false} CountsAddUp(verdicts: seq<Option<Verdict>>)
    requires forall i :: 0 <= i < |verdicts| ==> verdicts[i] != Some(Unmapped)
    ensures Count(verdicts, Answered)
            == Count(verdicts, IsDurable) + Count(verdicts, IsRefused) + Count(verdicts, IsConflict)
  {
    if verdicts != [] {
      CountsAddUp(verdicts[..|verdicts| - 1]);
    }
  }

  // ---- The whole transaction ----

  /** What the transaction learns when `free` are the streams whose try-lock succeeds, `seals` the
      markers its seal lookup sees and `persisted` the chunks its row lookup sees. */
  function FactsOf(batch: seq<Pending>, free: set<Stream>, seals: map<Stream, int>,
                   persisted: map<Address, Value>): Facts {
    var held := Streams(batch) * free;
    Facts(held,
          map s | s in held && s in seals :: seals[s],
          map a | a in Addresses(batch) && a.stream in held && a in persisted :: persisted[a])
  }

  /** The streams of the batch whose locks can be had. */
  function FreeStreams(batch: seq<Pending>, lockId: Stream -> int, locks: map<int, nat>, me: nat): set<Stream> {
    set s | s in Streams(batch) && Free(lockId, locks, me, s)
  }

  method AcquiredStreams(streams: seq<Stream>, held: seq<bool>) returns (acquired: seq<Stream>)
    requires |held| == |streams|
    ensures forall s :: s in acquired <==> exists i :: 0 <= i < |streams| && streams[i] == s && held[i]
  {
    acquired := [];
    for k := 0 to |streams|
      invariant forall s :: s in acquired <==> exists i :: 0 <= i < k && streams[i] == s && held[i]
    {
      if held[k] {
        acquired := acquired + [streams[k]];
      }
    }
  }

  method SealJoin(streams: seq<Stream>, seals: map<Stream, int>) returns (rows: seq<SealRow>)
    ensures IsSealJoin(rows, streams, seals)
  {
    rows := [];
    for k := 0 to |streams|
      invariant forall r :: r in rows ==> 1 <= r.ord <= k && streams[r.ord - 1] in seals
                                          && r.highWater == seals[streams[r.ord - 1]]
      invariant forall i :: 0 <= i < k && streams[i] in seals ==> SealRow(i + 1, seals[streams[i]]) in rows
    {
      if streams[k] in seals {
        rows := rows + [SealRow(k + 1, seals[streams[k]])];
      }
    }
  }

  /** The seal lookup's answer, by stream. */
  method SealedHighWaters(acquired: seq<Stream>, seals: map<Stream, int>) returns (sealed: map<Stream, int>)
    ensures sealed.Keys == (set s | s in acquired && s in seals)
    ensures forall s :: s in sealed ==> sealed[s] == Max(seals[s], 0)
  {
    var rows := SealJoin(acquired, seals);
    var read := ReadSeals(acquired, rows, seals);
    sealed := map[];
    for i := 0 to |acquired|
      invariant sealed.Keys == (set j | 0 <= j < i && acquired[j] in seals :: acquired[j])
      invariant forall s :: s in sealed ==> sealed[s] == Max(seals[s], 0)
    {
      if read.value[i].Some? {
        sealed := sealed[acquired[i] := read.value[i].value];
      }
    }
  }

  /** The facts as the lookups deliver them judge the batch as the specification's do. */
  method Gather(batch: seq<Pending>, owner: map<Address, nat>, acquired: seq<Stream>, seals: map<Stream, int>,
                persisted: map<Address, Value>, ghost free: set<Stream>) returns (facts: Facts)
    requires owner.Keys == Addresses(batch)
    requires forall s :: s in acquired <==> s in Streams(batch) * free
    ensures forall a :: a in Addresses(batch) ==>
              Judge(batch, facts, a) == Judge(batch, FactsOf(batch, free, seals, persisted), a)
    ensures Inserts(batch, facts) == Inserts(batch, FactsOf(batch, free, seals, persisted))
  {
    var sealed := SealedHighWaters(acquired, seals);
    var existing := map a | a in owner && a.stream in acquired && a in persisted :: persisted[a];
    facts := Facts((set s | s in acquired), sealed, existing);
    GatheredFacts(batch, acquired, seals, persisted, free, facts);
    SameJudgement(batch, facts, FactsOf(batch, free, seals, persisted));
  }

  lemma GatheredFacts(batch: seq<Pending>, acquired: seq<Stream>, seals: map<Stream, int>,
                      persisted: map<Address, Value>, free: set<Stream>, facts: Facts)
    requires forall s :: s in acquired <==> s in Streams(batch) * free
    requires facts.held == set s | s in acquired
    requires facts.sealed.Keys == set s | s in acquired && s in seals
    requires facts.existing == map a | a in Addresses(batch) && a.stream in acquired && a in persisted :: persisted[a]
    ensures var spec := FactsOf(batch, free, seals, persisted);
            facts.held == spec.held && facts.existing == spec.existing && facts.sealed.Keys == spec.sealed.Keys
  {
  }

  lemma SameJudgement(batch: seq<Pending>, facts: Facts, spec: Facts)
    requires facts.held == spec.held && facts.existing == spec.existing && facts.sealed.Keys == spec.sealed.Keys
    requires forall s :: s in spec.sealed ==> facts.sealed[s] == Max(spec.sealed[s], 0)
    ensures forall a :: a in Addresses(batch) ==> Judge(batch, facts, a) == Judge(batch, spec, a)
    ensures Inserts(batch, facts) == Inserts(batch, spec)
  {
  }

  /** The transaction: try-locks, seal lookup, row lookup, verdicts, inserts, impacts and counts. */
  method CommitBatch(batch: seq<Pending>, lockId: Stream -> int, locks: map<int, nat>, me: nat,
                     seals: map<Stream, int>, persisted: map<Address, Value>)
    returns (verdicts: seq<Option<Verdict>>, outcome: FlushOutcome, inserted: map<Address, Value>, impacts: set<Impact>)
    ensures |verdicts| == |batch|
    ensures forall i :: 0 <= i < |batch| ==>
              verdicts[i] == Judge(batch, FactsOf(batch, FreeStreams(batch, lockId, locks, me), seals, persisted),
                                   batch[i].At())
    ensures inserted == Inserts(batch, FactsOf(batch, FreeStreams(batch, lockId, locks, me), seals, persisted))
    ensures impacts == ImpactsOf(batch, inserted) && outcome.impacts == |impacts|
    ensures outcome.buffered == |set i: nat | i < |verdicts| && verdicts[i].Some?|
    ensures outcome.durable == |set i: nat | i < |verdicts| && verdicts[i] == Some(Durable)|
    ensures outcome.refused == |set i: nat | i < |verdicts| && verdicts[i].Some? && verdicts[i].value.Refused?|
    ensures outcome.conflicts == |set i: nat | i < |verdicts| && verdicts[i] == Some(Conflict)|
    ensures outcome.durable + outcome.refused + outcome.conflicts == outcome.buffered
  {
    var owner, diverged := Ownership(batch);
    var streams := ListStreams(set i | 0 <= i < |batch| :: batch[i].stream);
    var held, taken := TryHold(streams, lockId, locks, me);
    var acquired := AcquiredStreams(streams, held);
    var facts := Gather(batch, owner, acquired, seals, persisted, FreeStreams(batch, lockId, locks, me));
    var verdictOf;
    verdictOf, inserted, impacts := JudgeOwned(batch, facts, owner, diverged);
    LoopVerdicts(batch, facts, owner, diverged, verdictOf);
    LoopInserts(batch, facts, owner, diverged, inserted);
    LoopImpacts(batch, owner, diverged, inserted, impacts);
    verdicts := Answers(batch, facts, verdictOf);
    var processed := CountThat(verdicts, Answered);
    var durable := CountThat(verdicts, IsDurable);
    var conflicts := CountThat(verdicts, IsConflict);
    CountsAddUp(verdicts);
    CountsAreSizes(verdicts);
    outcome := FlushOutcome(processed, durable, processed - durable - conflicts, conflicts, |impacts|);
  }

  /** One answer per entry, in batch order. The fallback for an address without a verdict never occurs. */
  method Answers(batch: seq<Pending>, facts: Facts, verdictOf: map<Address, Verdict>)
    returns (verdicts: seq<Option<Verdict>>)
    requires forall a :: a in verdictOf <==> a in Addresses(batch) && a.stream in facts.held
    requires forall a :: a in verdictOf ==> Judge(batch, facts, a) == Some(verdictOf[a])
    ensures |verdicts| == |batch|
    ensures forall i :: 0 <= i < |batch| ==> verdicts[i] == Judge(batch, facts, batch[i].At())
    ensures forall i :: 0 <= i < |batch| ==> verdicts[i] != Some(Unmapped)
  {
    verdicts := [];
    for i := 0 to |batch|
      invariant |verdicts| == i
      invariant forall j :: 0 <= j < i ==> verdicts[j] == Judge(batch, facts, batch[j].At())
    {
      var a := batch[i].At();
      var verdict := if a.stream !in facts.held then None
                     else if a in verdictOf then Some(verdictOf[a]) else Some(Unmapped);
      verdicts := verdicts + [verdict];
    }
  }

  // ---- Impacts ----

  ghost function Gained(inserted: map<Address, Value>): set<Stream> {
    set a | a in inserted :: a.stream
  }

  ghost function Notices(nouns: map<string, string>, streams: set<Stream>): set<Impact>
    requires forall s :: s in streams ==> s.accumulator in nouns
  {
    set s | s in streams :: ResourceChanged(nouns[s.accumulator], s.key)
  }

  ghost predicate NounsClash(nouns: map<string, string>, streams: set<Stream>)
    requires forall s :: s in streams ==> s.accumulator in nouns
  {
    exists s, u :: s in streams && u in streams && s != u
                   && nouns[s.accumulator] == nouns[u.accumulator] && s.key == u.key
  }

  lemma ClashSplits(nouns: map<string, string>, streams: set<Stream>, s: Stream)
    requires s in streams && forall u :: u in streams ==> u.accumulator in nouns
    ensures NounsClash(nouns, streams) <==>
              || NounsClash(nouns, streams - {s})
              || ResourceChanged(nouns[s.accumulator], s.key) in Notices(nouns, streams - {s})
  {
    var rest := streams - {s};
    var notice := ResourceChanged(nouns[s.accumulator], s.key);
    if NounsClash(nouns, streams) {
      var u, v :| u in streams && v in streams && u != v
                  && nouns[u.accumulator] == nouns[v.accumulator] && u.key == v.key;
      if u == s {
        assert v in rest && notice == ResourceChanged(nouns[v.accumulator], v.key);
      } else if v == s {
        assert u in rest && notice == ResourceChanged(nouns[u.accumulator], u.key);
      } else {
        assert u in rest && v in rest;
      }
    }
    if notice in Notices(nouns, rest) {
      var u :| u in rest && notice == ResourceChanged(nouns[u.accumulator], u.key);
      assert s in streams && u in streams && s != u;
    }
  }

  lemma {:induction false} NoticesCount(nouns: map<string, string>, streams: set<Stream>)
    requires forall s :: s in streams ==> s.accumulator in nouns
    ensures |Notices(nouns, streams)| <= |streams|
    ensures |Notices(nouns, streams)| == |streams| <==> !NounsClash(nouns, streams)
  {
    if streams != {} {
      var s :| s in streams;
      var rest := streams - {s};
      NoticesCount(nouns, rest);
      var notice := ResourceChanged(nouns[s.accumulator], s.key);
      assert Notices(nouns, streams) == Notices(nouns, rest) + {notice};
      assert |streams| == |rest| + 1;
      ClashSplits(nouns, streams, s);
    }
  }

  /** One impact is staged per stream that gained a chunk exactly when no two of them share a noun and
      a key; two accumulators of one noun share one impact. */
  lemma OneImpactPerGainedStream(batch: seq<Pending>, facts: Facts, nouns: map<string, string>)
    requires forall p :: p in batch ==> p.stream.accumulator in nouns && p.noun == nouns[p.stream.accumulator]
    ensures var inserted := Inserts(batch, facts);
            && (forall s :: s in Gained(inserted) ==> s.accumulator in nouns)
            && ImpactsOf(batch, inserted) == Notices(nouns, Gained(inserted))
            && (|ImpactsOf(batch, inserted)| == |Gained(inserted)| <==> !NounsClash(nouns, Gained(inserted)))
  {
    var inserted := Inserts(batch, facts);
    forall a | a in inserted
      ensures a.stream.accumulator in nouns && FirstEntry(batch, a).noun == nouns[a.stream.accumulator]
    {
      assert FirstEntry(batch, a) in batch;
    }
    forall n | n in Notices(nouns, Gained(inserted)) ensures n in ImpactsOf(batch, inserted) {
      var a :| a in inserted && n == ResourceChanged(nouns[a.stream.accumulator], a.stream.key);
    }
    assert ImpactsOf(batch, inserted) == Notices(nouns, Gained(inserted));
    NoticesCount(nouns, Gained(inserted));
  }

  /** Two frames of two unsealed, empty streams are both inserted. */
  lemma BothInserted(p: Pending, q: Pending)
    requires p.stream != q.stream
    ensures var batch := [p, q];
            var inserted := Inserts(batch, Facts(Streams(batch), map[], map[]));
            && inserted.Keys == {p.At(), q.At()} && inserted.Keys <= Addresses(batch)
            && FirstEntry(batch, p.At()) == p && FirstEntry(batch, q.At()) == q
  {
    var batch := [p, q];
    assert batch[0].At() in Addresses(batch) && batch[1].At() in Addresses(batch);
    assert batch[0].stream in Streams(batch) && batch[1].stream in Streams(batch);
    assert Addresses(batch) == {p.At(), q.At()};
    assert !Diverged(batch, p.At()) && !Diverged(batch, q.At());
  }

  /** Two accumulators of one noun, one key: both streams gain a chunk, and one impact is staged. */
  lemma SharedNounSharesImpact(noun: string, key: string, chunk: Value)
    ensures var batch := [Pending(Stream("a", key), noun, 0, chunk), Pending(Stream("b", key), noun, 0, chunk)];
            var inserted := Inserts(batch, Facts(Streams(batch), map[], map[]));
            |Gained(inserted)| == 2 && |ImpactsOf(batch, inserted)| == 1
  {
    var p, q := Pending(Stream("a", key), noun, 0, chunk), Pending(Stream("b", key), noun, 0, chunk);
    assert p.stream.accumulator != q.stream.accumulator;
    var inserted := Inserts([p, q], Facts(Streams([p, q]), map[], map[]));
    BothInserted(p, q);
    assert Gained(inserted) == {p.stream, q.stream} by {
      assert p.At() in inserted && q.At() in inserted;
    }
    assert ImpactsOf([p, q], inserted) == {ResourceChanged(noun, key)} by {
      assert p.At() in inserted;
    }
  }

  /** An address with two chunks in the batch and none in the store is left without a row. */
  lemma DivergedInsertsNeither(batch: seq<Pending>, facts: Facts, i: nat, j: nat)
    requires i < |batch| && j < |batch| && batch[i].At() == batch[j].At() && batch[i].chunk != batch[j].chunk
    ensures batch[i].At() !in Inserts(batch, facts)
    ensures batch[i].stream in facts.held && batch[i].stream !in facts.sealed ==>
              Judge(batch, facts, batch[i].At()) == Some(Conflict)
  {
    assert Diverged(batch, batch[i].At());
  }
}
