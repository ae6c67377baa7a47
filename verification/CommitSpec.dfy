/** What a flush batch means: the specification `commit_batch` is proved against and the lane
    protocol runs on. */
module CommitSpec {
  import opened Basics
  import opened LaneStore

  datatype Verdict = Durable | Refused(sealedHighWater: int) | Conflict | Unmapped

  /** The addresses a batch carries. */
  function Addresses(batch: seq<Pending>): set<Address> {
    set i | 0 <= i < |batch| :: batch[i].At()
  }

  function Streams(batch: seq<Pending>): set<Stream> {
    set i | 0 <= i < |batch| :: batch[i].stream
  }

  /** The first entry at an address; it owns the address. */
  function FirstEntry(batch: seq<Pending>, a: Address): (entry: Pending)
    requires a in Addresses(batch)
    ensures entry in batch && entry.At() == a
  {
    if batch[0].At() == a then
      batch[0]
    else
      assert a in Addresses(batch[1..]) by {
        var i :| 0 <= i < |batch| && batch[i].At() == a;
        assert batch[1..][i - 1] == batch[i];
      }
      FirstEntry(batch[1..], a)
  }

  function FirstChunk(batch: seq<Pending>, a: Address): Value
    requires a in Addresses(batch)
  {
    FirstEntry(batch, a).chunk
  }

  /** Two entries of the batch put different chunks at one address. */
  predicate Diverged(batch: seq<Pending>, a: Address) {
    exists i, j | 0 <= i < |batch| && 0 <= j < |batch| ::
      batch[i].At() == a && batch[j].At() == a && batch[i].chunk != batch[j].chunk
  }

  /** What one transaction learned: the streams whose try-lock succeeded, the high waters of the
      markers it found on them, and the chunks it found at the batch's addresses. */
  datatype Facts = Facts(held: set<Stream>, sealed: map<Stream, int>, existing: map<Address, Value>)

  /** The answer for an address; None leaves its entries unanswered. */
  function Judge(batch: seq<Pending>, facts: Facts, a: Address): Option<Verdict>
    requires a in Addresses(batch)
  {
    if a.stream !in facts.held then
      None
    else if a.stream in facts.sealed then
      Some(Refused(Max(facts.sealed[a.stream], 0)))
    else if a in facts.existing then
      Some(if Diverged(batch, a) || facts.existing[a] != FirstChunk(batch, a) then Conflict else Durable)
    else
      Some(if Diverged(batch, a) then Conflict else Durable)
  }

  /** The rows the transaction inserts. */
  function Inserts(batch: seq<Pending>, facts: Facts): map<Address, Value> {
    map a | a in Addresses(batch)
            && a.stream in facts.held
            && a.stream !in facts.sealed
            && a !in facts.existing
            && !Diverged(batch, a)
      :: FirstChunk(batch, a)
  }

  /** Every entry at an address that did not diverge carries the owner's chunk. */
  lemma OneChunkUnlessDiverged(batch: seq<Pending>, i: nat)
    requires i < |batch|
    requires !Diverged(batch, batch[i].At())
    ensures batch[i].At() in Addresses(batch)
    ensures FirstChunk(batch, batch[i].At()) == batch[i].chunk
  {
    var a := batch[i].At();
    assert a in Addresses(batch);
    var k :| 0 <= k < |batch| && batch[k] == FirstEntry(batch, a);
  }
}
