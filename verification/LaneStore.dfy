/** The rows the accumulated lane keeps in Postgres, and the batch entries a pod holds in memory. */
module LaneStore {

  /** A chunk sequence is a `u64` whose constructor refuses everything a `bigint` cannot store. */
  type ChunkSeq = n: int | 0 <= n <= 0x7FFF_FFFF_FFFF_FFFF

  /** A chunk is a JSON document. The lane only ever compares documents for equality. */
  type Value = string

  /** One accumulated stream: the accumulator's name and the canonical bytes of the noun's key. */
  datatype Stream = Stream(accumulator: string, key: string)

  /** Primary key of `accumulator_chunk`. */
  datatype Address = Address(stream: Stream, number: ChunkSeq)

  datatype Row = Row(chunk: Value, stagedAt: int)

  /** A row of `accumulator_seal`; `purged` stands for a non-null `purged_at`. */
  datatype Marker = Marker(highWater: int, sealedAt: int, purged: bool)

  datatype Pending = Pending(stream: Stream, noun: string, number: ChunkSeq, chunk: Value)
  {
    function At(): Address {
      Address(stream, number)
    }
  }

  /** The advisory lock that guards a stream; two streams may have the same. */
  function LockOf(lockId: Stream -> int, s: Stream): int {
    lockId(s)
  }
}
