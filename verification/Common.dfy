/** Types shared by all parts of the model. */
module Common {

  type Byte = b: int | 0 <= b < 256
  type Bytes = seq<Byte>

  /** A chunk is the unit of comparison of the trie (src/HBTrie/chunk.h). */
  type Chunk = Bytes

  const U16_LIMIT: int := 0x1_0000
  const U32_LIMIT: int := 0x1_0000_0000
  const U64_LIMIT: int := 0x1_0000_0000_0000_0000

  type U64 = n: int | 0 <= n < U64_LIMIT

  datatype Option<+T> = None | Some(value: T)

  /** A transaction id, ordered by time, then nanoseconds, then count. */
  datatype TxnId = TxnId(time: U64, nanos: U64, count: U64) {
    predicate Less(other: TxnId) {
      || time < other.time
      || (time == other.time && nanos < other.nanos)
      || (time == other.time && nanos == other.nanos && count < other.count)
    }

    predicate AtMost(other: TxnId) {
      this == other || Less(other)
    }
  }

  /** An id as one number: seconds, then nanoseconds, then count. */
  ghost function Number(t: TxnId): nat {
    (t.time * U64_LIMIT + t.nanos) * U64_LIMIT + t.count
  }

  /** Ids are ordered as numbers, so by time first, then by nanoseconds, then by count. */
  lemma TxnOrderIs(a: TxnId, b: TxnId)
    ensures a.Less(b) <==> Number(a) < Number(b)
    ensures a.AtMost(b) <==> Number(a) <= Number(b)
    ensures a.AtMost(b) ==> a.time <= b.time && (a.time == b.time ==> a.nanos <= b.nanos)
    ensures a.time < b.time ==> a.Less(b)
  {
  }

  const ZERO_TXN: TxnId := TxnId(0, 0, 0)
  const SENTINEL_TXN: TxnId := TxnId(U64_LIMIT - 1, U64_LIMIT - 1, U64_LIMIT - 1)

  /** s without its element at position `at`. */
  ghost function Without<T>(s: seq<T>, at: nat): (rest: seq<T>)
    requires at < |s|
    ensures |rest| == |s| - 1
    ensures forall k | 0 <= k < |rest| :: rest[k] == if k < at then s[k] else s[k + 1]
  {
    s[..at] + s[at + 1..]
  }
}
