/**
  The wire format of the BLE chunk protocol: chunks, the split of a payload into
  chunks, and the fact that joining the parts of a split gives the payload back.
*/
module ChunkFraming {
  import opened Arithmetic
  import opened Sequences

  type Bytes = seq<Byte>
  type Id = string

  /** An ack travels as a chunk without a total: this value tells the two apart. */
  const CHUNK_ACK_TOTAL: nat := 0

  datatype Chunk = Chunk(corr: Id, index: nat, total: nat, data: Bytes)

  datatype Config = Config(maxChunkPayloadBytes: nat, maxInflightInbound: nat, maxTotalChunks: nat) {
    function ChunkSize(): nat {
      if maxChunkPayloadBytes == 0 then 1 else maxChunkPayloadBytes
    }

    /** How many partial messages are really held: a cap of zero still lets the newest one in. */
    function Capacity(): nat {
      if maxInflightInbound == 0 then 1 else maxInflightInbound
    }
  }

  function Ack(corr: Id, index: nat): Chunk {
    Chunk(corr, index, CHUNK_ACK_TOTAL, [])
  }

  /** One chunk for each started `size` bytes, and one for an empty payload. */
  function ChunkCount(length: nat, size: nat): (n: nat)
    requires size > 0
    ensures n >= 1
  {
    if length <= size then 1 else 1 + ChunkCount(length - size, size)
  }

  /** Where part `i` starts; the last part may be shorter than `size`. */
  function Cut(length: nat, size: nat, i: nat): (c: nat)
    ensures c <= length
  {
    if i == 0 then 0 else Min(Cut(length, size, i - 1) + size, length)
  }

  function Part(data: Bytes, size: nat, i: nat): Bytes {
    data[Cut(|data|, size, i)..Cut(|data|, size, i + 1)]
  }

  function Split(corr: Id, data: Bytes, size: nat): (chunks: seq<Chunk>)
    requires size > 0
    ensures |chunks| == ChunkCount(|data|, size)
  {
    seq(ChunkCount(|data|, size), i requires 0 <= i => Chunk(corr, i, ChunkCount(|data|, size), Part(data, size, i)))
  }

  lemma {:induction false} CutAfterFirst(length: nat, size: nat, i: nat)
    requires length >= size
    ensures Cut(length, size, i + 1) == size + Cut(length - size, size, i)
  {
    if i == 0 {
    } else {
      CutAfterFirst(length, size, i - 1);
    }
  }

  lemma {:induction false} CountCoversTheData(length: nat, size: nat)
    requires size > 0
    ensures Cut(length, size, ChunkCount(length, size)) == length
  {
    if length <= size {
      assert Cut(length, size, 0) == 0;
    } else {
      CountCoversTheData(length - size, size);
      CutAfterFirst(length, size, ChunkCount(length - size, size));
    }
  }

  /** The recursive count is the rounded-up quotient, but for the one chunk of an empty payload. */
  lemma {:induction false} CountIsRoundedUpQuotient(length: nat, size: nat)
    requires size > 0
    ensures ChunkCount(length, size) == if length == 0 then 1 else (length + size - 1) / size
  {
    if length == 0 {
    } else if length <= size {
      assert length + size - 1 == 1 * size + (length - 1);
      QuotientOf(length + size - 1, size, 1, length - 1);
    } else {
      CountIsRoundedUpQuotient(length - size, size);
      var q, r := (length - 1) / size, (length - 1) % size;
      assert (q + 1) * size == q * size + size;
      QuotientOf(length + size - 1, size, q + 1, r);
    }
  }

  /** No part before the last one is short, so its start is inside the payload. */
  lemma {:induction false} CutBeforeLast(length: nat, size: nat, i: nat)
    requires size > 0 && i < ChunkCount(length, size)
    ensures i * size <= length && Cut(length, size, i) == i * size
    ensures i * size < length || length == 0
  {
    if i == 0 {
      assert i * size == 0;
    } else {
      CutBeforeLast(length - size, size, i - 1);
      CutAfterFirst(length, size, i - 1);
      assert i * size == (i - 1) * size + size;
    }
  }

  /** Part `i` is the `size` bytes from `i * size` on, or what is left of them. */
  lemma PartAt(data: Bytes, size: nat, i: nat)
    requires size > 0 && i < ChunkCount(|data|, size)
    ensures i * size <= |data|
    ensures Part(data, size, i) == data[i * size..Min(i * size + size, |data|)]
  {
    CutBeforeLast(|data|, size, i);
    assert Cut(|data|, size, i + 1) == Min(Cut(|data|, size, i) + size, |data|);
  }

  lemma JoinAtCut(data: Bytes, a: nat, b: nat)
    requires a <= b <= |data|
    ensures data[..a] + data[a..b] == data[..b]
  {
  }

  lemma {:induction false} PrefixJoins(data: Bytes, size: nat, parts: seq<Bytes>)
    requires forall i :: 0 <= i < |parts| ==> parts[i] == Part(data, size, i)
    ensures Concat(parts) == data[..Cut(|data|, size, |parts|)]
  {
    if parts == [] {
    } else {
      var n := |parts| - 1;
      PrefixJoins(data, size, parts[..n]);
      JoinAtCut(data, Cut(|data|, size, n), Cut(|data|, size, n + 1));
      assert parts[n] == Part(data, size, n);
    }
  }

  /** Joining all parts of a split gives the payload back, whatever the chunk size. */
  lemma PartsJoinToPayload(data: Bytes, size: nat, parts: seq<Bytes>)
    requires size > 0
    requires |parts| == ChunkCount(|data|, size)
    requires forall i :: 0 <= i < |parts| ==> parts[i] == Part(data, size, i)
    ensures Concat(parts) == data
  {
    PrefixJoins(data, size, parts);
    CountCoversTheData(|data|, size);
  }

  /** The chunk size is the configured one; a size of zero counts as one. */
  lemma ChunkSizeIsConfigured(cfg: Config)
    ensures cfg.maxChunkPayloadBytes > 0 ==> cfg.ChunkSize() == cfg.maxChunkPayloadBytes
    ensures cfg.maxChunkPayloadBytes == 0 ==> cfg.ChunkSize() == 1
  {
  }

  /** What each chunk of a split says about itself. */
  lemma SplitChunk(corr: Id, data: Bytes, size: nat, i: nat)
    requires size > 0 && i < ChunkCount(|data|, size)
    ensures var c := Split(corr, data, size)[i];
            && c.corr == corr && c.index == i && c.total == |Split(corr, data, size)|
            && i * size <= |data| && c.data == data[i * size..Min(i * size + size, |data|)]
  {
    PartAt(data, size, i);
  }

  /** No chunk is longer than the configured size, only the last may be shorter, and only an empty payload has an empty one. */
  lemma PartSizes(data: Bytes, size: nat, i: nat)
    requires size > 0 && i < ChunkCount(|data|, size)
    ensures |Part(data, size, i)| <= size
    ensures |data| > 0 ==> |Part(data, size, i)| > 0
    ensures i + 1 < ChunkCount(|data|, size) ==> |Part(data, size, i)| == size
  {
    CutBeforeLast(|data|, size, i);
    if i + 1 < ChunkCount(|data|, size) {
      CutBeforeLast(|data|, size, i + 1);
    }
  }
}
