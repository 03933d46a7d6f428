/** Which byte ranges a transfer fetches (src/sync.rs). */
module ChunkPlan {
  import opened Blocks
  import opened Primitives

  function ChunkCount(size: u64, chunkSize: u64): nat
    requires chunkSize > 0
  {
    if size == 0 then 1 else (size - 1) / chunkSize + 1
  }

  /** Chunk idx as the transfer computes it: offset and length. */
  function ChunkRange(size: u64, chunkSize: u64, idx: nat): (nat, nat) {
    var offset := idx * chunkSize;
    (offset, Min(Max(size - offset, 0), chunkSize))
  }

  /** The range of a chunk is the block of the same number, inside the file, and
      its end fits in 64 bits. */
  lemma RangeIsBlock(file: Bytes, chunkSize: u64, idx: nat)
    requires |file| < U64_LIMIT && chunkSize > 0 && idx < ChunkCount(|file|, chunkSize)
    ensures var (offset, len) := ChunkRange(|file|, chunkSize, idx);
            offset == Offset(chunkSize, idx) && offset + len <= |file| < U64_LIMIT
            && Block(file, chunkSize, idx) == file[offset..offset + len]
            && (|file| > 0 ==> len > 0)
  {
    OffsetIsProduct(chunkSize, idx);
    if |file| > 0 {
      StartsInside(|file|, chunkSize, idx);
    }
  }

  lemma StartsInside(size: u64, chunkSize: u64, idx: nat)
    requires size > 0 && chunkSize > 0 && idx < ChunkCount(size, chunkSize)
    ensures Offset(chunkSize, idx) < size
  {
    var last := (size - 1) / chunkSize;
    LastStart(size - 1, chunkSize, last);
    OffsetIsProduct(chunkSize, last);
    OffsetGrows(chunkSize, idx, last);
  }

  lemma LastStart(x: nat, d: u64, q: nat)
    requires d > 0 && q == x / d
    ensures q * d <= x
  {
  }

  /** Offset and length of one chunk of a file. */
  method PlanChunk(ghost file: Bytes, size: u64, chunkSize: u64, idx: nat) returns (offset: nat, len: nat)
    requires |file| == size && chunkSize > 0 && idx < ChunkCount(size, chunkSize)
    ensures offset == Offset(chunkSize, idx) && offset + len <= size
    ensures len == |Block(file, chunkSize, idx)|
  {
    RangeIsBlock(file, chunkSize, idx);
    var range := ChunkRange(size, chunkSize, idx);
    offset, len := range.0, range.1;
  }

  predicate Holds(chunkSize: u64, idx: nat, pos: nat) {
    Offset(chunkSize, idx) <= pos < Offset(chunkSize, idx + 1)
  }

  lemma {:induction false} SomeChunkHolds(chunkSize: u64, n: nat, pos: nat) returns (idx: nat)
    requires pos < Offset(chunkSize, n)
    ensures idx < n && Holds(chunkSize, idx, pos)
  {
    if pos >= Offset(chunkSize, n - 1) {
      idx := n - 1;
    } else {
      idx := SomeChunkHolds(chunkSize, n - 1, pos);
    }
  }

  /** The planned chunks partition the file: every byte position lies in exactly
      one of them, and an empty file has one empty chunk. */
  lemma ChunksPartition(size: u64, chunkSize: u64, pos: nat)
    requires chunkSize > 0
    ensures pos < size ==> exists idx: nat :: idx < ChunkCount(size, chunkSize) && Holds(chunkSize, idx, pos)
    ensures forall j: nat, k: nat :: (Holds(chunkSize, j, pos) && Holds(chunkSize, k, pos)) ==> j == k
    ensures size == 0 ==> ChunkCount(size, chunkSize) == 1
  {
    ChunksCover(size, chunkSize);
    if pos < size {
      var idx := SomeChunkHolds(chunkSize, ChunkCount(size, chunkSize), pos);
    }
    forall j: nat, k: nat | Holds(chunkSize, j, pos) && Holds(chunkSize, k, pos)
      ensures j == k
    {
      if j != k {
        BlocksDisjoint(chunkSize, j, k);
      }
    }
  }

  lemma ChunksCover(size: u64, chunkSize: u64)
    requires chunkSize > 0
    ensures Offset(chunkSize, ChunkCount(size, chunkSize)) >= size
  {
    OffsetIsProduct(chunkSize, ChunkCount(size, chunkSize));
    if size > 0 {
      CountCovers(size, chunkSize);
    }
  }

  lemma CountCovers(size: u64, chunkSize: u64)
    requires chunkSize > 0 && size > 0
    ensures ChunkCount(size, chunkSize) * chunkSize >= size
  {
    var q := (size - 1) / chunkSize;
    assert size - 1 == q * chunkSize + (size - 1) % chunkSize;
    assert (q + 1) * chunkSize == q * chunkSize + chunkSize;
  }

  /** The chunks of a file that is fetched from nothing. */
  function Numbers(n: nat): seq<nat> {
    seq(n, k => k)
  }

  /** The chunks still to fetch, in ascending order. */
  method MissingChunks(count: nat, completed: set<nat>) returns (missing: seq<nat>)
    ensures forall idx: nat :: idx in missing <==> idx < count && idx !in completed
    ensures forall i, j :: 0 <= i < j < |missing| ==> missing[i] < missing[j]
    ensures completed == {} ==> missing == Numbers(count)
  {
    missing := [];
    for idx := 0 to count
      invariant forall i: nat :: i in missing <==> i < idx && i !in completed
      invariant forall i, j :: 0 <= i < j < |missing| ==> missing[i] < missing[j]
      invariant forall i :: 0 <= i < |missing| ==> missing[i] < idx
      invariant completed == {} ==> missing == Numbers(idx)
    {
      if idx !in completed {
        missing := missing + [idx];
      }
    }
  }
}
