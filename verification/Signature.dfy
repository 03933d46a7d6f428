/** Cutting the basis file into signed blocks (src/delta/signature.rs). */
module Signature {
  import opened Blocks
  import opened Primitives
  import opened Checksum
  import opened DeltaProtocol

  datatype BlockSig = BlockSig(index: u64, len: u32, weak: u32, strong: u128)

  datatype FileSignature = FileSignature(blockSize: u32, fileSize: u64, blocks: seq<BlockSig>)

  function ChooseBlockSize(fileSize: u64, configured: Option<u32>): (r: u32)
    ensures r >= 1024
    ensures configured.Some? ==> r >= configured.value && (r == configured.value || r == 1024)
    ensures configured.None? ==> r == 32 * 1024 || r == 64 * 1024 || r == 128 * 1024
    ensures configured.None? && r > 32 * 1024 ==> fileSize >= 1024 * 64 * 1024
    ensures configured.None? && r > 64 * 1024 ==> fileSize >= 8192 * 128 * 1024
    ensures configured.None? && r < 64 * 1024 ==> fileSize < 1024 * 64 * 1024
    ensures configured.None? && r < 128 * 1024 ==> fileSize < 8192 * 128 * 1024
  {
    match configured
    case Some(v) => Max(v, 1024)
    case None =>
      if fileSize < 64 * 1024 * 1024 then 32 * 1024
      else if fileSize < 1024 * 1024 * 1024 then 64 * 1024
      else 128 * 1024
  }

  /** `sig` is the signature of block number k. */
  predicate Signs(hash: Hash, sig: BlockSig, k: nat, block: Bytes) {
    sig.index == k && sig.len == |block| && sig.weak == WeakHash(block) && sig.strong == hash(block)
  }

  /** Reads until a read returns nothing, numbering the blocks by read count. */
  method BuildSignature(hash: Hash, file: Bytes, blockSize: u32) returns (sig: FileSignature)
    requires |file| < U64_LIMIT
    ensures sig.blockSize == blockSize
    ensures blockSize > 0 ==> sig.fileSize == |file|
    ensures blockSize == 0 ==> sig.blocks == []
    ensures Signed(hash, file, blockSize, sig.blocks)
  {
    var blocks := [];
    var index, total: nat := 0, 0;
    while true
      invariant total <= |file| && index == |blocks| && index <= total
      invariant total == Min(Offset(blockSize, index), |file|)
      invariant blockSize == 0 ==> index == 0
      invariant SignedPrefix(hash, file, blockSize, blocks)
      decreases |file| - total
    {
      var chunk := ReadAt(file, total, blockSize);
      if |chunk| == 0 {
        break;
      }
      assert total == Offset(blockSize, index);
      assert chunk == Block(file, blockSize, index);
      blocks := blocks + [BlockSig(index, |chunk|, WeakHash(chunk), hash(chunk))];
      index := index + 1;
      total := total + |chunk|;
    }
    sig := FileSignature(blockSize, total, blocks);
  }

  /** Every entry is the signature of the block of its own number. */
  ghost predicate SignedPrefix(hash: Hash, file: Bytes, bs: u32, blocks: seq<BlockSig>) {
    forall k :: 0 <= k < |blocks| ==>
      Block(file, bs, k) != [] && Signs(hash, blocks[k], k, Block(file, bs, k))
  }

  /** And no byte of the file is left unsigned (none can be signed when the
      block size is zero). */
  ghost predicate Signed(hash: Hash, file: Bytes, bs: u32, blocks: seq<BlockSig>) {
    && SignedPrefix(hash, file, bs, blocks)
    && (bs > 0 ==> Offset(bs, |blocks|) >= |file|)
  }

  /** Every file has a signature. */
  lemma {:induction false} HasSignature(hash: Hash, file: Bytes, bs: u32, n: nat) returns (blocks: seq<BlockSig>)
    requires |file| < U64_LIMIT && bs > 0 && (n > 0 ==> Offset(bs, n - 1) < |file|)
    ensures SignedPrefix(hash, file, bs, blocks) && n <= |blocks|
    ensures Offset(bs, |blocks|) >= |file|
    decreases |file| - Offset(bs, n)
  {
    if Offset(bs, n) < |file| {
      blocks := HasSignature(hash, file, bs, n + 1);
    } else {
      blocks := SignUpTo(hash, file, bs, n);
    }
  }

  lemma {:induction false} SignUpTo(hash: Hash, file: Bytes, bs: u32, n: nat) returns (blocks: seq<BlockSig>)
    requires |file| < U64_LIMIT && bs > 0 && (n > 0 ==> Offset(bs, n - 1) < |file|)
    ensures SignedPrefix(hash, file, bs, blocks) && |blocks| == n
  {
    blocks := [];
    if n > 0 {
      OffsetAtLeast(bs, n - 1);
      if n > 1 {
        OffsetGrows(bs, n - 2, n - 1);
      }
      var front := SignUpTo(hash, file, bs, n - 1);
      var block := Block(file, bs, n - 1);
      blocks := front + [BlockSig(n - 1, |block|, WeakHash(block), hash(block))];
    }
  }

  lemma {:induction false} OffsetAtLeast(bs: u32, n: nat)
    requires bs > 0
    ensures n <= Offset(bs, n)
  {
    if n > 0 {
      OffsetAtLeast(bs, n - 1);
    }
  }
}
