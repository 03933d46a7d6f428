/** Files cut into consecutive blocks of one size: the basis blocks of a delta
    signature and the chunks of a transfer. */
module Blocks {
  import opened Primitives

  /** What one read of up to `cap` bytes delivers at `pos`: everything that is
      there, short only at the end of the file. */
  function ReadAt(file: Bytes, pos: nat, cap: nat): (r: Bytes)
    requires pos <= |file|
    ensures |r| == Min(cap, |file| - pos)
  {
    file[pos..pos + Min(cap, |file| - pos)]
  }

  /** Where block k starts: k * bs. */
  function Offset(bs: nat, k: nat): nat {
    if k == 0 then 0 else Offset(bs, k - 1) + bs
  }

  lemma {:induction false} OffsetIsProduct(bs: nat, k: nat)
    ensures Offset(bs, k) == k * bs
  {
    if k > 0 {
      OffsetIsProduct(bs, k - 1);
      assert k * bs == (k - 1) * bs + bs;
    }
  }

  lemma {:induction false} OffsetGrows(bs: nat, j: nat, k: nat)
    requires j <= k
    ensures Offset(bs, j) <= Offset(bs, k)
    decreases k
  {
    if j < k {
      OffsetGrows(bs, j, k - 1);
    }
  }

  /** Block k of a file cut every `bs` bytes: empty when k is past the end. */
  function Block(file: Bytes, bs: nat, k: nat): Bytes {
    if Offset(bs, k) <= |file| then ReadAt(file, Offset(bs, k), bs) else []
  }

  /** The first n blocks, glued together. */
  function Glued(file: Bytes, bs: u64, n: nat): Bytes {
    if n == 0 then [] else Glued(file, bs, n - 1) + Block(file, bs, n - 1)
  }

  /** The signed blocks, in order, are the whole file. */
  lemma {:induction false} BlocksCover(file: Bytes, bs: u64, n: nat)
    ensures Glued(file, bs, n) == file[..Min(Offset(bs, n), |file|)]
  {
    if n > 0 {
      BlocksCover(file, bs, n - 1);
      GlueNext(file, bs, Offset(bs, n - 1));
    }
  }

  lemma GlueNext(file: Bytes, bs: u64, at: nat)
    ensures file[..Min(at, |file|)] + (if at <= |file| then ReadAt(file, at, bs) else [])
            == file[..Min(at + bs, |file|)]
  {
  }

  /** Two files of one length are equal when all their blocks are. */
  lemma EqualBlocks(f: Bytes, g: Bytes, bs: u64, n: nat)
    requires |f| == |g| && Offset(bs, n) >= |f|
    requires forall k :: 0 <= k < n ==> Block(f, bs, k) == Block(g, bs, k)
    ensures f == g
  {
    BlocksCover(f, bs, n);
    BlocksCover(g, bs, n);
    GluedEqual(f, g, bs, n);
  }

  lemma {:induction false} GluedEqual(f: Bytes, g: Bytes, bs: u64, n: nat)
    requires forall k :: 0 <= k < n ==> Block(f, bs, k) == Block(g, bs, k)
    ensures Glued(f, bs, n) == Glued(g, bs, n)
  {
    if n > 0 {
      GluedEqual(f, g, bs, n - 1);
    }
  }

  /** The file with data written over it at one place. */
  function Splice(file: Bytes, at: nat, data: Bytes): (r: Bytes)
    requires at + |data| <= |file|
    ensures |r| == |file|
  {
    file[..at] + data + file[at + |data|..]
  }

  /** The file with block k replaced by data of the same length. */
  function WithBlock(file: Bytes, bs: nat, k: nat, data: Bytes): (r: Bytes)
    requires |data| == |Block(file, bs, k)|
    ensures |r| == |file|
  {
    var at := Offset(bs, k);
    if at <= |file| then Splice(file, at, data) else file
  }

  lemma WithBlockAt(file: Bytes, bs: nat, k: nat, data: Bytes)
    requires |data| == |Block(file, bs, k)|
    ensures Block(WithBlock(file, bs, k, data), bs, k) == data
  {
  }

  /** Distinct blocks do not overlap. */
  lemma BlocksDisjoint(bs: nat, j: nat, k: nat)
    requires j != k
    ensures Offset(bs, j) + bs <= Offset(bs, k) || Offset(bs, k) + bs <= Offset(bs, j)
  {
    if j < k {
      OffsetGrows(bs, j + 1, k);
    } else {
      OffsetGrows(bs, k + 1, j);
    }
  }

  /** Replacing a stretch leaves every read beside it alone. */
  lemma ReadBeside(file: Bytes, at: nat, data: Bytes, pos: nat, cap: nat)
    requires at + |data| <= |file| && pos <= |file| && (pos + cap <= at || at + |data| <= pos)
    ensures ReadAt(Splice(file, at, data), pos, cap) == ReadAt(file, pos, cap)
  {
  }

  lemma WithBlockElsewhere(file: Bytes, bs: nat, k: nat, data: Bytes, j: nat)
    requires |data| == |Block(file, bs, k)| && j != k
    ensures Block(WithBlock(file, bs, k, data), bs, j) == Block(file, bs, j)
  {
    BlocksDisjoint(bs, j, k);
    if Offset(bs, k) <= |file| && Offset(bs, j) <= |file| {
      ReadBeside(file, Offset(bs, k), data, Offset(bs, j), bs);
    }
  }

  /** Writing two blocks gives one result in either order. */
  lemma WritesCommute(file: Bytes, bs: u64, j: nat, a: Bytes, k: nat, b: Bytes, n: nat)
    requires bs > 0 && j != k && |a| == |Block(file, bs, j)| && |b| == |Block(file, bs, k)|
    requires Offset(bs, n) >= |file|
    ensures |Block(WithBlock(file, bs, j, a), bs, k)| == |b| && |Block(WithBlock(file, bs, k, b), bs, j)| == |a|
    ensures WithBlock(WithBlock(file, bs, j, a), bs, k, b) == WithBlock(WithBlock(file, bs, k, b), bs, j, a)
  {
    var fa, fb := WithBlock(file, bs, j, a), WithBlock(file, bs, k, b);
    WithBlockElsewhere(file, bs, j, a, k);
    WithBlockElsewhere(file, bs, k, b, j);
    var f, g := WithBlock(fa, bs, k, b), WithBlock(fb, bs, j, a);
    forall i | 0 <= i < n
      ensures Block(f, bs, i) == Block(g, bs, i)
    {
      WithBlockAt(file, bs, j, a);
      WithBlockAt(file, bs, k, b);
      WithBlockAt(fa, bs, k, b);
      WithBlockAt(fb, bs, j, a);
      if i != k {
        WithBlockElsewhere(fa, bs, k, b, i);
      }
      if i != j {
        WithBlockElsewhere(fb, bs, j, a, i);
        WithBlockElsewhere(file, bs, j, a, i);
      }
      if i != k {
        WithBlockElsewhere(file, bs, k, b, i);
      }
    }
    EqualBlocks(f, g, bs, n);
  }
}
