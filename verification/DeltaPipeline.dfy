/** Signature, matcher and patch together: what a delta transfer rebuilds. */
module DeltaPipeline {
  import opened Blocks
  import opened Primitives
  import opened Checksum
  import opened DeltaProtocol
  import opened Hex
  import opened Signature
  import opened Matcher
  import opened Patch

  /** The signature as it travels to the source side (src/sync.rs). */
  function Wire(blocks: seq<BlockSig>): (wire: seq<BlockSigWire>)
    ensures |wire| == |blocks|
    ensures forall k :: 0 <= k < |blocks| ==>
              wire[k] == BlockSigWire(blocks[k].index, blocks[k].len, blocks[k].weak, FormatDigest(blocks[k].strong))
  {
    seq(|blocks|, k requires 0 <= k < |blocks| =>
      BlockSigWire(blocks[k].index, blocks[k].len, blocks[k].weak, FormatDigest(blocks[k].strong)))
  }

  /** No window of the source and full block of the basis share a strong hash
      without being equal. */
  ghost predicate NoBlockCollision(hash: Hash, basis: Bytes, source: Bytes, bs: u32) {
    forall i: nat, k: nat | i + bs <= |source| ::
      |Block(basis, bs, k)| == bs && hash(Window(source, bs, i)) == hash(Block(basis, bs, k))
      ==> Window(source, bs, i) == Block(basis, bs, k)
  }

  /** What is sent is read alike by both matchers, and read back as the strong
      hash that was signed. */
  lemma WireIsPlain(blocks: seq<BlockSig>)
    ensures AllReadAlike(Wire(blocks))
    ensures forall k :: 0 <= k < |blocks| ==> ParseDigest(Wire(blocks)[k].strongHex) == Some(blocks[k].strong)
  {
    forall k | 0 <= k < |blocks|
      ensures ReadAlike(Wire(blocks)[k].strongHex)
      ensures ParseDigest(Wire(blocks)[k].strongHex) == Some(blocks[k].strong)
    {
      FixedIsPlain(blocks[k].strong, 32);
      ParseFormat(blocks[k].strong);
    }
  }

  /** A wire block accepts a window exactly when lengths, weak and strong hashes agree. */
  lemma WireAccepts(hash: Hash, basis: Bytes, bs: u32, blocks: seq<BlockSig>, k: nat, window: Bytes)
    requires Signed(hash, basis, bs, blocks) && k < |blocks|
    ensures var block := Block(basis, bs, k);
            Accepts(Native, hash, Wire(blocks)[k], window)
            <==> WeakHash(block) == WeakHash(window) && |block| == |window| && hash(block) == hash(window)
  {
    assert Signs(hash, blocks[k], k, Block(basis, bs, k));
    ParseFormat(blocks[k].strong);
  }

  /** A match is the signature of a full basis block with the window's hash. */
  lemma MatchedBlock(hash: Hash, basis: Bytes, bs: u32, blocks: seq<BlockSig>, window: Bytes) returns (k: nat)
    requires Signed(hash, basis, bs, blocks) && |window| == bs
    requires FirstMatch(Native, hash, Wire(blocks), window).Some?
    ensures k < |blocks|
    ensures FirstMatch(Native, hash, Wire(blocks), window).value.index == k
    ensures FirstMatch(Native, hash, Wire(blocks), window).value.len == bs == |Block(basis, bs, k)|
    ensures hash(Block(basis, bs, k)) == hash(window)
  {
    FirstMatchIsEarliest(Native, hash, Wire(blocks), window);
    k :| 0 <= k < |blocks| && Accepts(Native, hash, Wire(blocks)[k], window)
         && FirstMatch(Native, hash, Wire(blocks), window).value == Wire(blocks)[k];
    WireAccepts(hash, basis, bs, blocks, k, window);
    assert Signs(hash, blocks[k], k, Block(basis, bs, k));
  }

  lemma CopyOfFullBlock(basis: Bytes, bs: u32, k: u64)
    requires bs > 0 && |Block(basis, bs, k)| == bs && |basis| < U64_LIMIT
    ensures OpBytes(basis, Copy(k, bs), bs) == Ok(Block(basis, bs, k))
  {
    OffsetIsProduct(bs, k);
    assert k * bs + bs <= |basis|;
  }

  /** If some block matches the window at i, the op emitted for it copies a full
      block of the same length; without a collision it copies the window itself. */
  ghost predicate CopiesWell(hash: Hash, basis: Bytes, source: Bytes, bs: u32, wire: seq<BlockSigWire>, i: nat)
    requires i + bs <= |source|
  {
    var found := FirstMatch(Native, hash, wire, Window(source, bs, i));
    found.Some? ==>
      var copied := OpBytes(basis, Copy(found.value.index, found.value.len), bs);
      found.value.len == bs && copied.Ok? && |copied.value| == bs
      && (NoBlockCollision(hash, basis, source, bs) ==> copied.value == Window(source, bs, i))
  }

  lemma MatchedOp(hash: Hash, basis: Bytes, source: Bytes, bs: u32, blocks: seq<BlockSig>, i: nat)
    requires Signed(hash, basis, bs, blocks) && |basis| < U64_LIMIT
    requires bs > 0 && i + bs <= |source|
    ensures CopiesWell(hash, basis, source, bs, Wire(blocks), i)
  {
    if FirstMatch(Native, hash, Wire(blocks), Window(source, bs, i)).Some? {
      var k := MatchedBlock(hash, basis, bs, blocks, Window(source, bs, i));
      CopyOfFullBlock(basis, bs, k);
    }
  }

  /** The replayed plan rebuilds the source from `lit` on, or at least as much. */
  ghost predicate Rebuilds(hash: Hash, basis: Bytes, source: Bytes, bs: u32, lit: nat, out: Result<Bytes, PatchError>)
    requires lit <= |source|
  {
    && out.Ok? && |out.value| == |source| - lit
    && (NoBlockCollision(hash, basis, source, bs) ==> out.value == source[lit..])
  }

  lemma {:induction false} PlanReplays(hash: Hash, basis: Bytes, source: Bytes, bs: u32, wire: seq<BlockSigWire>,
                                       lit: nat, i: nat)
    requires bs > 0 ==> forall j: nat | j + bs <= |source| :: CopiesWell(hash, basis, source, bs, wire, j)
    requires lit <= i <= |source|
    ensures Rebuilds(hash, basis, source, bs, lit, Replay(basis, PlanFrom(Native, hash, source, bs, wire, lit, i), bs))
    decreases |source| - i
  {
    if bs == 0 || i + bs > |source| {
      PendingReplays(basis, source, bs, lit, |source|);
      assert source[lit..|source|] == source[lit..];
    } else if FirstMatch(Native, hash, wire, Window(source, bs, i)).Some? {
      PlanReplays(hash, basis, source, bs, wire, i + bs, i + bs);
      MatchRebuilds(hash, basis, source, bs, wire, lit, i);
    } else {
      PlanReplays(hash, basis, source, bs, wire, lit, i + 1);
    }
  }

  lemma MatchRebuilds(hash: Hash, basis: Bytes, source: Bytes, bs: u32, wire: seq<BlockSigWire>, lit: nat, i: nat)
    requires bs > 0 && lit <= i && i + bs <= |source|
    requires CopiesWell(hash, basis, source, bs, wire, i)
    requires FirstMatch(Native, hash, wire, Window(source, bs, i)).Some?
    requires Rebuilds(hash, basis, source, bs, i + bs,
                      Replay(basis, PlanFrom(Native, hash, source, bs, wire, i + bs, i + bs), bs))
    ensures Rebuilds(hash, basis, source, bs, lit, Replay(basis, PlanFrom(Native, hash, source, bs, wire, lit, i), bs))
  {
    MatchReplays(basis, source, bs, lit, i, FirstMatch(Native, hash, wire, Window(source, bs, i)).value,
                 PlanFrom(Native, hash, source, bs, wire, i + bs, i + bs));
  }

  lemma PendingReplays(basis: Bytes, source: Bytes, bs: u32, lit: nat, i: nat)
    requires lit <= i <= |source|
    ensures Replay(basis, Pending(source, lit, i), bs) == Ok(source[lit..i])
  {
    if lit < i {
      var op := Literal(Some(source[lit..i]));
      assert [op][1..] == [];
      assert OpBytes(basis, op, bs) == Ok(source[lit..i]);
      assert Replay(basis, [op], bs) == Ok(source[lit..i] + []);
      assert source[lit..i] + [] == source[lit..i];
    } else {
      assert source[lit..i] == [];
    }
  }

  lemma MatchReplays(basis: Bytes, source: Bytes, bs: u32, lit: nat, i: nat, m: BlockSigWire, rest: seq<DeltaOp>)
    requires lit <= i && i + bs <= |source|
    requires OpBytes(basis, Copy(m.index, m.len), bs).Ok? && Replay(basis, rest, bs).Ok?
    ensures var copied := OpBytes(basis, Copy(m.index, m.len), bs).value;
            Replay(basis, Pending(source, lit, i) + [Copy(m.index, m.len)] + rest, bs)
            == Ok(source[lit..i] + copied + Replay(basis, rest, bs).value)
    ensures source[lit..i] + Window(source, bs, i) + source[i + bs..] == source[lit..]
  {
    var op := Copy(m.index, m.len);
    var copied := OpBytes(basis, op, bs).value;
    var tail := Replay(basis, rest, bs).value;
    assert ([op] + rest)[1..] == rest;
    PendingReplays(basis, source, bs, lit, i);
    ReplayConcat(basis, Pending(source, lit, i), [op] + rest, bs);
    assert Pending(source, lit, i) + ([op] + rest) == Pending(source, lit, i) + [op] + rest;
    assert source[lit..i] + (copied + tail) == source[lit..i] + copied + tail;
  }

  /** Delta round trip: whatever the two files and the block size, the plan
      applies without an error and rebuilds as many bytes as the source has;
      without a collision it rebuilds the source. */
  lemma RoundTrip(hash: Hash, basis: Bytes, source: Bytes, bs: u32, blocks: seq<BlockSig>)
    requires Signed(hash, basis, bs, blocks) && |basis| < U64_LIMIT
    ensures var out := Replay(basis, Plan(Native, hash, source, bs, Wire(blocks)), bs);
            out.Ok? && |out.value| == |source|
            && (NoBlockCollision(hash, basis, source, bs) ==> out.value == source)
  {
    if bs > 0 {
      forall j: nat | j + bs <= |source|
        ensures CopiesWell(hash, basis, source, bs, Wire(blocks), j)
      {
        MatchedOp(hash, basis, source, bs, blocks, j);
      }
    }
    PlanReplays(hash, basis, source, bs, Wire(blocks), 0, 0);
    assert source[0..] == source;
  }

  /** The same with the script fallback planning on the source side. */
  lemma ScriptRoundTrip(hash: Hash, basis: Bytes, source: Bytes, bs: u32, blocks: seq<BlockSig>)
    requires Signed(hash, basis, bs, blocks) && |basis| < U64_LIMIT
    ensures var out := Replay(basis, Plan(Script, hash, source, bs, Wire(blocks)), bs);
            out.Ok? && |out.value| == |source|
            && (NoBlockCollision(hash, basis, source, bs) ==> out.value == source)
  {
    WireIsPlain(blocks);
    DialectsAgree(hash, source, bs, Wire(blocks), 0, 0);
    RoundTrip(hash, basis, source, bs, blocks);
  }

  // ----- a hash without collisions

  /** Where a piece was cut from the data, or one past its end. */
  function PlaceOf(data: Bytes, piece: Bytes, from: nat): (place: nat)
    requires from <= |data|
    ensures from <= place <= |data| + 1
    ensures place <= |data| ==> place + |piece| <= |data| && data[place..place + |piece|] == piece
    decreases |data| - from
  {
    if from + |piece| <= |data| && data[from..from + |piece|] == piece then from
    else if from == |data| then |data| + 1
    else PlaceOf(data, piece, from + 1)
  }

  lemma {:induction false} PlaceFound(data: Bytes, piece: Bytes, from: nat, i: nat)
    requires from <= i && i + |piece| <= |data| && data[i..i + |piece|] == piece
    ensures PlaceOf(data, piece, from) <= |data|
    decreases i - from
  {
    if from < i {
      PlaceFound(data, piece, from + 1, i);
    }
  }

  /** Pieces of one length cut from one file have the same hash only when they are
      equal, and no other piece of that length has their hash. */
  function PlaceHash(data: Bytes): Hash
    requires |data| < U64_LIMIT
  {
    piece => PlaceOf(data, piece, 0)
  }

  lemma PlacesDoNotCollide(data: Bytes, bs: u32)
    requires |data| < U64_LIMIT
    ensures NoBlockCollision(PlaceHash(data), data, data, bs)
  {
    forall i: nat, k: nat | i + bs <= |data| && |Block(data, bs, k)| == bs
                            && PlaceHash(data)(Window(data, bs, i)) == PlaceHash(data)(Block(data, bs, k))
      ensures Window(data, bs, i) == Block(data, bs, k)
    {
      PlaceFound(data, Window(data, bs, i), 0, i);
    }
  }

  // ----- what a plan costs at least

  /** Only whole blocks are copied. */
  lemma {:induction false} CopiesAreWhole(d: Dialect, hash: Hash, source: Bytes, bs: u32, blocks: seq<BlockSigWire>,
                                          lit: nat, i: nat)
    returns (q: nat)
    requires lit <= i <= |source|
    ensures CopyTotal(PlanFrom(d, hash, source, bs, blocks, lit, i)) == Offset(bs, q)
    decreases |source| - i
  {
    q := 0;
    if bs > 0 && i + bs <= |source| {
      var found := FirstMatch(d, hash, blocks, Window(source, bs, i));
      if found.Some? {
        FirstMatchIsEarliest(d, hash, blocks, Window(source, bs, i));
        q := CopiesAreWhole(d, hash, source, bs, blocks, i + bs, i + bs);
        PendingTotals(source, lit, i, found.value);
        TotalsConcat(Pending(source, lit, i) + [Copy(found.value.index, found.value.len)],
                     PlanFrom(d, hash, source, bs, blocks, i + bs, i + bs));
        q := q + 1;
      } else {
        q := CopiesAreWhole(d, hash, source, bs, blocks, lit, i + 1);
      }
    }
  }

  /** No plan costs less than the size modulo the block size. */
  lemma LiteralsAtLeast(d: Dialect, hash: Hash, source: Bytes, bs: u32, blocks: seq<BlockSigWire>)
    requires bs > 0
    ensures LiteralTotal(Plan(d, hash, source, bs, blocks)) >= |source| % bs
  {
    var q := CopiesAreWhole(d, hash, source, bs, blocks, 0, 0);
    PlanTotals(d, hash, source, bs, blocks, 0, 0);
    OffsetIsProduct(bs, q);
    RestAtLeast(|source|, bs, q);
  }

  lemma RestAtLeast(size: nat, bs: u32, q: nat)
    requires bs > 0 && q * bs <= size
    ensures size - q * bs >= size % bs
  {
    var whole, rest := size / bs, size % bs;
    assert size == whole * bs + rest;
    assert (whole + 1) * bs == whole * bs + bs;
    if q > whole {
      ProductGrows(whole + 1, q, bs);
    } else {
      ProductGrows(q, whole, bs);
    }
  }

  lemma ProductGrows(a: nat, b: nat, bs: nat)
    requires a <= b
    ensures a * bs <= b * bs
  {
  }

  // ----- greedy completeness

  /** Basis blocks in any order and number, glued together. */
  function Assemble(basis: Bytes, bs: u32, ks: seq<nat>): Bytes {
    if ks == [] then [] else Block(basis, bs, ks[0]) + Assemble(basis, bs, ks[1..])
  }

  predicate AllFull(basis: Bytes, bs: u32, ks: seq<nat>) {
    ks == [] || (|Block(basis, bs, ks[0])| == bs && AllFull(basis, bs, ks[1..]))
  }

  /** Copies of full blocks only, then at most one literal, holding the tail. */
  predicate CopiesThenTail(ops: seq<DeltaOp>, bs: u32, copies: nat, tail: Bytes) {
    if copies == 0 then ops == if tail == [] then [] else [Literal(Some(tail))]
    else ops != [] && ops[0].Copy? && ops[0].len == bs && CopiesThenTail(ops[1..], bs, copies - 1, tail)
  }

  /** So the literal bytes are those of the tail. */
  lemma {:induction false} OnlyTailIsLiteral(ops: seq<DeltaOp>, bs: u32, copies: nat, tail: Bytes)
    requires CopiesThenTail(ops, bs, copies, tail)
    ensures LiteralTotal(ops) == |tail| && CopyTotal(ops) == copies * bs
  {
    if copies > 0 {
      OnlyTailIsLiteral(ops[1..], bs, copies - 1, tail);
      assert copies * bs == (copies - 1) * bs + bs;
    }
  }

  /** From offset i on, the source is full basis blocks and then the tail. */
  ghost predicate MadeOfBlocks(basis: Bytes, source: Bytes, bs: u32, ks: seq<nat>, tail: Bytes, i: nat)
    decreases |ks|
  {
    if ks == [] then i <= |source| && |source| - i == |tail| && source[i..|source|] == tail
    else
      && i + bs <= |source| && |Block(basis, bs, ks[0])| == bs && Window(source, bs, i) == Block(basis, bs, ks[0])
      && MadeOfBlocks(basis, source, bs, ks[1..], tail, i + bs)
  }

  lemma {:induction false} AssembledIsMadeOfBlocks(basis: Bytes, source: Bytes, bs: u32, ks: seq<nat>, tail: Bytes,
                                                   i: nat)
    requires AllFull(basis, bs, ks) && i <= |source| && source[i..] == Assemble(basis, bs, ks) + tail
    ensures MadeOfBlocks(basis, source, bs, ks, tail, i)
    decreases |ks|
  {
    if ks == [] {
      assert [] + tail == tail && source[i..] == source[i..|source|];
    } else {
      AssembledFront(basis, source, bs, ks, tail, i);
      AssembledIsMadeOfBlocks(basis, source, bs, ks[1..], tail, i + bs);
    }
  }

  lemma AssembledFront(basis: Bytes, source: Bytes, bs: u32, ks: seq<nat>, tail: Bytes, i: nat)
    requires ks != [] && |Block(basis, bs, ks[0])| == bs
    requires i <= |source| && source[i..] == Assemble(basis, bs, ks) + tail
    ensures i + bs <= |source| && Window(source, bs, i) == Block(basis, bs, ks[0])
    ensures source[i + bs..] == Assemble(basis, bs, ks[1..]) + tail
  {
    var block, rest := Block(basis, bs, ks[0]), Assemble(basis, bs, ks[1..]);
    assert (block + rest) + tail == block + (rest + tail);
    TakeFront(source, i, block, rest + tail);
  }

  lemma TakeFront(s: Bytes, i: nat, front: Bytes, rest: Bytes)
    requires i <= |s| && s[i..] == front + rest
    ensures i + |front| <= |s| && s[i..i + |front|] == front && s[i + |front|..] == rest
  {
    assert |s[i..]| == |front| + |rest|;
    assert s[i..i + |front|] == s[i..][..|front|];
    assert s[i + |front|..] == s[i..][|front|..];
  }

  lemma {:induction false} GreedyFrom(hash: Hash, basis: Bytes, source: Bytes, bs: u32, blocks: seq<BlockSig>,
                                      ks: seq<nat>, tail: Bytes, i: nat)
    requires Signed(hash, basis, bs, blocks) && bs > 0 && |tail| < bs
    requires MadeOfBlocks(basis, source, bs, ks, tail, i)
    ensures i <= |source| && CopiesThenTail(PlanFrom(Native, hash, source, bs, Wire(blocks), i, i), bs, |ks|, tail)
    decreases |ks|
  {
    if ks == [] {
      GreedyEnds(hash, source, bs, Wire(blocks), tail, i);
    } else {
      var rest := ks[1..];
      GreedyFrom(hash, basis, source, bs, blocks, rest, tail, i + bs);
      GreedyStep(hash, basis, source, bs, blocks, ks[0], |rest|, tail, i);
      assert |rest| + 1 == |ks|;
    }
  }

  /** A source made of full basis blocks and a short tail is found completely:
      the greedy pass never misses a block by starting in the wrong place. */
  lemma GreedyFindsAll(hash: Hash, basis: Bytes, source: Bytes, bs: u32, blocks: seq<BlockSig>, ks: seq<nat>,
                       tail: Bytes)
    requires Signed(hash, basis, bs, blocks) && bs > 0 && |tail| < bs
    requires AllFull(basis, bs, ks) && source == Assemble(basis, bs, ks) + tail
    ensures var ops := Plan(Native, hash, source, bs, Wire(blocks));
            CopiesThenTail(ops, bs, |ks|, tail) && LiteralTotal(ops) == |tail|
  {
    assert source[0..] == source;
    AssembledIsMadeOfBlocks(basis, source, bs, ks, tail, 0);
    GreedyFrom(hash, basis, source, bs, blocks, ks, tail, 0);
    OnlyTailIsLiteral(Plan(Native, hash, source, bs, Wire(blocks)), bs, |ks|, tail);
  }

  lemma GreedyEnds(hash: Hash, source: Bytes, bs: u32, wire: seq<BlockSigWire>, tail: Bytes, i: nat)
    requires i <= |source| && |source| - i == |tail| < bs && source[i..|source|] == tail
    ensures CopiesThenTail(PlanFrom(Native, hash, source, bs, wire, i, i), bs, 0, tail)
  {
    if tail != [] {
      assert PlanFrom(Native, hash, source, bs, wire, i, i) == [Literal(Some(tail))];
    }
  }

  lemma GreedyStep(hash: Hash, basis: Bytes, source: Bytes, bs: u32, blocks: seq<BlockSig>, k: nat, copies: nat,
                   tail: Bytes, i: nat)
    requires Signed(hash, basis, bs, blocks) && bs > 0 && |Block(basis, bs, k)| == bs
    requires i + bs <= |source| && Window(source, bs, i) == Block(basis, bs, k)
    requires CopiesThenTail(PlanFrom(Native, hash, source, bs, Wire(blocks), i + bs, i + bs), bs, copies, tail)
    ensures CopiesThenTail(PlanFrom(Native, hash, source, bs, Wire(blocks), i, i), bs, copies + 1, tail)
  {
    BlockIsFound(hash, basis, bs, blocks, k);
    PlanOfMatch(hash, source, bs, Wire(blocks), i);
    var m := FirstMatch(Native, hash, Wire(blocks), Block(basis, bs, k)).value;
    var rest := PlanFrom(Native, hash, source, bs, Wire(blocks), i + bs, i + bs);
    assert ([Copy(m.index, m.len)] + rest)[1..] == rest;
  }

  lemma PlanOfMatch(hash: Hash, source: Bytes, bs: u32, wire: seq<BlockSigWire>, i: nat)
    requires bs > 0 && i + bs <= |source| && FirstMatch(Native, hash, wire, Window(source, bs, i)).Some?
    ensures var m := FirstMatch(Native, hash, wire, Window(source, bs, i)).value;
            PlanFrom(Native, hash, source, bs, wire, i, i)
            == [Copy(m.index, m.len)] + PlanFrom(Native, hash, source, bs, wire, i + bs, i + bs)
  {
    var m := FirstMatch(Native, hash, wire, Window(source, bs, i)).value;
    assert Pending(source, i, i) + [Copy(m.index, m.len)] == [Copy(m.index, m.len)];
  }

  lemma BlockIsFound(hash: Hash, basis: Bytes, bs: u32, blocks: seq<BlockSig>, k: nat)
    requires Signed(hash, basis, bs, blocks) && bs > 0 && |Block(basis, bs, k)| == bs
    ensures FirstMatch(Native, hash, Wire(blocks), Block(basis, bs, k)).Some?
    ensures FirstMatch(Native, hash, Wire(blocks), Block(basis, bs, k)).value.len == bs
  {
    BlockIsSigned(hash, basis, bs, blocks, k);
    WireAccepts(hash, basis, bs, blocks, k, Block(basis, bs, k));
    FirstMatchIsEarliest(Native, hash, Wire(blocks), Block(basis, bs, k));
    var m := FirstMatch(Native, hash, Wire(blocks), Block(basis, bs, k));
    assert m.Some?;
    var j :| 0 <= j < |blocks| && Accepts(Native, hash, Wire(blocks)[j], Block(basis, bs, k))
             && m.value == Wire(blocks)[j];
  }

  lemma BlockIsSigned(hash: Hash, basis: Bytes, bs: u32, blocks: seq<BlockSig>, k: nat)
    requires Signed(hash, basis, bs, blocks) && bs > 0 && |Block(basis, bs, k)| == bs
    ensures k < |blocks|
  {
    if k >= |blocks| {
      OffsetGrows(bs, |blocks|, k);
    }
  }

  function Upto(from: nat, n: nat): seq<nat>
    decreases n - from
  {
    if from >= n then [] else [from] + Upto(from + 1, n)
  }

  lemma {:induction false} FullBlocks(basis: Bytes, bs: u32, n: nat, from: nat)
    requires bs > 0 && from <= n && Offset(bs, n) <= |basis|
    ensures AllFull(basis, bs, Upto(from, n))
    ensures Offset(bs, from) <= Offset(bs, n)
    ensures Assemble(basis, bs, Upto(from, n)) == basis[Offset(bs, from)..Offset(bs, n)]
    decreases n - from
  {
    OffsetGrows(bs, from, n);
    if from < n {
      OffsetGrows(bs, from + 1, n);
      FullBlocks(basis, bs, n, from + 1);
      var rest := Upto(from + 1, n);
      assert ([from] + rest)[1..] == rest;
      SplitAt(basis, Offset(bs, from), bs, Offset(bs, n));
    } else {
      assert basis[Offset(bs, n)..Offset(bs, n)] == [];
    }
  }

  lemma SplitAt(basis: Bytes, at: nat, bs: nat, end: nat)
    requires at + bs <= end <= |basis|
    ensures ReadAt(basis, at, bs) + basis[at + bs..end] == basis[at..end]
  {
  }

  /** In particular an unchanged file costs its size modulo the block size. */
  lemma UnchangedFileIsCheap(hash: Hash, basis: Bytes, bs: u32, blocks: seq<BlockSig>)
    requires Signed(hash, basis, bs, blocks) && bs > 0
    ensures LiteralTotal(Plan(Native, hash, basis, bs, Wire(blocks))) == |basis| % bs
  {
    var n := |basis| / bs;
    OffsetIsProduct(bs, n);
    var end := Offset(bs, n);
    assert end == |basis| - |basis| % bs;
    FullBlocks(basis, bs, n, 0);
    assert basis == basis[0..end] + basis[end..];
    GreedyFindsAll(hash, basis, basis, bs, blocks, Upto(0, n), basis[end..]);
  }
}
