/** The sliding-window matcher (src/delta/matcher.rs), proved equal to the plain
    form the repository ships as its script fallback (src/remote.rs): recompute
    the weak hash at every offset and scan the blocks in order. */
module Matcher {
  import opened Primitives
  import opened Checksum
  import opened DeltaProtocol
  import opened Hex

  /** The two ways the strong hash of a block is compared: the native matcher
      parses the hex text, the script compares lower-cased text. */
  datatype Dialect = Native | Script

  predicate SameDigest(d: Dialect, strongHex: string, strong: u128) {
    match d
    case Native => ParseDigest(strongHex) == Some(strong)
    case Script => Lower(strongHex) == FormatDigest(strong)
  }

  predicate Accepts(d: Dialect, hash: Hash, cand: BlockSigWire, window: Bytes) {
    cand.weak == WeakHash(window) && cand.len == |window| && SameDigest(d, cand.strongHex, hash(window))
  }

  /** Linear scan of the blocks, in order. */
  function FirstMatch(d: Dialect, hash: Hash, blocks: seq<BlockSigWire>, window: Bytes): Option<BlockSigWire> {
    if blocks == [] then None
    else if Accepts(d, hash, blocks[0], window) then Some(blocks[0])
    else FirstMatch(d, hash, blocks[1..], window)
  }

  function Window(source: Bytes, bs: nat, i: nat): (w: Bytes)
    requires i + bs <= |source|
    ensures |w| == bs
  {
    source[i..i + bs]
  }

  function Pending(source: Bytes, lit: nat, i: nat): seq<DeltaOp>
    requires lit <= i <= |source|
  {
    if lit < i then [Literal(Some(source[lit..i]))] else []
  }

  /** The reference matcher, at offset i with literal bytes pending since lit. */
  function PlanFrom(d: Dialect, hash: Hash, source: Bytes, bs: u32, blocks: seq<BlockSigWire>, lit: nat,
                    i: nat): seq<DeltaOp>
    requires lit <= i <= |source|
    decreases |source| - i
  {
    if bs == 0 || i + bs > |source| then Pending(source, lit, |source|)
    else
      match FirstMatch(d, hash, blocks, Window(source, bs, i))
      case Some(m) =>
        Pending(source, lit, i) + [Copy(m.index, m.len)] + PlanFrom(d, hash, source, bs, blocks, i + bs, i + bs)
      case None => PlanFrom(d, hash, source, bs, blocks, lit, i + 1)
  }

  function Plan(d: Dialect, hash: Hash, source: Bytes, bs: u32, blocks: seq<BlockSigWire>): seq<DeltaOp> {
    PlanFrom(d, hash, source, bs, blocks, 0, 0)
  }

  // ----- the weak index

  function WithWeak(blocks: seq<BlockSigWire>, weak: u32): seq<BlockSigWire> {
    if blocks == [] then []
    else (if blocks[0].weak == weak then [blocks[0]] else []) + WithWeak(blocks[1..], weak)
  }

  function Bucket(index: map<u32, seq<BlockSigWire>>, weak: u32): seq<BlockSigWire> {
    if weak in index then index[weak] else []
  }

  /** The index holds the blocks of every weak hash, in block order. */
  ghost predicate Indexed(index: map<u32, seq<BlockSigWire>>, blocks: seq<BlockSigWire>) {
    forall weak: u32 :: Bucket(index, weak) == WithWeak(blocks, weak)
  }

  lemma {:induction false} WithWeakSnoc(blocks: seq<BlockSigWire>, b: BlockSigWire, weak: u32)
    ensures WithWeak(blocks + [b], weak) == WithWeak(blocks, weak) + (if b.weak == weak then [b] else [])
  {
    if blocks == [] {
      assert blocks + [b] == [b] && [b][1..] == [];
    } else {
      WithWeakSnoc(blocks[1..], b, weak);
      var head := if blocks[0].weak == weak then [blocks[0]] else [];
      var last := if b.weak == weak then [b] else [];
      assert (blocks + [b])[1..] == blocks[1..] + [b];
      assert WithWeak(blocks + [b], weak) == head + (WithWeak(blocks[1..], weak) + last);
      assert head + (WithWeak(blocks[1..], weak) + last) == (head + WithWeak(blocks[1..], weak)) + last;
    }
  }

  /** A bucket per weak hash, each in block order. */
  method IndexByWeak(blocks: seq<BlockSigWire>) returns (index: map<u32, seq<BlockSigWire>>)
    ensures Indexed(index, blocks)
  {
    index := map[];
    for k := 0 to |blocks|
      invariant forall weak: u32 :: Bucket(index, weak) == WithWeak(blocks[..k], weak)
    {
      var b := blocks[k];
      assert blocks[..k + 1] == blocks[..k] + [b];
      forall weak: u32
        ensures WithWeak(blocks[..k + 1], weak)
                == WithWeak(blocks[..k], weak) + (if b.weak == weak then [b] else [])
      {
        WithWeakSnoc(blocks[..k], b, weak);
      }
      ghost var before := index;
      index := index[b.weak := Bucket(index, b.weak) + [b]];
      assert forall weak: u32 ::
          Bucket(index, weak) == Bucket(before, weak) + (if b.weak == weak then [b] else []);
    }
    assert blocks[..|blocks|] == blocks;
  }

  /** Looking only at the blocks of one weak hash loses nothing. */
  lemma {:induction false} BucketSuffices(d: Dialect, hash: Hash, blocks: seq<BlockSigWire>, window: Bytes)
    ensures FirstMatch(d, hash, WithWeak(blocks, WeakHash(window)), window)
            == FirstMatch(d, hash, blocks, window)
  {
    if blocks != [] {
      BucketSuffices(d, hash, blocks[1..], window);
      var rest := WithWeak(blocks[1..], WeakHash(window));
      if blocks[0].weak == WeakHash(window) {
        assert ([blocks[0]] + rest)[1..] == rest;
      } else {
        assert [] + rest == rest;
      }
    }
  }

  method FindCandidate(d: Dialect, hash: Hash, cands: seq<BlockSigWire>, window: Bytes)
    returns (matched: Option<BlockSigWire>)
    requires forall c <- cands :: c.weak == WeakHash(window)
    ensures matched == FirstMatch(d, hash, cands, window)
  {
    var strong := hash(window);
    for k := 0 to |cands|
      invariant FirstMatch(d, hash, cands[k..], window) == FirstMatch(d, hash, cands, window)
    {
      assert cands[k..][1..] == cands[k + 1..];
      if cands[k].len == |window| && SameDigest(d, cands[k].strongHex, strong) {
        return Some(cands[k]);
      }
    }
    assert cands[|cands|..] == [];
    return None;
  }

  lemma {:induction false} WithWeakAll(blocks: seq<BlockSigWire>, weak: u32)
    ensures forall c <- WithWeak(blocks, weak) :: c.weak == weak && c in blocks
  {
    if blocks != [] {
      WithWeakAll(blocks[1..], weak);
    }
  }

  /** The lookup of one window: its bucket, then the strong hashes in it. */
  method Lookup(d: Dialect, hash: Hash, index: map<u32, seq<BlockSigWire>>, ghost blocks: seq<BlockSigWire>,
                window: Bytes, weak: u32)
    returns (matched: Option<BlockSigWire>)
    requires weak == WeakHash(window)
    requires Indexed(index, blocks)
    ensures matched == FirstMatch(d, hash, blocks, window)
  {
    WithWeakAll(blocks, weak);
    BucketSuffices(d, hash, blocks, window);
    assert Bucket(index, weak) == WithWeak(blocks, weak);
    if weak !in index {
      return None;
    }
    matched := FindCandidate(d, hash, index[weak], window);
  }

  // ----- the fast matcher

  /** Emits the pending literal bytes, if there are any. */
  method Flush(ops: seq<DeltaOp>, source: Bytes, lit: nat, i: nat) returns (flushed: seq<DeltaOp>)
    requires lit <= i <= |source|
    ensures flushed == ops + Pending(source, lit, i)
  {
    if lit < i {
      return ops + [Literal(Some(source[lit..i]))];
    }
    return ops;
  }

  /** The ops emitted so far, continued by the reference plan from here, are the
      whole plan. */
  ghost predicate Planned(d: Dialect, hash: Hash, source: Bytes, bs: u32, blocks: seq<BlockSigWire>,
                          whole: seq<DeltaOp>, ops: seq<DeltaOp>, lit: nat, i: nat, copyBytes: nat)
    requires lit <= i <= |source|
  {
    && copyBytes == CopyTotal(ops) <= lit
    && ops + PlanFrom(d, hash, source, bs, blocks, lit, i) == whole
  }

  // ----- the rolling checksum, when there is one, stands for the current window

  ghost predicate Tracks(rolling: RollingChecksum?, source: Bytes, bs: u32, i: nat)
    reads rolling
  {
    rolling != null && i + bs <= |source| ==> rolling.Valid() && rolling.window == Window(source, bs, i)
  }

  method Restart(source: Bytes, bs: u32, i: nat) returns (rolling: RollingChecksum?)
    ensures rolling != null ==> fresh(rolling)
    ensures Tracks(rolling, source, bs, i)
  {
    if i + bs <= |source| && bs > 0 {
      rolling := new RollingChecksum(Window(source, bs, i));
    } else {
      rolling := null;
    }
  }

  method Slide(rolling: RollingChecksum?, source: Bytes, bs: u32, i: nat)
    requires bs > 0 && i + bs <= |source| && Tracks(rolling, source, bs, i)
    modifies rolling
    ensures Tracks(rolling, source, bs, i + 1)
  {
    if rolling != null && i + 1 + bs <= |source| {
      assert Window(source, bs, i)[1..] + [source[i + bs]] == Window(source, bs, i + 1);
      rolling.Roll(source[i], source[i + bs]);
    }
  }

  function CurrentWeak(rolling: RollingChecksum?, source: Bytes, bs: u32, i: nat): (weak: u32)
    requires i + bs <= |source| && Tracks(rolling, source, bs, i)
    reads rolling
    ensures weak == WeakHash(Window(source, bs, i))
  {
    if rolling != null then rolling.Sum() else WeakHash(Window(source, bs, i))
  }

  /** A match: the pending literal bytes, then the copy. */
  method EmitCopy(d: Dialect, hash: Hash, source: Bytes, bs: u32, ghost blocks: seq<BlockSigWire>,
                  ghost whole: seq<DeltaOp>, lit: nat, i: nat, m: BlockSigWire, ops0: seq<DeltaOp>, copyBytes0: nat)
    returns (ops: seq<DeltaOp>, copyBytes: nat)
    requires bs > 0 && lit <= i && i + bs <= |source|
    requires FirstMatch(d, hash, blocks, Window(source, bs, i)) == Some(m)
    requires Planned(d, hash, source, bs, blocks, whole, ops0, lit, i, copyBytes0)
    ensures Planned(d, hash, source, bs, blocks, whole, ops, i + bs, i + bs, copyBytes)
  {
    MatchStep(d, hash, source, bs, blocks, whole, lit, i, m, ops0, copyBytes0);
    ops := Flush(ops0, source, lit, i);
    ops := ops + [Copy(m.index, m.len)];
    copyBytes := copyBytes0 + m.len;
  }

  /** One offset of the pass: a copy and a fresh checksum behind it, or one byte
      further with the checksum rolled. */
  method Advance(hash: Hash, index: map<u32, seq<BlockSigWire>>, source: Bytes, bs: u32,
                 ghost blocks: seq<BlockSigWire>, ghost whole: seq<DeltaOp>, rolling0: RollingChecksum?,
                 ops0: seq<DeltaOp>, lit0: nat, i0: nat, copyBytes0: nat)
    returns (rolling: RollingChecksum?, ops: seq<DeltaOp>, lit: nat, i: nat, copyBytes: nat)
    requires Indexed(index, blocks) && bs > 0 && lit0 <= i0 && i0 + bs <= |source|
    requires Tracks(rolling0, source, bs, i0)
    requires Planned(Native, hash, source, bs, blocks, whole, ops0, lit0, i0, copyBytes0)
    modifies rolling0
    ensures lit <= i <= |source| && i0 < i
    ensures rolling == rolling0 || rolling == null || fresh(rolling)
    ensures Tracks(rolling, source, bs, i)
    ensures Planned(Native, hash, source, bs, blocks, whole, ops, lit, i, copyBytes)
  {
    rolling, ops, lit, i, copyBytes := rolling0, ops0, lit0, i0, copyBytes0;
    var weak := CurrentWeak(rolling, source, bs, i);
    var matched := Lookup(Native, hash, index, blocks, Window(source, bs, i), weak);
    if matched.Some? {
      ops, copyBytes := EmitCopy(Native, hash, source, bs, blocks, whole, lit, i, matched.value, ops, copyBytes);
      i := i + bs;
      lit := i;
      rolling := Restart(source, bs, i);
    } else {
      MissStep(Native, hash, source, bs, blocks, whole, lit, i, ops, copyBytes);
      Slide(rolling, source, bs, i);
      i := i + 1;
    }
  }

  /** One left-to-right pass with a rolling checksum; literal bytes are pending
      from `lit` when it ends. */
  method MatchWindows(hash: Hash, index: map<u32, seq<BlockSigWire>>, source: Bytes, bs: u32,
                      ghost blocks: seq<BlockSigWire>)
    returns (ops: seq<DeltaOp>, lit: nat, copyBytes: nat)
    requires Indexed(index, blocks)
    ensures lit <= |source|
    ensures ops + Pending(source, lit, |source|) == Plan(Native, hash, source, bs, blocks)
    ensures copyBytes == CopyTotal(ops) <= lit
  {
    ghost var whole := Plan(Native, hash, source, bs, blocks);
    var i: nat := 0;
    ops, lit, copyBytes := [], 0, 0;
    var rolling := Restart(source, bs, 0);
    while i + bs <= |source| && bs > 0
      invariant lit <= i <= |source|
      invariant rolling == null || fresh(rolling)
      invariant Tracks(rolling, source, bs, i)
      invariant Planned(Native, hash, source, bs, blocks, whole, ops, lit, i, copyBytes)
      decreases |source| - i
    {
      rolling, ops, lit, i, copyBytes := Advance(hash, index, source, bs, blocks, whole, rolling, ops, lit, i,
                                                 copyBytes);
    }
  }

  method BuildDeltaOps(hash: Hash, source: Bytes, sourceMtime: int, bs: u32, blocks: seq<BlockSigWire>)
    returns (plan: DeltaPlan)
    requires |source| < U64_LIMIT
    ensures plan.ops == Plan(Native, hash, source, bs, blocks)
    ensures plan.copyBytes == CopyTotal(plan.ops) && plan.literalBytes == LiteralTotal(plan.ops)
    ensures plan.copyBytes + plan.literalBytes == |source|
    ensures plan.finalDigestHex == FormatDigest(hash(source))
    ensures plan.sourceSize == |source| && plan.sourceMtime == sourceMtime
  {
    var index := IndexByWeak(blocks);
    var ops, lit, copyBytes := MatchWindows(hash, index, source, bs, blocks);
    TotalsConcat(ops, Pending(source, lit, |source|));
    PlanTotals(Native, hash, source, bs, blocks, 0, 0);
    ops := Flush(ops, source, lit, |source|);
    plan := DeltaPlan(ops, FormatDigest(hash(source)), Max(|source| - copyBytes, 0), copyBytes, |source|, sourceMtime);
  }

  // ----- the script fallback

  /** The fallback's pass: no rolling checksum, digests compared as text. */
  method ScriptWindows(hash: Hash, index: map<u32, seq<BlockSigWire>>, source: Bytes, bs: u32,
                       ghost blocks: seq<BlockSigWire>)
    returns (ops: seq<DeltaOp>, lit: nat, copyBytes: nat)
    requires Indexed(index, blocks)
    ensures lit <= |source|
    ensures ops + Pending(source, lit, |source|) == Plan(Script, hash, source, bs, blocks)
    ensures copyBytes == CopyTotal(ops) <= lit
  {
    ghost var whole := Plan(Script, hash, source, bs, blocks);
    var i: nat := 0;
    ops, lit, copyBytes := [], 0, 0;
    while bs > 0 && i + bs <= |source|
      invariant lit <= i <= |source|
      invariant Planned(Script, hash, source, bs, blocks, whole, ops, lit, i, copyBytes)
      decreases |source| - i
    {
      var window := Window(source, bs, i);
      var matched := Lookup(Script, hash, index, blocks, window, WeakHash(window));
      if matched.Some? {
        ops, copyBytes := EmitCopy(Script, hash, source, bs, blocks, whole, lit, i, matched.value, ops, copyBytes);
        i := i + bs;
        lit := i;
      } else {
        MissStep(Script, hash, source, bs, blocks, whole, lit, i, ops, copyBytes);
        i := i + 1;
      }
    }
  }

  /** The fallback's answer. Its time is the one in the request, not the file's. */
  method BuildScriptOps(hash: Hash, source: Bytes, requestedMtime: int, bs: u32, blocks: seq<BlockSigWire>)
    returns (plan: DeltaPlan)
    requires |source| < U64_LIMIT
    ensures plan.ops == Plan(Script, hash, source, bs, blocks)
    ensures plan.copyBytes == CopyTotal(plan.ops) && plan.copyBytes + plan.literalBytes == |source|
    ensures plan.finalDigestHex == FormatDigest(hash(source))
    ensures plan.sourceSize == |source| && plan.sourceMtime == requestedMtime
  {
    var index := IndexByWeak(blocks);
    var ops, lit, copyBytes := ScriptWindows(hash, index, source, bs, blocks);
    TotalsConcat(ops, Pending(source, lit, |source|));
    ops := Flush(ops, source, lit, |source|);
    plan := DeltaPlan(ops, FormatDigest(hash(source)), |source| - copyBytes, copyBytes, |source|, requestedMtime);
  }

  /** Emitting the pending literal and the copy follows the reference plan. */
  lemma MatchStep(d: Dialect, hash: Hash, source: Bytes, bs: u32, blocks: seq<BlockSigWire>, whole: seq<DeltaOp>,
                  lit: nat, i: nat, m: BlockSigWire, ops: seq<DeltaOp>, copyBytes: nat)
    requires bs > 0 && lit <= i && i + bs <= |source|
    requires FirstMatch(d, hash, blocks, Window(source, bs, i)) == Some(m)
    requires Planned(d, hash, source, bs, blocks, whole, ops, lit, i, copyBytes)
    ensures Planned(d, hash, source, bs, blocks, whole, ops + Pending(source, lit, i) + [Copy(m.index, m.len)], i + bs,
                    i + bs, copyBytes + m.len)
  {
    FirstMatchIsEarliest(d, hash, blocks, Window(source, bs, i));
    var step := Pending(source, lit, i) + [Copy(m.index, m.len)];
    var rest := PlanFrom(d, hash, source, bs, blocks, i + bs, i + bs);
    assert ops + Pending(source, lit, i) + [Copy(m.index, m.len)] == ops + step;
    assert ops + (step + rest) == (ops + step) + rest;
    TotalsConcat(ops, step);
    PendingTotals(source, lit, i, m);
  }

  /** A window without a match leaves the plan as it is. */
  lemma MissStep(d: Dialect, hash: Hash, source: Bytes, bs: u32, blocks: seq<BlockSigWire>, whole: seq<DeltaOp>,
                 lit: nat, i: nat, ops: seq<DeltaOp>, copyBytes: nat)
    requires bs > 0 && lit <= i && i + bs <= |source|
    requires FirstMatch(d, hash, blocks, Window(source, bs, i)) == None
    requires Planned(d, hash, source, bs, blocks, whole, ops, lit, i, copyBytes)
    ensures Planned(d, hash, source, bs, blocks, whole, ops, lit, i + 1, copyBytes)
  {
  }

  lemma PendingTotals(source: Bytes, lit: nat, i: nat, m: BlockSigWire)
    requires lit <= i <= |source|
    ensures CopyTotal(Pending(source, lit, i) + [Copy(m.index, m.len)]) == m.len
    ensures LiteralTotal(Pending(source, lit, i) + [Copy(m.index, m.len)]) == i - lit
  {
    TotalsConcat(Pending(source, lit, i), [Copy(m.index, m.len)]);
  }

  /** Copied and literal bytes of a plan add up to the source. */
  lemma {:induction false} PlanTotals(d: Dialect, hash: Hash, source: Bytes, bs: u32, blocks: seq<BlockSigWire>,
                                      lit: nat, i: nat)
    requires lit <= i <= |source|
    ensures var ops := PlanFrom(d, hash, source, bs, blocks, lit, i);
            CopyTotal(ops) + LiteralTotal(ops) == |source| - lit
    decreases |source| - i
  {
    if bs > 0 && i + bs <= |source| {
      var found := FirstMatch(d, hash, blocks, Window(source, bs, i));
      if found.Some? {
        FirstMatchIsEarliest(d, hash, blocks, Window(source, bs, i));
        assert found.value.len == bs;
        PlanTotals(d, hash, source, bs, blocks, i + bs, i + bs);
        JoinTotals(source, lit, i, found.value, PlanFrom(d, hash, source, bs, blocks, i + bs, i + bs));
      } else {
        PlanTotals(d, hash, source, bs, blocks, lit, i + 1);
      }
    }
  }

  lemma JoinTotals(source: Bytes, lit: nat, i: nat, m: BlockSigWire, rest: seq<DeltaOp>)
    requires lit <= i <= |source|
    ensures var ops := Pending(source, lit, i) + [Copy(m.index, m.len)] + rest;
            CopyTotal(ops) + LiteralTotal(ops) == i - lit + m.len + CopyTotal(rest) + LiteralTotal(rest)
  {
    PendingTotals(source, lit, i, m);
    TotalsConcat(Pending(source, lit, i) + [Copy(m.index, m.len)], rest);
  }

  // ----- what the scan finds

  /** The scan returns the block of the smallest number that accepts the window,
      and fails only when no block does. */
  lemma {:induction false} FirstMatchIsEarliest(d: Dialect, hash: Hash, blocks: seq<BlockSigWire>, window: Bytes)
    ensures FirstMatch(d, hash, blocks, window).None?
            <==> forall k :: 0 <= k < |blocks| ==> !Accepts(d, hash, blocks[k], window)
    ensures FirstMatch(d, hash, blocks, window).Some? ==>
              exists k :: 0 <= k < |blocks| && Accepts(d, hash, blocks[k], window)
                          && FirstMatch(d, hash, blocks, window).value == blocks[k]
                          && forall j :: 0 <= j < k ==> !Accepts(d, hash, blocks[j], window)
  {
    if blocks != [] && !Accepts(d, hash, blocks[0], window) {
      FirstMatchIsEarliest(d, hash, blocks[1..], window);
      if FirstMatch(d, hash, blocks, window).Some? {
        var k :| 0 <= k < |blocks[1..]| && Accepts(d, hash, blocks[1..][k], window)
                 && FirstMatch(d, hash, blocks, window).value == blocks[1..][k]
                 && forall j :: 0 <= j < k ==> !Accepts(d, hash, blocks[1..][j], window);
        assert blocks[k + 1] == blocks[1..][k];
        assert forall j :: 0 < j < k + 1 ==> blocks[j] == blocks[1..][j - 1];
      }
    }
  }

  // ----- when native and script matchers agree

  /** A digest text both matchers read alike: 32 characters without a sign, or
      nothing the native matcher can read at all. */
  predicate ReadAlike(s: string) {
    (|s| == 32 && s[0] != '+') || ParseDigest(s) == None
  }

  ghost predicate AllReadAlike(blocks: seq<BlockSigWire>) {
    forall k :: 0 <= k < |blocks| ==> ReadAlike(blocks[k].strongHex)
  }

  /** What the script accepts is always such a text. */
  lemma ScriptReadsPlain(s: string, v: u128)
    requires SameDigest(Script, s, v)
    ensures |s| == 32 && s[0] != '+'
  {
    FixedIsPlain(v, 32);
    assert Lower(s)[0] == FormatDigest(v)[0] != '+';
  }

  /** Two readings of one digest text agree on every value exactly for the texts
      read alike. */
  lemma SameDigestIff(s: string)
    ensures (forall v: u128 :: SameDigest(Native, s, v) <==> SameDigest(Script, s, v)) <==> ReadAlike(s)
  {
    if ReadAlike(s) {
      forall v: u128
        ensures SameDigest(Native, s, v) <==> SameDigest(Script, s, v)
      {
        ReadAlikeAgrees(s, v);
      }
    } else {
      var v := ParseDigest(s).value;
      assert SameDigest(Native, s, v);
      if SameDigest(Script, s, v) {
        ScriptReadsPlain(s, v);
      }
    }
  }

  lemma ReadAlikeAgrees(s: string, v: u128)
    requires ReadAlike(s)
    ensures SameDigest(Native, s, v) <==> SameDigest(Script, s, v)
  {
    if SameDigest(Script, s, v) {
      ScriptReadsPlain(s, v);
    }
    if |s| == 32 && s[0] != '+' {
      ParseIffFormat(s, v);
    }
  }

  lemma {:induction false} FirstMatchAgrees(hash: Hash, blocks: seq<BlockSigWire>, window: Bytes)
    requires AllReadAlike(blocks)
    ensures FirstMatch(Native, hash, blocks, window) == FirstMatch(Script, hash, blocks, window)
  {
    if blocks != [] {
      ReadAlikeAgrees(blocks[0].strongHex, hash(window));
      FirstMatchAgrees(hash, blocks[1..], window);
    }
  }

  /** With digests read alike the native matcher plans exactly what the script plans. */
  lemma {:induction false} DialectsAgree(hash: Hash, source: Bytes, bs: u32, blocks: seq<BlockSigWire>, lit: nat,
                                         i: nat)
    requires AllReadAlike(blocks) && lit <= i <= |source|
    ensures PlanFrom(Native, hash, source, bs, blocks, lit, i) == PlanFrom(Script, hash, source, bs, blocks, lit, i)
    decreases |source| - i
  {
    if bs > 0 && i + bs <= |source| {
      FirstMatchAgrees(hash, blocks, Window(source, bs, i));
      if FirstMatch(Native, hash, blocks, Window(source, bs, i)).Some? {
        DialectsAgree(hash, source, bs, blocks, i + bs, i + bs);
      } else {
        DialectsAgree(hash, source, bs, blocks, lit, i + 1);
      }
    }
  }

  /** The two matchers plan alike with this block, whatever the source and hash. */
  ghost predicate PlansAgree(b: BlockSigWire) {
    forall hash: Hash, source: Bytes, bs: u32 :: Plan(Native, hash, source, bs, [b]) == Plan(Script, hash, source, bs,
                                                                                             [b])
  }

  /** And they part on every other text: some source and hash tell them apart. */
  lemma DialectsPart(s: string)
    requires !ReadAlike(s)
    ensures !PlansAgree(BlockSigWire(0, 1, WeakHash([7]), s))
  {
    var v := ParseDigest(s).value;
    var hash: Hash := _ => v;
    var source: Bytes := [7];
    var b := BlockSigWire(0, 1, WeakHash(source), s);
    assert Window(source, 1, 0) == source;
    assert Accepts(Native, hash, b, source);
    if SameDigest(Script, s, v) {
      ScriptReadsPlain(s, v);
    }
    assert FirstMatch(Script, hash, [b], source) == None by {
      assert [b][1..] == [];
    }
    assert Plan(Native, hash, source, 1, [b])[0] == Copy(0, 1);
    assert PlanFrom(Script, hash, source, 1, [b], 0, 1) == Pending(source, 0, 1);
    assert Plan(Script, hash, source, 1, [b])[0] == Literal(Some(source[0..1]));
  }

  /** Native and script plans agree for every block with this digest text exactly
      when both read it alike. */
  lemma DialectsAgreeIff(s: string)
    ensures (forall index: u64, len: u32, weak: u32 :: PlansAgree(BlockSigWire(index, len, weak, s))) <==> ReadAlike(s)
  {
    if ReadAlike(s) {
      forall index: u64, len: u32, weak: u32
        ensures PlansAgree(BlockSigWire(index, len, weak, s))
      {
        var b := BlockSigWire(index, len, weak, s);
        forall hash: Hash, source: Bytes, bs: u32
          ensures Plan(Native, hash, source, bs, [b]) == Plan(Script, hash, source, bs, [b])
        {
          DialectsAgree(hash, source, bs, [b], 0, 0);
        }
      }
    } else {
      DialectsPart(s);
    }
  }
}
