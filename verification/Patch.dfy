/** Replaying delta ops against the basis file (src/delta/patch.rs). */
module Patch {
  import opened Primitives
  import opened DeltaProtocol

  datatype PatchError = OffsetOverflow | RangeOverflow | BeyondBasis | BadLiteral | IoFailed

  datatype Applied = Applied(written: nat, lastOp: nat, digest: u128)

  /** The bytes one op contributes, with the range arithmetic checked in u64. */
  function OpBytes(basis: Bytes, op: DeltaOp, bs: u32): (r: Result<Bytes, PatchError>)
    ensures r != Err(IoFailed)
  {
    match op
    case Copy(blockIndex, len) =>
      var start := blockIndex * bs;
      if start >= U64_LIMIT then Err(OffsetOverflow)
      else if start + len >= U64_LIMIT then Err(RangeOverflow)
      else if start + len > |basis| then Err(BeyondBasis)
      else Ok(basis[start..start + len])
    case Literal(None) => Err(BadLiteral)
    case Literal(Some(data)) => Ok(data)
  }

  /** A copy is refused exactly when its range is not inside the basis, and delivers the
      bytes of that range; a literal exactly when its text does not decode. */
  lemma OpsRefusedIff(basis: Bytes, k: u64, len: u32, bs: u32, text: Option<Bytes>)
    requires |basis| < U64_LIMIT
    ensures OpBytes(basis, Literal(text), bs) == if text.Some? then Ok(text.value) else Err(BadLiteral)
    ensures OpBytes(basis, Copy(k, len), bs).Ok? <==> k * bs + len <= |basis|
    ensures OpBytes(basis, Copy(k, len), bs).Ok? ==>
              OpBytes(basis, Copy(k, len), bs).value == basis[k * bs..k * bs + len]
  {
  }

  /** What a list of ops stands for: the concatenation of their bytes, or the
      error of the first op that has none. */
  function Replay(basis: Bytes, ops: seq<DeltaOp>, bs: u32): (r: Result<Bytes, PatchError>)
    ensures r != Err(IoFailed)
  {
    if ops == [] then Ok([])
    else
      match OpBytes(basis, ops[0], bs)
      case Err(e) => Err(e)
      case Ok(head) =>
        match Replay(basis, ops[1..], bs)
        case Err(e) => Err(e)
        case Ok(tail) => Ok(head + tail)
  }

  /** The bytes of the ops before the first one that has none. */
  function WrittenBefore(basis: Bytes, ops: seq<DeltaOp>, bs: u32): (r: Bytes)
    ensures Replay(basis, ops, bs).Ok? ==> r == Replay(basis, ops, bs).value
  {
    if ops == [] || OpBytes(basis, ops[0], bs).Err? then []
    else OpBytes(basis, ops[0], bs).value + WrittenBefore(basis, ops[1..], bs)
  }

  /** The output so far, with what the remaining ops stand for. */
  ghost predicate Applying(basis: Bytes, all: seq<DeltaOp>, rest: seq<DeltaOp>, bs: u32, out: Bytes) {
    && out + WrittenBefore(basis, rest, bs) == WrittenBefore(basis, all, bs)
    && match Replay(basis, rest, bs)
       case Ok(tail) => Replay(basis, all, bs) == Ok(out + tail)
       case Err(e) => Replay(basis, all, bs) == Err(e)
  }

  lemma ApplyStep(basis: Bytes, all: seq<DeltaOp>, rest: seq<DeltaOp>, bs: u32, out: Bytes)
    requires rest != [] && Applying(basis, all, rest, bs, out)
    ensures var op := OpBytes(basis, rest[0], bs);
            if op.Ok? then Applying(basis, all, rest[1..], bs, out + op.value)
            else Replay(basis, all, bs) == Err(op.error) && out == WrittenBefore(basis, all, bs)
  {
    var op := OpBytes(basis, rest[0], bs);
    if op.Ok? {
      var later := WrittenBefore(basis, rest[1..], bs);
      assert out + (op.value + later) == (out + op.value) + later;
      var tail := Replay(basis, rest[1..], bs);
      assert tail.Ok? ==> out + (op.value + tail.value) == (out + op.value) + tail.value;
    } else {
      assert out + [] == out;
    }
  }

  /** Creates the output file anew and appends op by op, from op `start` on. The
      output keeps what was written before an error; reading and writing can fail
      when the run is flaky. */
  method ApplyDeltaOps(hash: Hash, basis: Bytes, ops: seq<DeltaOp>, bs: u32, start: nat, flaky: bool)
    returns (out: Bytes, r: Result<Applied, PatchError>)
    ensures r == Err(IoFailed) ==> flaky
    ensures var todo := ops[Min(start, |ops|)..];
            match r
            case Ok(applied) => Replay(basis, todo, bs) == Ok(out) && applied == Applied(|out|, |ops|, hash(out))
            case Err(e) => e != IoFailed ==> Replay(basis, todo, bs) == Err(e) && out == WrittenBefore(basis, todo, bs)
  {
    out := [];
    var written := 0;
    var context: Bytes := [];  // what the digest has consumed
    var first := Min(start, |ops|);
    ghost var all := ops[first..];
    assert [] + WrittenBefore(basis, all, bs) == WrittenBefore(basis, all, bs);
    assert Replay(basis, all, bs).Ok? ==> [] + Replay(basis, all, bs).value == Replay(basis, all, bs).value;
    for k := first to |ops|
      invariant context == out && written == |out|
      invariant Applying(basis, all, ops[k..], bs, out)
    {
      assert ops[k..][1..] == ops[k + 1..];
      var failed: bool := *;
      if flaky && failed {
        return out, Err(IoFailed);
      }
      ApplyStep(basis, all, ops[k..], bs, out);
      match OpBytes(basis, ops[k], bs)
      case Err(e) =>
        return out, Err(e);
      case Ok(piece) =>
        out := out + piece;
        context := context + piece;
        written := written + |piece|;
    }
    assert out + [] == out;
    r := Ok(Applied(written, |ops|, hash(context)));
  }

  lemma {:induction false} ReplayConcat(basis: Bytes, a: seq<DeltaOp>, b: seq<DeltaOp>, bs: u32)
    requires Replay(basis, a, bs).Ok?
    ensures Replay(basis, a + b, bs)
            == match Replay(basis, b, bs)
               case Ok(tail) => Ok(Replay(basis, a, bs).value + tail)
               case Err(e) => Err(e)
  {
    if a == [] {
      assert a + b == b;
      assert Replay(basis, b, bs).Ok? ==> [] + Replay(basis, b, bs).value == Replay(basis, b, bs).value;
    } else {
      var head := OpBytes(basis, a[0], bs).value;
      assert (a + b)[1..] == a[1..] + b;
      ReplayConcat(basis, a[1..], b, bs);
      var mid := Replay(basis, a[1..], bs).value;
      if Replay(basis, b, bs).Ok? {
        var tail := Replay(basis, b, bs).value;
        assert head + (mid + tail) == (head + mid) + tail;
      }
    }
  }
}
