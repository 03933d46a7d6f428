/** The data exchanged by the delta pipeline (src/delta/protocol.rs). The 128-bit
    strong hash is a parameter of every operation that uses one, so nothing is
    assumed about it. A literal carries what decoding its base64 text yields:
    None stands for text that does not decode. */
module DeltaProtocol {
  import opened Primitives

  type Hash = Bytes -> u128

  datatype BlockSigWire = BlockSigWire(index: u64, len: u32, weak: u32, strongHex: string)

  datatype DeltaOp =
    | Copy(blockIndex: u64, len: u32)
    | Literal(data: Option<Bytes>)

  datatype DeltaPlan = DeltaPlan(
    ops: seq<DeltaOp>,
    finalDigestHex: string,
    literalBytes: u64,
    copyBytes: u64,
    sourceSize: u64,
    sourceMtime: int)

  function CopyTotal(ops: seq<DeltaOp>): nat {
    if ops == [] then 0
    else (if ops[0].Copy? then ops[0].len else 0) + CopyTotal(ops[1..])
  }

  function LiteralTotal(ops: seq<DeltaOp>): nat {
    if ops == [] then 0
    else (match ops[0]
          case Literal(Some(data)) => |data|
          case _ => 0) + LiteralTotal(ops[1..])
  }

  lemma {:induction false} TotalsConcat(a: seq<DeltaOp>, b: seq<DeltaOp>)
    ensures CopyTotal(a + b) == CopyTotal(a) + CopyTotal(b)
    ensures LiteralTotal(a + b) == LiteralTotal(a) + LiteralTotal(b)
  {
    if a == [] {
      assert a + b == b;
    } else {
      assert (a + b)[1..] == a[1..] + b;
      TotalsConcat(a[1..], b);
    }
  }
}
