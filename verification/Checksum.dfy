/** The rolling weak checksum of src/delta/checksum.rs.
    All arithmetic on `a` and `b` is 32-bit: the wrapping reading of every
    operation is written out. */
module Checksum {
  import opened Primitives

  const MOD: nat := 0x1_0000

  /** Plain byte sum. */
  function SumA(s: Bytes): nat {
    if s == [] then 0 else s[0] + SumA(s[1..])
  }

  /** Position-weighted byte sum: the first of n bytes weighs n, the last 1. */
  function SumB(s: Bytes): nat {
    if s == [] then 0 else |s| * s[0] + SumB(s[1..])
  }

  /** The 32-bit weak hash of a window, computed from scratch. */
  function WeakHash(s: Bytes): u32 {
    SumB(s) % MOD * MOD + SumA(s) % MOD
  }

  function Wrap32(x: int): (r: u32)
  {
    x % U32_LIMIT
  }

  // ----- modular arithmetic: 2^16 divides 2^32, so wrapping is invisible modulo MOD

  lemma WrapMod(x: int)
    ensures Wrap32(x) % MOD == x % MOD
  {
    var q := x / U32_LIMIT;
    assert x == q * U32_LIMIT + Wrap32(x);
    ModShift(Wrap32(x), q * MOD);
    assert q * MOD * MOD == q * U32_LIMIT;
  }

  lemma ModShift(x: int, k: int)
    ensures (x + k * MOD) % MOD == x % MOD
  {
    var q, r := x / MOD, x % MOD;
    assert x + k * MOD == (q + k) * MOD + r;
    ModUnique(x + k * MOD, q + k, r);
  }

  lemma ModUnique(x: int, q: int, r: int)
    requires x == q * MOD + r && 0 <= r < MOD
    ensures x % MOD == r
  {
  }

  lemma ModCong(x: int, y: int, c: int)
    requires x % MOD == y % MOD
    ensures (x + c) % MOD == (y + c) % MOD
  {
    var k := x / MOD - y / MOD;
    assert x == y + k * MOD;
    ModShift(y + c, k);
  }

  /** (len as u32) * byte, wrapped, then reduced: the length may be truncated. */
  lemma WrapMulMod(len: nat, x: byte)
    ensures Wrap32(Wrap32(len) * x) % MOD == (len * x) % MOD
  {
    var q := len / U32_LIMIT;
    assert len == q * U32_LIMIT + Wrap32(len);
    WrapMod(Wrap32(len) * x);
    assert len * x == Wrap32(len) * x + q * x * MOD * MOD by {
      assert (q * U32_LIMIT + Wrap32(len)) * x == q * U32_LIMIT * x + Wrap32(len) * x;
      assert q * U32_LIMIT * x == q * x * MOD * MOD;
    }
    ModShift(Wrap32(len) * x, q * x * MOD);
  }

  // ----- how the sums change when the window moves by one byte

  lemma {:induction false} SumsAppend(s: Bytes, x: byte)
    ensures SumA(s + [x]) == SumA(s) + x
    ensures SumB(s + [x]) == SumB(s) + SumA(s) + x
  {
    if s == [] {
      assert s + [x] == [x];
      assert [x][1..] == [];
    } else {
      assert (s + [x])[1..] == s[1..] + [x];
      SumsAppend(s[1..], x);
    }
  }

  /** Rolling over `window` by one byte, in exact arithmetic. */
  lemma SumsRoll(window: Bytes, inn: byte)
    requires window != []
    ensures SumA(window[1..] + [inn]) == SumA(window) + inn - window[0]
    ensures SumB(window[1..] + [inn])
            == SumB(window) + SumA(window[1..] + [inn]) - |window| * window[0]
  {
    SumsAppend(window[1..], inn);
  }

  // ----- the loop of `RollingChecksum::new`

  function FoldA(acc: u32, x: byte): u32 {
    Wrap32(acc + x) % MOD
  }

  function FoldB(acc: u32, weight: nat, x: byte): u32 {
    Wrap32(acc + Wrap32(Wrap32(weight) * x)) % MOD
  }

  /** The accumulators of `new` after i bytes, as the code computes them. */
  function AccA(buf: Bytes, i: nat): (r: u32)
    requires i <= |buf|
    ensures r < MOD
  {
    if i == 0 then 0 else FoldA(AccA(buf, i - 1), buf[i - 1])
  }

  function AccB(buf: Bytes, i: nat): (r: u32)
    requires i <= |buf|
    ensures r < MOD
  {
    if i == 0 then 0 else FoldB(AccB(buf, i - 1), |buf| - (i - 1), buf[i - 1])
  }

  /** What is folded so far and what is still to come make up the exact sums. */
  ghost predicate Folded(buf: Bytes, i: nat, sa: u32, sb: u32)
    requires i <= |buf|
  {
    && sa < MOD && sb < MOD
    && (sa + SumA(buf[i..])) % MOD == SumA(buf) % MOD
    && (sb + SumB(buf[i..])) % MOD == SumB(buf) % MOD
  }

  lemma FoldStep(buf: Bytes, i: nat, sa: u32, sb: u32)
    requires i < |buf| && Folded(buf, i, sa, sb)
    ensures Folded(buf, i + 1, FoldA(sa, buf[i]), FoldB(sb, |buf| - i, buf[i]))
  {
    assert buf[i..][1..] == buf[i + 1..];
    AddStep(sa, buf[i], SumA(buf[i + 1..]));
    BlendStep(sb, |buf| - i, buf[i], SumB(buf[i + 1..]));
  }

  lemma FoldDone(buf: Bytes, sa: u32, sb: u32)
    requires Folded(buf, |buf|, sa, sb)
    ensures sa == SumA(buf) % MOD && sb == SumB(buf) % MOD
  {
    assert buf[|buf|..] == [];
  }

  class RollingChecksum {
    ghost var window: Bytes  // the bytes the checksum stands for
    var a: u32
    var b: u32
    var len: nat

    /** The state is the one a fresh computation over the window would leave. */
    ghost predicate Valid()
      reads this
    {
      len == |window| && a == SumA(window) % MOD && b == SumB(window) % MOD
    }

    /** One pass over the buffer, every operation wrapping at 32 bits. */
    constructor (buf: Bytes)
      ensures Valid() && window == buf
      ensures a == AccA(buf, |buf|) && b == AccB(buf, |buf|)
    {
      var sa: u32, sb: u32 := 0, 0;
      assert buf[0..] == buf;
      for i := 0 to |buf|
        invariant Folded(buf, i, sa, sb)
        invariant sa == AccA(buf, i) && sb == AccB(buf, i)
      {
        FoldStep(buf, i, sa, sb);
        sa, sb := FoldA(sa, buf[i]), FoldB(sb, |buf| - i, buf[i]);
      }
      FoldDone(buf, sa, sb);
      a, b, len := sa, sb, |buf|;
      window := buf;
    }

    /** Moves the window by one byte, in constant time. */
    method Roll(out: byte, inn: byte)
      requires Valid() && window != [] && window[0] == out
      modifies this
      ensures Valid() && window == old(window)[1..] + [inn]
    {
      ghost var a0, b0 := a, b;
      SumsRoll(window, inn);
      a := Wrap32(MOD + a + inn - out) % MOD;
      b := Wrap32(MOD + b + a - Wrap32(Wrap32(len) * out) % MOD) % MOD;
      RollA(a0, SumA(window), inn, out);
      RollB(b0, a, SumB(window), SumA(window[1..] + [inn]), len, out);
      window := window[1..] + [inn];
    }

    function Sum(): (r: u32)
      requires Valid()
      reads this
      ensures r == WeakHash(window)
    {
      b * MOD + a
    }
  }

  // ----- one wrapping step equals the exact step, modulo MOD

  lemma AddStep(acc: nat, x: byte, rest: nat)
    ensures (Wrap32(acc + x) % MOD + rest) % MOD == (acc + (x + rest)) % MOD
  {
    WrapMod(acc + x);
    ModCong(Wrap32(acc + x) % MOD, acc + x, rest);
  }

  lemma BlendStep(acc: nat, weight: nat, x: byte, rest: nat)
    ensures (Wrap32(acc + Wrap32(Wrap32(weight) * x)) % MOD + rest) % MOD
            == (acc + (weight * x + rest)) % MOD
  {
    var p := Wrap32(Wrap32(weight) * x);
    WrapMulMod(weight, x);
    WrapMod(acc + p);
    ModCong(p, weight * x, acc);
    ModCong(Wrap32(acc + p) % MOD, acc + weight * x, rest);
  }

  lemma RollA(a: int, exact: int, inn: byte, out: byte)
    requires a == exact % MOD
    ensures Wrap32(MOD + a + inn - out) % MOD == (exact + inn - out) % MOD
  {
    WrapMod(MOD + a + inn - out);
    ModCong(a, exact, MOD + inn - out);
    ModShift(exact + inn - out, 1);
  }

  lemma RollB(b: int, a: int, exactB: int, exactA: int, len: nat, out: byte)
    requires b == exactB % MOD && a == exactA % MOD
    ensures Wrap32(MOD + b + a - Wrap32(Wrap32(len) * out) % MOD) % MOD
            == (exactB + exactA - len * out) % MOD
  {
    WrapMulMod(len, out);
    RollBWith(b, a, exactB, exactA, Wrap32(Wrap32(len) * out) % MOD, len * out);
  }

  lemma RollBWith(b: int, a: int, exactB: int, exactA: int, p: int, gone: int)
    requires b == exactB % MOD && a == exactA % MOD && p == gone % MOD
    ensures Wrap32(MOD + b + a - p) % MOD == (exactB + exactA - gone) % MOD
  {
    WrapMod(MOD + b + a - p);
    ModCong(b, exactB, MOD + a - p);
    ModCong(a, exactA, MOD + exactB - p);
    ModNegate(p, gone, MOD + exactB + exactA);
    ModShift(exactB + exactA - gone, 1);
  }

  lemma ModNegate(x: int, y: int, c: int)
    requires x % MOD == y % MOD
    ensures (c - x) % MOD == (c - y) % MOD
  {
    var k := x / MOD - y / MOD;
    assert c - y == (c - x) + k * MOD;
    ModShift(c - x, k);
  }
}
