/** For which window lengths the checksum's u32 arithmetic never overflows
    (src/delta/checksum.rs): a debug build stops at the first operation that
    does, a release build wraps. */
module Overflow {
  import opened Checksum
  import opened Primitives

  const BASE: nat := 16_842_752  // 257 * 2^16
  const LIMIT: nat := 16_842_774

  /** Every operation of step i of `new` stays in u32. */
  predicate NewStepFits(buf: Bytes, i: nat)
    requires i < |buf|
  {
    && AccA(buf, i) + buf[i] < U32_LIMIT
    && Wrap32(|buf| - i) * buf[i] < U32_LIMIT
    && AccB(buf, i) + Wrap32(|buf| - i) * buf[i] < U32_LIMIT
  }

  ghost predicate NewFits(buf: Bytes) {
    forall i :: 0 <= i < |buf| ==> NewStepFits(buf, i)
  }

  /** Every operation of `roll` stays in u32, from a state (a, b). */
  predicate RollFits(a: nat, b: nat, len: nat, out: byte, inn: byte) {
    var moved := (MOD + a + inn - out) % MOD;
    && MOD + a + inn < U32_LIMIT && MOD + a + inn >= out
    && Wrap32(len) * out < U32_LIMIT
    && MOD + b + moved < U32_LIMIT && MOD + b + moved >= (Wrap32(len) * out) % MOD
  }

  /** A step fits exactly when wrapping changes none of its results. */
  lemma FitsIffUnwrapped(buf: Bytes, i: nat)
    requires i < |buf| < U32_LIMIT
    ensures var product := (|buf| - i) * buf[i];
            NewStepFits(buf, i)
            <==> && Wrap32(AccA(buf, i) + buf[i]) == AccA(buf, i) + buf[i]
                 && Wrap32(Wrap32(|buf| - i) * buf[i]) == product
                 && Wrap32(AccB(buf, i) + product) == AccB(buf, i) + product
  {
    SmallIsUnwrapped(|buf| - i);
    SmallIsUnwrapped(AccA(buf, i) + buf[i]);
    WeightedByte(|buf| - i, buf[i]);
    SmallIsUnwrapped((|buf| - i) * buf[i]);
    SmallIsUnwrapped(AccB(buf, i) + (|buf| - i) * buf[i]);
  }

  lemma SmallIsUnwrapped(v: nat)
    ensures Wrap32(v) == v <==> v < U32_LIMIT
  {
  }

  // ----- the first accumulators of a buffer a little longer than BASE

  function Tri(k: nat): nat {
    if k == 0 then 0 else Tri(k - 1) + k
  }

  /** A step of weight BASE + s adds s * x, modulo 2^16. */
  lemma ShortStep(acc: u32, s: nat, x: byte)
    requires acc < MOD && acc + s * x < MOD
    ensures FoldB(acc, BASE + s, x) == acc + s * x
  {
    var add: nat := s * x;
    Distributes(s, x, add);
    FoldBMod(acc, BASE + s, x, BASE * x + add);
    Reduced(acc + add, x);
  }

  lemma Distributes(s: nat, x: nat, add: nat)
    requires add == s * x
    ensures (BASE + s) * x == BASE * x + add
  {
  }

  lemma FoldBMod(acc: u32, weight: nat, x: byte, product: nat)
    requires product == weight * x
    ensures FoldB(acc, weight, x) == (acc + product) % MOD
  {
    BlendStep(acc, weight, x, 0);
    var r := Wrap32(acc + Wrap32(Wrap32(weight) * x)) % MOD;
    ModUnique(r, 0, r);
  }

  lemma Reduced(small: nat, x: nat)
    requires small < MOD
    ensures (small + BASE * x) % MOD == small
  {
    ModUnique(small + BASE * x, 257 * x, small);
  }

  lemma {:induction false} AccBound(buf: Bytes, r: nat, i: nat)
    requires |buf| == BASE + r && i <= r && Tri(r) - Tri(r - i) <= 257 && Tri(r - i) <= Tri(r)
    ensures AccB(buf, i) <= 255 * (Tri(r) - Tri(r - i))
  {
    if i > 0 {
      var s := r - (i - 1);
      TriGrows(s, r);
      AccBound(buf, r, i - 1);
      BoundStep(AccB(buf, i - 1), Tri(r) - Tri(s), s, buf[i - 1]);
    }
  }

  lemma BoundStep(acc: u32, t: nat, s: nat, x: byte)
    requires acc <= 255 * t && t + s <= 257
    ensures FoldB(acc, BASE + s, x) <= 255 * (t + s)
  {
    WeightedByte(s, x);
    ShortStep(acc, s, x);
  }

  lemma Tri22(k: nat)
    requires k <= 22
    ensures Tri(k) <= Tri(22) == 253
  {
    var t := Tri(4);
    assert Tri(8) == 36 && Tri(12) == 78 && Tri(16) == 136 && Tri(20) == 210;
    TriGrows(k, 22);
  }

  lemma {:induction false} TriGrows(j: nat, k: nat)
    requires j <= k
    ensures Tri(j) <= Tri(k)
    decreases k
  {
    if j < k {
      TriGrows(j, k - 1);
    }
  }

  lemma WeightedByte(w: nat, x: byte)
    ensures 0 <= w * x <= 255 * w
  {
  }

  lemma StepFitsIf(buf: Bytes, i: nat)
    requires i < |buf| < U32_LIMIT && AccB(buf, i) + 255 * (|buf| - i) < U32_LIMIT
    ensures NewStepFits(buf, i)
  {
    SmallIsUnwrapped(|buf| - i);
    WeightedByte(|buf| - i, buf[i]);
  }

  /** One step of a buffer within the limit. */
  lemma ShortBufferFits(buf: Bytes, i: nat)
    requires i < |buf| <= LIMIT
    ensures NewStepFits(buf, i)
  {
    if |buf| - i > BASE {
      var r := |buf| - BASE;
      Tri22(r);
      TriGrows(r - i, r);
      AccBound(buf, r, i);
      assert Tri(r - i) >= r - i;
    }
    StepFitsIf(buf, i);
  }

  lemma RollAlwaysFits(a: nat, b: nat, len: nat, out: byte, inn: byte)
    requires a < MOD && b < MOD && len <= LIMIT
    ensures RollFits(a, b, len, out, inn)
  {
    SmallIsUnwrapped(len);
    WeightedByte(len, out);
  }

  // ----- a longer buffer that overflows

  /** All bytes 255 behind as many zeros as needed. */
  function Overflowing(n: nat): (buf: Bytes)
    requires n > LIMIT
    ensures |buf| == n
    ensures forall i :: 0 <= i < n ==> buf[i] == if i < n - LIMIT - 1 then 0 else 255
  {
    Zeros(n - LIMIT - 1) + seq(LIMIT + 1, _ => 255 as byte)
  }

  lemma {:induction false} ZerosAddNothing(n: nat, i: nat)
    requires n > LIMIT && i <= n - LIMIT - 1
    ensures AccB(Overflowing(n), i) == 0
  {
    if i > 0 {
      ZerosAddNothing(n, i - 1);
      BlendStep(0, n - (i - 1), 0, 0);
    }
  }

  /** Of the following steps the first ones add (23 + 22 + ...) * 255. */
  lemma {:induction false} ThenTheyAdd(n: nat, t: nat)
    requires n > LIMIT && t <= 17
    ensures Tri(23 - t) <= Tri(23) && Tri(23) - Tri(23 - t) <= 257
    ensures AccB(Overflowing(n), n - LIMIT - 1 + t) == 255 * (Tri(23) - Tri(23 - t))
  {
    TriGrows(23 - t, 23);
    TriGrows(6, 23 - t);
    Tri22(22);
    if t == 0 {
      ZerosAddNothing(n, n - LIMIT - 1);
    } else {
      ThenTheyAdd(n, t - 1);
      var s := 23 - (t - 1);
      ShortStep(AccB(Overflowing(n), n - LIMIT - 1 + (t - 1)), s, 255);
    }
  }

  lemma LongBufferOverflows(n: nat)
    requires n > LIMIT
    ensures !NewFits(Overflowing(n))
  {
    var buf, i := Overflowing(n), n - LIMIT - 1 + 17;
    ThenTheyAdd(n, 17);
    Tri22(22);
    assert Tri(6) == 21;
    SmallIsUnwrapped(n - i);
    assert !NewStepFits(buf, i);
  }

  /** No operation of `new` overflows on any buffer of n bytes, nor any of `roll`
      on a window of n bytes, exactly when n is at most 16,842,774. */
  lemma NoOverflowIff(n: nat)
    ensures && (forall buf: Bytes | |buf| == n :: NewFits(buf))
            && (forall a: nat, b: nat, out: byte, inn: byte | a < MOD && b < MOD :: RollFits(a, b, n, out, inn))
            <==> n <= LIMIT
  {
    if n <= LIMIT {
      forall buf: Bytes | |buf| == n
        ensures NewFits(buf)
      {
        forall i | 0 <= i < |buf|
          ensures NewStepFits(buf, i)
        {
          ShortBufferFits(buf, i);
        }
      }
      forall a: nat, b: nat, out: byte, inn: byte | a < MOD && b < MOD
        ensures RollFits(a, b, n, out, inn)
      {
        RollAlwaysFits(a, b, n, out, inn);
      }
    } else {
      LongBufferOverflows(n);
    }
  }
}
