/** Hexadecimal text: the 32-digit rendering of a 128-bit digest, the radix-16
    parser of the standard library that reads it back, and the token encoding
    of src/rdma.rs. */
module Hex {
  import opened Primitives

  function DigitChar(d: nat): char
    requires d < 16
  {
    if d < 10 then '0' + d as char else 'a' + (d - 10) as char
  }

  function Nibble(c: char): (r: Option<nat>)
    ensures r.Some? ==> r.value < 16
  {
    if '0' <= c <= '9' then Some((c - '0') as nat)
    else if 'a' <= c <= 'f' then Some((c - 'a') as nat + 10)
    else if 'A' <= c <= 'F' then Some((c - 'A') as nat + 10)
    else None
  }

  function LowerChar(c: char): char {
    if 'A' <= c <= 'Z' then c - 'A' + 'a' else c
  }

  function Lower(s: string): (r: string)
    ensures |r| == |s| && forall i :: 0 <= i < |s| ==> r[i] == LowerChar(s[i])
  {
    seq(|s|, i requires 0 <= i < |s| => LowerChar(s[i]))
  }

  lemma NibbleDigit(d: nat, c: char)
    requires d < 16
    ensures Nibble(c) == Some(d) <==> LowerChar(c) == DigitChar(d)
    ensures Nibble(DigitChar(d)) == Some(d) && LowerChar(DigitChar(d)) == DigitChar(d)
  {
  }

  function Pow16(n: nat): (r: nat)
    ensures r >= 1
  {
    if n == 0 then 1 else 16 * Pow16(n - 1)
  }

  lemma Pow16Is128Bits()
    ensures Pow16(32) == U128_LIMIT
  {
    assert Pow16(8) == 0x1_0000_0000;
    assert Pow16(16) == 0x1_0000_0000_0000_0000;
    assert Pow16(24) == 0x1_0000_0000_0000_0000_0000_0000;
  }

  /** The n lowest hex digits of v, most significant first. */
  function Fixed(v: nat, n: nat): (r: string)
    ensures |r| == n
  {
    if n == 0 then "" else Fixed(v / 16, n - 1) + [DigitChar(v % 16)]
  }

  /** `format!("{v:032x}")`. */
  function FormatDigest(v: u128): string {
    Fixed(v, 32)
  }

  /** The number written by a digit string; None when some character is no hex digit. */
  function Digits(s: string): (r: Option<nat>)
    ensures r.Some? ==> r.value < Pow16(|s|)
  {
    if s == "" then Some(0)
    else
      var front := Digits(s[..|s| - 1]);
      var last := Nibble(s[|s| - 1]);
      if front.Some? && last.Some? then Some(16 * front.value + last.value) else None
  }

  /** `u128::from_str_radix(s, 16).ok()`: one optional leading plus sign, at
      least one digit of either case, and no value of 2^128 or more. */
  function ParseDigest(s: string): Option<u128> {
    var body := if s != "" && s[0] == '+' then s[1..] else s;
    if body == "" then None
    else
      var v := Digits(body);
      if v.Some? && v.value < U128_LIMIT then Some(v.value) else None
  }

  lemma DigitsSnoc(front: string, c: char)
    ensures Digits(front + [c])
            == if Digits(front).Some? && Nibble(c).Some?
               then Some(16 * Digits(front).value + Nibble(c).value) else None
    ensures Lower(front + [c]) == Lower(front) + [LowerChar(c)]
  {
    assert (front + [c])[..|front|] == front;
  }

  lemma Quotient(x: nat, d: nat, v: nat)
    requires d < 16
    ensures 16 * x + d == v <==> x == v / 16 && d == v % 16
  {
  }

  /** Reading and writing are inverse up to the case of the letters. */
  lemma {:induction false} DigitsFixed(s: string, v: nat)
    requires v < Pow16(|s|)
    ensures Digits(s) == Some(v) <==> Lower(s) == Fixed(v, |s|)
  {
    if s != "" {
      var front, c := s[..|s| - 1], s[|s| - 1];
      assert s == front + [c];
      DigitsFixed(front, v / 16);
      NibbleDigit(v % 16, c);
      DigitsSnoc(front, c);
      if Digits(front).Some? && Nibble(c).Some? {
        Quotient(Digits(front).value, Nibble(c).value, v);
      }
      SnocEqual(Lower(front), LowerChar(c), Fixed(v / 16, |front|), DigitChar(v % 16));
    }
  }

  lemma SnocEqual(s: string, c: char, t: string, d: char)
    ensures s + [c] == t + [d] <==> s == t && c == d
  {
    if s + [c] == t + [d] {
      assert s == (s + [c])[..|s|] == (t + [d])[..|t|] == t;
      assert c == (s + [c])[|s|] == (t + [d])[|t|] == d;
    }
  }

  /** For 32 characters without a sign, the parser accepts v exactly when the
      lower-cased text is the canonical rendering of v. */
  lemma ParseIffFormat(s: string, v: u128)
    requires |s| == 32 && s[0] != '+'
    ensures ParseDigest(s) == Some(v) <==> Lower(s) == FormatDigest(v)
  {
    Pow16Is128Bits();
    DigitsFixed(s, v);
  }

  lemma {:induction false} FixedIsPlain(v: nat, n: nat)
    ensures Lower(Fixed(v, n)) == Fixed(v, n)
    ensures forall i :: 0 <= i < n ==> Fixed(v, n)[i] != '+'
  {
    if n > 0 {
      FixedIsPlain(v / 16, n - 1);
      NibbleDigit(v % 16, DigitChar(v % 16));
      assert forall i :: 0 <= i < n - 1 ==> Lower(Fixed(v, n))[i] == Lower(Fixed(v / 16, n - 1))[i];
    }
  }

  lemma ParseFormat(v: u128)
    ensures ParseDigest(FormatDigest(v)) == Some(v)
  {
    FixedIsPlain(v, 32);
    ParseIffFormat(FormatDigest(v), v);
  }

  /** Two digests print alike only when they are equal. */
  lemma FormatInjective(v: u128, w: u128)
    ensures FormatDigest(v) == FormatDigest(w) <==> v == w
  {
    ParseFormat(v);
    ParseFormat(w);
  }
}
