/** Byte images of fixed-width integers: little-endian, as the stream functions write them. */
module Codec {
  import opened Crc32

  type Bytes = seq<Byte>

  function Pow256(n: nat): (p: nat)
    ensures p >= 1
  {
    if n == 0 then 1 else 256 * Pow256(n - 1)
  }

  function Digit(b: Byte): (d: nat)
    ensures d < 256
  {
    DigitRange(b);
    b as nat
  }

  lemma DigitRange(b: Byte)
    ensures b as nat < 256 && (b as nat) as Byte == b
  {
  }

  lemma DigitBack(v: nat)
    requires v < 256
    ensures Digit(v as Byte) == v
  {
  }

  lemma DigitInjective(a: Byte, b: Byte)
    requires Digit(a) == Digit(b)
    ensures a == b
  {
    DigitRange(a);
    DigitRange(b);
  }

  function PutNat(n: nat, v: nat): (b: Bytes)
    ensures |b| == n
  {
    if n == 0 then [] else [(v % 256) as Byte] + PutNat(n - 1, v / 256)
  }

  function NatOf(b: Bytes): (v: nat)
    ensures v < Pow256(|b|)
  {
    if b == [] then 0 else Digit(b[0]) + 256 * NatOf(b[1..])
  }

  lemma {:induction false} NatOfPut(n: nat, v: nat)
    requires v < Pow256(n)
    ensures NatOf(PutNat(n, v)) == v
  {
    if n == 0 {
    } else {
      NatOfPut(n - 1, v / 256);
      DigitBack(v % 256);
      hide Digit;
      assert PutNat(n, v)[1..] == PutNat(n - 1, v / 256);
    }
  }

  lemma SameDigits(x: nat, u: nat, y: nat, v: nat)
    requires x < 256 && y < 256 && x + 256 * u == y + 256 * v
    ensures x == y && u == v
  {
  }

  lemma SameFront(a: Bytes, b: Bytes)
    requires |a| == |b| > 0 && NatOf(a) == NatOf(b)
    ensures Digit(a[0]) == Digit(b[0]) && NatOf(a[1..]) == NatOf(b[1..])
  {
    hide Digit, Pow256;
    SameDigits(Digit(a[0]), NatOf(a[1..]), Digit(b[0]), NatOf(b[1..]));
  }

  /** Different bytes of the same width stand for different integers. */
  lemma {:induction false} NatOfInjective(a: Bytes, b: Bytes)
    requires |a| == |b| && NatOf(a) == NatOf(b)
    ensures a == b
  {
    if a == [] {
    } else {
      hide Digit, NatOf, Pow256;
      SameFront(a, b);
      DigitInjective(a[0], b[0]);
      NatOfInjective(a[1..], b[1..]);
      assert a == [a[0]] + a[1..] && b == [b[0]] + b[1..];
    }
  }
}
