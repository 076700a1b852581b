/** CRC-32 as in section 8 of RFC 1952: the bitwise register step, the table-driven
    byte step, and what the checksum is guaranteed to tell apart. */
module Crc32 {
  type Byte = bv8

  const POLY: bv32 := 0xEDB88320
  const ONES: bv32 := 0xFFFFFFFF

  // ----- exclusive or, and the laws the proofs use instead of bit-blasting -----

  function Xor(a: bv32, b: bv32): bv32 { a ^ b }

  lemma XorAssoc(a: bv32, b: bv32, c: bv32)
    ensures Xor(Xor(a, b), c) == Xor(a, Xor(b, c))
  {
  }

  lemma XorCommutes(a: bv32, b: bv32)
    ensures Xor(a, b) == Xor(b, a)
  {
  }

  lemma XorUndone(a: bv32, k: bv32)
    ensures Xor(Xor(a, k), k) == a && Xor(k, Xor(k, a)) == a
  {
  }

  lemma XorCancel(x: bv32, y: bv32, k: bv32)
    requires Xor(x, k) == Xor(y, k)
    ensures x == y
  {
    hide Xor;
    XorUndone(x, k);
    XorUndone(y, k);
  }

  // ----- one step of the register -----

  predicate Odd(c: bv32) { c & 1 == 1 }

  function Half(c: bv32): bv32 { c >> 1 }

  function BitStep(c: bv32): bv32 {
    if Odd(c) then Xor(POLY, Half(c)) else Half(c)
  }

  /** Eight steps, one byte of input. */
  function ByteStep(c: bv32): bv32 {
    BitStep(BitStep(BitStep(BitStep(BitStep(BitStep(BitStep(BitStep(c))))))))
  }

  function BitUnstep(c: bv32): bv32 {
    if c & 0x80000000 != 0 then ((c ^ POLY) << 1) | 1 else c << 1
  }

  /** The polynomial has its top bit set, so a step can be undone. */
  lemma BitStepInjective(a: bv32, b: bv32)
    requires BitStep(a) == BitStep(b)
    ensures a == b
  {
    assert BitUnstep(BitStep(a)) == a;
    assert BitUnstep(BitStep(b)) == b;
  }

  lemma ByteStepInjective(a: bv32, b: bv32)
    requires ByteStep(a) == ByteStep(b)
    ensures a == b
  {
    hide BitStep;
    var a1, b1 := BitStep(a), BitStep(b);
    var a2, b2 := BitStep(a1), BitStep(b1);
    var a3, b3 := BitStep(a2), BitStep(b2);
    var a4, b4 := BitStep(a3), BitStep(b3);
    var a5, b5 := BitStep(a4), BitStep(b4);
    var a6, b6 := BitStep(a5), BitStep(b5);
    var a7, b7 := BitStep(a6), BitStep(b6);
    BitStepInjective(a7, b7);
    BitStepInjective(a6, b6);
    BitStepInjective(a5, b5);
    BitStepInjective(a4, b4);
    BitStepInjective(a3, b3);
    BitStepInjective(a2, b2);
    BitStepInjective(a1, b1);
    BitStepInjective(a, b);
  }

  lemma HalfOfXor(a: bv32, b: bv32)
    ensures Half(Xor(a, b)) == Xor(Half(a), Half(b))
  {
  }

  lemma OddXor(a: bv32, b: bv32)
    ensures Odd(Xor(a, b)) == (Odd(a) != Odd(b))
  {
    assert (a ^ b) & 1 == (a & 1) ^ (b & 1);
    assert (a & 1 == 0 || a & 1 == 1) && (b & 1 == 0 || b & 1 == 1);
  }

  lemma BitStepLinear(a: bv32, b: bv32)
    ensures BitStep(Xor(a, b)) == Xor(BitStep(a), BitStep(b))
  {
    hide Xor, Odd, Half;
    HalfOfXor(a, b);
    OddXor(a, b);
    var x, y := Half(a), Half(b);
    XorAssoc(POLY, x, y);
    XorAssoc(x, POLY, y);
    XorCommutes(POLY, x);
    XorCommutes(POLY, y);
    XorUndone(x, POLY);
    XorAssoc(Xor(x, POLY), POLY, y);
  }

  lemma ByteStepLinear(a: bv32, b: bv32)
    ensures ByteStep(Xor(a, b)) == Xor(ByteStep(a), ByteStep(b))
  {
    hide BitStep, Xor;
    var a1, b1 := BitStep(a), BitStep(b);
    var a2, b2 := BitStep(a1), BitStep(b1);
    var a3, b3 := BitStep(a2), BitStep(b2);
    var a4, b4 := BitStep(a3), BitStep(b3);
    var a5, b5 := BitStep(a4), BitStep(b4);
    var a6, b6 := BitStep(a5), BitStep(b5);
    var a7, b7 := BitStep(a6), BitStep(b6);
    BitStepLinear(a, b);
    BitStepLinear(a1, b1);
    BitStepLinear(a2, b2);
    BitStepLinear(a3, b3);
    BitStepLinear(a4, b4);
    BitStepLinear(a5, b5);
    BitStepLinear(a6, b6);
    BitStepLinear(a7, b7);
  }

  // ----- the low byte and the rest -----

  function Low(c: bv32): bv32 { c & 0xFF }

  function Rest(c: bv32): bv32 { c >> 8 }

  function Up(y: bv32): bv32 { y << 8 }

  predicate TopFree(y: bv32) { y & 0xFF000000 == 0 }

  lemma LowAndRest(c: bv32)
    ensures c == Xor(Low(c), Up(Rest(c))) && TopFree(Rest(c))
  {
  }

  function Double(z: bv32): bv32 { z << 1 }

  predicate Room(z: bv32) { z & 0x80000000 == 0 }

  lemma HalfOfDouble(z: bv32)
    requires Room(z)
    ensures !Odd(Double(z)) && Half(Double(z)) == z
  {
  }

  lemma StepOfDouble(z: bv32)
    requires Room(z)
    ensures BitStep(Double(z)) == z
  {
    hide Odd, Half, Double, Room, Xor;
    HalfOfDouble(z);
  }

  lemma UpIsDoubles(y: bv32)
    ensures Up(y) == Double(Double(Double(Double(Double(Double(Double(Double(y))))))))
  {
  }

  lemma RoomForAll(y: bv32)
    requires TopFree(y)
    ensures Room(y) && Room(Double(y)) && Room(Double(Double(y))) && Room(Double(Double(Double(y))))
    ensures var z := Double(Double(Double(Double(y))));
            Room(z) && Room(Double(z)) && Room(Double(Double(z))) && Room(Double(Double(Double(z))))
  {
  }

  /** Eight steps only shift a value whose low byte is zero. */
  lemma ByteStepOfUp(y: bv32)
    requires TopFree(y)
    ensures ByteStep(Up(y)) == y
  {
    UpIsDoubles(y);
    RoomForAll(y);
    hide BitStep, TopFree, Up, Double, Room;
    var y1 := Double(y);
    var y2 := Double(y1);
    var y3 := Double(y2);
    var y4 := Double(y3);
    var y5 := Double(y4);
    var y6 := Double(y5);
    var y7 := Double(y6);
    StepOfDouble(y7);
    StepOfDouble(y6);
    StepOfDouble(y5);
    StepOfDouble(y4);
    StepOfDouble(y3);
    StepOfDouble(y2);
    StepOfDouble(y1);
    StepOfDouble(y);
  }

  /** The table-driven step: look up the low byte, shift the rest. */
  lemma TableStep(c: bv32)
    ensures ByteStep(c) == Xor(ByteStep(Low(c)), Rest(c))
  {
    hide ByteStep, Xor, Low, Rest, Up, TopFree;
    LowAndRest(c);
    ByteStepLinear(Low(c), Up(Rest(c)));
    ByteStepOfUp(Rest(c));
  }

  // ----- whole messages -----

  /** The register after feeding the bytes. */
  function Feed(c: bv32, bytes: seq<Byte>): bv32 {
    if bytes == [] then c else ByteStep(Xor(Feed(c, bytes[..|bytes| - 1]), bytes[|bytes| - 1] as bv32))
  }

  /** The checksum update with its inversion before and after. */
  function Update(crc: bv32, bytes: seq<Byte>): bv32 {
    Xor(Feed(Xor(crc, ONES), bytes), ONES)
  }

  function Checksum(bytes: seq<Byte>): bv32 {
    Update(0, bytes)
  }

  // ----- a known value -----

  /** The digits "123456789". */
  const DIGITS: seq<Byte> := [0x31, 0x32, 0x33, 0x34, 0x35, 0x36, 0x37, 0x38, 0x39]

  lemma FeedOne(n: nat, before: bv32, after: bv32)
    requires n < |DIGITS| && Feed(ONES, DIGITS[..n]) == before && ByteStep(Xor(before, DIGITS[n] as bv32)) == after
    ensures Feed(ONES, DIGITS[..n + 1]) == after
  {
    hide ByteStep, Xor;
    assert DIGITS[..n + 1][..n] == DIGITS[..n];
  }

  /** Their checksum is the check value published for this CRC. */
  lemma CheckValue()
    ensures Checksum([0x31, 0x32, 0x33, 0x34, 0x35, 0x36, 0x37, 0x38, 0x39]) == 0xCBF43926
  {
    StepValues();
    assert Feed(ONES, DIGITS[..0]) == ONES && DIGITS[..9] == DIGITS;
    hide ByteStep, Xor, Feed;
    FeedOne(0, 0xFFFFFFFF, 0x7C231048);
    FeedOne(1, 0x7C231048, 0xB0ACBB32);
    FeedOne(2, 0xB0ACBB32, 0x77B79C2D);
    FeedOne(3, 0x77B79C2D, 0x641C1F5C);
    FeedOne(4, 0x641C1F5C, 0x340AC5E3);
    FeedOne(5, 0x340AC5E3, 0xF68D2C9E);
    FeedOne(6, 0xF68D2C9E, 0xAFFC9660);
    FeedOne(7, 0xAFFC9660, 0x651F2550);
    FeedOne(8, 0x651F2550, 0x340BC6D9);
  }

  lemma StepValues()
    ensures Xor(0, ONES) == ONES && Xor(0x340BC6D9, ONES) == 0xCBF43926
    ensures ByteStep(Xor(0xFFFFFFFF, DIGITS[0] as bv32)) == 0x7C231048
    ensures ByteStep(Xor(0x7C231048, DIGITS[1] as bv32)) == 0xB0ACBB32
    ensures ByteStep(Xor(0xB0ACBB32, DIGITS[2] as bv32)) == 0x77B79C2D
    ensures ByteStep(Xor(0x77B79C2D, DIGITS[3] as bv32)) == 0x641C1F5C
    ensures ByteStep(Xor(0x641C1F5C, DIGITS[4] as bv32)) == 0x340AC5E3
    ensures ByteStep(Xor(0x340AC5E3, DIGITS[5] as bv32)) == 0xF68D2C9E
    ensures ByteStep(Xor(0xF68D2C9E, DIGITS[6] as bv32)) == 0xAFFC9660
    ensures ByteStep(Xor(0xAFFC9660, DIGITS[7] as bv32)) == 0x651F2550
    ensures ByteStep(Xor(0x651F2550, DIGITS[8] as bv32)) == 0x340BC6D9
  {
  }

  lemma {:induction false} FeedConcat(c: bv32, a: seq<Byte>, b: seq<Byte>)
    ensures Feed(c, a + b) == Feed(Feed(c, a), b)
  {
    hide ByteStep, Xor;
    if b == [] {
      assert a + b == a;
    } else {
      assert (a + b)[..|a + b| - 1] == a + b[..|b| - 1];
      FeedConcat(c, a, b[..|b| - 1]);
    }
  }

  /** Updating chunk by chunk is one pass over the whole. */
  lemma UpdateConcat(crc: bv32, a: seq<Byte>, b: seq<Byte>)
    ensures Update(Update(crc, a), b) == Update(crc, a + b)
  {
    hide Feed, Xor;
    FeedConcat(Xor(crc, ONES), a, b);
    XorUndone(Feed(Xor(crc, ONES), a), ONES);
  }

  lemma UpdateNothing(crc: bv32)
    ensures Update(crc, []) == crc
  {
    hide Xor;
    XorUndone(crc, ONES);
  }

  lemma {:induction false} FeedInjective(c: bv32, d: bv32, bytes: seq<Byte>)
    requires Feed(c, bytes) == Feed(d, bytes)
    ensures c == d
  {
    if bytes == [] {
    } else {
      hide ByteStep, Xor;
      var front, x := bytes[..|bytes| - 1], bytes[|bytes| - 1] as bv32;
      var p, q := Feed(c, front), Feed(d, front);
      ByteStepInjective(Xor(p, x), Xor(q, x));
      XorCancel(p, q, x);
      FeedInjective(c, d, front);
    }
  }

  // ----- messages as bits -----

  function Bit(b: bool): bv32 { if b then 1 else 0 }

  /** The register after feeding single bits. */
  function FeedBits(c: bv32, bits: seq<bool>): bv32
    decreases |bits|
  {
    if bits == [] then c else FeedBits(BitStep(Xor(c, Bit(bits[0]))), bits[1..])
  }

  /** The n lowest bits, lowest first: the order in which they enter the register. */
  function BitsOf(n: nat, y: bv32): (r: seq<bool>)
    ensures |r| == n
  {
    if n == 0 then [] else [Odd(y)] + BitsOf(n - 1, Half(y))
  }

  function Bits(bytes: seq<Byte>): (r: seq<bool>)
    ensures |r| == 8 * |bytes|
  {
    if bytes == [] then [] else Bits(bytes[..|bytes| - 1]) + BitsOf(8, bytes[|bytes| - 1] as bv32)
  }

  function Steps(n: nat, c: bv32): bv32 {
    if n == 0 then c else Steps(n - 1, BitStep(c))
  }

  function Halves(n: nat, y: bv32): bv32 {
    if n == 0 then y else Halves(n - 1, Half(y))
  }

  lemma SplitLowBit(y: bv32)
    ensures y == Xor(Bit(Odd(y)), Double(Half(y))) && Room(Half(y))
  {
  }

  /** One bit of y is used up by one step; the others move down. */
  lemma EnterOneBit(c: bv32, y: bv32)
    ensures BitStep(Xor(c, y)) == Xor(BitStep(Xor(c, Bit(Odd(y)))), Half(y))
  {
    SplitLowBit(y);
    hide Xor, BitStep, Odd, Half, Double, Room, Bit;
    XorAssoc(c, Bit(Odd(y)), Double(Half(y)));
    BitStepLinear(Xor(c, Bit(Odd(y))), Double(Half(y)));
    StepOfDouble(Half(y));
  }

  lemma {:induction false} EnterBits(n: nat, c: bv32, y: bv32)
    ensures Steps(n, Xor(c, y)) == Xor(FeedBits(c, BitsOf(n, y)), Halves(n, y))
  {
    hide Xor, BitStep, Odd, Half, Bit;
    if n > 0 {
      EnterOneBit(c, y);
      EnterBits(n - 1, BitStep(Xor(c, Bit(Odd(y)))), Half(y));
      assert BitsOf(n, y)[1..] == BitsOf(n - 1, Half(y));
    }
  }

  lemma TwoMore(n: nat, c: bv32)
    ensures Steps(n + 2, c) == Steps(n, BitStep(BitStep(c))) && Halves(n + 2, c) == Halves(n, Half(Half(c)))
  {
    hide BitStep, Half;
  }

  lemma RestIsHalves(c: bv32)
    ensures Rest(c) == Half(Half(Half(Half(Half(Half(Half(Half(c))))))))
  {
  }

  lemma EightSteps(c: bv32)
    ensures Steps(8, c) == ByteStep(c) && Halves(8, c) == Rest(c)
  {
    RestIsHalves(c);
    hide BitStep, Half, Rest;
    TwoMore(6, c);
    var c2 := BitStep(BitStep(c));
    TwoMore(4, c2);
    var c4 := BitStep(BitStep(c2));
    TwoMore(2, c4);
    TwoMore(0, BitStep(BitStep(c4)));
    var h2 := Half(Half(c));
    TwoMore(4, h2);
    var h4 := Half(Half(h2));
    TwoMore(2, h4);
    TwoMore(0, Half(Half(h4)));
  }

  lemma RestOfByte(x: Byte)
    ensures Rest(x as bv32) == 0
  {
  }

  lemma {:induction false} FeedBitsConcat(c: bv32, a: seq<bool>, b: seq<bool>)
    ensures FeedBits(c, a + b) == FeedBits(FeedBits(c, a), b)
    decreases |a|
  {
    hide Xor, BitStep, Bit;
    if a == [] {
      assert a + b == b;
    } else {
      assert (a + b)[1..] == a[1..] + b;
      FeedBitsConcat(BitStep(Xor(c, Bit(a[0]))), a[1..], b);
    }
  }

  lemma XorZero(c: bv32)
    ensures Xor(c, 0) == c && Xor(c, c) == 0
  {
  }

  /** Feeding bytes is feeding their bits. */
  lemma {:induction false} FeedAsBits(c: bv32, bytes: seq<Byte>)
    ensures Feed(c, bytes) == FeedBits(c, Bits(bytes))
  {
    if bytes == [] {
    } else {
      hide Xor, ByteStep, Rest, BitsOf, FeedBits, Steps, Halves;
      var front, x := bytes[..|bytes| - 1], bytes[|bytes| - 1] as bv32;
      FeedAsBits(c, front);
      FeedBitsConcat(c, Bits(front), BitsOf(8, x));
      EnterBits(8, Feed(c, front), x);
      EightSteps(Xor(Feed(c, front), x));
      EightSteps(x);
      RestOfByte(bytes[|bytes| - 1]);
      XorZero(FeedBits(Feed(c, front), BitsOf(8, x)));
    }
  }

  lemma {:induction false} FeedBitsInjective(c: bv32, d: bv32, bits: seq<bool>)
    requires FeedBits(c, bits) == FeedBits(d, bits)
    ensures c == d
    decreases |bits|
  {
    if bits == [] {
    } else {
      hide Xor, BitStep, Bit;
      var p, q := Xor(c, Bit(bits[0])), Xor(d, Bit(bits[0]));
      FeedBitsInjective(BitStep(p), BitStep(q), bits[1..]);
      BitStepInjective(p, q);
      XorCancel(c, d, Bit(bits[0]));
    }
  }

  // ----- 32 bits fill the register exactly -----

  lemma {:induction false} HalvesAdd(m: nat, n: nat, x: bv32)
    ensures Halves(m + n, x) == Halves(n, Halves(m, x))
  {
    hide Half;
    if m > 0 {
      HalvesAdd(m - 1, n, Half(x));
    }
  }

  lemma {:induction false} HalvesOfZero(n: nat)
    ensures Halves(n, 0) == 0
  {
    if n > 0 {
      HalvesOfZero(n - 1);
    }
  }

  /** A register that is zero after at most 31 halvings has its top bit free. */
  lemma RoomWhenSmall(n: nat, x: bv32)
    requires n <= 31 && Halves(n, x) == 0
    ensures Room(x)
  {
    HalvesAdd(n, 32 - n - 1, x);
    HalvesOfZero(31 - n);
    HalvesAdd(24, 7, x);
    HalvesAdd(16, 8, x);
    HalvesAdd(8, 8, x);
    EightSteps(x);
    EightSteps(Rest(x));
    EightSteps(Rest(Rest(x)));
    var y := Rest(Rest(Rest(x)));
    TwoMore(5, y);
    TwoMore(3, Half(Half(y)));
    TwoMore(1, Half(Half(Half(Half(y)))));
    hide BitStep, Steps, ByteStep;
    assert Halves(1, Half(Half(Half(Half(Half(Half(y))))))) == Half(Half(Half(Half(Half(Half(Half(y)))))));
  }

  /** The bits that enter two registers do not reach the upper 31 bits of their difference. */
  lemma HalfIgnoresBits(c: bv32, d: bv32, a: bool, b: bool)
    ensures Half(Xor(Xor(c, Bit(a)), Xor(d, Bit(b)))) == Half(Xor(c, d))
  {
    assert Half(Bit(a)) == 0 == Half(Bit(b));
    hide Xor, Half, Bit;
    HalfOfXor(c, Bit(a));
    HalfOfXor(d, Bit(b));
    HalfOfXor(c, d);
    HalfOfXor(Xor(c, Bit(a)), Xor(d, Bit(b)));
    XorZero(Half(c));
    XorZero(Half(d));
  }

  /** A step undone: if its result has room, it is half the register before. */
  lemma StepBack(x: bv32)
    requires Room(BitStep(x))
    ensures Half(x) == BitStep(x)
  {
    var z := BitStep(x);
    StepOfDouble(z);
    BitStepInjective(x, Double(z));
    HalfOfDouble(z);
    hide BitStep;
  }

  /** Two registers that m bits each bring together differ in their m lowest bits only. */
  lemma {:induction false} MeetingIsNear(c: bv32, d: bv32, a: seq<bool>, b: seq<bool>)
    requires |a| == |b| <= 32 && FeedBits(c, a) == FeedBits(d, b)
    ensures Halves(|a|, Xor(c, d)) == 0
    decreases |a|
  {
    hide Xor, BitStep, Bit, Room, Half;
    if a == [] {
      XorZero(c);
    } else {
      var p, q := Xor(c, Bit(a[0])), Xor(d, Bit(b[0]));
      MeetingIsNear(BitStep(p), BitStep(q), a[1..], b[1..]);
      BitStepLinear(p, q);
      RoomWhenSmall(|a| - 1, BitStep(Xor(p, q)));
      StepBack(Xor(p, q));
      HalfIgnoresBits(c, d, a[0], b[0]);
    }
  }

  lemma OtherBitSetsTop(c: bv32)
    ensures !Room(Xor(BitStep(Xor(c, Bit(true))), BitStep(Xor(c, Bit(false)))))
    ensures !Room(Xor(BitStep(Xor(c, Bit(false))), BitStep(Xor(c, Bit(true)))))
  {
    assert BitStep(1) == POLY && !Room(POLY);
    assert Xor(Xor(c, Bit(true)), Xor(c, Bit(false))) == 1 == Xor(Xor(c, Bit(false)), Xor(c, Bit(true)));
    hide Xor, BitStep, Bit, Room;
    BitStepLinear(Xor(c, Bit(true)), Xor(c, Bit(false)));
    BitStepLinear(Xor(c, Bit(false)), Xor(c, Bit(true)));
  }

  /** At most 32 bits can be told apart by the register, whatever it held before. */
  lemma {:induction false} ShortInjective(c: bv32, a: seq<bool>, b: seq<bool>)
    requires |a| == |b| <= 32 && FeedBits(c, a) == FeedBits(c, b)
    ensures a == b
    decreases |a|
  {
    hide Xor, BitStep, Bit, Room, Halves;
    if a != [] {
      if a[0] != b[0] {
        OtherBitSetsTop(c);
        var p, q := BitStep(Xor(c, Bit(a[0]))), BitStep(Xor(c, Bit(b[0])));
        MeetingIsNear(p, q, a[1..], b[1..]);
        RoomWhenSmall(|a| - 1, Xor(p, q));
        assert false;
      }
      ShortInjective(BitStep(Xor(c, Bit(a[0]))), a[1..], b[1..]);
      assert a == [a[0]] + a[1..] && b == [b[0]] + b[1..];
    }
  }

  /** The checksum tells any two payloads apart that differ only in a burst of at most 32 bits,
      wherever it starts. */
  lemma BurstDetected(x: seq<Byte>, y: seq<Byte>, before: seq<bool>, a: seq<bool>, b: seq<bool>, after: seq<bool>)
    requires Bits(x) == before + a + after && Bits(y) == before + b + after && |a| == |b| <= 32
    requires Checksum(x) == Checksum(y)
    ensures x == y
  {
    hide Feed, FeedBits, Xor, Bits;
    var start := Xor(0, ONES);
    var c := FeedBits(start, before);
    XorCancel(Feed(start, x), Feed(start, y), ONES);
    FeedAsBits(start, x);
    FeedAsBits(start, y);
    FeedBitsConcat(start, before + a, after);
    FeedBitsConcat(start, before + b, after);
    FeedBitsConcat(start, before, a);
    FeedBitsConcat(start, before, b);
    FeedBitsInjective(FeedBits(c, a), FeedBits(c, b), after);
    ShortInjective(c, a, b);
    BitsInjective(x, y);
  }

  lemma {:induction false} LowBitsInjective(n: nat, x: bv32, y: bv32)
    requires BitsOf(n, x) == BitsOf(n, y) && Halves(n, x) == Halves(n, y)
    ensures x == y
  {
    if n > 0 {
      SplitLowBit(x);
      SplitLowBit(y);
      hide Odd, Half, Double, Xor, Bit;
      assert BitsOf(n, x)[0] == Odd(x) && BitsOf(n, y)[0] == Odd(y);
      assert BitsOf(n, x)[1..] == BitsOf(n - 1, Half(x)) && BitsOf(n, y)[1..] == BitsOf(n - 1, Half(y));
      LowBitsInjective(n - 1, Half(x), Half(y));
    }
  }

  lemma ByteOfBits(x: Byte, y: Byte)
    requires BitsOf(8, x as bv32) == BitsOf(8, y as bv32)
    ensures x == y
  {
    EightSteps(x as bv32);
    EightSteps(y as bv32);
    RestOfByte(x);
    RestOfByte(y);
    LowBitsInjective(8, x as bv32, y as bv32);
  }

  lemma {:induction false} BitsInjective(x: seq<Byte>, y: seq<Byte>)
    requires Bits(x) == Bits(y)
    ensures x == y
  {
    if x != [] {
      hide BitsOf;
      var p, q := x[..|x| - 1], y[..|y| - 1];
      assert Bits(x)[..8 * |p|] == Bits(p) && Bits(y)[..8 * |q|] == Bits(q);
      assert Bits(x)[8 * |p|..] == BitsOf(8, x[|x| - 1] as bv32) && Bits(y)[8 * |q|..] == BitsOf(8, y[|y| - 1] as bv32);
      BitsInjective(p, q);
      ByteOfBits(x[|x| - 1], y[|y| - 1]);
      assert x == p + [x[|x| - 1]] && y == q + [y[|y| - 1]];
    }
  }

  lemma {:induction false} BitsConcat(a: seq<Byte>, b: seq<Byte>)
    ensures Bits(a + b) == Bits(a) + Bits(b)
  {
    if b == [] {
      assert a + b == a;
    } else {
      hide BitsOf;
      assert (a + b)[..|a + b| - 1] == a + b[..|b| - 1];
      BitsConcat(a, b[..|b| - 1]);
    }
  }

  /** In particular, damage inside four consecutive bytes is detected. */
  lemma FourBytesDetected(before: seq<Byte>, a: seq<Byte>, b: seq<Byte>, after: seq<Byte>)
    requires |a| == |b| <= 4 && Checksum(before + a + after) == Checksum(before + b + after)
    ensures a == b
  {
    hide Checksum, Bits;
    BitsConcat(before + a, after);
    BitsConcat(before, a);
    BitsConcat(before + b, after);
    BitsConcat(before, b);
    BurstDetected(before + a + after, before + b + after, Bits(before), Bits(a), Bits(b), Bits(after));
    assert a == (before + a + after)[|before|..|before| + |a|] && b == (before + b + after)[|before|..|before| + |b|];
  }

  // ----- the table-driven loop -----

  function Index(c: bv32): (i: nat)
    ensures i < 256 && i as bv32 == Low(c)
  {
    IndexBack(Low(c));
    Low(c) as nat
  }

  lemma IndexBack(x: bv32)
    requires x < 256
    ensures (x as nat) as bv32 == x && x as nat < 256
  {
  }

  method BuildTable() returns (table: array<bv32>)
    ensures table.Length == 256 && fresh(table)
    ensures forall i :: 0 <= i < 256 ==> table[i] == ByteStep(i as bv32)
  {
    hide BitStep;
    table := new bv32[256];
    for i := 0 to 256
      invariant forall k :: 0 <= k < i ==> table[k] == ByteStep(k as bv32)
    {
      var c := i as bv32;
      c := BitStep(c);
      c := BitStep(c);
      c := BitStep(c);
      c := BitStep(c);
      c := BitStep(c);
      c := BitStep(c);
      c := BitStep(c);
      c := BitStep(c);
      table[i] := c;
    }
  }

  lemma RestOfXorByte(c: bv32, x: Byte)
    ensures Rest(Xor(c, x as bv32)) == Rest(c)
  {
  }

  method Crc32Update(crc: bv32, data: seq<Byte>) returns (r: bv32)
    ensures r == Update(crc, data)
  {
    hide ByteStep, Xor, Low, Rest, Index;
    var table := BuildTable();
    var c := Xor(crc, ONES);
    for i := 0 to |data|
      invariant forall k :: 0 <= k < 256 ==> table[k] == ByteStep(k as bv32)
      invariant c == Feed(Xor(crc, ONES), data[..i])
    {
      assert data[..i + 1][..i] == data[..i];
      var x := data[i] as bv32;
      TableStep(Xor(c, x));
      RestOfXorByte(c, data[i]);
      var next := Xor(table[Index(Xor(c, x))], Rest(c));
      assert next == ByteStep(Xor(c, x));
      c := next;
    }
    assert data[..|data|] == data;
    r := Xor(c, ONES);
  }
}
