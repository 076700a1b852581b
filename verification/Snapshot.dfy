/** The snapshot file: magic, version, payload size, payload checksum, payload. What the reader
    lets through is exactly what the writer can produce. */
module Snapshot {
  import opened Codec
  import opened Sequences
  import opened Status
  import opened C = Crc32

  /** "POMAI_SNAP" with its terminating zero. */
  const MAGIC: Bytes := [0x50, 0x4F, 0x4D, 0x41, 0x49, 0x5F, 0x53, 0x4E, 0x41, 0x50, 0x00]
  const VERSION: nat := 3
  const HEADER: nat := 27
  const SIZE_AT: nat := 15
  const CRC_AT: nat := 23
  const CHUNK: nat := 65536
  const LONG_MAX: nat := 0x7FFF_FFFF_FFFF_FFFF

  function CrcNat(payload: Bytes): (n: nat)
    ensures n < Pow256(4)
  {
    CrcFits(Checksum(payload));
    Checksum(payload) as nat
  }

  lemma CrcFits(c: bv32)
    ensures c as nat < Pow256(4)
  {
    assert Pow256(4) == 0x1_0000_0000 by {
      assert Pow256(1) == 256 && Pow256(2) == 65536 && Pow256(3) == 0x100_0000;
    }
  }

  lemma AsNatInjective(c: bv32, d: bv32)
    requires c as nat == d as nat
    ensures c == d
  {
    assert (c as nat) as bv32 == c;
    assert (d as nat) as bv32 == d;
  }

  lemma SizeFits(n: nat)
    requires n <= LONG_MAX
    ensures n < Pow256(8)
  {
    assert Pow256(8) == 0x1_0000_0000_0000_0000 by {
      assert Pow256(1) == 256 && Pow256(2) == 65536 && Pow256(3) == 0x100_0000 && Pow256(4) == 0x1_0000_0000;
      assert Pow256(5) == 0x100_0000_0000 && Pow256(6) == 0x1_0000_0000_0000 && Pow256(7) == 0x100_0000_0000_0000;
    }
  }

  function HeaderOf(size: nat, crc: nat): (h: Bytes)
    ensures |h| == HEADER
  {
    MAGIC + PutNat(4, VERSION) + PutNat(8, size) + PutNat(4, crc)
  }

  /** The file the writer leaves behind for a payload. */
  function FileOf(payload: Bytes): (f: Bytes)
    ensures |f| == HEADER + |payload| && f[HEADER..] == payload
  {
    HeaderOf(|payload|, CrcNat(payload)) + payload
  }

  /** The files that pass the reader's checks. */
  predicate Accepted(file: Bytes) {
    |file| >= HEADER && file == FileOf(file[HEADER..])
  }

  // ----- the writer -----

  method ChecksumInChunks(payload: Bytes) returns (crc: bv32)
    ensures crc == Checksum(payload)
  {
    hide Update;
    crc := 0;
    var remaining := |payload|;
    UpdateNothing(0);
    while remaining > 0
      invariant 0 <= remaining <= |payload|
      invariant crc == Update(0, payload[..|payload| - remaining])
    {
      var at := |payload| - remaining;
      var toRead := if CHUNK <= remaining then CHUNK else remaining;
      var buffer := payload[at..at + toRead];
      UpdateConcat(0, payload[..at], buffer);
      assert payload[..at] + buffer == payload[..at + toRead];
      crc := Crc32Update(crc, buffer);
      remaining := remaining - toRead;
    }
    assert payload[..|payload| - remaining] == payload;
  }

  lemma HeaderPatched(payload: Bytes, size: nat, crc: nat)
    ensures Spliced(HeaderOf(0, 0) + payload, SIZE_AT, PutNat(8, size) + PutNat(4, crc)) ==
              HeaderOf(size, crc) + payload
  {
    var front := MAGIC + PutNat(4, VERSION);
    var file := HeaderOf(0, 0) + payload;
    assert file == front + (PutNat(8, 0) + PutNat(4, 0) + payload);
    assert file[..SIZE_AT] == front;
    assert file[SIZE_AT + 12..] == payload;
  }

  method Write(payload: Bytes) returns (file: Bytes)
    requires HEADER + |payload| <= LONG_MAX
    ensures file == FileOf(payload)
  {
    hide Checksum;
    file := HeaderOf(0, 0);
    file := file + payload;
    var payloadSize := |file| - HEADER;
    assert file[HEADER..] == payload;
    var payloadCrc := ChecksumInChunks(file[HEADER..]);
    CrcFits(payloadCrc);
    HeaderPatched(payload, payloadSize, payloadCrc as nat);
    file := Spliced(file, SIZE_AT, PutNat(8, payloadSize) + PutNat(4, payloadCrc as nat));
  }

  // ----- the reader -----

  lemma SameParts<T>(file: seq<T>, a: seq<T>, b: seq<T>, c: seq<T>, d: seq<T>, e: seq<T>)
    requires |a| == 11 && |b| == 4 && |c| == 8 && |d| == 4 && |file| == HEADER + |e|
    ensures file == a + b + c + d + e <==>
            && file[..11] == a && file[11..SIZE_AT] == b && file[SIZE_AT..CRC_AT] == c
            && file[CRC_AT..HEADER] == d && file[HEADER..] == e
  {
    var made := a + b + c + d + e;
    assert made[..11] == a;
    assert made[11..SIZE_AT] == b;
    assert made[SIZE_AT..CRC_AT] == c;
    assert made[CRC_AT..HEADER] == d;
    assert made[HEADER..] == e;
    assert file == file[..11] + file[11..SIZE_AT] + file[SIZE_AT..CRC_AT] + file[CRC_AT..HEADER] + file[HEADER..];
  }

  lemma HeaderFields(file: Bytes)
    requires |file| >= HEADER
    ensures Accepted(file) <==>
            && file[..11] == MAGIC && file[11..SIZE_AT] == PutNat(4, VERSION)
            && file[SIZE_AT..CRC_AT] == PutNat(8, |file| - HEADER)
            && file[CRC_AT..HEADER] == PutNat(4, CrcNat(file[HEADER..]))
  {
    hide NatOf, PutNat, Checksum, CrcNat;
    var payload := file[HEADER..];
    SameParts(file, MAGIC, PutNat(4, VERSION), PutNat(8, |payload|), PutNat(4, CrcNat(payload)), payload);
  }

  lemma FieldHolds(field: Bytes, v: nat)
    requires v < Pow256(|field|)
    ensures NatOf(field) == v <==> field == PutNat(|field|, v)
  {
    NatOfPut(|field|, v);
    if NatOf(field) == v {
      NatOfInjective(field, PutNat(|field|, v));
    }
  }

  lemma FourBytes(b: Bytes)
    requires |b| == 4
    ensures NatOf(b) == b[0] as nat + 0x100 * b[1] as nat + 0x1_0000 * b[2] as nat + 0x100_0000 * b[3] as nat
  {
    FirstByte(b);
    FirstByte(b[1..]);
    FirstByte(b[2..]);
    FirstByte(b[3..]);
    hide NatOf, Pow256;
    assert b[1..][1..] == b[2..] && b[2..][1..] == b[3..] && b[3..][1..] == [];
    assert b[1..][0] == b[1] && b[2..][0] == b[2] && b[3..][0] == b[3];
  }

  lemma FirstByte(b: Bytes)
    requires b != []
    ensures NatOf(b) == b[0] as nat + 0x100 * NatOf(b[1..]) && NatOf([]) == 0
  {
    hide Pow256;
  }

  lemma EightBytes(b: Bytes)
    requires |b| == 8
    ensures NatOf(b) == NatOf(b[..4]) + 0x1_0000_0000 * NatOf(b[4..])
  {
    FourBytes(b[..4]);
    FirstByte(b);
    FirstByte(b[1..]);
    FirstByte(b[2..]);
    FirstByte(b[3..]);
    hide NatOf, Pow256;
    assert b[1..][1..] == b[2..] && b[2..][1..] == b[3..] && b[3..][1..] == b[4..];
    assert b[1..][0] == b[1] && b[2..][0] == b[2] && b[3..][0] == b[3];
    assert b[..4][0] == b[0] && b[..4][1] == b[1] && b[..4][2] == b[2] && b[..4][3] == b[3];
  }

  /** The accepted files byte by byte: the ten letters and their zero, version 3, then payload size and
      checksum, least byte first. */
  lemma AcceptedBytes(file: Bytes)
    requires |file| <= LONG_MAX
    ensures Accepted(file) <==>
            && |file| >= 27
            && file[..11] == [0x50, 0x4F, 0x4D, 0x41, 0x49, 0x5F, 0x53, 0x4E, 0x41, 0x50, 0x00]
            && file[11] == 3 && file[12] == file[13] == file[14] == 0
            && |file| - 27 == file[15] as nat + 0x100 * file[16] as nat + 0x1_0000 * file[17] as nat
                              + 0x100_0000 * file[18] as nat
                              + 0x1_0000_0000 * (file[19] as nat + 0x100 * file[20] as nat + 0x1_0000 * file[21] as nat
                                                 + 0x100_0000 * file[22] as nat)
            && Checksum(file[27..]) as nat == file[23] as nat + 0x100 * file[24] as nat + 0x1_0000 * file[25] as nat
                                             + 0x100_0000 * file[26] as nat
  {
    if |file| >= 27 {
      HeaderFields(file);
      VersionBytes(file[11..15]);
      SizeBytes(file[15..23], |file| - 27);
      CrcBytes(file[23..27], file[27..]);
      hide Accepted, FileOf, PutNat, Checksum, CrcNat;
    }
  }

  lemma SizeBytes(b: Bytes, size: nat)
    requires |b| == 8 && size <= LONG_MAX
    ensures b == PutNat(8, size) <==>
            size == b[0] as nat + 0x100 * b[1] as nat + 0x1_0000 * b[2] as nat + 0x100_0000 * b[3] as nat
                    + 0x1_0000_0000 * (b[4] as nat + 0x100 * b[5] as nat + 0x1_0000 * b[6] as nat
                                       + 0x100_0000 * b[7] as nat)
  {
    SizeFits(size);
    FieldHolds(b, size);
    EightBytes(b);
    FourBytes(b[..4]);
    FourBytes(b[4..]);
    hide NatOf, PutNat, Pow256;
    assert b[4..][0] == b[4] && b[4..][1] == b[5] && b[4..][2] == b[6] && b[4..][3] == b[7];
    assert b[..4][0] == b[0] && b[..4][1] == b[1] && b[..4][2] == b[2] && b[..4][3] == b[3];
  }

  lemma CrcBytes(b: Bytes, payload: Bytes)
    requires |b| == 4
    ensures b == PutNat(4, CrcNat(payload)) <==>
            Checksum(payload) as nat ==
              b[0] as nat + 0x100 * b[1] as nat + 0x1_0000 * b[2] as nat + 0x100_0000 * b[3] as nat
  {
    FieldHolds(b, CrcNat(payload));
    FourBytes(b);
    hide NatOf, PutNat, Pow256, Checksum;
  }

  lemma VersionBytes(b: Bytes)
    requires |b| == 4
    ensures b == PutNat(4, VERSION) <==> b[0] == 3 && b[1] == b[2] == b[3] == 0
  {
    VersionFits();
    FieldHolds(b, VERSION);
    FourBytes(b);
    FieldHolds([3, 0, 0, 0], VERSION);
    FourBytes([3, 0, 0, 0]);
    hide PutNat, NatOf, Pow256;
  }

  /** The reader's checks, in its order; the payload goes on to the loaders. */
  method Read(file: Bytes) returns (status: Status, payload: Bytes)
    requires |file| <= LONG_MAX
    ensures status == Ok || status == InvalidArgument
    ensures status == Ok <==> Accepted(file)
    ensures status == Ok ==> payload == file[HEADER..]
  {
    hide Checksum, NatOf, PutNat, Pow256;
    payload := [];
    if |file| < 11 || file[..11] != MAGIC {
      if |file| >= HEADER { HeaderFields(file); }
      return InvalidArgument, [];
    }
    if |file| < SIZE_AT {
      return InvalidArgument, [];
    }
    if |file| >= HEADER {
      HeaderFields(file);
      VersionFits();
      FieldHolds(file[11..SIZE_AT], VERSION);
      SizeFits(|file| - HEADER);
      FieldHolds(file[SIZE_AT..CRC_AT], |file| - HEADER);
      FieldHolds(file[CRC_AT..HEADER], CrcNat(file[HEADER..]));
    }
    if NatOf(file[11..SIZE_AT]) != VERSION {
      return InvalidArgument, [];
    }
    if |file| < HEADER {
      return InvalidArgument, [];
    }
    var payloadSize := NatOf(file[SIZE_AT..CRC_AT]);
    var payloadCrc := NatOf(file[CRC_AT..HEADER]);
    if |file| - HEADER != payloadSize {
      return InvalidArgument, [];
    }
    var computed := ChecksumInChunks(file[HEADER..]);
    if computed as nat != payloadCrc {
      return InvalidArgument, [];
    }
    return Ok, file[HEADER..];
  }

  lemma VersionFits()
    ensures VERSION < Pow256(4)
  {
    assert Pow256(1) == 256 && Pow256(2) == 65536 && Pow256(3) == 0x100_0000;
  }

  // ----- what damage is caught -----

  /** The writer's own file comes back with its payload. */
  lemma WrittenIsAccepted(payload: Bytes)
    ensures Accepted(FileOf(payload)) && FileOf(payload)[HEADER..] == payload
  {
  }

  /** No change confined to the header goes unnoticed, however many bytes it touches. */
  lemma HeaderDamageCaught(good: Bytes, bad: Bytes)
    requires Accepted(good) && |bad| == |good| && bad[HEADER..] == good[HEADER..] && bad != good
    ensures !Accepted(bad)
  {
  }

  /** A file cut short or extended is never accepted. */
  lemma LengthDamageCaught(good: Bytes, bad: Bytes)
    requires Accepted(good) && |bad| != |good| && |good| <= LONG_MAX && |bad| <= LONG_MAX
    requires good <= bad || bad <= good
    ensures !Accepted(bad)
  {
    if Accepted(bad) {
      hide Checksum, FileOf, Accepted;
      PrefixField(good, bad);
      SameSizeField(good, bad);
    }
  }

  lemma PrefixField(a: Bytes, b: Bytes)
    requires |a| >= HEADER && |b| >= HEADER && (a <= b || b <= a)
    ensures a[SIZE_AT..CRC_AT] == b[SIZE_AT..CRC_AT]
  {
  }

  lemma SameSizeField(a: Bytes, b: Bytes)
    requires |a| <= LONG_MAX && |b| <= LONG_MAX
    requires Accepted(a) && Accepted(b) && a[SIZE_AT..CRC_AT] == b[SIZE_AT..CRC_AT]
    ensures |a| == |b|
  {
    HeaderFields(a);
    HeaderFields(b);
    hide Checksum, FileOf, Accepted, NatOf, PutNat, Pow256, CrcNat;
    SizeFits(|a| - HEADER);
    SizeFits(|b| - HEADER);
    NatOfPut(8, |a| - HEADER);
    NatOfPut(8, |b| - HEADER);
  }

  /** No change of the payload inside at most 32 consecutive bits, wherever they start, goes unnoticed. */
  lemma BurstCaught(good: Bytes, bad: Bytes, before: seq<bool>, a: seq<bool>, b: seq<bool>, after: seq<bool>)
    requires Accepted(good) && |bad| == |good| >= HEADER && bad != good && bad[..HEADER] == good[..HEADER]
    requires Bits(good[HEADER..]) == before + a + after && Bits(bad[HEADER..]) == before + b + after
    requires |a| == |b| <= 32
    ensures !Accepted(bad)
  {
    hide Checksum, FileOf, Accepted, Bits;
    assert good == good[..HEADER] + good[HEADER..] && bad == bad[..HEADER] + bad[HEADER..];
    if Accepted(bad) {
      SameCrcField(good, bad);
      BurstDetected(good[HEADER..], bad[HEADER..], before, a, b, after);
    }
  }

  /** No change inside four consecutive bytes of the payload goes unnoticed. */
  lemma FourBytesCaught(good: Bytes, bad: Bytes, from: nat, width: nat)
    requires Accepted(good) && |bad| == |good| && bad != good
    requires width <= 4 && HEADER <= from && from + width <= |good|
    requires bad[..from] == good[..from] && bad[from + width..] == good[from + width..]
    ensures !Accepted(bad)
  {
    hide Checksum, FileOf, Accepted, Bits;
    if Accepted(bad) {
      SameAround(good, bad, from, width);
      SameCrcField(good, bad);
      SamePayload(good[HEADER..], bad[HEADER..], from - HEADER, width);
    }
  }

  lemma SameAround(a: Bytes, b: Bytes, from: nat, width: nat)
    requires |a| == |b| && HEADER <= from && from + width <= |a|
    requires b[..from] == a[..from] && b[from + width..] == a[from + width..]
    ensures a[..HEADER] == b[..HEADER]
    ensures a[HEADER..][..from - HEADER] == b[HEADER..][..from - HEADER]
    ensures a[HEADER..][from - HEADER + width..] == b[HEADER..][from - HEADER + width..]
    ensures a[HEADER..] == b[HEADER..] ==> a == b
  {
    assert a[..HEADER] == a[..from][..HEADER] && b[..HEADER] == b[..from][..HEADER];
    assert a[HEADER..][..from - HEADER] == a[..from][HEADER..] && b[HEADER..][..from - HEADER] == b[..from][HEADER..];
    assert a == a[..HEADER] + a[HEADER..] && b == b[..HEADER] + b[HEADER..];
  }

  lemma SamePayload(p: Bytes, q: Bytes, at: nat, width: nat)
    requires |p| == |q| && width <= 4 && at + width <= |p|
    requires p[..at] == q[..at] && p[at + width..] == q[at + width..]
    requires Checksum(p) == Checksum(q)
    ensures p == q
  {
    hide Checksum;
    assert p == p[..at] + p[at..at + width] + p[at + width..];
    assert q == p[..at] + q[at..at + width] + p[at + width..];
    FourBytesDetected(p[..at], p[at..at + width], q[at..at + width], p[at + width..]);
  }

  lemma SameCrcField(a: Bytes, b: Bytes)
    requires Accepted(a) && Accepted(b) && a[..HEADER] == b[..HEADER]
    ensures Checksum(a[HEADER..]) == Checksum(b[HEADER..])
  {
    HeaderFields(a);
    HeaderFields(b);
    hide Checksum, NatOf, PutNat, Pow256, FileOf;
    assert a[CRC_AT..HEADER] == a[..HEADER][CRC_AT..] == b[..HEADER][CRC_AT..] == b[CRC_AT..HEADER];
    NatOfPut(4, CrcNat(a[HEADER..]));
    NatOfPut(4, CrcNat(b[HEADER..]));
    AsNatInjective(Checksum(a[HEADER..]), Checksum(b[HEADER..]));
  }

  /** One damaged byte anywhere in the file is always noticed. */
  lemma ByteDamageCaught(good: Bytes, bad: Bytes, at: nat)
    requires Accepted(good) && |bad| == |good| && at < |good| && bad[at] != good[at]
    requires forall i :: 0 <= i < |good| && i != at ==> bad[i] == good[i]
    ensures !Accepted(bad)
  {
    if at < HEADER {
      assert bad[HEADER..] == good[HEADER..];
      HeaderDamageCaught(good, bad);
    } else {
      FourBytesCaught(good, bad, at, 1);
    }
  }
}
