/** The vector store on a stream: every slot with its live flag; the free list is rebuilt. */
module StoreImage {
  import opened Codec
  import opened Streams
  import opened Sequences
  import opened Slots
  import opened VectorStore
  import opened Status

  datatype Image = Image(liveCount: nat, per: nat, live: seq<bool>, vecs: seq<Vector>)

  datatype Loaded = Loaded(image: Image, rest: Bytes) | Failed

  function PutFloat(x: Float32): Bytes { PutNat(4, x) }

  function TakeFloat(b: Bytes): Read<Float32> {
    match TakeNat(4, b)
    case Short => Short
    case Got(x, rest) => FloatRange(x, b); Got(x, rest)
  }

  lemma FloatRange(x: nat, b: Bytes)
    requires |b| >= 4 && x == NatOf(b[..4])
    ensures x < 0x1_0000_0000
  {
    FourBytes();
  }

  lemma FourBytes()
    ensures Pow256(4) == 0x1_0000_0000
  {
    assert Pow256(1) == 256 && Pow256(2) == 65536 && Pow256(3) == 0x100_0000;
  }

  function PutVector(v: Vector): Bytes { PutAll(PutFloat, v) }

  function VectorTaker(dim: nat): Reader<Vector> {
    b => TakeAll(TakeFloat, dim, b)
  }

  function PutStore(dim: nat, i: Image): Bytes {
    PutNat(8, i.liveCount) + PutNat(4, dim) + PutNat(8, i.per) + PutNat(8, |i.live|) + PutAll(PutFlag, i.live)
    + PutNat(8, |i.live| * dim) + PutAll(PutVector, i.vecs)
  }

  function CountSet(live: seq<bool>): nat {
    if live == [] then 0 else CountSet(live[..|live| - 1]) + if live[|live| - 1] then 1 else 0
  }

  /** The reader's checks, in its order. */
  function TakeStore(dim: nat, b: Bytes): Loaded {
    match TakeNat(8, b) case Short => Failed case Got(liveCount, r1) =>
    match TakeNat(4, r1) case Short => Failed case Got(savedDim, r2) =>
    if savedDim != dim then Failed else
    match TakeNat(8, r2) case Short => Failed case Got(per, r3) =>
    if per == 0 then Failed else
    match TakeNat(8, r3) case Short => Failed case Got(n, r4) =>
    match TakeAll(TakeFlag, n, r4) case Short => Failed case Got(live, r5) =>
    match TakeNat(8, r5) case Short => Failed case Got(floats, r6) =>
    if floats != n * dim then Failed else
    match TakeAll(VectorTaker(dim), n, r6) case Short => Failed case Got(vecs, r7) =>
    if CountSet(live) != liveCount then Failed else Loaded(Image(liveCount, per, live, vecs), r7)
  }

  ghost predicate Fits(dim: nat, i: Image) {
    && i.liveCount < Pow256(8) && dim < Pow256(4) && 0 < i.per < Pow256(8) && |i.live| < Pow256(8)
    && |i.live| * dim < Pow256(8) && |i.vecs| == |i.live| && CountSet(i.live) == i.liveCount
    && forall v :: v in i.vecs ==> |v| == dim
  }

  lemma VectorReadable(dim: nat, v: Vector)
    requires |v| == dim
    ensures Readable(PutVector, VectorTaker(dim), v)
  {
    forall x | x in v ensures Readable(PutFloat, TakeFloat, x) {
      forall rest: Bytes ensures TakeFloat(PutFloat(x) + rest) == Got(x, rest) {
        FourBytes();
        TakePut(4, x, rest);
      }
    }
    forall rest: Bytes ensures VectorTaker(dim)(PutVector(v) + rest) == Got(v, rest) {
      TakePutAll(PutFloat, TakeFloat, v, rest);
    }
  }

  lemma FlagsBack(live: seq<bool>, rest: Bytes)
    ensures TakeAll(TakeFlag, |live|, PutAll(PutFlag, live) + rest) == Got(live, rest)
  {
    forall f | f in live ensures Readable(PutFlag, TakeFlag, f) {
      forall rest: Bytes ensures TakeFlag(PutFlag(f) + rest) == Got(f, rest) {
        TakePutFlag(f, rest);
      }
    }
    TakePutAll(PutFlag, TakeFlag, live, rest);
  }

  lemma VectorsBack(dim: nat, vecs: seq<Vector>, rest: Bytes)
    requires forall v :: v in vecs ==> |v| == dim
    ensures TakeAll(VectorTaker(dim), |vecs|, PutAll(PutVector, vecs) + rest) == Got(vecs, rest)
  {
    forall v | v in vecs ensures Readable(PutVector, VectorTaker(dim), v) {
      VectorReadable(dim, v);
    }
    TakePutAll(PutVector, VectorTaker(dim), vecs, rest);
  }

  lemma Regrouped<T>(a: seq<T>, b: seq<T>, c: seq<T>, d: seq<T>, e: seq<T>, f: seq<T>, g: seq<T>, rest: seq<T>)
    ensures a + b + c + d + e + f + g + rest == a + (b + (c + (d + (e + (f + (g + rest))))))
  {
  }

  /** What was saved is read back, and the stream stands right behind it. */
  lemma StoreRoundTrip(dim: nat, i: Image, rest: Bytes)
    requires Fits(dim, i)
    ensures TakeStore(dim, PutStore(dim, i) + rest) == Loaded(i, rest)
  {
    hide PutNat, TakeNat, PutAll, TakeAll, CountSet, Pow256;
    var n, flags, vectors := |i.live|, PutAll(PutFlag, i.live), PutAll(PutVector, i.vecs);
    var r6 := vectors + rest;
    var r5 := PutNat(8, n * dim) + r6;
    var r4 := flags + r5;
    var r3 := PutNat(8, n) + r4;
    var r2 := PutNat(8, i.per) + r3;
    var r1 := PutNat(4, dim) + r2;
    Regrouped(PutNat(8, i.liveCount), PutNat(4, dim), PutNat(8, i.per), PutNat(8, n), flags, PutNat(8, n * dim),
              vectors, rest);
    TakePut(8, i.liveCount, r1);
    TakePut(4, dim, r2);
    TakePut(8, i.per, r3);
    TakePut(8, n, r4);
    FlagsBack(i.live, r5);
    TakePut(8, n * dim, r6);
    VectorsBack(dim, i.vecs, rest);
  }

  // ----- the methods -----

  /** The dead slots in ascending order. */
  function DeadSlots(live: seq<bool>): (r: seq<nat>)
    ensures forall k :: 0 <= k < |r| ==> r[k] < |live|
  {
    if live == [] then []
    else DeadSlots(live[..|live| - 1]) + if live[|live| - 1] then [] else [|live| - 1]
  }

  lemma AppendLarger(s: seq<nat>, x: nat)
    requires Distinct(s) && forall k :: 0 <= k < |s| ==> s[k] < x
    ensures Distinct(s + [x])
  {
  }

  lemma {:induction false} DeadSlotsAre(live: seq<bool>)
    ensures Distinct(DeadSlots(live))
    ensures forall i: nat :: i in DeadSlots(live) <==> i < |live| && !live[i]
  {
    if live != [] {
      var front := live[..|live| - 1];
      DeadSlotsAre(front);
      AppendLarger(DeadSlots(front), |front|);
      hide Distinct;
      if live[|front|] {
        assert DeadSlots(live) == DeadSlots(front);
      } else {
        assert DeadSlots(live) == DeadSlots(front) + [|front|];
      }
    }
  }

  lemma {:induction false} CountIsLiveSlots(t: Table<Vector>)
    ensures CountSet(t.live) == |LiveSlots(t)|
    decreases |t.live|
  {
    if t.live == [] {
      assert LiveSlots(t) == {};
    } else {
      var last := |t.live| - 1;
      var u := t.(live := t.live[..last]);
      CountIsLiveSlots(u);
      assert LiveSlots(t) == LiveSlots(u) + if t.live[last] then {last} else {};
    }
  }

  ghost function ImageOf(s: VectorStore): Image
    requires s.Valid()
    reads s
  {
    Image(s.liveCount, s.blockVectors, s.live, s.Contents().vecs)
  }

  method WriteVectors(s: VectorStore, out: Bytes) returns (r: Bytes)
    requires s.Valid()
    ensures r == out + PutAll(PutVector, s.Contents().vecs)
  {
    hide VectorStore.Valid, PutVector;
    ghost var vecs := s.Contents().vecs;
    SlotsStored(s);
    hide VectorStore.Contents;
    r := out;
    for slot := 0 to |s.live|
      invariant r == out + PutAll(PutVector, vecs[..slot])
    {
      assert vecs[..slot + 1][..slot] == vecs[..slot];
      var v := s.Get(slot);
      r := r + PutVector(v);
    }
    assert vecs[..|s.live|] == vecs;
  }

  method Save(s: VectorStore, out: Bytes) returns (r: Bytes)
    requires s.Valid()
    ensures r == out + PutStore(s.dim, ImageOf(s))
  {
    hide PutNat, VectorStore.Valid, VectorStore.Contents, PutAll;
    var n := |s.live|;
    var header := PutNat(8, s.liveCount) + PutNat(4, s.dim) + PutNat(8, s.blockVectors) + PutNat(8, n)
                  + PutAll(PutFlag, s.live);
    r := out + (header + PutNat(8, n * s.dim));
    r := WriteVectors(s, r);
  }

  lemma SlotsStored(s: VectorStore)
    requires s.Valid()
    ensures |s.Contents().vecs| == |s.live|
  {
  }

  /** The header up to the floats. */
  method ReadHeader(dim: nat, b: Bytes) returns (ok: bool, liveCount: nat, per: nat, live: seq<bool>, floats: Bytes)
    ensures ok ==> forall vecs: seq<Vector>, rest: Bytes ::
              (TakeAll(VectorTaker(dim), |live|, floats) == Got(vecs, rest) && CountSet(live) == liveCount) ==>
                TakeStore(dim, b) == Loaded(Image(liveCount, per, live, vecs), rest)
    ensures ok ==> per > 0
    ensures ok && TakeAll(VectorTaker(dim), |live|, floats).Short? ==> TakeStore(dim, b).Failed?
    ensures ok && CountSet(live) != liveCount ==> TakeStore(dim, b).Failed?
    ensures !ok ==> TakeStore(dim, b).Failed?
  {
    hide TakeNat, TakeAll, CountSet;
    ok, liveCount, per, live, floats := false, 0, 0, [], b;
    match TakeNat(8, b) {
      case Short => return;
      case Got(count, r1) => liveCount, floats := count, r1;
    }
    match TakeNat(4, floats) {
      case Short => return;
      case Got(savedDim, r2) =>
        if savedDim != dim { return; }
        floats := r2;
    }
    match TakeNat(8, floats) {
      case Short => return;
      case Got(blockVectors, r3) =>
        if blockVectors == 0 { return; }
        per, floats := blockVectors, r3;
    }
    match TakeNat(8, floats) {
      case Short => return;
      case Got(n, r4) =>
        var flags := ReadAll(TakeFlag, n, r4);
        match flags {
          case Short => return;
          case Got(fs, r5) =>
            TakenCount(TakeFlag, n, r4);
            match TakeNat(8, r5) {
              case Short => return;
              case Got(total, r6) =>
                if total != n * dim { return; }
                ok, live, floats := true, fs, r6;
            }
        }
    }
  }

  method CountLive(live: seq<bool>) returns (n: nat)
    ensures n == CountSet(live)
  {
    n := 0;
    for i := 0 to |live|
      invariant n == CountSet(live[..i])
    {
      assert live[..i + 1][..i] == live[..i];
      if live[i] {
        n := n + 1;
      }
    }
    assert live[..|live|] == live;
  }

  /** Any failure leaves the object half loaded; success gives exactly the saved slots, with the
      free list exactly the dead ones. */
  method Load(s: VectorStore, b: Bytes) returns (status: Status, rest: Bytes)
    modifies s
    ensures status == if TakeStore(s.dim, b).Failed? then Internal else Ok
    ensures status == Ok ==>
              var got := TakeStore(s.dim, b);
              && s.Valid() && Consistent(s.Contents()) && rest == got.rest
              && s.blockVectors == got.image.per
              && s.Contents() == Table(got.image.vecs, got.image.live, DeadSlots(got.image.live))
  {
    hide TakeStore, TakeAll, CountSet;
    rest := b;
    var ok, liveCount, per, live, floats := ReadHeader(s.dim, b);
    if !ok {
      return Internal, rest;
    }
    var vecs := ReadAll(VectorTaker(s.dim), |live|, floats);
    if vecs.Short? {
      return Internal, rest;
    }
    TakenCount(VectorTaker(s.dim), |live|, floats);
    TakenVectors(s.dim, |live|, floats);
    s.blockVectors, s.live := per, live;
    InstallVectors(s, vecs.value);
    var computed := CountLive(live);
    if computed != liveCount {
      return Internal, rest;
    }
    s.liveCount := computed;
    RebuildFreeList(s);
    assert TakeStore(s.dim, b) == Loaded(Image(liveCount, per, live, vecs.value), vecs.rest);
    Finished(s, vecs.value);
    return Ok, vecs.rest;
  }

  lemma {:induction false} TakenCount<T>(take: Reader<T>, n: nat, b: Bytes)
    ensures TakeAll(take, n, b).Got? ==> |TakeAll(take, n, b).value| == n
  {
    if n > 0 { TakenCount(take, n - 1, b); }
  }

  lemma {:induction false} TakenVectors(dim: nat, n: nat, b: Bytes)
    ensures var r := TakeAll(VectorTaker(dim), n, b); r.Got? ==> forall v :: v in r.value ==> |v| == dim
  {
    if n > 0 {
      TakenVectors(dim, n - 1, b);
      var front := TakeAll(VectorTaker(dim), n - 1, b);
      if front.Got? { TakenCount(TakeFloat, dim, front.rest); }
    }
  }

  /** Every slot before n holds its vector, every slot after it zeros. */
  ghost predicate Filled(blocks: Blocks, dim: nat, per: nat, vecs: seq<Vector>, n: nat)
    requires Shaped(blocks, dim, per) && n <= |vecs|
  {
    && |vecs| <= |blocks| * per
    && forall t: nat :: t < |blocks| * per ==> VecAt(blocks, dim, per, t) == if t < n then vecs[t] else Repeat(0, dim)
  }

  lemma FilledMore(before: Blocks, after: Blocks, dim: nat, per: nat, vecs: seq<Vector>, n: nat)
    requires Shaped(before, dim, per) && Shaped(after, dim, per) && n < |vecs|
    requires Filled(before, dim, per, vecs, n) && WroteOnly(before, after, dim, per, n, vecs[n])
    ensures Filled(after, dim, per, vecs, n + 1)
  {
    hide VecAt;
  }

  lemma FilledBlank(blocks: Blocks, dim: nat, per: nat, vecs: seq<Vector>)
    requires Shaped(blocks, dim, per) && |vecs| <= |blocks| * per
    requires forall b :: 0 <= b < |blocks| ==> blocks[b] == Repeat(0, per * dim)
    ensures Filled(blocks, dim, per, vecs, 0)
  {
    GrownReads([], blocks, dim, per);
  }

  lemma EnoughBlocks(n: nat, per: nat)
    requires per > 0
    ensures (n + per - 1) / per >= 0 && n <= ((n + per - 1) / per) * per
  {
    var x := n + per - 1;
    assert x == (x / per) * per + x % per;
  }

  method InstallVectors(s: VectorStore, vecs: seq<Vector>)
    requires s.blockVectors > 0 && forall v :: v in vecs ==> |v| == s.dim
    modifies s`blocks
    ensures Shaped(s.blocks, s.dim, s.blockVectors) && Filled(s.blocks, s.dim, s.blockVectors, vecs, |vecs|)
  {
    var needed := (|vecs| + s.blockVectors - 1) / s.blockVectors;
    EnoughBlocks(|vecs|, s.blockVectors);
    s.blocks := [];
    for i := 0 to needed
      invariant |s.blocks| == i && forall b :: 0 <= b < i ==> s.blocks[b] == Repeat(0, s.blockVectors * s.dim)
    {
      s.blocks := s.blocks + [Repeat(0, s.blockVectors * s.dim)];
    }
    FilledBlank(s.blocks, s.dim, s.blockVectors, vecs);
    hide Filled, WroteOnly;
    for slot := 0 to |vecs|
      invariant Shaped(s.blocks, s.dim, s.blockVectors) && Filled(s.blocks, s.dim, s.blockVectors, vecs, slot)
    {
      ghost var before := s.blocks;
      s.WriteAt(slot, vecs[slot]);
      FilledMore(before, s.blocks, s.dim, s.blockVectors, vecs, slot);
    }
  }

  method RebuildFreeList(s: VectorStore)
    modifies s`freeList
    ensures s.freeList == DeadSlots(s.live)
  {
    s.freeList := [];
    for slot := 0 to |s.live|
      invariant s.freeList == DeadSlots(s.live[..slot])
    {
      assert s.live[..slot + 1][..slot] == s.live[..slot];
      if !s.live[slot] {
        s.freeList := s.freeList + [slot];
      }
    }
    assert s.live[..|s.live|] == s.live;
  }

  lemma Finished(s: VectorStore, vecs: seq<Vector>)
    requires Shaped(s.blocks, s.dim, s.blockVectors) && Filled(s.blocks, s.dim, s.blockVectors, vecs, |vecs|)
    requires |vecs| == |s.live| && s.freeList == DeadSlots(s.live) && s.liveCount == CountSet(s.live)
    ensures s.Valid() && Consistent(s.Contents()) && s.Contents() == Table(vecs, s.live, s.freeList)
  {
    hide VecAt;
    assert Vectors(s.blocks, s.dim, s.blockVectors, |s.live|) == vecs;
    DeadSlotsAre(s.live);
    assert forall i :: 0 <= i < |s.freeList| ==> s.freeList[i] in s.freeList;
    CountIsLiveSlots(s.Contents());
  }

  /** Saving a store and loading the bytes into another restores every slot and flag; the free
      list is the same set of slots. */
  lemma SavedSlotsRestored(s: VectorStore, rest: Bytes)
    requires s.Valid() && Consistent(s.Contents()) && Fits(s.dim, ImageOf(s))
    ensures TakeStore(s.dim, PutStore(s.dim, ImageOf(s)) + rest) == Loaded(ImageOf(s), rest)
    ensures forall i: nat :: i in DeadSlots(s.live) <==> i in s.Contents().free
  {
    StoreRoundTrip(s.dim, ImageOf(s), rest);
    DeadSlotsAre(s.live);
  }
}
