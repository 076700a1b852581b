/** The vector store: fixed-size blocks of floats addressed by slot, with slot reuse.
    Floats are carried as their 32-bit patterns; nothing here computes with them. */
module VectorStore {
  import opened Sequences
  import opened Slots

  type Float32 = x: int | 0 <= x < 0x1_0000_0000
  type Vector = seq<Float32>
  type Blocks = seq<seq<Float32>>

  // ----- block arithmetic -----

  ghost predicate Shaped(blocks: Blocks, dim: nat, per: nat) {
    per > 0 && forall b :: 0 <= b < |blocks| ==> |blocks[b]| == per * dim
  }

  /** Slots 0..n have a block. */
  predicate Covers(blocks: Blocks, per: nat, n: nat)
    requires per > 0
  {
    n <= |blocks| * per
  }

  lemma SlotFits(blocks: Blocks, dim: nat, per: nat, slot: nat)
    requires per > 0
    ensures slot < |blocks| * per <==> slot / per < |blocks|
    ensures 0 <= (slot % per) * dim && (slot % per) * dim + dim <= per * dim
  {
    var q, r := slot / per, slot % per;
    assert slot == q * per + r;
    if q < |blocks| {
      assert (q + 1) * per <= |blocks| * per;
    } else {
      assert q * per >= |blocks| * per;
    }
    assert (r + 1) * dim <= per * dim;
  }

  ghost function RowAt(blocks: Blocks, dim: nat, per: nat, b: nat, r: nat): (v: Vector)
    requires Shaped(blocks, dim, per) && b < |blocks| && r * dim + dim <= per * dim
    ensures |v| == dim
  {
    blocks[b][r * dim..r * dim + dim]
  }

  ghost function VecAt(blocks: Blocks, dim: nat, per: nat, slot: nat): (v: Vector)
    requires Shaped(blocks, dim, per) && slot < |blocks| * per
    ensures |v| == dim
  {
    SlotFits(blocks, dim, per, slot);
    RowAt(blocks, dim, per, slot / per, slot % per)
  }

  /** A slot's floats as a reader of the blocks finds them; none if it has no block. */
  function ReadSlot(blocks: Blocks, dim: nat, per: nat, slot: nat): Vector {
    if per == 0 || slot / per >= |blocks| || (slot % per) * dim + dim > |blocks[slot / per]| then []
    else (ProductNat(slot % per, dim); blocks[slot / per][(slot % per) * dim..(slot % per) * dim + dim])
  }

  lemma ProductNat(x: nat, y: nat)
    ensures x * y >= 0
  {
  }

  lemma ReadSlotIsVecAt(blocks: Blocks, dim: nat, per: nat, slot: nat)
    requires Shaped(blocks, dim, per) && slot < |blocks| * per
    ensures ReadSlot(blocks, dim, per, slot) == VecAt(blocks, dim, per, slot)
  {
    SlotFits(blocks, dim, per, slot);
  }

  lemma Apart(dim: nat, i: nat, j: nat)
    requires i < j
    ensures i * dim + dim <= j * dim
  {
    assert (i + 1) * dim <= j * dim;
  }

  lemma SplicedRow(block: seq<Float32>, dim: nat, r: nat, data: Vector, t: nat)
    requires |data| == dim && r * dim + dim <= |block| && t * dim + dim <= |block|
    ensures Spliced(block, r * dim, data)[t * dim..t * dim + dim] ==
            if t == r then data else block[t * dim..t * dim + dim]
  {
    if t < r {
      Apart(dim, t, r);
    } else if r < t {
      Apart(dim, r, t);
    }
  }

  lemma WriteOneRow(blocks: Blocks, dim: nat, per: nat, b: nat, r: nat, data: Vector, c: nat, t: nat)
    requires Shaped(blocks, dim, per) && |data| == dim
    requires b < |blocks| && r * dim + dim <= per * dim && c < |blocks| && t * dim + dim <= per * dim
    ensures var after := blocks[b := Spliced(blocks[b], r * dim, data)];
            && Shaped(after, dim, per)
            && RowAt(after, dim, per, c, t) == if b == c && r == t then data else RowAt(blocks, dim, per, c, t)
  {
    if b == c {
      hide Spliced;
      SplicedRow(blocks[b], dim, r, data, t);
    }
  }

  lemma SlotOfRow(per: nat, slot: nat, other: nat)
    requires per > 0
    ensures slot == other <==> slot / per == other / per && slot % per == other % per
  {
    assert slot == (slot / per) * per + slot % per && other == (other / per) * per + other % per;
  }

  /** Writing one slot's floats changes that slot's vector and no other. */
  lemma WriteOneSlot(blocks: Blocks, dim: nat, per: nat, slot: nat, data: Vector, other: nat)
    requires Shaped(blocks, dim, per) && slot < |blocks| * per && other < |blocks| * per && |data| == dim
    requires slot / per < |blocks| && (slot % per) * dim + dim <= per * dim
    ensures var b := slot / per;
            var after := blocks[b := Spliced(blocks[b], (slot % per) * dim, data)];
            && Shaped(after, dim, per)
            && VecAt(after, dim, per, other) == if other == slot then data else VecAt(blocks, dim, per, other)
  {
    hide RowAt, Spliced;
    SlotFits(blocks, dim, per, other);
    SlotOfRow(per, slot, other);
    WriteOneRow(blocks, dim, per, slot / per, slot % per, data, other / per, other % per);
  }

  /** The blocks after writing one slot, new blocks being blank. */
  ghost predicate WroteOnly(before: Blocks, after: Blocks, dim: nat, per: nat, slot: nat, data: Vector)
    requires Shaped(before, dim, per) && Shaped(after, dim, per)
  {
    && |before| * per <= |after| * per && slot < |after| * per
    && forall t: nat :: t < |after| * per ==>
         VecAt(after, dim, per, t) == if t == slot then data
                                      else if t < |before| * per then VecAt(before, dim, per, t) else Repeat(0, dim)
  }

  ghost function Vectors(blocks: Blocks, dim: nat, per: nat, n: nat): (vs: seq<Vector>)
    requires Shaped(blocks, dim, per) && Covers(blocks, per, n)
    ensures |vs| == n && forall i :: 0 <= i < n ==> vs[i] == VecAt(blocks, dim, per, i)
  {
    seq(n, i requires 0 <= i < n => VecAt(blocks, dim, per, i))
  }

  /** Every slot from n on reads as zeros. */
  ghost predicate Blank(blocks: Blocks, dim: nat, per: nat, n: nat)
    requires Shaped(blocks, dim, per)
  {
    forall slot: nat :: n <= slot < |blocks| * per ==> VecAt(blocks, dim, per, slot) == Repeat(0, dim)
  }

  lemma TableAfterWrite(before: Blocks, after: Blocks, dim: nat, per: nat, n: nat, slot: nat, data: Vector)
    requires Shaped(before, dim, per) && Shaped(after, dim, per) && WroteOnly(before, after, dim, per, slot, data)
    requires Covers(before, per, n) && Blank(before, dim, per, n)
    ensures slot < n ==> Covers(after, per, n) && Blank(after, dim, per, n)
    ensures slot < n ==> Vectors(after, dim, per, n) == Vectors(before, dim, per, n)[slot := data]
    ensures slot >= n ==> Covers(after, per, slot + 1) && Blank(after, dim, per, slot + 1)
    ensures slot >= n ==> Vectors(after, dim, per, slot + 1) ==
                            Vectors(before, dim, per, n) + Repeat(Repeat(0, dim), slot - n) + [data]
  {
    hide VecAt;
    if slot >= n {
      var got := Vectors(after, dim, per, slot + 1);
      var want := Vectors(before, dim, per, n) + Repeat(Repeat(0, dim), slot - n) + [data];
      assert |got| == |want|;
      forall t | 0 <= t < slot + 1 ensures got[t] == want[t] {
        assert got[t] == VecAt(after, dim, per, t);
      }
    }
  }

  lemma GrownReads(before: Blocks, grown: Blocks, dim: nat, per: nat)
    requires Shaped(before, dim, per) && Shaped(grown, dim, per) && before <= grown
    requires forall b :: |before| <= b < |grown| ==> grown[b] == Repeat(0, per * dim)
    ensures |before| * per <= |grown| * per
    ensures forall t: nat :: t < |before| * per ==> VecAt(grown, dim, per, t) == VecAt(before, dim, per, t)
    ensures forall t: nat :: |before| * per <= t < |grown| * per ==> VecAt(grown, dim, per, t) == Repeat(0, dim)
  {
    assert |before| * per <= |grown| * per;
    hide VecAt;
    forall t: nat | t < |grown| * per
      ensures VecAt(grown, dim, per, t) == if t < |before| * per then VecAt(before, dim, per, t) else Repeat(0, dim)
    {
      GrownRead(before, grown, dim, per, t);
    }
  }

  lemma GrownRead(before: Blocks, grown: Blocks, dim: nat, per: nat, t: nat)
    requires Shaped(before, dim, per) && Shaped(grown, dim, per) && before <= grown && t < |grown| * per
    requires forall b :: |before| <= b < |grown| ==> grown[b] == Repeat(0, per * dim)
    ensures VecAt(grown, dim, per, t) == if t < |before| * per then VecAt(before, dim, per, t) else Repeat(0, dim)
  {
    SlotFits(before, dim, per, t);
    SlotFits(grown, dim, per, t);
  }

  lemma LiveAfterWrite<T>(before: Table<T>, after: Table<T>, slot: nat)
    requires |before.live| <= |after.live| && slot < |after.live| && after.live[slot]
    requires forall i :: 0 <= i < |after.live| && i != slot ==> after.live[i] == (i < |before.live| && before.live[i])
    ensures |LiveSlots(after)| == |LiveSlots(before)| + (if slot < |before.live| && before.live[slot] then 0 else 1)
  {
    assert forall i: nat :: i in LiveSlots(after) <==> i in LiveSlots(before) || i == slot;
    assert LiveSlots(after) == LiveSlots(before) + {slot};
    assert slot in LiveSlots(before) <==> slot < |before.live| && before.live[slot];
  }

  datatype Stats = Stats(liveVectors: nat, totalVectors: nat, freeVectors: nat, blocks: nat)

  class VectorStore {
    const dim: nat
    var blockVectors: nat
    var blocks: Blocks
    var freeList: seq<nat>
    var live: seq<bool>
    var liveCount: nat

    ghost predicate Valid()
      reads this
    {
      && Shaped(blocks, dim, blockVectors) && Covers(blocks, blockVectors, |live|)
      && Blank(blocks, dim, blockVectors, |live|)
      && (forall i :: 0 <= i < |freeList| ==> freeList[i] < |live|)
      && liveCount == |LiveSlots(Contents())|
    }

    /** What the store holds, slot by slot. */
    ghost function Contents(): (t: Table<Vector>)
      reads this
      ensures |t.vecs| == |t.live|
    {
      if Shaped(blocks, dim, blockVectors) && Covers(blocks, blockVectors, |live|)
      then Table(Vectors(blocks, dim, blockVectors, |live|), live, freeList)
      else Table([], [], [])
    }

    /** The next slot is a free one or the first new one. */
    lemma NextSlotInRange()
      requires Valid()
      ensures NextSlot(Contents()) <= |Contents().live|
    {
    }

    constructor (dim: nat, blockVectors: nat)
      ensures Valid() && this.dim == dim
      ensures Contents() == Table([], [], [])
    {
      this.dim := dim;
      this.blockVectors := if blockVectors == 0 then 4096 else blockVectors;
      blocks, freeList, live, liveCount := [], [], [], 0;
    }

    method EnsureBlock(blockIndex: nat)
      requires Shaped(blocks, dim, blockVectors)
      modifies this`blocks
      ensures Shaped(blocks, dim, blockVectors) && blockIndex < |blocks|
      ensures old(blocks) <= blocks
      ensures forall b :: |old(blocks)| <= b < |blocks| ==> blocks[b] == Repeat(0, blockVectors * dim)
    {
      while |blocks| <= blockIndex
        invariant Shaped(blocks, dim, blockVectors) && old(blocks) <= blocks
        invariant forall b :: |old(blocks)| <= b < |blocks| ==> blocks[b] == Repeat(0, blockVectors * dim)
        decreases blockIndex + 1 - |blocks|
      {
        blocks := blocks + [Repeat(0, blockVectors * dim)];
      }
    }

    /** Copies the data into the slot's floats, allocating its block if need be. */
    method WriteAt(slot: nat, data: Vector)
      requires Shaped(blocks, dim, blockVectors) && |data| == dim
      modifies this`blocks
      ensures Shaped(blocks, dim, blockVectors)
      ensures WroteOnly(old(blocks), blocks, dim, blockVectors, slot, data)
    {
      EnsureBlock(slot / blockVectors);
      ghost var grown := blocks;
      GrownReads(old(blocks), grown, dim, blockVectors);
      SlotFits(blocks, dim, blockVectors, slot);
      var b, at := slot / blockVectors, (slot % blockVectors) * dim;
      blocks := blocks[b := Spliced(blocks[b], at, data)];
      WriteOneSlot(grown, dim, blockVectors, slot, data, slot);
      forall t: nat | t < |grown| * blockVectors
        ensures VecAt(blocks, dim, blockVectors, t) == if t == slot then data else VecAt(grown, dim, blockVectors, t)
      {
        WriteOneSlot(grown, dim, blockVectors, slot, data, t);
      }
    }

    /** Marks a slot in use, extending the flags up to it. */
    method MarkLive(slot: nat)
      modifies this`live, this`liveCount
      ensures live == if slot < |old(live)| then old(live)[slot := true]
                      else old(live) + Repeat(false, slot - |old(live)|) + [true]
      ensures liveCount == old(liveCount) + (if slot < |old(live)| && old(live)[slot] then 0 else 1)
    {
      if slot >= |live| {
        live := live + Repeat(false, slot + 1 - |live|);
      }
      if !live[slot] {
        live := live[slot := true];
        liveCount := liveCount + 1;
      }
    }

    method Insert(data: Vector) returns (slot: nat)
      requires Valid() && |data| == dim
      modifies this
      ensures Valid() && NextSlot(old(Contents())) <= |old(Contents()).live|
      ensures slot == old(NextSlot(Contents())) && Contents() == old(Inserted(Contents(), data))
      ensures TookSlot(old(Contents()), Contents(), slot, data)
    {
      ghost var before := Contents();
      NextSlotInRange();
      InsertFills(before, data);
      hide TookSlot;
      if freeList != [] {
        slot := freeList[|freeList| - 1];
        freeList := freeList[..|freeList| - 1];
      } else {
        slot := |live|;
        live := live + [false];
      }
      WriteAt(slot, data);
      MarkLive(slot);
      TableAfterWrite(old(blocks), blocks, dim, blockVectors, |before.live|, slot, data);
      LiveAfterWrite(before, Inserted(before, data), slot);
      assert Contents() == Inserted(before, data);
    }

    method Update(slot: nat, data: Vector)
      requires Valid() && |data| == dim
      modifies this
      ensures Valid()
      ensures Contents() == old(Updated(Contents(), Repeat(0, dim), slot, data))
      ensures Filled(old(Contents()), Contents(), slot, data)
    {
      ghost var before := Contents();
      UpdateFills(before, Repeat(0, dim), slot, data);
      hide Filled;
      WriteAt(slot, data);
      MarkLive(slot);
      TableAfterWrite(old(blocks), blocks, dim, blockVectors, |before.live|, slot, data);
      LiveAfterWrite(before, Updated(before, Repeat(0, dim), slot, data), slot);
    }

    method Release(slot: nat)
      requires Valid()
      modifies this
      ensures Valid()
      ensures Contents() == old(Released(Contents(), slot))
    {
      ghost var before := Contents();
      if slot >= |live| || !live[slot] {
        return;
      }
      live := live[slot := false];
      freeList := freeList + [slot];
      assert LiveSlots(Contents()) == LiveSlots(before) - {slot};
      if liveCount > 0 {
        liveCount := liveCount - 1;
      }
    }

    method Get(slot: nat) returns (v: Vector)
      requires Valid() && slot < |live|
      ensures v == Contents().vecs[slot]
    {
      SlotFits(blocks, dim, blockVectors, slot);
      var at := (slot % blockVectors) * dim;
      v := blocks[slot / blockVectors][at..at + dim];
    }

    method GetStats() returns (stats: Stats)
      requires Valid()
      ensures stats.totalVectors == |Contents().live| && stats.freeVectors == |Contents().free|
      ensures stats.liveVectors == |LiveSlots(Contents())|
      ensures Consistent(Contents()) ==> stats.liveVectors + stats.freeVectors == stats.totalVectors
    {
      stats := Stats(liveCount, |live|, |freeList|, |blocks|);
      if Consistent(Contents()) {
        Conserved(Contents());
      }
    }
  }
}
