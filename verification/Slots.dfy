/** Slot allocation with a free list: what the vector store's operations do, and what every
    run of them keeps. */
module Slots {
  import opened Sequences

  datatype Table<T> = Table(vecs: seq<T>, live: seq<bool>, free: seq<nat>)

  /** The free list holds exactly the dead slots, each once. */
  ghost predicate Consistent<T>(s: Table<T>) {
    && |s.vecs| == |s.live|
    && Distinct(s.free)
    && forall i: nat :: i in s.free <==> i < |s.live| && !s.live[i]
  }

  ghost predicate IsLiveSlot<T>(s: Table<T>, slot: nat) {
    slot < |s.live| && s.live[slot]
  }

  ghost function LiveSlots<T>(s: Table<T>): set<nat> {
    set i | 0 <= i < |s.live| && s.live[i]
  }

  /** The slot the next insertion takes: the most recently freed one, else a new one. */
  function NextSlot<T>(s: Table<T>): nat {
    if s.free != [] then s.free[|s.free| - 1] else |s.live|
  }

  function Inserted<T>(s: Table<T>, v: T): Table<T>
    requires |s.vecs| == |s.live| && NextSlot(s) <= |s.live|
  {
    var slot := NextSlot(s);
    var rest := if s.free == [] then [] else s.free[..|s.free| - 1];
    if slot == |s.live| then Table(s.vecs + [v], s.live + [true], rest)
    else Table(s.vecs[slot := v], s.live[slot := true], rest)
  }

  function Repeat<T>(x: T, n: nat): (r: seq<T>)
    ensures |r| == n && forall i :: 0 <= i < n ==> r[i] == x
  {
    seq(n, _ => x)
  }

  /** An update beyond the last slot grows the table; the slots in between hold zero. */
  function Updated<T>(s: Table<T>, zero: T, slot: nat, v: T): Table<T>
    requires |s.vecs| == |s.live|
  {
    if slot < |s.live| then s.(vecs := s.vecs[slot := v], live := s.live[slot := true])
    else
      var gap := slot - |s.live|;
      s.(vecs := s.vecs + Repeat(zero, gap) + [v], live := s.live + Repeat(false, gap) + [true])
  }

  function Released<T>(s: Table<T>, slot: nat): Table<T> {
    if slot >= |s.live| || !s.live[slot] then s
    else s.(live := s.live[slot := false], free := s.free + [slot])
  }

  // ----- one operation -----

  lemma InsertKeeps<T>(s: Table<T>, v: T)
    requires Consistent(s)
    ensures NextSlot(s) <= |s.live| && !IsLiveSlot(s, NextSlot(s))
    ensures Consistent(Inserted(s, v))
    ensures LiveSlots(Inserted(s, v)) == LiveSlots(s) + {NextSlot(s)}
    ensures Inserted(s, v).vecs[NextSlot(s)] == v
    ensures forall i :: 0 <= i < |s.vecs| && i != NextSlot(s) ==> Inserted(s, v).vecs[i] == s.vecs[i]
  {
    var slot := NextSlot(s);
    if s.free != [] {
      assert slot in s.free;
      var rest := s.free[..|s.free| - 1];
      assert s.free == rest + [slot];
      assert forall i: nat :: i in s.free <==> i in rest || i == slot;
    }
  }

  lemma ReleaseKeeps<T>(s: Table<T>, slot: nat)
    requires Consistent(s)
    ensures Consistent(Released(s, slot))
    ensures LiveSlots(Released(s, slot)) == LiveSlots(s) - {slot}
    ensures Released(s, slot).vecs == s.vecs
  {
  }

  /** An update keeps the free list right exactly when its slot is live or is the next new one:
      a freed slot would be in use and still on the list, a slot further out would leave dead
      slots off it. */
  lemma UpdateKeepsIff<T>(s: Table<T>, zero: T, slot: nat, v: T)
    requires Consistent(s)
    ensures Consistent(Updated(s, zero, slot, v)) <==> IsLiveSlot(s, slot) || slot == |s.live|
  {
    var r := Updated(s, zero, slot, v);
    if slot < |s.live| {
      assert r.live[slot];
    } else if slot > |s.live| {
      assert !r.live[|s.live|] && |s.live| !in s.free;
    }
  }

  lemma UpdateKeeps<T>(s: Table<T>, zero: T, slot: nat, v: T)
    requires Consistent(s) && IsLiveSlot(s, slot)
    ensures Consistent(Updated(s, zero, slot, v))
    ensures LiveSlots(Updated(s, zero, slot, v)) == LiveSlots(s)
    ensures Updated(s, zero, slot, v).vecs == s.vecs[slot := v]
  {
  }

  /** Live slots and free slots add up to all slots. */
  lemma Conserved<T>(s: Table<T>)
    requires Consistent(s)
    ensures |LiveSlots(s)| + |s.free| == |s.live|
  {
    DistinctCount(s.free);
    assert LiveSlots(s) + SetOf(s.free) == Below(|s.live|) && LiveSlots(s) !! SetOf(s.free);
  }

  /** The slot freed last, or a new one if none is free, is in use with its vector; and no other slot's
      vector, nor whether it is in use, changes. */
  ghost predicate TookSlot<T>(s: Table<T>, t: Table<T>, slot: nat, v: T) {
    && (if s.free != [] then slot == s.free[|s.free| - 1] && t.free == s.free[..|s.free| - 1]
        else slot == |s.live| && t.free == [])
    && Filled(s, t, slot, v)
  }

  ghost predicate Filled<T>(s: Table<T>, t: Table<T>, slot: nat, v: T) {
    && slot < |t.vecs| == |t.live| && t.vecs[slot] == v && t.live[slot]
    && forall i :: 0 <= i < |s.vecs| && i < |s.live| && i != slot ==>
         i < |t.vecs| && t.vecs[i] == s.vecs[i] && t.live[i] == s.live[i]
  }

  lemma InsertFills<T>(s: Table<T>, v: T)
    requires |s.vecs| == |s.live| && NextSlot(s) <= |s.live|
    ensures TookSlot(s, Inserted(s, v), NextSlot(s), v)
    ensures Released(Inserted(s, v), NextSlot(s)).vecs == Inserted(s, v).vecs
  {
  }

  lemma UpdateFills<T>(s: Table<T>, zero: T, slot: nat, v: T)
    requires |s.vecs| == |s.live|
    ensures Filled(s, Updated(s, zero, slot, v), slot, v) && Updated(s, zero, slot, v).free == s.free
  {
  }

  // ----- whole runs -----

  datatype Op<T> = InsertOp(v: T) | UpdateOp(slot: nat, v: T) | ReleaseOp(slot: nat)

  /** A run that updates only slots that are live at that point. */
  ghost predicate Legal<T>(zero: T, ops: seq<Op<T>>)
    decreases |ops|, 0
  {
    ops == [] ||
    var front, op := ops[..|ops| - 1], ops[|ops| - 1];
    Legal(zero, front) && (op.UpdateOp? ==> IsLiveSlot(After(zero, front), op.slot))
  }

  ghost function After<T>(zero: T, ops: seq<Op<T>>): (s: Table<T>)
    requires Legal(zero, ops)
    ensures Consistent(s)
    decreases |ops|, 1
  {
    if ops == [] then Table([], [], [])
    else
      var s := After(zero, ops[..|ops| - 1]);
      match ops[|ops| - 1]
      case InsertOp(v) => (InsertKeeps(s, v); Inserted(s, v))
      case UpdateOp(slot, v) => (UpdateKeeps(s, zero, slot, v); Updated(s, zero, slot, v))
      case ReleaseOp(slot) => (ReleaseKeeps(s, slot); Released(s, slot))
  }

  /** The largest number of slots live at once, over the whole run. */
  ghost function Peak<T>(zero: T, ops: seq<Op<T>>): nat
    requires Legal(zero, ops)
  {
    if ops == [] then 0
    else
      var before, now := Peak(zero, ops[..|ops| - 1]), |LiveSlots(After(zero, ops))|;
      if now > before then now else before
  }

  /** The table never grows past what was needed at once: slots are reused before any is added. */
  lemma {:induction false} TotalIsPeak<T>(zero: T, ops: seq<Op<T>>)
    requires Legal(zero, ops)
    ensures |After(zero, ops).live| == Peak(zero, ops)
  {
    if ops == [] {
    } else {
      var front, op := ops[..|ops| - 1], ops[|ops| - 1];
      TotalIsPeak(zero, front);
      var s, t := After(zero, front), After(zero, ops);
      Conserved(s);
      Conserved(t);
      match op
      case InsertOp(v) => InsertKeeps(s, v);
      case UpdateOp(at, v) => UpdateKeeps(s, zero, at, v);
      case ReleaseOp(at) => ReleaseKeeps(s, at);
    }
  }

  /** The vector last written to a slot in a run, if any was. */
  ghost function LastWritten<T>(zero: T, ops: seq<Op<T>>, slot: nat): (w: seq<T>)
    requires Legal(zero, ops)
  {
    if ops == [] then []
    else
      var front := ops[..|ops| - 1];
      match ops[|ops| - 1]
      case InsertOp(v) => if NextSlot(After(zero, front)) == slot then [v] else LastWritten(zero, front, slot)
      case UpdateOp(at, v) => if at == slot then [v] else LastWritten(zero, front, slot)
      case ReleaseOp(_) => LastWritten(zero, front, slot)
  }

  /** A slot always reads back the vector last written to it; other writes do not disturb it. */
  lemma {:induction false} ReadsLastWritten<T>(zero: T, ops: seq<Op<T>>, slot: nat)
    requires Legal(zero, ops) && slot < |After(zero, ops).live|
    ensures LastWritten(zero, ops, slot) == [After(zero, ops).vecs[slot]]
  {
    var front, op := ops[..|ops| - 1], ops[|ops| - 1];
    var s := After(zero, front);
    if slot < |s.live| {
      ReadsLastWritten(zero, front, slot);
    }
    match op
    case InsertOp(v) => InsertKeeps(s, v);
    case UpdateOp(at, v) => UpdateKeeps(s, zero, at, v);
    case ReleaseOp(at) => ReleaseKeeps(s, at);
  }
}
