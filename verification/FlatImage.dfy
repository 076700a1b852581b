/** The flat index on a stream; the id table is rebuilt from the ids. */
module FlatImage {
  import opened Codec
  import opened Sequences
  import opened Streams
  import opened FlatIndex
  import opened Status

  /** A norm as it is stored: the pattern of the float, and the float of the pattern. */
  datatype FloatCode = FloatCode(bits: real -> nat, value: nat -> real)

  ghost predicate Stores(code: FloatCode, x: real) {
    code.bits(x) < Pow256(4) && code.value(code.bits(x)) == x
  }

  datatype Image = Image(maxPoints: nat, ids: seq<nat>, items: seq<Item>)

  function PutId(id: nat): Bytes { PutNat(4, id) }

  function TakeId(b: Bytes): Read<nat> { TakeNat(4, b) }

  function PutItem(code: FloatCode, it: Item): Bytes {
    PutNat(8, it.offset) + PutNat(4, code.bits(it.norm)) + PutFlag(it.deleted)
  }

  function TakeItem(code: FloatCode, b: Bytes): Read<Item> {
    match TakeNat(8, b) case Short => Short case Got(offset, r1) =>
    match TakeNat(4, r1) case Short => Short case Got(pattern, r2) =>
    match TakeFlag(r2) case Short => Short case Got(deleted, r3) => Got(Item(offset, code.value(pattern), deleted), r3)
  }

  function ItemPutter(code: FloatCode): Item -> Bytes { it => PutItem(code, it) }

  function ItemTaker(code: FloatCode): Reader<Item> { b => TakeItem(code, b) }

  function PutFlat(code: FloatCode, i: Image): Bytes {
    PutNat(8, i.maxPoints) + PutList(PutId, i.ids) + PutList(ItemPutter(code), i.items)
  }

  function TakeFlat(code: FloatCode, b: Bytes): Read<Image> {
    match TakeNat(8, b) case Short => Short case Got(maxPoints, r1) =>
    match TakeList(TakeId, r1) case Short => Short case Got(ids, r2) =>
    match TakeList(ItemTaker(code), r2) case Short => Short case Got(items, r3) => Got(Image(maxPoints, ids, items), r3)
  }

  ghost predicate Fits(code: FloatCode, i: Image) {
    && i.maxPoints < Pow256(8) && |i.ids| < Pow256(8) && |i.items| < Pow256(8)
    && (forall id :: id in i.ids ==> id < Pow256(4))
    && (forall it :: it in i.items ==> it.offset < Pow256(8) && Stores(code, it.norm))
  }

  lemma ItemReadable(code: FloatCode, it: Item)
    requires it.offset < Pow256(8) && Stores(code, it.norm)
    ensures Readable(ItemPutter(code), ItemTaker(code), it)
  {
    forall rest: Bytes ensures ItemTaker(code)(ItemPutter(code)(it) + rest) == Got(it, rest) {
      ItemBack(code, it, rest);
    }
  }

  lemma ItemBack(code: FloatCode, it: Item, rest: Bytes)
    requires it.offset < Pow256(8) && Stores(code, it.norm)
    ensures TakeItem(code, PutItem(code, it) + rest) == Got(it, rest)
  {
    hide PutNat, TakeNat, PutFlag, TakeFlag, Pow256;
    var a, b, c := PutNat(8, it.offset), PutNat(4, code.bits(it.norm)), PutFlag(it.deleted);
    assert PutItem(code, it) + rest == a + (b + (c + rest));
    TakePut(8, it.offset, b + (c + rest));
    TakePut(4, code.bits(it.norm), c + rest);
    TakePutFlag(it.deleted, rest);
  }

  lemma IdReadable(id: nat)
    requires id < Pow256(4)
    ensures Readable(PutId, TakeId, id)
  {
    forall rest: Bytes ensures TakeId(PutId(id) + rest) == Got(id, rest) {
      TakePut(4, id, rest);
    }
  }

  lemma FlatRoundTrip(code: FloatCode, i: Image, rest: Bytes)
    requires Fits(code, i)
    ensures TakeFlat(code, PutFlat(code, i) + rest) == Got(i, rest)
  {
    forall id | id in i.ids ensures Readable(PutId, TakeId, id) { IdReadable(id); }
    forall it | it in i.items ensures Readable(ItemPutter(code), ItemTaker(code), it) { ItemReadable(code, it); }
    hide PutNat, TakeNat, PutList, TakeList, Readable, Pow256;
    var a, b, c := PutNat(8, i.maxPoints), PutList(PutId, i.ids), PutList(ItemPutter(code), i.items);
    assert PutFlat(code, i) + rest == a + (b + (c + rest));
    TakePut(8, i.maxPoints, b + (c + rest));
    TakePutList(PutId, TakeId, i.ids, c + rest);
    TakePutList(ItemPutter(code), ItemTaker(code), i.items, rest);
  }

  // ----- the methods -----

  method Save(code: FloatCode, f: FlatIndex, out: Bytes) returns (r: Bytes)
    ensures r == out + PutFlat(code, Image(f.maxPoints, f.ids, f.items))
  {
    hide PutNat, PutList;
    r := out + PutNat(8, f.maxPoints);
    r := WriteList(r, PutId, f.ids);
    r := WriteList(r, ItemPutter(code), f.items);
    Appended(out, PutNat(8, f.maxPoints), PutList(PutId, f.ids), PutList(ItemPutter(code), f.items), []);
  }

  method Load(code: FloatCode, f: FlatIndex, b: Bytes) returns (status: Status, rest: Bytes)
    modifies f
    ensures status == if TakeFlat(code, b) == Short then Internal else Ok
    ensures status == Ok ==>
              var got := TakeFlat(code, b);
              && rest == got.rest && Image(f.maxPoints, f.ids, f.items) == got.value
              && (|got.value.ids| == |got.value.items| && Distinct(got.value.ids) ==> f.Valid())
  {
    hide TakeNat, TakeList;
    rest := b;
    match TakeNat(8, b)
    case Short => return Internal, rest;
    case Got(maxPoints, r1) =>
      f.maxPoints := maxPoints;
      var ids := ReadList(TakeId, r1);
      if ids.Short? {
        return Internal, rest;
      }
      f.ids := ids.value;
      var items := ReadList(ItemTaker(code), ids.rest);
      if items.Short? {
        return Internal, rest;
      }
      f.items := items.value;
      Reindex(f);
      return Ok, items.rest;
  }

  method Reindex(f: FlatIndex)
    modifies f`idToIndex
    ensures |f.ids| == |f.items| && Distinct(f.ids) ==> f.Valid()
  {
    f.idToIndex := map[];
    for i := 0 to |f.ids|
      invariant forall id :: id in f.idToIndex ==> f.idToIndex[id] < i && f.ids[f.idToIndex[id]] == id
      invariant forall k :: 0 <= k < i ==> f.ids[k] in f.idToIndex && k <= f.idToIndex[f.ids[k]]
    {
      f.idToIndex := f.idToIndex[f.ids[i] := i];
    }
  }

  /** Two valid indexes with the same ids and items know the same entries: the id table is
      determined by them. */
  lemma SameEntries(f: FlatIndex, g: FlatIndex)
    requires f.Valid() && g.Valid() && g.ids == f.ids && g.items == f.items
    ensures g.Entries() == f.Entries()
  {
    forall id ensures id in f.idToIndex <==> id in g.idToIndex {
      if id in f.idToIndex { assert g.ids[f.idToIndex[id]] == id; }
      if id in g.idToIndex { assert f.ids[g.idToIndex[id]] == id; }
    }
    forall id | id in f.idToIndex ensures g.idToIndex[id] == f.idToIndex[id] {
      assert g.ids[f.idToIndex[id]] == id;
    }
  }
}
