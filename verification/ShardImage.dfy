/** A whole shard on a stream: docs, keys, store, index and keywords, one behind the other. */
module ShardImage {
  import opened Codec
  import opened Sequences
  import opened Streams
  import opened Options
  import opened Status
  import opened Slots
  import opened VectorStore
  import opened FlatIndex
  import opened KeywordIndex
  import opened ShardState
  import Shard
  import StoreImage
  import FlatImage
  import KeywordImage

  /** A doc as written: its metadata in some order, no generation. */
  datatype SavedDoc = SavedDoc(key: string, meta: seq<(string, string)>, offset: nat, deleted: bool,
                               expiry: Option<int>, text: Option<string>)

  datatype Saved = Saved(docs: seq<SavedDoc>, ids: seq<(string, nat)>, store: StoreImage.Image, flat: FlatImage.Image,
                         words: KeywordImage.Listing)

  // ----- the pieces of a doc -----

  const TIME_RANGE: nat := 0x1_0000_0000_0000_0000
  const TIME_MAX: int := 0x8000_0000_0000_0000

  /** A time as a 64-bit two's complement integer. */
  function PutTime(t: int): Bytes { PutNat(8, t % TIME_RANGE) }

  function TakeTime(b: Bytes): Read<int> {
    match TakeNat(8, b)
    case Short => Short
    case Got(v, rest) => Got(if v >= TIME_MAX then v - TIME_RANGE else v, rest)
  }

  lemma EightBytes()
    ensures Pow256(8) == TIME_RANGE
  {
    assert Pow256(1) == 256 && Pow256(2) == 65536 && Pow256(3) == 0x100_0000 && Pow256(4) == 0x1_0000_0000;
    assert Pow256(5) == 0x100_0000_0000 && Pow256(6) == 0x1_0000_0000_0000 && Pow256(7) == 0x100_0000_0000_0000;
  }

  lemma TimeBack(t: int, rest: Bytes)
    requires -TIME_MAX <= t < TIME_MAX
    ensures TakeTime(PutTime(t) + rest) == Got(t, rest)
  {
    EightBytes();
    TakePut(8, t % TIME_RANGE, rest);
    hide PutNat, TakeNat, Pow256;
    assert t % TIME_RANGE == if t >= 0 then t else t + TIME_RANGE;
  }

  function PutExpiry(e: Option<int>): Bytes {
    PutFlag(e.Some?) + if e.Some? then PutTime(e.value) else []
  }

  function TakeExpiry(b: Bytes): Read<Option<int>> {
    match TakeFlag(b) case Short => Short case Got(present, r1) =>
    if !present then Got(None, r1)
    else match TakeTime(r1) case Short => Short case Got(t, r2) => Got(Some(t), r2)
  }

  function PutText(t: Option<string>): Bytes {
    PutFlag(t.Some?) + if t.Some? then PutString(t.value) else []
  }

  function TakeText(b: Bytes): Read<Option<string>> {
    match TakeFlag(b) case Short => Short case Got(present, r1) =>
    if !present then Got(None, r1)
    else match TakeString(r1) case Short => Short case Got(s, r2) => Got(Some(s), r2)
  }

  lemma ExpiryBack(e: Option<int>, rest: Bytes)
    requires e.Some? ==> -TIME_MAX <= e.value < TIME_MAX
    ensures TakeExpiry(PutExpiry(e) + rest) == Got(e, rest)
  {
    hide PutFlag, TakeFlag, PutTime, TakeTime;
    var tail := if e.Some? then PutTime(e.value) else [];
    assert PutExpiry(e) + rest == PutFlag(e.Some?) + (tail + rest);
    TakePutFlag(e.Some?, tail + rest);
    if e.Some? { TimeBack(e.value, rest); } else { assert tail + rest == rest; }
  }

  lemma TextBack(t: Option<string>, rest: Bytes)
    requires t.Some? ==> ByteString(t.value)
    ensures TakeText(PutText(t) + rest) == Got(t, rest)
  {
    hide PutFlag, TakeFlag, PutString, TakeString, ByteString;
    var tail := if t.Some? then PutString(t.value) else [];
    assert PutText(t) + rest == PutFlag(t.Some?) + (tail + rest);
    TakePutFlag(t.Some?, tail + rest);
    if t.Some? { TakePutString(t.value, rest); } else { assert tail + rest == rest; }
  }

  function PutPair(p: (string, string)): Bytes { PutString(p.0) + PutString(p.1) }

  function TakePair(b: Bytes): Read<(string, string)> {
    match TakeString(b) case Short => Short case Got(k, r1) =>
    match TakeString(r1) case Short => Short case Got(v, r2) => Got((k, v), r2)
  }

  lemma PairReadable(p: (string, string))
    requires ByteString(p.0) && ByteString(p.1)
    ensures Readable(PutPair, TakePair, p)
  {
    hide PutString, TakeString, ByteString;
    forall rest: Bytes ensures TakePair(PutPair(p) + rest) == Got(p, rest) {
      assert PutPair(p) + rest == PutString(p.0) + (PutString(p.1) + rest);
      TakePutString(p.0, PutString(p.1) + rest);
      TakePutString(p.1, rest);
    }
  }

  function PutKeyId(p: (string, nat)): Bytes { PutString(p.0) + PutNat(4, p.1) }

  function TakeKeyId(b: Bytes): Read<(string, nat)> {
    match TakeString(b) case Short => Short case Got(k, r1) =>
    match TakeNat(4, r1) case Short => Short case Got(id, r2) => Got((k, id), r2)
  }

  lemma KeyIdReadable(p: (string, nat))
    requires ByteString(p.0) && p.1 < Pow256(4)
    ensures Readable(PutKeyId, TakeKeyId, p)
  {
    hide PutString, TakeString, ByteString, PutNat, TakeNat;
    forall rest: Bytes ensures TakeKeyId(PutKeyId(p) + rest) == Got(p, rest) {
      assert PutKeyId(p) + rest == PutString(p.0) + (PutNat(4, p.1) + rest);
      TakePutString(p.0, PutNat(4, p.1) + rest);
      TakePut(4, p.1, rest);
    }
  }

  // ----- a doc -----

  function PutDoc(d: SavedDoc): Bytes {
    PutString(d.key) + PutList(PutPair, d.meta) + PutNat(8, d.offset) + PutFlag(d.deleted) + PutExpiry(d.expiry)
      + PutText(d.text)
  }

  function TakeDoc(b: Bytes): Read<SavedDoc> {
    match TakeString(b) case Short => Short case Got(key, r1) =>
    match TakeList(TakePair, r1) case Short => Short case Got(meta, r2) =>
    match TakeNat(8, r2) case Short => Short case Got(offset, r3) =>
    match TakeFlag(r3) case Short => Short case Got(deleted, r4) =>
    match TakeExpiry(r4) case Short => Short case Got(expiry, r5) =>
    match TakeText(r5) case Short => Short
    case Got(text, r6) => Got(SavedDoc(key, meta, offset, deleted, expiry, text), r6)
  }

  ghost predicate DocFits(d: SavedDoc) {
    && ByteString(d.key) && |d.meta| < Pow256(8) && (forall p :: p in d.meta ==> ByteString(p.0) && ByteString(p.1))
    && d.offset < Pow256(8) && (d.expiry.Some? ==> -TIME_MAX <= d.expiry.value < TIME_MAX)
    && (d.text.Some? ==> ByteString(d.text.value))
  }

  lemma MetaBack(meta: seq<(string, string)>, rest: Bytes)
    requires |meta| < Pow256(8) && forall p :: p in meta ==> ByteString(p.0) && ByteString(p.1)
    ensures TakeList(TakePair, PutList(PutPair, meta) + rest) == Got(meta, rest)
  {
    forall p | p in meta ensures Readable(PutPair, TakePair, p) { PairReadable(p); }
    TakePutList(PutPair, TakePair, meta, rest);
  }

  lemma SixPieces<T>(a: seq<T>, b: seq<T>, c: seq<T>, d: seq<T>, e: seq<T>, f: seq<T>, rest: seq<T>)
    ensures a + b + c + d + e + f + rest == a + (b + (c + (d + (e + (f + rest)))))
  {
  }

  lemma DocBack(d: SavedDoc, rest: Bytes)
    requires DocFits(d)
    ensures TakeDoc(PutDoc(d) + rest) == Got(d, rest)
  {
    hide PutString, TakeString, PutNat, TakeNat, PutList, TakeList, PutFlag, TakeFlag, PutExpiry, TakeExpiry, PutText,
      TakeText, Pow256, ByteString;
    var b, c, e := PutList(PutPair, d.meta), PutNat(8, d.offset), PutFlag(d.deleted);
    var f, g := PutExpiry(d.expiry), PutText(d.text);
    SixPieces(PutString(d.key), b, c, e, f, g, rest);
    TakePutString(d.key, b + (c + (e + (f + (g + rest)))));
    MetaBack(d.meta, c + (e + (f + (g + rest))));
    TakePut(8, d.offset, e + (f + (g + rest)));
    TakePutFlag(d.deleted, f + (g + rest));
    ExpiryBack(d.expiry, g + rest);
    TextBack(d.text, rest);
  }

  // ----- the shard -----

  function PutShard(dim: nat, code: FlatImage.FloatCode, x: Saved): Bytes {
    PutList(PutDoc, x.docs) + PutList(PutKeyId, x.ids) + StoreImage.PutStore(dim, x.store)
    + FlatImage.PutFlat(code, x.flat) + KeywordImage.PutListing(x.words)
  }

  function TakeShard(dim: nat, code: FlatImage.FloatCode, b: Bytes): Read<Saved> {
    match TakeList(TakeDoc, b) case Short => Short case Got(docs, r1) =>
    match TakeList(TakeKeyId, r1) case Short => Short case Got(ids, r2) =>
    match StoreImage.TakeStore(dim, r2) case Failed => Short case Loaded(store, r3) =>
    match FlatImage.TakeFlat(code, r3) case Short => Short case Got(flat, r4) =>
    match KeywordImage.TakeListing(r4) case Short => Short
    case Got(words, r5) => Got(Saved(docs, ids, store, flat, words), r5)
  }

  ghost predicate Fits(dim: nat, code: FlatImage.FloatCode, x: Saved) {
    && |x.docs| < Pow256(8) && (forall d :: d in x.docs ==> DocFits(d))
    && |x.ids| < Pow256(8) && (forall p :: p in x.ids ==> ByteString(p.0) && p.1 < Pow256(4))
    && StoreImage.Fits(dim, x.store) && FlatImage.Fits(code, x.flat) && KeywordImage.ListingFits(x.words)
  }

  lemma FivePieces<T>(a: seq<T>, b: seq<T>, c: seq<T>, d: seq<T>, e: seq<T>, rest: seq<T>)
    ensures a + b + c + d + e + rest == a + (b + (c + (d + (e + rest))))
  {
  }

  lemma DocsBack(docs: seq<SavedDoc>, rest: Bytes)
    requires |docs| < Pow256(8) && forall d :: d in docs ==> DocFits(d)
    ensures TakeList(TakeDoc, PutList(PutDoc, docs) + rest) == Got(docs, rest)
  {
    forall d | d in docs ensures Readable(PutDoc, TakeDoc, d) {
      hide PutDoc, TakeDoc, DocFits;
      forall r: Bytes ensures TakeDoc(PutDoc(d) + r) == Got(d, r) { DocBack(d, r); }
    }
    TakePutList(PutDoc, TakeDoc, docs, rest);
  }

  lemma KeyIdsBack(ids: seq<(string, nat)>, rest: Bytes)
    requires |ids| < Pow256(8) && forall p :: p in ids ==> ByteString(p.0) && p.1 < Pow256(4)
    ensures TakeList(TakeKeyId, PutList(PutKeyId, ids) + rest) == Got(ids, rest)
  {
    forall p | p in ids ensures Readable(PutKeyId, TakeKeyId, p) { KeyIdReadable(p); }
    TakePutList(PutKeyId, TakeKeyId, ids, rest);
  }

  /** The nested stream comes apart where it was put together, and nothing behind it is read. */
  lemma ShardRoundTrip(dim: nat, code: FlatImage.FloatCode, x: Saved, rest: Bytes)
    requires Fits(dim, code, x)
    ensures TakeShard(dim, code, PutShard(dim, code, x) + rest) == Got(x, rest)
  {
    hide PutList, TakeList, StoreImage.PutStore, StoreImage.TakeStore, StoreImage.Fits, FlatImage.PutFlat,
      FlatImage.TakeFlat, FlatImage.Fits, KeywordImage.PutListing, KeywordImage.TakeListing,
      KeywordImage.ListingFits, Pow256, ByteString, DocFits;
    var b, c := PutList(PutKeyId, x.ids), StoreImage.PutStore(dim, x.store);
    var d, e := FlatImage.PutFlat(code, x.flat), KeywordImage.PutListing(x.words);
    FivePieces(PutList(PutDoc, x.docs), b, c, d, e, rest);
    DocsBack(x.docs, b + (c + (d + (e + rest))));
    KeyIdsBack(x.ids, c + (d + (e + rest)));
    StoreImage.StoreRoundTrip(dim, x.store, d + (e + rest));
    FlatImage.FlatRoundTrip(code, x.flat, e + rest);
    KeywordImage.ListingBack(x.words, rest);
  }

  // ----- the methods -----

  /** The written form of a doc: everything but its generation. */
  ghost predicate SavedFrom(d: SavedDoc, doc: ShardDoc) {
    && d.key == doc.key && Iterates(d.meta, doc.meta) && d.offset == doc.offset && d.deleted == doc.deleted
    && d.expiry == doc.expiry && d.text == doc.text
  }

  function DocOf(d: SavedDoc): ShardDoc {
    ShardDoc(d.key, MapOf(d.meta), d.offset, d.deleted, 0, d.expiry, d.text)
  }

  function DocsOf(docs: seq<SavedDoc>): (r: seq<ShardDoc>)
    ensures |r| == |docs| && forall i :: 0 <= i < |docs| ==> r[i] == DocOf(docs[i])
  {
    seq(|docs|, i requires 0 <= i < |docs| => DocOf(docs[i]))
  }

  lemma DocRestored(d: SavedDoc, doc: ShardDoc)
    requires SavedFrom(d, doc)
    ensures DocOf(d) == doc.(gen := 0)
  {
    IterationRebuilds(d.meta, doc.meta);
  }

  /** Docs neither deleted nor expired when they are loaded, doc i at clock(i). */
  function LiveAt(docs: seq<ShardDoc>, clock: Clock): nat {
    if docs == [] then 0
    else
      var last := docs[|docs| - 1];
      LiveAt(docs[..|docs| - 1], clock) + if !last.deleted && !IsExpired(last, clock(|docs| - 1)) then 1 else 0
  }

  /** What was written is this shard, its maps in some order. */
  ghost predicate SavedShard(x: Saved, docs: seq<ShardDoc>, ids: map<string, nat>, store: StoreImage.Image,
                             flat: FlatImage.Image, words: KeywordImage.Image) {
    && |x.docs| == |docs| && (forall i :: 0 <= i < |docs| ==> SavedFrom(x.docs[i], docs[i]))
    && Iterates(x.ids, ids) && x.store == store && x.flat == flat && KeywordImage.Lists(x.words, words)
  }

  method SaveDocs(docs: seq<ShardDoc>) returns (r: seq<SavedDoc>)
    ensures |r| == |docs| && forall i :: 0 <= i < |docs| ==> SavedFrom(r[i], docs[i])
  {
    r := [];
    for i := 0 to |docs|
      invariant |r| == i && forall k :: 0 <= k < i ==> SavedFrom(r[k], docs[k])
    {
      var meta := Iterate(docs[i].meta);
      r := r + [SavedDoc(docs[i].key, meta, docs[i].offset, docs[i].deleted, docs[i].expiry, docs[i].text)];
    }
  }

  function FlatOf(f: FlatIndex): FlatImage.Image
    reads f
  {
    FlatImage.Image(f.maxPoints, f.ids, f.items)
  }

  function WordsOf(k: KeywordIndex): KeywordImage.Image
    reads k
  {
    KeywordImage.Image(k.docCount, k.docTokens, k.postings, k.docFreq)
  }

  method SaveTables(s: Shard.Shard, out: Bytes) returns (r: Bytes, docs: seq<SavedDoc>, ids: seq<(string, nat)>)
    ensures |docs| == |s.docs| && forall i :: 0 <= i < |docs| ==> SavedFrom(docs[i], s.docs[i])
    ensures Iterates(ids, s.ids)
    ensures r == out + PutList(PutDoc, docs) + PutList(PutKeyId, ids)
  {
    hide PutList, SavedFrom, Iterates;
    docs := SaveDocs(s.docs);
    ids := Iterate(s.ids);
    r := WriteList(out, PutDoc, docs);
    r := WriteList(r, PutKeyId, ids);
  }

  method SaveParts(code: FlatImage.FloatCode, s: Shard.Shard, out: Bytes)
    returns (r: Bytes, ghost words: KeywordImage.Listing)
    requires s.store.Valid()
    ensures KeywordImage.Lists(words, WordsOf(s.keywords))
    ensures r == out + StoreImage.PutStore(s.store.dim, StoreImage.ImageOf(s.store))
                 + FlatImage.PutFlat(code, FlatOf(s.index)) + KeywordImage.PutListing(words)
  {
    hide StoreImage.PutStore, FlatImage.PutFlat, KeywordImage.PutListing, KeywordImage.Lists, VectorStore.Valid,
      VectorStore.Contents, StoreImage.ImageOf;
    r := StoreImage.Save(s.store, out);
    r := FlatImage.Save(code, s.index, r);
    r, words := KeywordImage.Save(s.keywords, r);
  }

  method Save(code: FlatImage.FloatCode, s: Shard.Shard, out: Bytes) returns (r: Bytes, ghost x: Saved)
    requires s.store.Valid()
    ensures SavedShard(x, s.docs, s.ids, StoreImage.ImageOf(s.store), FlatOf(s.index), WordsOf(s.keywords))
    ensures r == out + PutShard(s.store.dim, code, x)
  {
    hide PutList, SavedFrom, Iterates, StoreImage.PutStore, FlatImage.PutFlat, KeywordImage.PutListing,
      KeywordImage.Lists, VectorStore.Valid, StoreImage.ImageOf, FlatOf, WordsOf;
    var docs, ids;
    r, docs, ids := SaveTables(s, out);
    ghost var words;
    r, words := SaveParts(code, s, r);
    x := Saved(docs, ids, StoreImage.ImageOf(s.store), FlatOf(s.index), words);
    FiveAppended(out, PutList(PutDoc, docs), PutList(PutKeyId, ids), StoreImage.PutStore(s.store.dim, x.store),
                 FlatImage.PutFlat(code, x.flat), KeywordImage.PutListing(words));
  }

  lemma FiveAppended<T>(out: seq<T>, a: seq<T>, b: seq<T>, c: seq<T>, d: seq<T>, e: seq<T>)
    ensures out + a + b + c + d + e == out + (a + b + c + d + e)
  {
  }

  method CountLive(docs: seq<ShardDoc>, clock: Clock) returns (n: nat)
    ensures n == LiveAt(docs, clock)
  {
    n := 0;
    for i := 0 to |docs|
      invariant n == LiveAt(docs[..i], clock)
    {
      assert docs[..i + 1][..i] == docs[..i];
      if !docs[i].deleted && !IsExpired(docs[i], clock(i)) {
        n := n + 1;
      }
    }
    assert docs[..|docs|] == docs;
  }

  /** Every part of the shard is what the stream says. */
  ghost predicate Loaded(s: Shard.Shard, x: Saved, clock: Clock)
    reads s, s.store, s.index, s.keywords
  {
    && s.docs == DocsOf(x.docs) && s.live == LiveAt(s.docs, clock) && s.ids == MapOf(x.ids) && s.cursor == 0
    && s.store.Valid()
    && s.store.Contents() == Table(x.store.vecs, x.store.live, StoreImage.DeadSlots(x.store.live))
    && FlatOf(s.index) == x.flat
    && (|x.flat.ids| == |x.flat.items| && Distinct(x.flat.ids) ==> s.index.Valid())
    && WordsOf(s.keywords) == KeywordImage.ImageOf(x.words)
  }

  /** Loads each part in turn; success leaves exactly what the stream says in every part. */
  method Load(code: FlatImage.FloatCode, s: Shard.Shard, clock: Clock, b: Bytes) returns (status: Status, rest: Bytes)
    modifies s, s.store, s.index, s.keywords
    ensures status == if TakeShard(s.store.dim, code, b) == Short then Internal else Ok
    ensures status == Ok ==>
              var got := TakeShard(s.store.dim, code, b);
              rest == got.rest && s.store.blockVectors == got.value.store.per && Loaded(s, got.value, clock)
  {
    hide TakeList, StoreImage.TakeStore, FlatImage.TakeFlat, KeywordImage.TakeListing, VectorStore.Valid,
      FlatIndex.Valid, VectorStore.Contents, KeywordImage.ImageOf, DocsOf, LiveAt;
    rest := b;
    var docs := ReadList(TakeDoc, rest);
    if docs.Short? { return Internal, rest; }
    s.docs := DocsOf(docs.value);
    s.live := CountLive(s.docs, clock);
    var ids := ReadList(TakeKeyId, docs.rest);
    if ids.Short? { return Internal, rest; }
    s.ids := MapOf(ids.value);
    var r3, r4, r5;
    status, r3 := StoreImage.Load(s.store, ids.rest);
    if status != Ok { return Internal, rest; }
    status, r4 := FlatImage.Load(code, s.index, r3);
    if status != Ok { return Internal, rest; }
    status, r5 := KeywordImage.Load(s.keywords, r4);
    if status != Ok { return Internal, rest; }
    s.cursor := 0;
    return Ok, r5;
  }

  /** Whatever was saved of a shard is what loading it gives back, for any iteration of its maps:
      the same keys, slots, flags, index and keywords, and the same docs except that generations
      start again; the free list is rebuilt from the same slots. */
  lemma SavedShardRestored(dim: nat, code: FlatImage.FloatCode, x: Saved, docs: seq<ShardDoc>, ids: map<string, nat>,
                           slots: Table<Vector>, store: StoreImage.Image, flat: FlatImage.Image,
                           words: KeywordImage.Image,
                           rest: Bytes)
    requires Fits(dim, code, x) && SavedShard(x, docs, ids, store, flat, words)
    requires Consistent(slots) && store.live == slots.live && store.vecs == slots.vecs
    ensures TakeShard(dim, code, PutShard(dim, code, x) + rest) == Got(x, rest)
    ensures |x.docs| == |docs| && forall i :: 0 <= i < |docs| ==> DocsOf(x.docs)[i] == docs[i].(gen := 0)
    ensures MapOf(x.ids) == ids && x.flat == flat && KeywordImage.ImageOf(x.words) == words
    ensures x.store.vecs == slots.vecs && x.store.live == slots.live
    ensures forall i: nat :: i in StoreImage.DeadSlots(x.store.live) <==> i in slots.free
  {
    ShardRoundTrip(dim, code, x, rest);
    forall i | 0 <= i < |docs| ensures DocsOf(x.docs)[i] == docs[i].(gen := 0) {
      DocRestored(x.docs[i], docs[i]);
    }
    IterationRebuilds(x.ids, ids);
    KeywordImage.ImageRebuilt(x.words, words);
    StoreImage.DeadSlotsAre(slots.live);
    hide Fits, TakeShard, PutShard, Iterates, KeywordImage.ImageOf, KeywordImage.Lists, StoreImage.DeadSlots;
  }

  // ----- what a loaded shard is worth -----

  /** A shard after saving and loading: generations and cursor start again, the free list is rebuilt,
      and the live docs are recounted, leaving out the expired ones. */
  function Reloaded(s: View, clock: Clock): View {
    var docs := Restarted(s.docs);
    View(docs, s.ids, 0, LiveAt(docs, clock), s.slots.(free := StoreImage.DeadSlots(s.slots.live)), s.entries, s.words)
  }

  function Restarted(docs: seq<ShardDoc>): (r: seq<ShardDoc>)
    ensures |r| == |docs| && forall i :: 0 <= i < |docs| ==> r[i] == docs[i].(gen := 0)
  {
    seq(|docs|, i requires 0 <= i < |docs| => docs[i].(gen := 0))
  }

  lemma DocsRestarted(x: seq<SavedDoc>, docs: seq<ShardDoc>)
    requires |x| == |docs| && forall i :: 0 <= i < |docs| ==> SavedFrom(x[i], docs[i])
    ensures DocsOf(x) == Restarted(docs)
  {
    forall i | 0 <= i < |docs| ensures DocsOf(x)[i] == docs[i].(gen := 0) {
      DocRestored(x[i], docs[i]);
    }
  }

  lemma FlatIdsDistinct(f: FlatIndex)
    requires f.Valid()
    ensures Distinct(f.ids) && |f.ids| == |f.items|
  {
  }

  /** Loading what was saved of a valid shard gives a valid shard, and exactly the reloaded one. */
  lemma LoadedIsReloaded(s: Shard.Shard, t: Shard.Shard, x: Saved, clock: Clock)
    requires s.Valid() && SavedShard(x, s.docs, s.ids, StoreImage.ImageOf(s.store), FlatOf(s.index),
                                     WordsOf(s.keywords))
    requires t.WellBuilt() && t.dim == s.dim && t.maxPoints == s.maxPoints && Loaded(t, x, clock)
    ensures t.Valid() && t.State() == Reloaded(s.State(), clock)
  {
    hide SavedFrom, DocsOf, Restarted, Iterates, KeywordImage.Lists, KeywordImage.ImageOf, StoreImage.DeadSlots, LiveAt,
      VectorStore.Valid, Distinct, MapOf, FlatIndex.Valid, FlatIndex.Entries;
    DocsRestarted(x.docs, s.docs);
    IterationRebuilds(x.ids, s.ids);
    KeywordImage.ImageRebuilt(x.words, WordsOf(s.keywords));
    FlatIdsDistinct(s.index);
    FlatImage.SameEntries(s.index, t.index);
  }

  lemma {:induction false} RecountIff(docs: seq<ShardDoc>, clock: Clock)
    ensures LiveAt(docs, clock) <= LiveDocs(docs)
    ensures LiveAt(docs, clock) == LiveDocs(docs) <==>
            forall i :: 0 <= i < |docs| && !docs[i].deleted ==> !IsExpired(docs[i], clock(i))
  {
    if docs == [] {
    } else {
      var front := docs[..|docs| - 1];
      RecountIff(front, clock);
      assert forall i :: 0 <= i < |front| ==> front[i] == docs[i];
      assert docs == front + [docs[|docs| - 1]];
    }
  }

  lemma {:induction false} SameLiveDocs(docs: seq<ShardDoc>, docs': seq<ShardDoc>)
    requires |docs'| == |docs| && forall i :: 0 <= i < |docs| ==> docs'[i] == docs[i].(gen := 0)
    ensures LiveDocs(docs') == LiveDocs(docs)
  {
    if docs != [] {
      SameLiveDocs(docs[..|docs| - 1], docs'[..|docs| - 1]);
    }
  }

  lemma SameOwners(docs: seq<ShardDoc>, docs': seq<ShardDoc>, slots: Table<Vector>, free: seq<nat>)
    requires |docs'| == |docs| && forall i :: 0 <= i < |docs| ==> docs'[i] == docs[i].(gen := 0)
    requires SlotsAgree(docs, slots) && Distinct(free)
    requires forall i: nat :: i in free <==> i < |slots.live| && !slots.live[i]
    ensures SlotsAgree(docs', slots.(free := free))
  {
    assert forall slot: nat :: Owned(docs', slot) <==> Owned(docs, slot);
    assert forall slot: nat :: IsLiveSlot(slots.(free := free), slot) <==> IsLiveSlot(slots, slot);
    hide Owned, IsLiveSlot;
  }

  /** A shard whose parts agree comes back in agreement if and only if every doc that has expired
      when it is loaded had been taken out: the recount leaves expired docs out, and a later sweep
      takes each of them off the count once more. */
  lemma ReloadKeepsIff(s: View, clock: Clock)
    requires Coherent(s)
    ensures Coherent(Reloaded(s, clock)) <==>
            forall i :: 0 <= i < |s.docs| && !s.docs[i].deleted ==> !IsExpired(s.docs[i], clock(i))
  {
    var t := Reloaded(s, clock);
    hide KeysAgree, EntriesAgree, WordsAgree, SlotsAgree, LiveAt, LiveDocs, StoreImage.DeadSlots, Distinct, Restarted;
    SameTables(s.docs, t.docs, s.ids, s.entries);
    SameWords(s.docs, t.docs, s.words);
    StoreImage.DeadSlotsAre(s.slots.live);
    SameOwners(s.docs, t.docs, s.slots, t.slots.free);
    SameLiveDocs(s.docs, t.docs);
    RecountIff(t.docs, clock);
  }

  lemma SameTables(docs: seq<ShardDoc>, docs': seq<ShardDoc>, ids: map<string, nat>, entries: map<nat, Item>)
    requires |docs'| == |docs| && forall i :: 0 <= i < |docs| ==> docs'[i] == docs[i].(gen := 0)
    requires KeysAgree(docs, ids) && EntriesAgree(docs, entries)
    ensures KeysAgree(docs', ids) && EntriesAgree(docs', entries)
  {
  }

  lemma SameWords(docs: seq<ShardDoc>, docs': seq<ShardDoc>, words: DocTokens)
    requires |docs'| == |docs| && forall i :: 0 <= i < |docs| ==> docs'[i] == docs[i].(gen := 0)
    requires WordsAgree(docs, words)
    ensures WordsAgree(docs', words)
  {
    hide HasWords;
  }
}
