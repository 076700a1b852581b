/** A shard's candidate search on values: the copies taken under the doc lock, the items kept after
    scoring from the store, and what both come to when the parts of the shard agree. */
module ShardSearch {
  import opened Ranking
  import opened Candidates
  import opened Sequences
  import opened Options
  import opened Slots
  import opened VectorStore
  import opened FlatIndex
  import opened Merge
  import opened ShardState

  /** A candidate's doc as copied under the doc lock. */
  datatype Copied = Copied(id: nat, gen: nat, key: string, offset: nat)

  predicate LiveDoc(docs: seq<ShardDoc>, id: nat, now: int) {
    id < |docs| && !docs[id].deleted && !IsExpired(docs[id], now)
  }

  /** The first pass: candidate i is looked at when the clock reads early(i). */
  function Copies(docs: seq<ShardDoc>, cands: seq<Candidate>, early: Clock): seq<Copied> {
    if cands == [] then []
    else
      var front, c := Copies(docs, cands[..|cands| - 1], early), cands[|cands| - 1];
      if LiveDoc(docs, c.id, early(|cands| - 1))
      then front + [Copied(c.id, docs[c.id].gen, docs[c.id].key, docs[c.id].offset)] else front
  }

  /** The second pass: each copy is scored from the store and kept if its doc is still the one copied. */
  function Emitted(docs: seq<ShardDoc>, copies: seq<Copied>, score: nat -> real, late: Clock): seq<Hit> {
    if copies == [] then []
    else
      var front, c := Emitted(docs, copies[..|copies| - 1], score, late), copies[|copies| - 1];
      if LiveDoc(docs, c.id, late(|copies| - 1)) && docs[c.id].gen == c.gen
      then front + [Hit(c.key, score(c.offset), c.id)] else front
  }

  /** The items with their keys read from the table once more. */
  function KeysRead(docs: seq<ShardDoc>, hits: seq<Hit>): seq<Hit> {
    if hits == [] then []
    else
      var front, h := KeysRead(docs, hits[..|hits| - 1]), hits[|hits| - 1];
      if h.id < |docs| then front + [Hit(docs[h.id].key, h.score, h.id)] else front
  }

  /** The items carry the keys of the docs they name. */
  ghost predicate Named(docs: seq<ShardDoc>, hits: seq<Hit>) {
    forall h :: h in hits ==> h.id < |docs| && h.key == docs[h.id].key
  }

  ghost predicate CopiesNamedIn(docs: seq<ShardDoc>, copies: seq<Copied>) {
    forall c :: c in copies ==> c.id < |docs| && c.key == docs[c.id].key
  }

  lemma {:induction false} CopiesNamed(docs: seq<ShardDoc>, cands: seq<Candidate>, early: Clock)
    ensures CopiesNamedIn(docs, Copies(docs, cands, early))
  {
    if cands != [] {
      CopiesNamed(docs, cands[..|cands| - 1], early);
    }
  }

  lemma {:induction false} EmittedNamed(docs: seq<ShardDoc>, copies: seq<Copied>, score: nat -> real, late: Clock)
    requires CopiesNamedIn(docs, copies)
    ensures Named(docs, Emitted(docs, copies, score, late))
  {
    if copies != [] {
      EmittedNamed(docs, copies[..|copies| - 1], score, late);
    }
  }

  predicate Unexpired(doc: ShardDoc, now: int) {
    doc.expiry == None || now < doc.expiry.value
  }

  /** A copy tells id, generation, key and slot of a doc that was live at one reading of the clock. */
  ghost predicate CopyOf(docs: seq<ShardDoc>, early: Clock, c: Copied) {
    && c.id < |docs| && !docs[c.id].deleted && c == Copied(c.id, docs[c.id].gen, docs[c.id].key, docs[c.id].offset)
    && exists a :: Unexpired(docs[c.id], early(a))
  }

  /** An item for a live doc, unexpired at a reading of each clock, with its key and the score of its slot. */
  ghost predicate ItemOf(docs: seq<ShardDoc>, score: nat -> real, early: Clock, late: Clock, h: Hit) {
    && h.id < |docs| && !docs[h.id].deleted && h.key == docs[h.id].key && h.score == score(docs[h.id].offset)
    && (exists a :: Unexpired(docs[h.id], early(a))) && (exists b :: Unexpired(docs[h.id], late(b)))
  }

  lemma {:induction false} CopiesAre(docs: seq<ShardDoc>, cands: seq<Candidate>, early: Clock)
    ensures forall c :: c in Copies(docs, cands, early) ==> CopyOf(docs, early, c)
  {
    if cands != [] {
      var n := |cands| - 1;
      CopiesAre(docs, cands[..n], early);
      if LiveDoc(docs, cands[n].id, early(n)) { assert Unexpired(docs[cands[n].id], early(n)); }
    }
  }

  lemma {:induction false} EmittedAre(docs: seq<ShardDoc>, copies: seq<Copied>, score: nat -> real, early: Clock,
                                      late: Clock)
    requires forall c :: c in copies ==> CopyOf(docs, early, c)
    ensures forall h :: h in Emitted(docs, copies, score, late) ==> ItemOf(docs, score, early, late, h)
  {
    if copies != [] {
      var n := |copies| - 1;
      EmittedAre(docs, copies[..n], score, early, late);
      assert CopyOf(docs, early, copies[n]);
      if LiveDoc(docs, copies[n].id, late(n)) { assert Unexpired(docs[copies[n].id], late(n)); }
    }
  }

  lemma BestAreItems(docs: seq<ShardDoc>, hits: seq<Hit>, k: nat, score: nat -> real, early: Clock, late: Clock)
    requires forall h :: h in hits ==> ItemOf(docs, score, early, late, h)
    ensures |TopK(Better, k, hits)| <= k
    ensures forall h :: h in TopK(Better, k, hits) ==> ItemOf(docs, score, early, late, h)
  {
    BetterTotal();
    hide TotalOrder, Better, TopK, ItemOf;
    TopKIsBest(Better, k, hits);
    forall h | h in TopK(Better, k, hits) ensures h in hits {
      assert h in multiset(TopK(Better, k, hits));
    }
  }

  lemma BestNamed(docs: seq<ShardDoc>, hits: seq<Hit>, k: nat)
    requires Named(docs, hits)
    ensures Ranked(Better, TopK(Better, k, hits)) && Named(docs, TopK(Better, k, hits))
  {
    BetterTotal();
    hide TotalOrder, Better, TopK;
    TopKIsBest(Better, k, hits);
    forall h | h in TopK(Better, k, hits) ensures h in hits {
      assert h in multiset(TopK(Better, k, hits));
    }
  }

  lemma NothingNamed(docs: seq<ShardDoc>)
    ensures Ranked(Better, []) && Named(docs, [])
  {
  }

  lemma {:induction false} KeysSame(docs: seq<ShardDoc>, hits: seq<Hit>)
    requires Named(docs, hits)
    ensures KeysRead(docs, hits) == hits
  {
    if hits != [] {
      KeysSame(docs, hits[..|hits| - 1]);
      assert hits[|hits| - 1] in hits;
    }
  }

  /** A live doc of the table, with the score of the vector in its slot. */
  function LiveHits(docs: seq<ShardDoc>, score: nat -> real): seq<Hit> {
    if docs == [] then []
    else
      var front, doc := LiveHits(docs[..|docs| - 1], score), docs[|docs| - 1];
      if doc.deleted then front else front + [Hit(doc.key, score(doc.offset), |docs| - 1)]
  }

  lemma {:induction false} LiveHitsAre(docs: seq<ShardDoc>, score: nat -> real)
    ensures forall h :: h in LiveHits(docs, score) <==>
              h.id < |docs| && !docs[h.id].deleted && h.key == docs[h.id].key && h.score == score(docs[h.id].offset)
  {
    if docs == [] {
    } else {
      LiveHitsAre(docs[..|docs| - 1], score);
    }
  }

  lemma {:induction false} LiveHitsDistinct(docs: seq<ShardDoc>, score: nat -> real)
    ensures Distinct(LiveHits(docs, score))
  {
    if docs == [] {
    } else {
      var front := docs[..|docs| - 1];
      LiveHitsAre(front, score);
      LiveHitsDistinct(front, score);
      var hits := LiveHits(front, score);
      forall i | 0 <= i < |hits| ensures hits[i].id < |front| {
        assert hits[i] in hits;
      }
    }
  }

  function KeyOf(docs: seq<ShardDoc>): nat -> string {
    (id: nat) => if id < |docs| then docs[id].key else ""
  }

  /** The index's candidates name live docs, with the scores of the vectors in their slots. */
  ghost predicate AllLive(docs: seq<ShardDoc>, cands: seq<Candidate>, score: nat -> real) {
    forall c :: c in cands ==> c.id < |docs| && !docs[c.id].deleted && c.score == score(docs[c.id].offset)
  }

  /** No live doc is expired at any of these times. */
  ghost predicate NoneExpires(docs: seq<ShardDoc>, clock: Clock) {
    forall i, k: nat :: 0 <= i < |docs| && !docs[i].deleted ==> !IsExpired(docs[i], clock(k))
  }

  lemma {:induction false} AllCopied(docs: seq<ShardDoc>, cands: seq<Candidate>, score: nat -> real, early: Clock)
    requires AllLive(docs, cands, score) && NoneExpires(docs, early)
    ensures |Copies(docs, cands, early)| == |cands|
    ensures forall i :: 0 <= i < |cands| ==>
              cands[i].id < |docs| && Copies(docs, cands, early)[i]
              == Copied(cands[i].id, docs[cands[i].id].gen, docs[cands[i].id].key, docs[cands[i].id].offset)
  {
    if cands == [] {
    } else {
      AllCopied(docs, cands[..|cands| - 1], score, early);
      assert cands[|cands| - 1] in cands;
    }
  }

  lemma {:induction false} AllEmitted(docs: seq<ShardDoc>, cands: seq<Candidate>, copies: seq<Copied>,
                                      score: nat -> real, late: Clock)
    requires AllLive(docs, cands, score) && NoneExpires(docs, late) && |copies| == |cands|
    requires forall i :: 0 <= i < |cands| ==>
               cands[i].id < |docs| && copies[i]
               == Copied(cands[i].id, docs[cands[i].id].gen, docs[cands[i].id].key, docs[cands[i].id].offset)
    ensures Emitted(docs, copies, score, late) == HitsOf(KeyOf(docs), cands)
  {
    if cands == [] {
    } else {
      var n := |cands| - 1;
      AllEmitted(docs, cands[..n], copies[..n], score, late);
      assert cands[n] in cands;
      assert HitsOf(KeyOf(docs), cands) == HitsOf(KeyOf(docs), cands[..n]) + [HitOf(KeyOf(docs), cands[n])];
    }
  }

  lemma SameMembers(a: seq<Hit>, b: seq<Hit>)
    requires Distinct(a) && Distinct(b) && forall h :: h in a <==> h in b
    ensures multiset(a) == multiset(b)
  {
    forall h ensures multiset(a)[h] == multiset(b)[h] {
      AtMostOnceIn(a, h);
      AtMostOnceIn(b, h);
      assert h in multiset(a) <==> h in a;
      assert h in multiset(b) <==> h in b;
    }
  }

  /** Candidates that are exactly the live docs, one each, become exactly the live docs' hits. */
  lemma LiveAreHits(docs: seq<ShardDoc>, live: seq<Candidate>, score: nat -> real)
    requires DistinctIds(live)
    requires forall c :: c in live <==> c.id < |docs| && !docs[c.id].deleted && c.score == score(docs[c.id].offset)
    ensures multiset(HitsOf(KeyOf(docs), live)) == multiset(LiveHits(docs, score))
  {
    var hits := HitsOf(KeyOf(docs), live);
    LiveHitsAre(docs, score);
    LiveHitsDistinct(docs, score);
    forall h ensures h in hits <==> h in LiveHits(docs, score) {
      if h in hits {
        var i :| 0 <= i < |hits| && hits[i] == h;
        assert live[i] in live;
      }
      if h in LiveHits(docs, score) {
        assert Candidate(h.id, h.score) in live;
        var i :| 0 <= i < |live| && live[i] == Candidate(h.id, h.score);
        assert hits[i] == h;
      }
    }
    hide LiveHits;
    SameMembers(hits, LiveHits(docs, score));
  }

  /** With no doc expiring meanwhile, a search over an exact index sends the best k of its best count
      live docs. */
  lemma SendsShardHits(docs: seq<ShardDoc>, live: seq<Candidate>, score: nat -> real, early: Clock, late: Clock,
                       k: nat, count: nat)
    requires DistinctIds(live) && NoneExpires(docs, early) && NoneExpires(docs, late)
    requires forall c :: c in live <==> c.id < |docs| && !docs[c.id].deleted && c.score == score(docs[c.id].offset)
    ensures TopK(Better, k, Emitted(docs, Copies(docs, TopK(IsBetter, count, live), early), score, late))
         == ShardHits(k, count, LiveHits(docs, score))
  {
    var cands := TopK(IsBetter, count, live);
    IsBetterTotal();
    BetterByIdTotal();
    hide TotalOrder, TopK, IsBetter, BetterById, Better, NoneExpires, LiveHits, DistinctIds, Emitted, Copies;
    TopKIsBest(IsBetter, count, live);
    forall c | c in cands ensures c in live {
      assert c in multiset(cands);
    }
    AllCopied(docs, cands, score, early);
    AllEmitted(docs, cands, Copies(docs, cands, early), score, late);
    TopKOfHits(KeyOf(docs), count, live);
    LiveAreHits(docs, live, score);
    SameBest(count, HitsOf(KeyOf(docs), live), LiveHits(docs, score));
  }

  lemma SameBest(count: nat, a: seq<Hit>, b: seq<Hit>)
    requires multiset(a) == multiset(b)
    ensures TopK(BetterById, count, a) == TopK(BetterById, count, b)
  {
    BetterByIdTotal();
    SortOfPermutation(BetterById, a, b);
  }

  /** In a shard whose parts agree the index's live items are the table's live docs. */
  lemma IndexHoldsLive(index: FlatIndex, docs: seq<ShardDoc>, store: nat -> Vec, q: Vec)
    requires index.Valid() && !index.cosine && EntriesAgree(docs, index.Entries())
    ensures var live := index.Live(store, q, 1.0, |index.items|);
            && DistinctIds(live)
            && forall c :: c in live <==>
                 c.id < |docs| && !docs[c.id].deleted && c.score == index.dot(q, store(docs[c.id].offset))
  {
    var live := index.Live(store, q, 1.0, |index.items|);
    index.LiveDistinct(store, q, 1.0, |index.items|);
    forall c ensures c in live <==>
                     c.id < |docs| && !docs[c.id].deleted && c.score == index.dot(q, store(docs[c.id].offset))
    {
      index.LiveIsEntries(store, q, 1.0, c);
    }
  }

  // ----- the store as a search reads it -----

  function Decoded(value: Float32 -> real, vec: Vector): Vec {
    seq(|vec|, i requires 0 <= i < |vec| => value(vec[i]))
  }

  /** The exact score of a stored vector, its floats standing for the numbers `value` says. */
  function QueryScore(dot: (Vec, Vec) -> real, value: Float32 -> real, q: Vec): Vector -> real {
    (vec: Vector) => dot(q, Decoded(value, vec))
  }

  /** The score of the vector in a slot. */
  function SlotScore(slots: Table<Vector>, score: Vector -> real): nat -> real {
    (slot: nat) => if slot < |slots.vecs| then score(slots.vecs[slot]) else 0.0
  }

  /** A shard's live docs with their exact scores. */
  function ShardLive(s: View, score: Vector -> real): seq<Hit> {
    LiveHits(s.docs, SlotScore(s.slots, score))
  }

  /** The store's floats as numbers, slot by slot. */
  function Numbers(value: Float32 -> real, blocks: Blocks, dim: nat, per: nat): nat -> Vec {
    (slot: nat) => Decoded(value, ReadSlot(blocks, dim, per, slot))
  }

  lemma {:induction false} LiveHitsDepend(docs: seq<ShardDoc>, a: nat -> real, b: nat -> real)
    requires forall i :: 0 <= i < |docs| && !docs[i].deleted ==> a(docs[i].offset) == b(docs[i].offset)
    ensures LiveHits(docs, a) == LiveHits(docs, b)
  {
    if docs == [] {
    } else {
      assert !docs[|docs| - 1].deleted ==> a(docs[|docs| - 1].offset) == b(docs[|docs| - 1].offset);
      LiveHitsDepend(docs[..|docs| - 1], a, b);
    }
  }

  function NumberScore(dot: (Vec, Vec) -> real, q: Vec, numbers: nat -> Vec): nat -> real {
    (slot: nat) => dot(q, numbers(slot))
  }

  /** The item's score is the query's dot product with the numbers that the floats in the doc's slot stand for. */
  ghost predicate ScoredFrom(s: View, dot: (Vec, Vec) -> real, value: Float32 -> real, q: Vec, h: Hit) {
    && h.id < |s.docs| && s.docs[h.id].offset < |s.slots.vecs|
    && var vec := s.slots.vecs[s.docs[h.id].offset];
    h.score == dot(q, seq(|vec|, i requires 0 <= i < |vec| => value(vec[i])))
  }

  /** Every item names a live doc of the shard by its key, unexpired at a reading of each clock, and carries
      its exact score. */
  ghost predicate ItemsAreLive(s: View, dot: (Vec, Vec) -> real, value: Float32 -> real, q: Vec, early: Clock,
                              late: Clock, hits: seq<Hit>) {
    forall h :: h in hits ==>
      && h.id < |s.docs| && !s.docs[h.id].deleted && h.key == s.docs[h.id].key
      && (exists a :: Unexpired(s.docs[h.id], early(a))) && (exists b :: Unexpired(s.docs[h.id], late(b)))
      && ScoredFrom(s, dot, value, q, h)
  }

  lemma SlotScored(store: VectorStore, docs: seq<ShardDoc>, dot: (Vec, Vec) -> real, value: Float32 -> real, q: Vec,
                   i: nat)
    requires store.Valid() && SlotsAgree(docs, store.Contents()) && i < |docs| && !docs[i].deleted
    ensures docs[i].offset < |store.Contents().vecs|
    ensures NumberScore(dot, q, Numbers(value, store.blocks, store.dim, store.blockVectors))(docs[i].offset)
         == dot(q, Decoded(value, store.Contents().vecs[docs[i].offset]))
  {
    var slots := store.Contents();
    assert Owned(docs, docs[i].offset) && IsLiveSlot(slots, docs[i].offset);
    ReadSlotIsVecAt(store.blocks, store.dim, store.blockVectors, docs[i].offset);
  }

  lemma ItemsAreSent(s: View, store: VectorStore, dot: (Vec, Vec) -> real, value: Float32 -> real, q: Vec,
                     early: Clock, late: Clock, hits: seq<Hit>)
    requires store.Valid() && s.slots == store.Contents() && SlotsAgree(s.docs, s.slots)
    requires var score := NumberScore(dot, q, Numbers(value, store.blocks, store.dim, store.blockVectors));
             forall h :: h in hits ==> ItemOf(s.docs, score, early, late, h)
    ensures ItemsAreLive(s, dot, value, q, early, late, hits)
  {
    forall h | h in hits
      ensures h.id < |s.docs| && !s.docs[h.id].deleted && ScoredFrom(s, dot, value, q, h)
    {
      SlotScored(store, s.docs, dot, value, q, h.id);
    }
    hide SlotsAgree, ScoredFrom, VectorStore.Valid;
  }

  lemma LiveHitsInStore(store: VectorStore, docs: seq<ShardDoc>, dot: (Vec, Vec) -> real, value: Float32 -> real,
                        q: Vec)
    requires store.Valid() && SlotsAgree(docs, store.Contents())
    ensures LiveHits(docs, NumberScore(dot, q, Numbers(value, store.blocks, store.dim, store.blockVectors)))
         == LiveHits(docs, SlotScore(store.Contents(), QueryScore(dot, value, q)))
  {
    var slots := store.Contents();
    forall i | 0 <= i < |docs| && !docs[i].deleted
      ensures docs[i].offset < |slots.vecs|
      ensures ReadSlot(store.blocks, store.dim, store.blockVectors, docs[i].offset) == slots.vecs[docs[i].offset]
    {
      assert Owned(docs, docs[i].offset) && IsLiveSlot(slots, docs[i].offset);
      ReadSlotIsVecAt(store.blocks, store.dim, store.blockVectors, docs[i].offset);
    }
    hide ReadSlot;
    LiveHitsDepend(docs, NumberScore(dot, q, Numbers(value, store.blocks, store.dim, store.blockVectors)),
                   SlotScore(slots, QueryScore(dot, value, q)));
  }
}
