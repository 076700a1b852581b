/** One shard: its methods update the doc table, the store, the flat index and the keyword index
    together. */
module Shard {
  import opened Options
  import opened Candidates
  import opened Slots
  import opened VectorStore
  import opened FlatIndex
  import opened KeywordIndex
  import opened Merge
  import opened Ranking
  import opened ShardEffects
  import opened ShardSearch
  import opened ShardState
  import opened Status

  /** A doc the sweep has marked, still to be taken out of the index, keywords and store. */
  datatype Victim = Victim(id: nat, offset: nat)

  /** The doc the sweep's next step takes out, if any. */
  function NextVictim(docs: seq<ShardDoc>, cursor: nat, now: int): seq<Victim>
    requires docs != []
  {
    var at := Wrapped(cursor, |docs|);
    if !docs[at].deleted && IsExpired(docs[at], now) then [Victim(at, docs[at].offset)] else []
  }

  function Victims(s: View, m: nat, clock: Clock): seq<Victim> {
    if m == 0 || s.docs == [] then []
    else
      var t := Purged(s, m - 1, clock);
      Victims(s, m - 1, clock) + NextVictim(t.docs, t.cursor, clock(m - 1))
  }

  function WordsWithout(words: DocTokens, victims: seq<Victim>): DocTokens {
    if victims == [] then words
    else WithoutDoc(WordsWithout(words, victims[..|victims| - 1]), victims[|victims| - 1].id)
  }

  function EntriesWithout(entries: map<nat, Item>, victims: seq<Victim>): map<nat, Item> {
    if victims == [] then entries
    else EntryOff(EntriesWithout(entries, victims[..|victims| - 1]), victims[|victims| - 1].id)
  }

  function SlotsWithout(slots: Table<Vector>, victims: seq<Victim>): Table<Vector> {
    if victims == [] then slots
    else Released(SlotsWithout(slots, victims[..|victims| - 1]), victims[|victims| - 1].offset)
  }

  lemma OneVictim(words: DocTokens, entries: map<nat, Item>, slots: Table<Vector>, victims: seq<Victim>, v: Victim)
    ensures WordsWithout(words, victims + [v]) == WithoutDoc(WordsWithout(words, victims), v.id)
    ensures EntriesWithout(entries, victims + [v]) == EntryOff(EntriesWithout(entries, victims), v.id)
    ensures SlotsWithout(slots, victims + [v]) == Released(SlotsWithout(slots, victims), v.offset)
  {
    assert (victims + [v])[..|victims|] == victims;
  }

  lemma StepParts(t: View, now: int)
    requires t.docs != []
    ensures var u, next := SweepStep(t, now), NextVictim(t.docs, t.cursor, now);
            && |next| <= 1 && u.ids == t.ids
            && u.words == (if next == [] then t.words else WithoutDoc(t.words, next[0].id))
            && u.entries == (if next == [] then t.entries else EntryOff(t.entries, next[0].id))
            && u.slots == (if next == [] then t.slots else Released(t.slots, next[0].offset))
  {
  }

  /** Marking all victims first and cleaning up afterwards is taking them out one by one. */
  lemma {:induction false} PurgedParts(s: View, m: nat, clock: Clock)
    ensures var t, v := Purged(s, m, clock), Victims(s, m, clock);
            && t.words == WordsWithout(s.words, v) && t.entries == EntriesWithout(s.entries, v)
            && t.slots == SlotsWithout(s.slots, v) && t.ids == s.ids
  {
    hide SweepStep, NextVictim, Released, EntryOff, WithoutDoc;
    if m > 0 && s.docs != [] {
      PurgedParts(s, m - 1, clock);
      var t, v := Purged(s, m - 1, clock), Victims(s, m - 1, clock);
      var next := NextVictim(t.docs, t.cursor, clock(m - 1));
      StepParts(t, clock(m - 1));
      assert Purged(s, m, clock) == SweepStep(t, clock(m - 1)) && Victims(s, m, clock) == v + next;
      hide WordsWithout, EntriesWithout, SlotsWithout, Purged, Victims;
      if next == [] {
        assert v + next == v;
      } else {
        assert v + next == v + [next[0]];
        OneVictim(s.words, s.entries, s.slots, v, next[0]);
      }
    }
  }

  /** The table after the sweep's next step. */
  function MarkStep(docs: seq<ShardDoc>, cursor: nat, live: nat, now: int): (seq<ShardDoc>, nat, nat)
    requires docs != []
  {
    var at := Wrapped(cursor, |docs|);
    if !docs[at].deleted && IsExpired(docs[at], now) then (docs[at := MarkedDoc(docs[at])], at + 1, Less(live))
    else (docs, at + 1, live)
  }

  lemma PurgedTable(s: View, m: nat, clock: Clock)
    requires s.docs != []
    ensures var t, u := Purged(s, m, clock), Purged(s, m + 1, clock);
            && (u.docs, u.cursor, u.live) == MarkStep(t.docs, t.cursor, t.live, clock(m))
            && Victims(s, m + 1, clock) == Victims(s, m, clock) + NextVictim(t.docs, t.cursor, clock(m))
  {
  }

  lemma PurgedNone(s: View, clock: Clock)
    ensures Purged(s, 0, clock) == s && Victims(s, 0, clock) == []
  {
  }

  class Shard {
    const dim: nat
    const maxPoints: nat
    const norm: Vector -> real
    const value: Float32 -> real  // the number a stored float stands for
    const maxCandidates: nat
    const rerankFactor: nat
    const store: VectorStore
    const index: FlatIndex
    const keywords: KeywordIndex
    var docs: seq<ShardDoc>
    var ids: map<string, nat>
    var cursor: nat
    var live: nat

    /** The parts were built for this shard; none of this changes later. */
    ghost predicate WellBuilt() {
      store.dim == dim && index.dim == dim && !index.cosine && maxCandidates >= 1 && rerankFactor >= 1
    }

    ghost predicate Valid()
      reads this, store, index, keywords
    {
      && store.Valid() && index.Valid() && keywords.Valid()
      && WellBuilt() && index.maxPoints == maxPoints
      && (forall k :: k in ids ==> ids[k] < |docs|)
      && (forall id: nat :: id < |docs| ==> id in index.Entries())
    }

    ghost function State(): View
      requires Valid()
      reads this, store, index, keywords
    {
      View(docs, ids, cursor, live, store.Contents(), index.Entries(), keywords.docTokens)
    }

    constructor (dim: nat, maxPoints: nat, maxCandidates: int, rerankFactor: int, blockVectors: nat,
                 norm: Vector -> real, value: Float32 -> real, dot: (Vec, Vec) -> real, sqrt: real -> real,
                 log: real -> real)
      ensures Valid() && State() == View([], map[], 0, 0, Table([], [], []), map[], map[])
      ensures this.dim == dim && this.maxPoints == maxPoints && this.norm == norm
      ensures this.value == value && index.dot == dot
      ensures this.maxCandidates == (if maxCandidates > 1 then maxCandidates else 1)
      ensures this.rerankFactor == (if rerankFactor > 1 then rerankFactor else 1)
      ensures fresh(store) && fresh(index) && fresh(keywords)
    {
      this.dim, this.maxPoints, this.norm, this.value := dim, maxPoints, norm, value;
      this.maxCandidates := if maxCandidates > 1 then maxCandidates else 1;
      this.rerankFactor := if rerankFactor > 1 then rerankFactor else 1;
      store := new VectorStore(dim, blockVectors);
      index := new FlatIndex(dim, false, dot, sqrt, maxPoints);
      keywords := new KeywordIndex(log);
      docs, ids, cursor, live := [], map[], 0, 0;
    }

    /** Looks at the next `budget` docs and takes out those that have expired. */
    method PurgeExpired(budget: nat, clock: Clock)
      requires Valid()
      modifies this, store, index, keywords
      ensures Valid() && State() == Purged(old(State()), budget, clock)
      ensures OnlySwept(old(docs), docs, budget, clock)
      ensures old(Coherent(State())) ==> Coherent(State())
    {
      hide Coherent, OnlySwept, Purged, Victims, FlatIndex.Valid, VectorStore.Valid, KeywordIndex.Valid;
      ghost var s := State();
      PurgedParts(s, budget, clock);
      SweepDocs(s, budget, clock);
      if old(Coherent(State())) { PurgeKeeps(s, budget, clock); }
      var expired := MarkExpired(budget, clock);
      CleanUp(expired);
    }

    method MarkExpired(budget: nat, clock: Clock) returns (expired: seq<Victim>)
      requires Valid()
      modifies this`docs, this`cursor, this`live
      ensures var t := Purged(old(State()), budget, clock); docs == t.docs && cursor == t.cursor && live == t.live
      ensures expired == Victims(old(State()), budget, clock)
    {
      if |docs| == 0 {
        return [];
      }
      expired := MarkLoop(budget, clock, State());
    }

    method MarkLoop(budget: nat, clock: Clock, ghost s: View) returns (expired: seq<Victim>)
      requires docs == s.docs != [] && cursor == s.cursor && live == s.live
      modifies this`docs, this`cursor, this`live
      ensures var t := Purged(s, budget, clock); docs == t.docs && cursor == t.cursor && live == t.live
      ensures expired == Victims(s, budget, clock)
    {
      PurgedNone(s, clock);
      hide *;
      expired := [];
      var checked := 0;
      while checked < budget && |docs| > 0
        invariant checked <= budget && |docs| == |s.docs|
        invariant var t := Purged(s, checked, clock); docs == t.docs && cursor == t.cursor && live == t.live
        invariant expired == Victims(s, checked, clock)
      {
        PurgedTable(s, checked, clock);
        var victims := MarkNext(clock(checked));
        expired := expired + victims;
        checked := checked + 1;
      }
    }

    /** Looks at one doc. */
    method MarkNext(now: int) returns (victims: seq<Victim>)
      requires docs != []
      modifies this`docs, this`cursor, this`live
      ensures (docs, cursor, live) == MarkStep(old(docs), old(cursor), old(live), now)
      ensures victims == NextVictim(old(docs), old(cursor), now)
    {
      victims := [];
      if cursor >= |docs| {
        cursor := 0;
      }
      var doc := docs[cursor];
      if !doc.deleted && IsExpired(doc, now) {
        docs := docs[cursor := MarkedDoc(doc)];
        if live > 0 {
          live := live - 1;
        }
        victims := [Victim(cursor, doc.offset)];
      }
      cursor := cursor + 1;
    }

    method CleanUp(expired: seq<Victim>)
      requires Valid()
      modifies store, index, keywords
      ensures Valid()
      ensures keywords.docTokens == WordsWithout(old(keywords.docTokens), expired)
      ensures index.Entries() == EntriesWithout(old(index.Entries()), expired)
      ensures store.Contents() == SlotsWithout(old(store.Contents()), expired)
    {
      hide VectorStore.Valid, FlatIndex.Valid, KeywordIndex.Valid;
      for i := 0 to |expired|
        invariant Valid()
        invariant keywords.docTokens == WordsWithout(old(keywords.docTokens), expired[..i])
        invariant index.Entries() == EntriesWithout(old(index.Entries()), expired[..i])
        invariant unchanged(store)
      {
        assert expired[..i + 1][..i] == expired[..i];
        keywords.Delete(expired[i].id);
        var _ := index.Delete(expired[i].id);
      }
      assert expired[..|expired|] == expired;
      ReleaseAll(expired);
    }

    method ReleaseAll(expired: seq<Victim>)
      requires Valid()
      modifies store
      ensures Valid() && store.Contents() == SlotsWithout(old(store.Contents()), expired)
    {
      hide VectorStore.Valid, FlatIndex.Valid, KeywordIndex.Valid;
      for i := 0 to |expired|
        invariant Valid() && store.Contents() == SlotsWithout(old(store.Contents()), expired[..i])
      {
        assert expired[..i + 1][..i] == expired[..i];
        store.Release(expired[i].offset);
      }
      assert expired[..|expired|] == expired;
    }

    /** Sweeps, then stores the doc in the store, the index, the table and the keywords. */
    method Upsert(key: string, vec: Vector, meta: Meta, expiry: Option<int>, text: Option<string>,
                  clock: Clock) returns (status: Status)
      requires Valid()
      modifies this, store, index, keywords
      ensures Valid()
      ensures |vec| != dim ==> status == InvalidArgument && State() == old(State())
      ensures |vec| == dim ==>
                var t := Purged(old(State()), BUDGET, clock);
                && |t.slots.vecs| == |t.slots.live| && NextSlot(t.slots) <= |t.slots.live|
                && (key in t.ids ==> t.ids[key] < |t.docs|)
                && (status, State()) == Upserted(old(State()), clock, dim, maxPoints, key, vec, meta, expiry, text,
                                                 norm(vec))
      ensures |vec| == dim && old(Coherent(State())) ==>
                && (Coherent(State()) <==> !old(Unusable(State(), clock, key)))
                && Took(old(State()), State(), status, maxPoints, clock, key, vec, meta, expiry, text, norm(vec))
                && (!old(Unusable(State(), clock, key)) ==> OthersKept(old(State()), State(), clock, key))
    {
      if |vec| != dim {
        return InvalidArgument;
      }
      if Coherent(State()) {
        UpsertKeepsIff(State(), clock, dim, maxPoints, key, vec, meta, expiry, text, norm(vec));
        UpsertTakes(State(), clock, dim, maxPoints, key, vec, meta, expiry, text, norm(vec));
      }
      hide Coherent, Unusable, Purged, Took, OthersKept;
      PurgeExpired(BUDGET, clock);
      status := StoreDoc(key, vec, meta, expiry, text);
    }

    method StoreDoc(key: string, vec: Vector, meta: Meta, expiry: Option<int>,
                    text: Option<string>) returns (status: Status)
      requires Valid() && |vec| == dim
      modifies this, store, index, keywords
      ensures Valid()
      ensures var t := old(State());
              && |t.slots.vecs| == |t.slots.live| && NextSlot(t.slots) <= |t.slots.live|
              && (key in t.ids ==> t.ids[key] < |t.docs|)
              && (status, State()) == Stored(t, dim, maxPoints, key, vec, meta, expiry, text, norm(vec))
    {
      if key in ids {
        status := RenewDoc(key, vec, meta, expiry, text);
      } else {
        status := AddDoc(key, vec, meta, expiry, text);
      }
    }

    method RenewDoc(key: string, vec: Vector, meta: Meta, expiry: Option<int>,
                    text: Option<string>) returns (status: Status)
      requires Valid() && |vec| == dim && key in ids
      modifies this, store, index, keywords
      ensures Valid()
      ensures (status, State()) == Stored(old(State()), dim, maxPoints, key, vec, meta, expiry, text, norm(vec))
    {
      hide FlatIndex.Valid, KeywordIndex.Valid, VectorStore.Valid, Updated, AfterUpsert, Repeat, NextSlot;
      store.NextSlotInRange();
      var id := ids[key];
      var offset := docs[id].offset;
      store.Update(offset, vec);
      status := index.Upsert(id, offset, norm(vec));
      docs := docs[id := RenewedDoc(docs[id], meta, expiry, text)];
      keywords.Upsert(id, text);
    }

    method AddDoc(key: string, vec: Vector, meta: Meta, expiry: Option<int>,
                  text: Option<string>) returns (status: Status)
      requires Valid() && |vec| == dim && key !in ids
      modifies this, store, index, keywords
      ensures Valid()
      ensures NextSlot(old(State()).slots) <= |old(State()).slots.live|
      ensures (status, State()) == Stored(old(State()), dim, maxPoints, key, vec, meta, expiry, text, norm(vec))
    {
      hide VectorStore.Valid, FlatIndex.Valid, KeywordIndex.Valid, Inserted, Released, NextSlot, AfterUpsert;
      store.NextSlotInRange();
      if maxPoints > 0 && live >= maxPoints {
        return ResourceExhausted;
      }
      var offset;
      status, offset := StoreAndIndex(vec);
      if status == Ok {
        Register(key, meta, offset, expiry, text);
      }
    }

    /** Enters a new doc into the table and the keywords. */
    method Register(key: string, meta: Meta, offset: nat, expiry: Option<int>, text: Option<string>)
      requires Valid() && |docs| in index.Entries()
      modifies this`docs, this`ids, this`live, keywords
      ensures Valid()
      ensures docs == old(docs) + [ShardDoc(key, meta, offset, false, 1, expiry, text)]
      ensures ids == old(ids)[key := |old(docs)|] && live == old(live) + 1
      ensures keywords.docTokens == AfterUpsert(old(keywords.docTokens), |old(docs)|, text)
    {
      hide VectorStore.Valid, FlatIndex.Valid, KeywordIndex.Valid, AfterUpsert;
      var id := |docs|;
      ids := ids[key := id];
      docs := docs + [ShardDoc(key, meta, offset, false, 1, expiry, text)];
      live := live + 1;
      keywords.Upsert(id, text);
    }

    /** Puts a new doc's vector in the store and the index; a refusal gives the slot back. */
    method StoreAndIndex(vec: Vector) returns (status: Status, offset: nat)
      requires Valid() && |vec| == dim
      modifies store, index
      ensures Valid()
      ensures var s, id := old(State()), |docs|;
              && offset == NextSlot(s.slots) <= |s.slots.live|
              && status == (if id !in s.entries && 0 < maxPoints <= |s.entries| then ResourceExhausted else Ok)
              && index.Entries() ==
                 (if status == Ok then s.entries[id := Item(offset, norm(vec), false)] else s.entries)
              && store.Contents() ==
                 (if status == Ok then Inserted(s.slots, vec) else Released(Inserted(s.slots, vec), offset))
      ensures status == Ok ==> |docs| in index.Entries()
    {
      hide VectorStore.Valid, FlatIndex.Valid, KeywordIndex.Valid, Inserted, Released, NextSlot;
      offset := store.Insert(vec);
      status := index.Upsert(|docs|, offset, norm(vec));
      if status != Ok {
        store.Release(offset);
      }
    }

    /** Takes the doc out, then sweeps. */
    method Delete(key: string, clock: Clock) returns (status: Status)
      requires Valid()
      modifies this, store, index, keywords
      ensures Valid()
      ensures status == if key in old(ids) then Ok else NotFound
      ensures key !in old(ids) ==> State() == old(State())
      ensures key in old(ids) ==> State() == Purged(Dropped(old(State()), old(ids)[key]), BUDGET, clock)
      ensures key in old(ids) && old(Coherent(State())) ==> Removed(old(State()), State(), clock, key)
      ensures key in old(ids) && !old(docs)[old(ids)[key]].deleted && old(Coherent(State())) ==> Coherent(State())
    {
      if key !in ids {
        return NotFound;
      }
      ghost var s := State();
      var id := ids[key];
      if Coherent(s) {
        DropKeepsIff(s, id);
        DeleteRemoves(s, clock, key);
      }
      hide Coherent, Removed;
      TakeOut(id);
      PurgeExpired(BUDGET, clock);
      status := Ok;
    }

    method TakeOut(id: nat)
      requires Valid() && id < |docs|
      modifies this, store, index, keywords
      ensures Valid() && State() == Dropped(old(State()), id)
    {
      hide VectorStore.Valid, FlatIndex.Valid, KeywordIndex.Valid, Released, EntryOff, WithoutDoc;
      docs := docs[id := MarkedDoc(docs[id])];
      if live > 0 {
        live := live - 1;
      }
      CleanUpOne(id, docs[id].offset);
    }

    method CleanUpOne(id: nat, offset: nat)
      requires Valid()
      modifies store, index, keywords
      ensures Valid()
      ensures keywords.docTokens == WithoutDoc(old(keywords.docTokens), id)
      ensures index.Entries() == EntryOff(old(index.Entries()), id)
      ensures store.Contents() == Released(old(store.Contents()), offset)
    {
      hide VectorStore.Valid, FlatIndex.Valid, KeywordIndex.Valid, Released, WithoutDoc;
      keywords.Delete(id);
      var _ := index.Delete(id);
      store.Release(offset);
    }

    method Exists(key: string, now: int) returns (status: Status, present: bool)
      requires Valid()
      ensures status == if key in ids then Ok else NotFound
      ensures present <==>
                && key in ids && !docs[ids[key]].deleted
                && (docs[ids[key]].expiry == None || now < docs[ids[key]].expiry.value)
    {
      if key !in ids {
        return NotFound, false;
      }
      var doc := docs[ids[key]];
      return Ok, !doc.deleted && !IsExpired(doc, now);
    }

    // ----- searching -----

    /** How the shard's store scores a slot for the query. */
    function Score(q: Vec): nat -> real
      reads this, store
    {
      NumberScore(index.dot, q, Numbers(value, store.blocks, store.dim, store.blockVectors))
    }

    /** The index's candidates for a query. */
    ghost function Found(q: Vec, count: nat): seq<Candidate>
      requires Valid()
      reads this, store, index, keywords
    {
      var numbers := Numbers(value, store.blocks, store.dim, store.blockVectors);
      TopK(IsBetter, count, index.Live(numbers, q, 1.0, |index.items|))
    }

    /** How many items a shard sends at most. */
    function Bounded(topk: nat): nat {
      if topk <= maxCandidates then topk else maxCandidates
    }

    /** What a search sends: the index's candidates, copied, scored and checked again, sorted and cut. */
    ghost function Answer(q: Vec, topk: nat, early: Clock, late: Clock): seq<Hit>
      requires Valid()
      reads this, store, index, keywords
    {
      var copies := Copies(docs, Found(q, CandidateCount(topk, maxCandidates, rerankFactor)), early);
      TopK(Better, Bounded(topk), Emitted(docs, copies, Score(q), late))
    }

    /** What a search sends when the parts agree: the best of the shard's live docs. */
    ghost function BestLive(q: Vec, topk: nat): seq<Hit>
      requires Valid()
      reads this, store, index, keywords
    {
      ShardHits(Bounded(topk), CandidateCount(topk, maxCandidates, rerankFactor),
                ShardLive(State(), QueryScore(index.dot, value, q)))
    }

    /** The index's candidates, copied under the doc lock, scored from the store, checked again, sorted and cut. With
        no live doc expiring meanwhile they are the best of the shard's live docs. */
    method SearchCandidates(q: Vec, topk: int, early: Clock, late: Clock) returns (status: Status, results: seq<Hit>)
      requires Valid()
      ensures status == if topk <= 0 || |q| != dim then InvalidArgument else Ok
      ensures status != Ok ==> results == []
      ensures status == Ok ==> results == Answer(q, topk, early, late)
      ensures status == Ok && Coherent(State()) && NoneExpires(docs, early) && NoneExpires(docs, late) ==>
                results == BestLive(q, topk)
      ensures status == Ok ==> |results| <= topk && |results| <= maxCandidates
      ensures Coherent(State()) ==> ItemsAreLive(State(), index.dot, value, q, early, late, results)
      ensures Ranked(Better, results) && Named(docs, results)
    {
      hide FlatIndex.Valid, KeywordIndex.Valid, VectorStore.Valid, TopK, Copies, Emitted, Coherent, Better, Named,
        ItemOf, CopyOf, ItemsAreLive;
      if topk <= 0 {
        NothingNamed(docs);
        NothingSent(q, early, late);
        return InvalidArgument, [];
      }
      var bounded := Bounded(topk);
      var count := CandidateCount(topk, maxCandidates, rerankFactor);
      var candidates;
      status, candidates := index.Search(Numbers(value, store.blocks, store.dim, store.blockVectors), q, count);
      if status != Ok {
        NothingNamed(docs);
        NothingSent(q, early, late);
        return status, [];
      }
      CopiesNamed(docs, candidates, early);
      var copies := CopyDocs(docs, candidates, early);
      results := ScoreCopies(docs, copies, Score(q), late);
      EmittedNamed(docs, copies, Score(q), late);
      BestNamed(docs, results, bounded);
      CopiesAre(docs, candidates, early);
      EmittedAre(docs, copies, Score(q), early, late);
      BestAreItems(docs, results, bounded, Score(q), early, late);
      results := BestFirst(results, bounded);
      if Coherent(State()) {
        ItemsSent(q, early, late, results);
        if NoneExpires(docs, early) && NoneExpires(docs, late) {
          AnswerIsBest(q, topk, early, late);
        }
      }
    }

    lemma NothingSent(q: Vec, early: Clock, late: Clock)
      requires Valid()
      ensures ItemsAreLive(State(), index.dot, value, q, early, late, [])
    {
    }

    lemma ItemsSent(q: Vec, early: Clock, late: Clock, hits: seq<Hit>)
      requires Valid() && Coherent(State())
      requires forall h :: h in hits ==> ItemOf(docs, Score(q), early, late, h)
      ensures ItemsAreLive(State(), index.dot, value, q, early, late, hits)
    {
      assert SlotsAgree(docs, store.Contents());
      hide Coherent, SlotsAgree, ItemOf, ItemsAreLive, FlatIndex.Valid, KeywordIndex.Valid, VectorStore.Valid, Numbers,
        NumberScore;
      ItemsAreSent(State(), store, index.dot, value, q, early, late, hits);
    }

    lemma AnswerIsBest(q: Vec, topk: nat, early: Clock, late: Clock)
      requires Valid() && Coherent(State()) && NoneExpires(docs, early) && NoneExpires(docs, late)
      ensures Answer(q, topk, early, late) == BestLive(q, topk)
    {
      assert SlotsAgree(docs, store.Contents()) && EntriesAgree(docs, index.Entries());
      var numbers := Numbers(value, store.blocks, store.dim, store.blockVectors);
      hide Coherent, SlotsAgree, EntriesAgree, NoneExpires, TopK, ShardHits, LiveHits, Emitted, Copies, Numbers,
        FlatIndex.Valid, VectorStore.Valid, KeywordIndex.Valid, FlatIndex.Live;
      IndexHoldsLive(index, docs, numbers, q);
      SendsShardHits(docs, index.Live(numbers, q, 1.0, |index.items|), Score(q), early, late, Bounded(topk),
                     CandidateCount(topk, maxCandidates, rerankFactor));
      LiveHitsInStore(store, docs, index.dot, value, q);
    }

    /** The engine's view of a shard's answer: keys are read again by id, and the items sorted again. */
    method Search(q: Vec, topk: int, early: Clock, late: Clock) returns (status: Status, results: seq<Hit>)
      requires Valid()
      ensures status == if topk <= 0 || |q| != dim then InvalidArgument else Ok
      ensures status != Ok ==> results == []
      ensures status == Ok ==> results == Answer(q, topk, early, late)
      ensures status == Ok && Coherent(State()) && NoneExpires(docs, early) && NoneExpires(docs, late) ==>
                results == BestLive(q, topk)
      ensures status == Ok ==> |results| <= topk && |results| <= maxCandidates && Ranked(Better, results)
      ensures Coherent(State()) ==> ItemsAreLive(State(), index.dot, value, q, early, late, results)
    {
      hide ItemsAreLive, Coherent;
      NothingSent(q, early, late);
      if topk <= 0 {
        return InvalidArgument, [];
      }
      var candidates;
      status, candidates := SearchCandidates(q, topk, early, late);
      if status != Ok {
        return status, [];
      }
      results := ReadKeys(docs, candidates);
      KeysSame(docs, candidates);
      BetterTotal();
      SortOfRanked(Better, candidates);
      results := Sort(Better, results);
    }
  }

  method CopyDocs(docs: seq<ShardDoc>, cands: seq<Candidate>, early: Clock) returns (copies: seq<Copied>)
    ensures copies == Copies(docs, cands, early)
  {
    copies := [];
    for i := 0 to |cands|
      invariant copies == Copies(docs, cands[..i], early)
    {
      assert cands[..i + 1][..i] == cands[..i];
      var cand := cands[i];
      if LiveDoc(docs, cand.id, early(i)) {
        copies := copies + [Copied(cand.id, docs[cand.id].gen, docs[cand.id].key, docs[cand.id].offset)];
      }
    }
    assert cands[..|cands|] == cands;
  }

  method ScoreCopies(docs: seq<ShardDoc>, copies: seq<Copied>, score: nat -> real, late: Clock) returns (hits: seq<Hit>)
    ensures hits == Emitted(docs, copies, score, late)
  {
    hits := [];
    for i := 0 to |copies|
      invariant hits == Emitted(docs, copies[..i], score, late)
    {
      assert copies[..i + 1][..i] == copies[..i];
      var c := copies[i];
      var exact := score(c.offset);
      if LiveDoc(docs, c.id, late(i)) && docs[c.id].gen == c.gen {
        hits := hits + [Hit(c.key, exact, c.id)];
      }
    }
    assert copies[..|copies|] == copies;
  }

  /** The loop that reads each item's key again. */
  method ReadKeys(docs: seq<ShardDoc>, cands: seq<Hit>) returns (items: seq<Hit>)
    ensures items == KeysRead(docs, cands)
  {
    items := [];
    for i := 0 to |cands|
      invariant items == KeysRead(docs, cands[..i])
    {
      assert cands[..i + 1][..i] == cands[..i];
      var cand := cands[i];
      if cand.id < |docs| {
        items := items + [Hit(docs[cand.id].key, cand.score, cand.id)];
      }
    }
    assert cands[..|cands|] == cands;
  }

  /** Sorts the items and cuts them to the bound. */
  method BestFirst(hits: seq<Hit>, bound: nat) returns (r: seq<Hit>)
    ensures r == TopK(Better, bound, hits)
  {
    r := Sort(Better, hits);
    if |r| > bound {
      r := r[..bound];
    }
  }
}
