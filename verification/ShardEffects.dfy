/** What a sweep, an upsert and a delete do to a shard, told doc by doc and slot by slot. */
module ShardEffects {
  import opened Options
  import opened Sequences
  import opened Slots
  import opened VectorStore
  import opened FlatIndex
  import opened KeywordIndex
  import opened Merge
  import opened ShardState
  import opened ShardSearch
  import opened Status
  import opened Tokens

  /** A live doc found expired at one of the sweep's m readings of the clock: deleted, one generation on. */
  ghost predicate SweptOut(before: ShardDoc, after: ShardDoc, m: nat, clock: Clock) {
    && !before.deleted && after == before.(deleted := true, gen := before.gen + 1)
    && before.expiry.Some? && exists k :: 0 <= k < m && clock(k) >= before.expiry.value
  }

  /** Doc i is as before or swept out; and if it is live its slot still holds its vector. */
  ghost predicate Kept(s: View, t: View, m: nat, clock: Clock, i: nat)
    requires i < |s.docs|
  {
    var doc := s.docs[i];
    && i < |t.docs| && (t.docs[i] == doc || SweptOut(doc, t.docs[i], m, clock))
    && (!t.docs[i].deleted ==>
          && doc.offset < |s.slots.vecs| && doc.offset < |t.slots.vecs|
          && t.slots.vecs[doc.offset] == s.slots.vecs[doc.offset])
  }

  // ----- a sweep -----

  /** Parts only lose what the sweep takes out; no vector is written. */
  ghost predicate OnlyTakes(s: View, t: View) {
    && t.ids == s.ids && t.slots.vecs == s.slots.vecs && |t.slots.live| == |s.slots.live|
    && (forall slot :: 0 <= slot < |s.slots.live| && t.slots.live[slot] ==> s.slots.live[slot])
    && (forall id :: id in t.words ==> id in s.words && t.words[id] == s.words[id])
    && (forall id :: id in t.entries <==> id in s.entries)
    && (forall id :: id in s.entries && s.entries[id].deleted ==> t.entries[id].deleted)
  }

  lemma {:induction false} SweepOnlyTakes(s: View, m: nat, clock: Clock)
    ensures OnlyTakes(s, Purged(s, m, clock))
  {
    if m > 0 && s.docs != [] {
      SweepOnlyTakes(s, m - 1, clock);
      StepOnlyTakes(Purged(s, m - 1, clock), clock(m - 1));
      assert Purged(s, m, clock) == SweepStep(Purged(s, m - 1, clock), clock(m - 1));
      hide Purged, SweepStep, OnlyTakes;
      TakesChain(s, Purged(s, m - 1, clock), Purged(s, m, clock));
    }
  }

  lemma TakesChain(s: View, t: View, u: View)
    requires OnlyTakes(s, t) && OnlyTakes(t, u)
    ensures OnlyTakes(s, u)
  {
  }

  lemma StepOnlyTakes(t: View, now: int)
    requires t.docs != []
    ensures OnlyTakes(t, SweepStep(t, now))
  {
  }

  lemma SweepDoc(s: View, m: nat, clock: Clock, i: nat)
    requires i < |s.docs|
    ensures var t := Purged(s, m, clock); t.docs[i] == s.docs[i] || SweptOut(s.docs[i], t.docs[i], m, clock)
  {
    PurgedDoc(s, m, clock, i);
    hide Purged, LooksAt;
  }

  /** Docs that are as before, or swept out. */
  ghost predicate OnlySwept(before: seq<ShardDoc>, after: seq<ShardDoc>, m: nat, clock: Clock) {
    |after| == |before| && forall i :: 0 <= i < |before| ==>
      after[i] == before[i] || SweptOut(before[i], after[i], m, clock)
  }

  lemma SweepDocs(s: View, m: nat, clock: Clock)
    ensures OnlySwept(s.docs, Purged(s, m, clock).docs, m, clock)
  {
    forall i | 0 <= i < |s.docs|
      ensures var t := Purged(s, m, clock); t.docs[i] == s.docs[i] || SweptOut(s.docs[i], t.docs[i], m, clock)
    {
      SweepDoc(s, m, clock, i);
    }
  }

  /** A sweep takes out docs it finds expired, and touches no other doc and no vector. */
  lemma SweepKeeps(s: View, m: nat, clock: Clock)
    requires SlotsAgree(s.docs, s.slots)
    ensures OnlyTakes(s, Purged(s, m, clock))
    ensures forall i :: 0 <= i < |s.docs| ==> Kept(s, Purged(s, m, clock), m, clock, i)
  {
    SweepOnlyTakes(s, m, clock);
    forall i | 0 <= i < |s.docs| ensures Kept(s, Purged(s, m, clock), m, clock, i) {
      SweepDoc(s, m, clock, i);
      if !s.docs[i].deleted { InSlot(s.docs, s.slots, i); }
    }
  }

  lemma InSlot(docs: seq<ShardDoc>, slots: Table<Vector>, i: nat)
    requires SlotsAgree(docs, slots) && i < |docs| && !docs[i].deleted
    ensures docs[i].offset < |slots.vecs| && slots.live[docs[i].offset]
  {
    assert Owned(docs, docs[i].offset);
    assert IsLiveSlot(slots, docs[i].offset);
  }

  // ----- an upsert -----

  /** The doc under this key is live with just these contents; its slot is in use and holds this vector,
      the index has it there, and the keywords count the words of its text. */
  ghost predicate Holds(t: View, key: string, vec: Vector, meta: Meta, expiry: Option<int>, text: Option<string>,
                        norm: real) {
    && key in t.ids && t.ids[key] < |t.docs|
    && var id, doc := t.ids[key], t.docs[t.ids[key]];
    && !doc.deleted && doc.key == key && doc.meta == meta && doc.expiry == expiry && doc.text == text
    && doc.offset < |t.slots.vecs| && t.slots.vecs[doc.offset] == vec
    && doc.offset < |t.slots.live| && t.slots.live[doc.offset]
    && id in t.entries && t.entries[id] == Item(doc.offset, norm, false)
    && (id in t.words <==> text.Some? && Words(text.value) != [])
    && (id in t.words ==> forall w :: w in t.words[id] <==> w in Words(text.value))
    && (id in t.words ==> forall w :: w in t.words[id] ==> t.words[id][w] == multiset(Words(text.value))[w])
  }

  /** An upsert with this outcome: the doc it stored, under its old id and slot or as one more doc, and every
      other doc. */
  ghost predicate Took(s: View, t: View, status: Status, maxPoints: nat, clock: Clock, key: string, vec: Vector,
                       meta: Meta, expiry: Option<int>, text: Option<string>, norm: real) {
    && status == (if key in s.ids || maxPoints == 0 || |s.docs| < maxPoints then Ok else ResourceExhausted)
    && (status == Ok ==> Holds(t, key, vec, meta, expiry, text, norm))
    && (if key in s.ids || status != Ok then t.ids == s.ids && |t.docs| == |s.docs|
        else t.ids == s.ids[key := |s.docs|] && |t.docs| == |s.docs| + 1)
    && (key in s.ids ==>
          var id := s.ids[key];
          id < |s.docs| && t.docs[id].gen > s.docs[id].gen && t.docs[id].offset == s.docs[id].offset)
  }

  ghost predicate OthersKept(s: View, t: View, clock: Clock, key: string) {
    forall i :: 0 <= i < |s.docs| && s.docs[i].key != key ==> Kept(s, t, 32, clock, i)
  }

  lemma DocHolds(t: View, id: nat, doc: ShardDoc, words: DocTokens, vec: Vector, norm: real)
    requires id < |t.docs| && t.docs[id] == doc && !doc.deleted && t.words == AfterUpsert(words, id, doc.text)
    requires doc.key in t.ids && t.ids[doc.key] == id
    requires id in t.entries && t.entries[id] == Item(doc.offset, norm, false)
    requires doc.offset < |t.slots.vecs| == |t.slots.live| && t.slots.vecs[doc.offset] == vec
             && t.slots.live[doc.offset]
    ensures Holds(t, doc.key, vec, doc.meta, doc.expiry, doc.text, norm)
  {
    AfterUpsertRetells(words, id, doc.text);
    hide AfterUpsert, Words;
  }

  lemma RenewedHolds(s: View, dim: nat, maxPoints: nat, key: string, vec: Vector, meta: Meta, expiry: Option<int>,
                     text: Option<string>, norm: real)
    requires Coherent(s) && key in s.ids && NextSlot(s.slots) <= |s.slots.live|
    ensures var (status, t) := Stored(s, dim, maxPoints, key, vec, meta, expiry, text, norm);
            && status == Ok && Holds(t, key, vec, meta, expiry, text, norm) && t.ids == s.ids
            && t.docs == s.docs[s.ids[key] := t.docs[s.ids[key]]]
            && t.docs[s.ids[key]].gen == s.docs[s.ids[key]].gen + 1
            && t.docs[s.ids[key]].offset == s.docs[s.ids[key]].offset
            && (forall slot :: 0 <= slot < |s.slots.vecs| && slot != s.docs[s.ids[key]].offset ==>
                  slot < |t.slots.vecs| && t.slots.vecs[slot] == s.slots.vecs[slot])
  {
    var id := s.ids[key];
    var doc := RenewedDoc(s.docs[id], meta, expiry, text);
    UpdateFills(s.slots, Repeat(0, dim), doc.offset, vec);
    hide AfterUpsert, Words, WordsAgree, EntriesAgree, SlotsAgree, LiveDocs, Updated, Repeat, Holds;
    var (status, t) := Stored(s, dim, maxPoints, key, vec, meta, expiry, text, norm);
    DocHolds(t, id, doc, s.words, vec, norm);
  }

  lemma EntriesCount(docs: seq<ShardDoc>, entries: map<nat, Item>)
    requires EntriesAgree(docs, entries)
    ensures |entries| == |docs|
  {
    assert entries.Keys == Below(|docs|);
    assert |entries| == |entries.Keys|;
  }

  lemma AddedHolds(s: View, dim: nat, maxPoints: nat, key: string, vec: Vector, meta: Meta, expiry: Option<int>,
                   text: Option<string>, norm: real)
    requires Coherent(s) && key !in s.ids && NextSlot(s.slots) <= |s.slots.live|
    ensures var (status, t) := Stored(s, dim, maxPoints, key, vec, meta, expiry, text, norm);
            && status == (if maxPoints == 0 || |s.docs| < maxPoints then Ok else ResourceExhausted)
            && (status == Ok ==>
                  && Holds(t, key, vec, meta, expiry, text, norm) && t.ids == s.ids[key := |s.docs|]
                  && |t.docs| == |s.docs| + 1 && t.docs[..|s.docs|] == s.docs)
            && (status != Ok ==> t.ids == s.ids && t.docs == s.docs)
            && (forall slot :: 0 <= slot < |s.slots.vecs| && slot != NextSlot(s.slots) ==>
                  slot < |t.slots.vecs| && t.slots.vecs[slot] == s.slots.vecs[slot])
  {
    EntriesCount(s.docs, s.entries);
    InsertFills(s.slots, vec);
    assert s.live <= |s.docs| && |s.docs| !in s.entries;
    hide AfterUpsert, Holds, KeysAgree, EntriesAgree, WordsAgree, SlotsAgree, Inserted, Released, NextSlot, LiveDocs;
    var (status, t) := Stored(s, dim, maxPoints, key, vec, meta, expiry, text, norm);
    if status == Ok {
      DocHolds(t, |s.docs|, t.docs[|s.docs|], s.words, vec, norm);
    }
  }

  /** Docs other than the one stored are as the sweep left them, their slots not written. */
  lemma OthersStay(s: View, p: View, t: View, clock: Clock, key: string, slot: nat)
    requires OnlyTakes(s, p) && |p.docs| == |s.docs| <= |t.docs|
    requires forall i :: 0 <= i < |s.docs| ==> Kept(s, p, 32, clock, i)
    requires forall i :: 0 <= i < |s.docs| && s.docs[i].key != key ==>
               t.docs[i] == p.docs[i] && (!p.docs[i].deleted ==> p.docs[i].offset != slot)
    requires forall x :: 0 <= x < |p.slots.vecs| && x != slot ==>
               x < |t.slots.vecs| && t.slots.vecs[x] == p.slots.vecs[x]
    ensures OthersKept(s, t, clock, key)
  {
    forall i | 0 <= i < |s.docs| && s.docs[i].key != key ensures Kept(s, t, 32, clock, i) {
      assert Kept(s, p, 32, clock, i);
    }
  }

  lemma SweptIsClose(s: View, clock: Clock)
    requires Coherent(s)
    ensures var p := Purged(s, 32, clock);
            && Coherent(p) && OnlyTakes(s, p) && NextSlot(p.slots) <= |p.slots.live| == |p.slots.vecs|
            && !IsLiveSlot(p.slots, NextSlot(p.slots))
            && (forall i :: 0 <= i < |s.docs| ==> Kept(s, p, 32, clock, i))
  {
    var p := Purged(s, 32, clock);
    PurgeKeeps(s, 32, clock);
    SweepKeeps(s, 32, clock);
    InsertKeeps(p.slots, []);
    hide Purged, Consistent, NextSlot, Kept, OnlyTakes, LiveDocs;
  }

  lemma KeptIsLater(s: View, t: View, m: nat, clock: Clock, i: nat)
    requires i < |s.docs| && Kept(s, t, m, clock, i)
    ensures i < |t.docs| && t.docs[i].key == s.docs[i].key && t.docs[i].offset == s.docs[i].offset
    ensures t.docs[i].gen >= s.docs[i].gen
  {
  }

  lemma NotAtSlot(docs: seq<ShardDoc>, slots: Table<Vector>, slot: nat)
    requires SlotsAgree(docs, slots) && !IsLiveSlot(slots, slot)
    ensures forall i :: 0 <= i < |docs| && !docs[i].deleted ==> docs[i].offset != slot
  {
    forall i | 0 <= i < |docs| && !docs[i].deleted ensures docs[i].offset != slot {
      assert Owned(docs, docs[i].offset);
    }
  }

  lemma OthersElsewhere(s: View, id: nat)
    requires Coherent(s) && id < |s.docs| && !s.docs[id].deleted
    ensures forall i :: 0 <= i < |s.docs| && i != id && !s.docs[i].deleted ==> s.docs[i].offset != s.docs[id].offset
  {
  }

  /** In a shard whose parts agree: what an upsert stores, when it is refused, and what stays. */
  lemma UpsertTakes(s: View, clock: Clock, dim: nat, maxPoints: nat, key: string, vec: Vector, meta: Meta,
                    expiry: Option<int>, text: Option<string>, norm: real)
    requires Coherent(s)
    ensures var p := Purged(s, BUDGET, clock);
            && |p.slots.vecs| == |p.slots.live| && NextSlot(p.slots) <= |p.slots.live|
            && (key in p.ids ==> p.ids[key] < |p.docs|)
    ensures var (status, t) := Upserted(s, clock, dim, maxPoints, key, vec, meta, expiry, text, norm);
            && Took(s, t, status, maxPoints, clock, key, vec, meta, expiry, text, norm)
            && (!Unusable(s, clock, key) ==> OthersKept(s, t, clock, key))
  {
    SweptIsClose(s, clock);
    if key in s.ids {
      assert s.ids[key] < |s.docs| && s.docs[s.ids[key]].key == key;
      KnownTakes(s, Purged(s, 32, clock), clock, dim, maxPoints, key, vec, meta, expiry, text, norm);
      if !Unusable(s, clock, key) { PurgedDoc(s, 32, clock, s.ids[key]); }
    } else {
      NewTakes(s, Purged(s, 32, clock), clock, dim, maxPoints, key, vec, meta, expiry, text, norm);
    }
    hide Purged, Stored, Took, OthersKept, SlotsAgree, EntriesAgree, WordsAgree, LiveDocs, NextSlot;
  }

  lemma KnownTakes(s: View, p: View, clock: Clock, dim: nat, maxPoints: nat, key: string, vec: Vector, meta: Meta,
                   expiry: Option<int>, text: Option<string>, norm: real)
    requires key in s.ids && s.ids[key] < |s.docs| && s.docs[s.ids[key]].key == key
    requires Coherent(p) && OnlyTakes(s, p) && |p.docs| == |s.docs|
    requires NextSlot(p.slots) <= |p.slots.live| && forall i :: 0 <= i < |s.docs| ==> Kept(s, p, 32, clock, i)
    ensures var (status, t) := Stored(p, dim, maxPoints, key, vec, meta, expiry, text, norm);
            && Took(s, t, status, maxPoints, clock, key, vec, meta, expiry, text, norm)
            && (!p.docs[s.ids[key]].deleted ==> OthersKept(s, t, clock, key))
  {
    var (status, t) := Stored(p, dim, maxPoints, key, vec, meta, expiry, text, norm);
    var id := s.ids[key];
    RenewedHolds(p, dim, maxPoints, key, vec, meta, expiry, text, norm);
    KeptIsLater(s, p, 32, clock, id);
    hide Stored, Holds, Coherent, Kept, NextSlot;
    if !p.docs[id].deleted {
      OthersElsewhere(p, id);
      OthersStay(s, p, t, clock, key, p.docs[id].offset);
    }
  }

  lemma NewTakes(s: View, p: View, clock: Clock, dim: nat, maxPoints: nat, key: string, vec: Vector, meta: Meta,
                 expiry: Option<int>, text: Option<string>, norm: real)
    requires key !in s.ids && Coherent(p) && OnlyTakes(s, p) && |p.docs| == |s.docs|
    requires NextSlot(p.slots) <= |p.slots.live| && !IsLiveSlot(p.slots, NextSlot(p.slots))
    requires forall i :: 0 <= i < |s.docs| ==> Kept(s, p, 32, clock, i)
    ensures var (status, t) := Stored(p, dim, maxPoints, key, vec, meta, expiry, text, norm);
            && Took(s, t, status, maxPoints, clock, key, vec, meta, expiry, text, norm)
            && OthersKept(s, t, clock, key)
  {
    var (status, t) := Stored(p, dim, maxPoints, key, vec, meta, expiry, text, norm);
    AddedHolds(p, dim, maxPoints, key, vec, meta, expiry, text, norm);
    NotAtSlot(p.docs, p.slots, NextSlot(p.slots));
    hide Stored, Holds, Coherent, Kept, NextSlot;
    forall i | 0 <= i < |s.docs| ensures i < |t.docs| && t.docs[i] == p.docs[i] {
      assert status == Ok ==> t.docs[..|p.docs|][i] == p.docs[i];
    }
    OthersStay(s, p, t, clock, key, NextSlot(p.slots));
  }

  /** Every search over the shard's live docs finds the stored doc, scored by the stored vector. */
  lemma StoredIsFound(t: View, key: string, vec: Vector, meta: Meta, expiry: Option<int>, text: Option<string>,
                      norm: real, score: Vector -> real)
    requires Holds(t, key, vec, meta, expiry, text, norm)
    ensures Hit(key, score(vec), t.ids[key]) in ShardLive(t, score)
  {
    LiveHitsAre(t.docs, SlotScore(t.slots, score));
    hide LiveHits;
  }

  // ----- a delete -----

  /** The key's doc is deleted under the next generation, gone from the keywords and the index, and its
      slot is free; every other doc is as it was or swept out. */
  ghost predicate Removed(s: View, t: View, clock: Clock, key: string) {
    && key in s.ids && s.ids[key] < |s.docs| && t.ids == s.ids && |t.docs| == |s.docs|
    && var id := s.ids[key];
    && t.docs[id] == s.docs[id].(deleted := true, gen := s.docs[id].gen + 1)
    && id !in t.words && (id in t.entries ==> t.entries[id].deleted)
    && (s.docs[id].offset < |t.slots.live| ==> !t.slots.live[s.docs[id].offset])
    && (forall i :: 0 <= i < |s.docs| && i != id ==> Kept(s, t, 32, clock, i))
  }

  lemma DropRemoves(s: View, id: nat)
    requires id < |s.docs|
    ensures var d := Dropped(s, id);
            && d.ids == s.ids && d.docs == s.docs[id := s.docs[id].(deleted := true, gen := s.docs[id].gen + 1)]
            && d.slots.vecs == s.slots.vecs && id !in d.words && (id in d.entries ==> d.entries[id].deleted)
            && |d.slots.live| == |s.slots.live|
            && (s.docs[id].offset < |d.slots.live| ==> !d.slots.live[s.docs[id].offset])
  {
  }

  lemma DeleteRemoves(s: View, clock: Clock, key: string)
    requires key in s.ids && s.ids[key] < |s.docs| && SlotsAgree(s.docs, s.slots)
    ensures Removed(s, Purged(Dropped(s, s.ids[key]), 32, clock), clock, key)
  {
    var id := s.ids[key];
    var d := Dropped(s, id);
    DropRemoves(s, id);
    SweepOnlyTakes(d, 32, clock);
    forall i | 0 <= i < |s.docs| ensures i != id ==> Kept(s, Purged(d, 32, clock), 32, clock, i) {
      SweepDoc(d, 32, clock, i);
      if !s.docs[i].deleted { InSlot(s.docs, s.slots, i); }
    }
    SweepDoc(d, 32, clock, id);
    hide Purged, Dropped, SlotsAgree, Kept;
  }
}
