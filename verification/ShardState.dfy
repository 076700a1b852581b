/** One shard as a value: the doc table, the slots, the index entries and the keyword counts,
    what each operation does to them, and when they keep agreeing. */
module ShardState {
  import opened Options
  import opened Slots
  import opened VectorStore
  import opened FlatIndex
  import opened KeywordIndex
  import opened Tokens
  import opened Status

  /** The times at which a loop reads the clock, one for each doc it looks at. */
  type Clock = nat -> int

  type Meta = map<string, string>

  datatype ShardDoc = ShardDoc(key: string, meta: Meta, offset: nat, deleted: bool, gen: nat,
                               expiry: Option<int>, text: Option<string>)

  datatype View = View(docs: seq<ShardDoc>, ids: map<string, nat>, cursor: nat, live: nat,
                         slots: Table<Vector>, entries: map<nat, Item>, words: DocTokens)

  const BUDGET: nat := 32

  predicate IsExpired(doc: ShardDoc, now: int) {
    doc.expiry.Some? && now >= doc.expiry.value
  }

  function Less(n: nat): nat {
    if n > 0 then n - 1 else 0
  }

  // ----- taking a doc out -----

  function MarkedDoc(doc: ShardDoc): ShardDoc {
    doc.(deleted := true, gen := doc.gen + 1)
  }

  function EntryOff(entries: map<nat, Item>, id: nat): map<nat, Item> {
    if id in entries then entries[id := entries[id].(deleted := true)] else entries
  }

  /** Marks a doc deleted under a new generation and takes it out of the index, the keywords and
      the store. */
  function Dropped(s: View, id: nat): View
    requires id < |s.docs|
  {
    s.(docs := s.docs[id := MarkedDoc(s.docs[id])], live := Less(s.live),
       slots := Released(s.slots, s.docs[id].offset),
       entries := EntryOff(s.entries, id),
       words := WithoutDoc(s.words, id))
  }

  // ----- the sweep over expired docs -----

  function Wrapped(cursor: nat, n: nat): nat {
    if cursor >= n then 0 else cursor
  }

  /** The sweep's next doc is looked at. */
  function SweepStep(t: View, now: int): (u: View)
    requires t.docs != []
    ensures |u.docs| == |t.docs|
  {
    var at := Wrapped(t.cursor, |t.docs|);
    var u := if !t.docs[at].deleted && IsExpired(t.docs[at], now) then Dropped(t, at) else t;
    u.(cursor := at + 1)
  }

  /** The shard after the sweep has looked at m docs. */
  function Purged(s: View, m: nat, clock: Clock): (r: View)
    ensures |r.docs| == |s.docs|
  {
    if m == 0 || s.docs == [] then s else SweepStep(Purged(s, m - 1, clock), clock(m - 1))
  }

  /** The doc the sweep looks at after k others, starting from this cursor. */
  function LooksAt(cursor: nat, n: nat, k: nat): (at: nat)
    requires n > 0
    ensures at < n
  {
    if k == 0 then Wrapped(cursor, n) else Wrapped(LooksAt(cursor, n, k - 1) + 1, n)
  }

  lemma {:induction false} CursorAt(s: View, m: nat, clock: Clock)
    requires s.docs != []
    ensures Wrapped(Purged(s, m, clock).cursor, |s.docs|) == LooksAt(s.cursor, |s.docs|, m)
  {
    if m > 0 {
      CursorAt(s, m - 1, clock);
    }
  }

  /** Whether a sweep of m docs takes doc i out: it is live, and expired at a time the sweep looks
      at it. */
  ghost predicate Reaped(s: View, m: nat, clock: Clock, i: nat)
    requires i < |s.docs|
  {
    !s.docs[i].deleted
    && exists k :: 0 <= k < m && LooksAt(s.cursor, |s.docs|, k) == i && IsExpired(s.docs[i], clock(k))
  }

  lemma NothingReaped(s: View, clock: Clock, i: nat)
    requires i < |s.docs|
    ensures !Reaped(s, 0, clock, i)
  {
  }

  lemma ReapedOneMore(s: View, m: nat, clock: Clock, i: nat)
    requires i < |s.docs|
    ensures Reaped(s, m + 1, clock, i) <==>
            Reaped(s, m, clock, i)
            || (LooksAt(s.cursor, |s.docs|, m) == i && !s.docs[i].deleted && IsExpired(s.docs[i], clock(m)))
  {
  }

  lemma SteppedDoc(t: View, now: int, i: nat)
    requires i < |t.docs|
    ensures SweepStep(t, now).docs[i] ==
            if i == Wrapped(t.cursor, |t.docs|) && !t.docs[i].deleted && IsExpired(t.docs[i], now)
            then MarkedDoc(t.docs[i]) else t.docs[i]
  {
  }

  /** A sweep marks exactly the live docs it finds expired, each once, under the next generation,
      and leaves every other doc as it was. */
  lemma {:induction false} PurgedDoc(s: View, m: nat, clock: Clock, i: nat)
    requires i < |s.docs|
    ensures Purged(s, m, clock).docs[i] == if Reaped(s, m, clock, i) then MarkedDoc(s.docs[i]) else s.docs[i]
  {
    hide SweepStep, Wrapped, LooksAt, Reaped;
    if m == 0 {
      NothingReaped(s, clock, i);
    } else {
      PurgedDoc(s, m - 1, clock, i);
      SteppedDoc(Purged(s, m - 1, clock), clock(m - 1), i);
      CursorAt(s, m - 1, clock);
      ReapedOneMore(s, m - 1, clock, i);
    }
  }

  // ----- storing a doc -----

  function RenewedDoc(doc: ShardDoc, meta: Meta, expiry: Option<int>, text: Option<string>): ShardDoc {
    doc.(meta := meta, deleted := false, gen := doc.gen + 1, expiry := expiry, text := text)
  }

  /** A known key: its doc renewed in every part. */
  function Renewed(s: View, dim: nat, id: nat, doc: ShardDoc, vec: Vector, norm: real): View
    requires id < |s.docs| && |s.slots.vecs| == |s.slots.live|
  {
    s.(slots := Updated(s.slots, Repeat(0, dim), doc.offset, vec),
       entries := s.entries[id := Item(doc.offset, norm, false)],
       docs := s.docs[id := doc], words := AfterUpsert(s.words, id, doc.text))
  }

  /** An upsert after its sweep: a known key keeps its slot, a new one takes the next slot, and
      the index may refuse it. */
  function Stored(s: View, dim: nat, maxPoints: nat, key: string, vec: Vector, meta: Meta, expiry: Option<int>,
                  text: Option<string>, norm: real): (Status, View)
    requires |s.slots.vecs| == |s.slots.live| && NextSlot(s.slots) <= |s.slots.live|
    requires key in s.ids ==> s.ids[key] < |s.docs|
  {
    if key in s.ids then
      var id := s.ids[key];
      (Ok, Renewed(s, dim, id, RenewedDoc(s.docs[id], meta, expiry, text), vec, norm))
    else if 0 < maxPoints <= s.live then (ResourceExhausted, s)
    else
      var id, slot := |s.docs|, NextSlot(s.slots);
      var slots := Inserted(s.slots, vec);
      if id !in s.entries && 0 < maxPoints <= |s.entries| then (ResourceExhausted, s.(slots := Released(slots, slot)))
      else
        (Ok, s.(slots := slots, entries := s.entries[id := Item(slot, norm, false)],
                docs := s.docs + [ShardDoc(key, meta, slot, false, 1, expiry, text)],
                ids := s.ids[key := id], live := s.live + 1,
                words := AfterUpsert(s.words, id, text)))
  }

  // ----- when the parts agree -----

  ghost predicate KeysAgree(docs: seq<ShardDoc>, ids: map<string, nat>) {
    && (forall k :: k in ids ==> ids[k] < |docs| && docs[ids[k]].key == k)
    && (forall i :: 0 <= i < |docs| ==> docs[i].key in ids && ids[docs[i].key] == i)
  }

  /** The index knows every doc, at its slot, and which are deleted. */
  ghost predicate EntriesAgree(docs: seq<ShardDoc>, entries: map<nat, Item>) {
    && (forall id: nat :: id in entries <==> id < |docs|)
    && (forall id: nat :: id in entries ==>
          entries[id].deleted == docs[id].deleted && entries[id].offset == docs[id].offset)
  }

  predicate HasWords(text: Option<string>) {
    text.Some? && Words(text.value) != []
  }

  /** The keyword index holds exactly the live docs with words, under their current text. */
  ghost predicate WordsAgree(docs: seq<ShardDoc>, words: DocTokens) {
    && (forall id: nat :: id in words <==> id < |docs| && !docs[id].deleted && HasWords(docs[id].text))
    && (forall id: nat :: id in words ==> words[id] == CountsOf(Words(docs[id].text.value)))
  }

  ghost predicate Owned(docs: seq<ShardDoc>, slot: nat) {
    exists i :: 0 <= i < |docs| && !docs[i].deleted && docs[i].offset == slot
  }

  /** The live slots are the live docs' slots, one each. */
  ghost predicate SlotsAgree(docs: seq<ShardDoc>, slots: Table<Vector>) {
    && Consistent(slots)
    && (forall slot: nat :: IsLiveSlot(slots, slot) <==> Owned(docs, slot))
    && (forall i, j :: 0 <= i < j < |docs| && !docs[i].deleted && !docs[j].deleted ==> docs[i].offset != docs[j].offset)
  }

  function LiveDocs(docs: seq<ShardDoc>): (n: nat)
    ensures n <= |docs|
  {
    if docs == [] then 0 else LiveDocs(docs[..|docs| - 1]) + if docs[|docs| - 1].deleted then 0 else 1
  }

  ghost predicate Coherent(s: View) {
    && KeysAgree(s.docs, s.ids) && EntriesAgree(s.docs, s.entries) && WordsAgree(s.docs, s.words)
    && SlotsAgree(s.docs, s.slots) && s.live == LiveDocs(s.docs)
  }

  lemma {:induction false} LiveDocsUpdate(docs: seq<ShardDoc>, i: nat, doc: ShardDoc)
    requires i < |docs|
    ensures LiveDocs(docs[i := doc]) == LiveDocs(docs)
            + (if docs[i].deleted then 1 else 0) - (if doc.deleted then 1 else 0)
  {
    var front := docs[..|docs| - 1];
    if i == |docs| - 1 {
      assert docs[i := doc][..|docs| - 1] == front;
    } else {
      assert docs[i := doc][..|docs| - 1] == front[i := doc];
      LiveDocsUpdate(front, i, doc);
    }
  }

  lemma {:induction false} NoneLive(docs: seq<ShardDoc>, i: nat)
    requires i < |docs| && LiveDocs(docs) == 0
    ensures docs[i].deleted
  {
    if i < |docs| - 1 {
      NoneLive(docs[..|docs| - 1], i);
    }
  }

  lemma {:induction false} SomeLive(docs: seq<ShardDoc>, i: nat)
    requires i < |docs| && !docs[i].deleted
    ensures LiveDocs(docs) > 0
  {
    if i < |docs| - 1 {
      SomeLive(docs[..|docs| - 1], i);
    }
  }

  lemma DropWords(docs: seq<ShardDoc>, words: DocTokens, id: nat)
    requires WordsAgree(docs, words) && id < |docs|
    ensures WordsAgree(docs[id := MarkedDoc(docs[id])], WithoutDoc(words, id))
  {
    hide CountsOf, HasWords;
  }

  lemma DropTables(docs: seq<ShardDoc>, ids: map<string, nat>, entries: map<nat, Item>, id: nat)
    requires KeysAgree(docs, ids) && EntriesAgree(docs, entries) && id < |docs|
    ensures KeysAgree(docs[id := MarkedDoc(docs[id])], ids)
    ensures EntriesAgree(docs[id := MarkedDoc(docs[id])], EntryOff(entries, id))
  {
  }

  lemma DropSlots(docs: seq<ShardDoc>, slots: Table<Vector>, id: nat)
    requires SlotsAgree(docs, slots) && id < |docs| && !docs[id].deleted
    ensures SlotsAgree(docs[id := MarkedDoc(docs[id])], Released(slots, docs[id].offset))
  {
    var after, slot := docs[id := MarkedDoc(docs[id])], docs[id].offset;
    ReleaseKeeps(slots, slot);
    assert forall x: nat :: IsLiveSlot(Released(slots, slot), x) <==> IsLiveSlot(slots, x) && x != slot;
    forall x: nat ensures Owned(after, x) <==> Owned(docs, x) && x != slot {
      if Owned(docs, x) && x != slot {
        var i :| 0 <= i < |docs| && !docs[i].deleted && docs[i].offset == x;
        assert after[i] == docs[i];
      }
      if Owned(after, x) {
        var i :| 0 <= i < |after| && !after[i].deleted && after[i].offset == x;
        assert after[i] == docs[i] && i != id;
      }
    }
    hide Owned, Released, IsLiveSlot;
  }

  lemma DropNoSlot(docs: seq<ShardDoc>, slots: Table<Vector>, id: nat)
    requires SlotsAgree(docs, slots) && id < |docs| && docs[id].deleted && LiveDocs(docs) == 0
    ensures SlotsAgree(docs[id := MarkedDoc(docs[id])], Released(slots, docs[id].offset))
  {
    var after := docs[id := MarkedDoc(docs[id])];
    forall i | 0 <= i < |docs| ensures docs[i].deleted && after[i].deleted {
      NoneLive(docs, i);
    }
    assert !Owned(docs, docs[id].offset);
    assert Released(slots, docs[id].offset) == slots;
    assert forall x: nat :: !Owned(after, x) && !Owned(docs, x);
  }

  /** Taking out a doc keeps the parts in agreement exactly when it was live, or when no doc is
      live and there is nothing left to get wrong. */
  lemma DropKeepsIff(s: View, id: nat)
    requires Coherent(s) && id < |s.docs|
    ensures Coherent(Dropped(s, id)) <==> !s.docs[id].deleted || s.live == 0
  {
    LiveDocsUpdate(s.docs, id, MarkedDoc(s.docs[id]));
    DropTables(s.docs, s.ids, s.entries, id);
    DropWords(s.docs, s.words, id);
    if !s.docs[id].deleted {
      SomeLive(s.docs, id);
      DropSlots(s.docs, s.slots, id);
    } else if s.live == 0 {
      DropNoSlot(s.docs, s.slots, id);
    }
    hide SlotsAgree, KeysAgree, EntriesAgree, WordsAgree, LiveDocs;
  }

  lemma SweepStepKeeps(t: View, now: int)
    requires Coherent(t) && t.docs != []
    ensures Coherent(SweepStep(t, now))
  {
    DropKeepsIff(t, Wrapped(t.cursor, |t.docs|));
    hide SlotsAgree, KeysAgree, EntriesAgree, WordsAgree, LiveDocs, Released, EntryOff, WithoutDoc;
  }

  lemma {:induction false} PurgeKeeps(s: View, m: nat, clock: Clock)
    requires Coherent(s)
    ensures Coherent(Purged(s, m, clock))
  {
    hide Coherent, SweepStep;
    if m > 0 && s.docs != [] {
      PurgeKeeps(s, m - 1, clock);
      SweepStepKeeps(Purged(s, m - 1, clock), clock(m - 1));
      assert Purged(s, m, clock) == SweepStep(Purged(s, m - 1, clock), clock(m - 1));
    }
  }

  // ----- storing keeps the agreement exactly when the key is not a deleted one -----

  lemma RenewTables(docs: seq<ShardDoc>, ids: map<string, nat>, entries: map<nat, Item>, id: nat, doc: ShardDoc,
                    norm: real)
    requires KeysAgree(docs, ids) && EntriesAgree(docs, entries) && id < |docs|
    requires !doc.deleted && doc.key == docs[id].key
    ensures KeysAgree(docs[id := doc], ids)
    ensures EntriesAgree(docs[id := doc], entries[id := Item(doc.offset, norm, false)])
  {
  }

  lemma RenewWords(docs: seq<ShardDoc>, words: DocTokens, id: nat, doc: ShardDoc)
    requires WordsAgree(docs, words) && id < |docs| && !doc.deleted
    ensures WordsAgree(docs[id := doc], AfterUpsert(words, id, doc.text))
  {
    hide CountsOf;
  }

  lemma RenewSlots(docs: seq<ShardDoc>, slots: Table<Vector>, zero: Vector, vec: Vector, id: nat, doc: ShardDoc)
    requires SlotsAgree(docs, slots) && id < |docs| && !docs[id].deleted
    requires !doc.deleted && doc.offset == docs[id].offset
    ensures SlotsAgree(docs[id := doc], Updated(slots, zero, doc.offset, vec))
  {
    var after, slot := docs[id := doc], doc.offset;
    assert Owned(docs, slot);
    UpdateKeeps(slots, zero, slot, vec);
    assert forall x: nat :: IsLiveSlot(Updated(slots, zero, slot, vec), x) <==> IsLiveSlot(slots, x);
    assert forall i :: 0 <= i < |docs| ==> after[i].deleted == docs[i].deleted && after[i].offset == docs[i].offset;
    assert forall x: nat :: Owned(after, x) <==> Owned(docs, x);
    hide Owned, Updated, IsLiveSlot;
  }

  lemma NewTables(docs: seq<ShardDoc>, ids: map<string, nat>, entries: map<nat, Item>, doc: ShardDoc, norm: real)
    requires KeysAgree(docs, ids) && EntriesAgree(docs, entries)
    requires !doc.deleted && doc.key !in ids
    ensures KeysAgree(docs + [doc], ids[doc.key := |docs|])
    ensures EntriesAgree(docs + [doc], entries[|docs| := Item(doc.offset, norm, false)])
  {
  }

  lemma NewWithWords(docs: seq<ShardDoc>, words: DocTokens, doc: ShardDoc)
    requires WordsAgree(docs, words) && !doc.deleted && HasWords(doc.text)
    ensures WordsAgree(docs + [doc], WithDoc(words, |docs|, CountsOf(Words(doc.text.value))))
  {
    hide CountsOf, Words;
    var after, now := docs + [doc], WithDoc(words, |docs|, CountsOf(Words(doc.text.value)));
    forall id: nat ensures id in now <==> id < |after| && !after[id].deleted && HasWords(after[id].text) {
      assert id < |docs| ==> after[id] == docs[id];
    }
  }

  lemma NewWithoutWords(docs: seq<ShardDoc>, words: DocTokens, doc: ShardDoc)
    requires WordsAgree(docs, words) && !HasWords(doc.text)
    ensures WordsAgree(docs + [doc], WithoutDoc(words, |docs|))
  {
    hide CountsOf, Words;
    NothingToRemove(words, |docs|);
    var after := docs + [doc];
    forall id: nat ensures id in words <==> id < |after| && !after[id].deleted && HasWords(after[id].text) {
      assert id < |docs| ==> after[id] == docs[id];
    }
  }

  lemma NewWords(docs: seq<ShardDoc>, words: DocTokens, doc: ShardDoc)
    requires WordsAgree(docs, words) && !doc.deleted
    ensures WordsAgree(docs + [doc], AfterUpsert(words, |docs|, doc.text))
  {
    hide WordsAgree, CountsOf, Words, WithDoc, WithoutDoc;
    if HasWords(doc.text) {
      NewWithWords(docs, words, doc);
    } else {
      NewWithoutWords(docs, words, doc);
    }
  }

  lemma NewSlots(docs: seq<ShardDoc>, slots: Table<Vector>, vec: Vector, doc: ShardDoc)
    requires SlotsAgree(docs, slots) && !doc.deleted && doc.offset == NextSlot(slots)
    ensures NextSlot(slots) <= |slots.live|
    ensures SlotsAgree(docs + [doc], Inserted(slots, vec))
  {
    var after, slot := docs + [doc], doc.offset;
    InsertKeeps(slots, vec);
    assert forall x: nat :: IsLiveSlot(Inserted(slots, vec), x) <==> IsLiveSlot(slots, x) || x == slot;
    forall x: nat ensures Owned(after, x) <==> Owned(docs, x) || x == slot {
      assert after[|docs|].offset == slot;
      if Owned(docs, x) {
        var i :| 0 <= i < |docs| && !docs[i].deleted && docs[i].offset == x;
        assert after[i] == docs[i];
      }
    }
    forall i | 0 <= i < |docs| && !docs[i].deleted ensures docs[i].offset != slot {
      assert Owned(docs, docs[i].offset);
    }
    hide Owned, Inserted, IsLiveSlot, NextSlot;
  }

  /** A refused insertion gives its slot back. */
  lemma RefusedSlots(docs: seq<ShardDoc>, slots: Table<Vector>, vec: Vector)
    requires SlotsAgree(docs, slots)
    ensures NextSlot(slots) <= |slots.live|
    ensures SlotsAgree(docs, Released(Inserted(slots, vec), NextSlot(slots)))
  {
    InsertKeeps(slots, vec);
    var slot, t := NextSlot(slots), Inserted(slots, vec);
    ReleaseKeeps(t, slot);
    assert forall x: nat :: IsLiveSlot(Released(t, slot), x) <==> IsLiveSlot(slots, x);
    hide Owned, Inserted, Released, IsLiveSlot, NextSlot;
  }

  lemma RenewKeepsIff(s: View, dim: nat, id: nat, doc: ShardDoc, vec: Vector, norm: real)
    requires Coherent(s) && id < |s.docs| && |s.slots.vecs| == |s.slots.live|
    requires !doc.deleted && doc.key == s.docs[id].key && doc.offset == s.docs[id].offset
    ensures Coherent(Renewed(s, dim, id, doc, vec, norm)) <==> !s.docs[id].deleted
  {
    hide SlotsAgree, KeysAgree, EntriesAgree, WordsAgree, LiveDocs, Updated, AfterUpsert, Repeat;
    LiveDocsUpdate(s.docs, id, doc);
    if !s.docs[id].deleted {
      RenewTables(s.docs, s.ids, s.entries, id, doc, norm);
      RenewWords(s.docs, s.words, id, doc);
      RenewSlots(s.docs, s.slots, Repeat(0, dim), vec, id, doc);
    }
  }

  lemma StoreKnown(s: View, dim: nat, maxPoints: nat, key: string, vec: Vector, meta: Meta, expiry: Option<int>,
                   text: Option<string>, norm: real)
    requires Coherent(s) && key in s.ids && NextSlot(s.slots) <= |s.slots.live|
    ensures Coherent(Stored(s, dim, maxPoints, key, vec, meta, expiry, text, norm).1) <==> !s.docs[s.ids[key]].deleted
  {
    var id := s.ids[key];
    assert id < |s.docs| && s.docs[id].key == key && |s.slots.vecs| == |s.slots.live|;
    hide Coherent;
    RenewKeepsIff(s, dim, id, RenewedDoc(s.docs[id], meta, expiry, text), vec, norm);
    hide Updated, AfterUpsert, Repeat, RenewedDoc, Inserted, Released, NextSlot;
  }

  lemma StoreNew(s: View, dim: nat, maxPoints: nat, key: string, vec: Vector, meta: Meta, expiry: Option<int>,
                 text: Option<string>, norm: real)
    requires Coherent(s) && key !in s.ids && NextSlot(s.slots) <= |s.slots.live|
    ensures Coherent(Stored(s, dim, maxPoints, key, vec, meta, expiry, text, norm).1)
  {
    hide SlotsAgree, KeysAgree, EntriesAgree, WordsAgree, Inserted, Released, AfterUpsert, NextSlot;
    var doc := ShardDoc(key, meta, NextSlot(s.slots), false, 1, expiry, text);
    RefusedSlots(s.docs, s.slots, vec);
    NewTables(s.docs, s.ids, s.entries, doc, norm);
    NewWords(s.docs, s.words, doc);
    NewSlots(s.docs, s.slots, vec, doc);
    assert (s.docs + [doc])[..|s.docs|] == s.docs;
  }

  lemma StoreKeepsIff(s: View, dim: nat, maxPoints: nat, key: string, vec: Vector, meta: Meta, expiry: Option<int>,
                      text: Option<string>, norm: real)
    requires Coherent(s)
    ensures NextSlot(s.slots) <= |s.slots.live|
    ensures Coherent(Stored(s, dim, maxPoints, key, vec, meta, expiry, text, norm).1) <==>
            !(key in s.ids && s.docs[s.ids[key]].deleted)
  {
    InsertKeeps(s.slots, vec);
    if key in s.ids {
      StoreKnown(s, dim, maxPoints, key, vec, meta, expiry, text, norm);
    } else {
      StoreNew(s, dim, maxPoints, key, vec, meta, expiry, text, norm);
    }
  }

  /** The whole upsert: the sweep first, then the store. */
  function Upserted(s: View, clock: Clock, dim: nat, maxPoints: nat, key: string, vec: Vector, meta: Meta,
                    expiry: Option<int>,
                    text: Option<string>, norm: real): (Status, View)
    requires var t := Purged(s, BUDGET, clock);
             && |t.slots.vecs| == |t.slots.live| && NextSlot(t.slots) <= |t.slots.live|
             && (key in t.ids ==> t.ids[key] < |t.docs|)
  {
    Stored(Purged(s, BUDGET, clock), dim, maxPoints, key, vec, meta, expiry, text, norm)
  }

  /** Whether the key names a doc that is deleted, or expired and about to be swept. */
  ghost predicate Unusable(s: View, clock: Clock, key: string)
    requires KeysAgree(s.docs, s.ids)
  {
    key in s.ids && (s.docs[s.ids[key]].deleted || Reaped(s, BUDGET, clock, s.ids[key]))
  }

  /** An upsert leaves the four parts in agreement if and only if its key is new, or names a doc
      that is neither deleted nor expired within reach of the sweep that the upsert itself runs
      first. */
  lemma UpsertKeepsIff(s: View, clock: Clock, dim: nat, maxPoints: nat, key: string, vec: Vector, meta: Meta,
                       expiry: Option<int>,
                       text: Option<string>, norm: real)
    requires Coherent(s)
    ensures Coherent(Purged(s, BUDGET, clock))
    ensures NextSlot(Purged(s, BUDGET, clock).slots) <= |Purged(s, BUDGET, clock).slots.live|
    ensures Coherent(Upserted(s, clock, dim, maxPoints, key, vec, meta, expiry, text, norm).1) <==>
              !Unusable(s, clock, key)
  {
    PurgeKeeps(s, BUDGET, clock);
    KeysUntouched(s, BUDGET, clock);
    var t := Purged(s, BUDGET, clock);
    StoreKeepsIff(t, dim, maxPoints, key, vec, meta, expiry, text, norm);
    if key in s.ids {
      PurgedDoc(s, BUDGET, clock, s.ids[key]);
    }
    hide Purged, Stored, Reaped, SlotsAgree, EntriesAgree, WordsAgree;
  }

  lemma {:induction false} KeysUntouched(s: View, m: nat, clock: Clock)
    ensures Purged(s, m, clock).ids == s.ids
  {
    if m > 0 {
      KeysUntouched(s, m - 1, clock);
    }
  }
}
