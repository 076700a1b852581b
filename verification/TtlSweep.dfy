/** Bounded response of the TTL sweep: over successive calls, wherever the cursor starts, every
    expired doc is taken out of every part of the shard, once. */
module TtlSweep {
  import opened Sequences
  import opened Slots
  import opened VectorStore
  import opened KeywordIndex
  import opened ShardState

  /** How many docs the sweep looks at before doc i, starting from this cursor. */
  function Distance(cursor: nat, n: nat, i: nat): (d: nat)
    requires i < n
    ensures d < n
  {
    var w := Wrapped(cursor, n);
    if i >= w then i - w else i + n - w
  }

  lemma {:induction false} LooksOnce(cursor: nat, n: nat, k: nat)
    requires k < n
    ensures var w := Wrapped(cursor, n); LooksAt(cursor, n, k) == if w + k < n then w + k else w + k - n
  {
    if k > 0 {
      LooksOnce(cursor, n, k - 1);
    }
  }

  /** Within one round the sweep looks at doc i after Distance others, and only then. */
  lemma ReachedAt(cursor: nat, n: nat, i: nat, k: nat)
    requires i < n && k < n
    ensures LooksAt(cursor, n, k) == i <==> k == Distance(cursor, n, i)
  {
    LooksOnce(cursor, n, k);
  }

  lemma DistanceShrinks(s: View, m: nat, clock: Clock, i: nat)
    requires i < |s.docs| && m <= Distance(s.cursor, |s.docs|, i)
    ensures Distance(Purged(s, m, clock).cursor, |s.docs|, i) == Distance(s.cursor, |s.docs|, i) - m
  {
    CursorAt(s, m, clock);
    LooksOnce(s.cursor, |s.docs|, m);
  }

  /** One call of the sweep: the shard it finds and the clock it reads. */
  datatype Call = Call(before: View, clock: Clock)

  function After(c: Call): (t: View)
    ensures |t.docs| == |c.before.docs|
  {
    Purged(c.before, BUDGET, c.clock)
  }

  /** Calls one after the other, under a monotone clock, on a table of n docs whose parts agree. In
      between anything may happen to the other docs, as long as the table does not grow; the cursor
      moves only in sweeps, and doc i is left alone. */
  ghost predicate Successive(calls: seq<Call>, n: nat, i: nat) {
    && i < n
    && (forall k :: 0 <= k < |calls| ==> FairCall(calls[k], n))
    && (forall k :: 0 < k < |calls| ==> Follows(calls[k - 1], calls[k], i))
  }

  ghost predicate FairCall(c: Call, n: nat) {
    && |c.before.docs| == n && Coherent(c.before)
    && forall a: nat, b: nat :: a <= b ==> c.clock(a) <= c.clock(b)
  }

  ghost predicate Follows(c: Call, d: Call, i: nat) {
    && |d.before.docs| == |c.before.docs| > i && c.clock(BUDGET) <= d.clock(0)
    && d.before.cursor == After(c).cursor && d.before.docs[i] == After(c).docs[i]
  }

  ghost predicate ReapedIn(c: Call, i: nat) {
    i < |c.before.docs| && Reaped(c.before, BUDGET, c.clock, i)
  }

  lemma {:induction false} PurgedSlotCount(s: View, m: nat, clock: Clock)
    ensures |Purged(s, m, clock).slots.live| == |s.slots.live|
  {
    if m > 0 {
      PurgedSlotCount(s, m - 1, clock);
    }
  }

  /** Everything a sweep that takes out doc i does to it: a new generation, gone from the keywords,
      deleted in the index, and its slot, in use before and not free, is now free. */
  ghost predicate TakenOut(s: View, t: View, i: nat)
    requires i < |s.docs| == |t.docs|
  {
    && t.docs[i] == s.docs[i].(deleted := true, gen := s.docs[i].gen + 1) && i !in t.words && i in t.entries
        && t.entries[i].deleted
    && (var slot := s.docs[i].offset;
        && IsLiveSlot(s.slots, slot) && slot !in s.slots.free
        && !IsLiveSlot(t.slots, slot) && slot in t.slots.free && Distinct(t.slots.free))
  }

  lemma ReapedTakesOut(s: View, m: nat, clock: Clock, i: nat)
    requires Coherent(s) && i < |s.docs| && Reaped(s, m, clock, i)
    ensures TakenOut(s, Purged(s, m, clock), i)
  {
    var t := Purged(s, m, clock);
    PurgeKeeps(s, m, clock);
    PurgedSlotCount(s, m, clock);
    PurgedDoc(s, m, clock, i);
    forall j | 0 <= j < |t.docs| && !t.docs[j].deleted ensures t.docs[j] == s.docs[j] {
      PurgedDoc(s, m, clock, j);
    }
    assert !s.docs[i].deleted;
    hide Reaped, Purged, WordsAgree, SlotsAgree, KeysAgree;
    WordsOfLive(t.docs, t.words, i);
    SlotFreed(s.docs, s.slots, t.docs, t.slots, i);
  }

  lemma SlotFreed(docs: seq<ShardDoc>, slots: Table<Vector>, docs': seq<ShardDoc>, slots': Table<Vector>, i: nat)
    requires SlotsAgree(docs, slots) && SlotsAgree(docs', slots') && |slots'.live| == |slots.live|
    requires i < |docs| == |docs'| && !docs[i].deleted && docs'[i].deleted
    requires forall j :: 0 <= j < |docs'| && !docs'[j].deleted ==> docs'[j] == docs[j]
    ensures var slot := docs[i].offset;
            && IsLiveSlot(slots, slot) && slot !in slots.free
            && !IsLiveSlot(slots', slot) && slot in slots'.free && Distinct(slots'.free)
  {
    var slot := docs[i].offset;
    assert Owned(docs, slot) && !Owned(docs', slot);
  }

  lemma WordsOfLive(docs: seq<ShardDoc>, words: DocTokens, i: nat)
    requires WordsAgree(docs, words) && i < |docs| && docs[i].deleted
    ensures i !in words
  {
  }

  /** A doc out of every part. */
  ghost predicate IsOut(t: View, i: nat) {
    i < |t.docs| && t.docs[i].deleted && i !in t.words && i in t.entries && t.entries[i].deleted
  }

  lemma DeadIsOut(s: View, m: nat, clock: Clock, i: nat)
    requires Coherent(s) && i < |s.docs| && s.docs[i].deleted
    ensures !Reaped(s, m, clock, i) && Purged(s, m, clock).docs[i] == s.docs[i] && IsOut(Purged(s, m, clock), i)
  {
    PurgedDoc(s, m, clock, i);
    PurgeKeeps(s, m, clock);
    hide Purged, WordsAgree;
    WordsOfLive(Purged(s, m, clock).docs, Purged(s, m, clock).words, i);
  }

  lemma {:induction false} DeadStaysDead(calls: seq<Call>, n: nat, i: nat)
    requires calls != [] && Successive(calls, n, i) && |calls[0].before.docs| == n && calls[0].before.docs[i].deleted
    ensures forall k :: 0 <= k < |calls| ==>
              i < |calls[k].before.docs| && !ReapedIn(calls[k], i)
              && After(calls[k]).docs[i] == calls[0].before.docs[i] && IsOut(After(calls[k]), i)
  {
    assert FairCall(calls[0], n);
    DeadIsOut(calls[0].before, BUDGET, calls[0].clock, i);
    hide Purged, Coherent, Reaped, IsOut, FairCall;
    var rest := calls[1..];
    if rest != [] {
      assert Follows(calls[0], calls[1], i);
      assert rest[0] == calls[1];
      RestSuccessive(calls, n, i);
      DeadStaysDead(rest, n, i);
      forall k | 1 <= k < |calls|
        ensures i < |calls[k].before.docs| && !ReapedIn(calls[k], i)
             && After(calls[k]).docs[i] == calls[0].before.docs[i] && IsOut(After(calls[k]), i)
      {
        assert calls[k] == rest[k - 1];
      }
    }
  }

  /** The calls from the k-th on find or leave doc i taken out. */
  ghost predicate OutFrom(calls: seq<Call>, i: nat, k: nat, doc: ShardDoc) {
    forall j :: k <= j < |calls| ==>
      i < |calls[j].before.docs| && After(calls[j]).docs[i] == doc && IsOut(After(calls[j]), i)
  }

  ghost predicate OnlyReapedIn(calls: seq<Call>, i: nat, k: nat) {
    forall j :: 0 <= j < |calls| ==> (ReapedIn(calls[j], i) <==> j == k)
  }

  lemma {:induction false} ReapedWithin(calls: seq<Call>, n: nat, i: nat) returns (k: nat)
    requires calls != [] && Successive(calls, n, i) && |calls[0].before.docs| == n
    requires !calls[0].before.docs[i].deleted && IsExpired(calls[0].before.docs[i], calls[0].clock(0))
    requires Distance(calls[0].before.cursor, n, i) < BUDGET * |calls|
    ensures k < |calls| && OnlyReapedIn(calls, i, k)
    ensures |calls[k].before.docs| == n && TakenOut(calls[k].before, After(calls[k]), i)
    ensures OutFrom(calls, i, k, MarkedDoc(calls[0].before.docs[i]))
  {
    var first, rest := calls[0], calls[1..];
    assert FairCall(first, n);
    hide Distance, IsOut, TakenOut, After, Reaped, ReapedIn, OutFrom, OnlyReapedIn;
    if Distance(first.before.cursor, n, i) < BUDGET {
      Reached(first, n, i);
      FirstReaps(calls, n, i);
      k := 0;
    } else {
      NotReached(first, n, i);
      assert Follows(calls[0], calls[1], i);
      assert rest[0] == calls[1];
      RestSuccessive(calls, n, i);
      k := ReapedWithin(rest, n, i);
      Shifted(calls, i, k, MarkedDoc(first.before.docs[i]));
      k := k + 1;
    }
  }

  lemma RestSuccessive(calls: seq<Call>, n: nat, i: nat)
    requires calls != [] && Successive(calls, n, i)
    ensures Successive(calls[1..], n, i)
  {
    hide FairCall, Follows;
    var rest := calls[1..];
    forall k | 0 < k < |rest| ensures Follows(rest[k - 1], rest[k], i) {
      assert rest[k - 1] == calls[k] && rest[k] == calls[k + 1];
      assert Follows(calls[(k + 1) - 1], calls[k + 1], i);
    }
  }

  lemma Reached(c: Call, n: nat, i: nat)
    requires i < n && FairCall(c, n) && Distance(c.before.cursor, n, i) < BUDGET
    requires !c.before.docs[i].deleted && IsExpired(c.before.docs[i], c.clock(0))
    ensures ReapedIn(c, i)
  {
    hide Coherent;
    var d := Distance(c.before.cursor, n, i);
    ReachedAt(c.before.cursor, n, i, d);
    assert c.clock(0) <= c.clock(d);
  }

  lemma NotReached(c: Call, n: nat, i: nat)
    requires i < n && |c.before.docs| == n && FairCall(c, n) && Distance(c.before.cursor, n, i) >= BUDGET
    ensures !ReapedIn(c, i) && After(c).docs[i] == c.before.docs[i]
    ensures Distance(After(c).cursor, n, i) == Distance(c.before.cursor, n, i) - BUDGET
    ensures c.clock(0) <= c.clock(BUDGET)
  {
    forall k: nat | k < BUDGET ensures LooksAt(c.before.cursor, n, k) != i {
      ReachedAt(c.before.cursor, n, i, k);
    }
    PurgedDoc(c.before, BUDGET, c.clock, i);
    DistanceShrinks(c.before, BUDGET, c.clock, i);
    hide Purged, Coherent, LooksAt, Distance;
  }

  lemma FirstReaps(calls: seq<Call>, n: nat, i: nat)
    requires calls != [] && Successive(calls, n, i) && ReapedIn(calls[0], i)
    ensures OnlyReapedIn(calls, i, 0) && |calls[0].before.docs| == n
    ensures TakenOut(calls[0].before, After(calls[0]), i)
    ensures OutFrom(calls, i, 0, MarkedDoc(calls[0].before.docs[i]))
  {
    var rest := calls[1..];
    assert FairCall(calls[0], n);
    ReapedTakesOut(calls[0].before, BUDGET, calls[0].clock, i);
    assert IsOut(After(calls[0]), i) && After(calls[0]).docs[i].deleted;
    hide After, Coherent, Reaped, TakenOut, IsOut, FairCall;
    if rest != [] {
      assert Follows(calls[0], calls[1], i) && rest[0] == calls[1];
      RestSuccessive(calls, n, i);
      DeadStaysDead(rest, n, i);
    }
    hide Follows, ReapedIn, Successive;
    RestOut(calls, i, MarkedDoc(calls[0].before.docs[i]));
  }

  lemma RestOut(calls: seq<Call>, i: nat, doc: ShardDoc)
    requires calls != [] && i < |calls[0].before.docs| && ReapedIn(calls[0], i)
    requires After(calls[0]).docs[i] == doc && IsOut(After(calls[0]), i)
    requires forall k :: 0 <= k < |calls[1..]| ==>
               i < |calls[1..][k].before.docs| && !ReapedIn(calls[1..][k], i)
               && After(calls[1..][k]).docs[i] == doc && IsOut(After(calls[1..][k]), i)
    ensures OnlyReapedIn(calls, i, 0) && OutFrom(calls, i, 0, doc)
  {
    hide After, ReapedIn, IsOut;
    forall j | 0 < j < |calls| ensures calls[j] == calls[1..][j - 1] {
    }
  }

  lemma Shifted(calls: seq<Call>, i: nat, k: nat, doc: ShardDoc)
    requires calls != [] && k < |calls| - 1 && !ReapedIn(calls[0], i)
    requires OnlyReapedIn(calls[1..], i, k) && OutFrom(calls[1..], i, k, doc)
    ensures OnlyReapedIn(calls, i, k + 1) && OutFrom(calls, i, k + 1, doc)
  {
    hide ReapedIn, IsOut;
    forall j | 1 <= j < |calls| ensures calls[j] == calls[1..][j - 1] {
    }
  }

  /** Wherever the cursor starts, ceil(n / 32) successive sweeps take out every doc that was expired
      from the first of them on. Exactly one of them does: it raises the generation by one, removes
      the keywords and the index entry, and frees the slot, which was in use until then. From then
      on the doc stays out. */
  lemma BoundedResponse(calls: seq<Call>, n: nat, i: nat) returns (k: nat)
    requires Successive(calls, n, i) && |calls| == (n + 31) / 32
    requires |calls[0].before.docs| == n && !calls[0].before.docs[i].deleted
    requires var expiry := calls[0].before.docs[i].expiry; expiry.Some? && calls[0].clock(0) >= expiry.value
    ensures k < |calls| && OnlyReapedIn(calls, i, k)
    ensures |calls[k].before.docs| == n && TakenOut(calls[k].before, After(calls[k]), i)
    ensures var doc := calls[0].before.docs[i]; OutFrom(calls, i, k, doc.(deleted := true, gen := doc.gen + 1))
  {
    k := ReapedWithin(calls, n, i);
  }
}
