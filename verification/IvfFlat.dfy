/** The IVF-Flat index: a buffer until training, then generation-stamped posting
    lists that are compacted one list at a time. */
module IvfFlat {
  import opened Ranking
  import opened Candidates
  import opened Centroids
  import opened ScoreQueue
  import opened Postings
  import opened IvfScan
  import opened Status

  datatype ListMetrics = ListMetrics(staleEntries: nat, staleChecked: nat)
  const FRESH_METRICS := ListMetrics(0, 0)
  const POSTING_BYTES: nat := 8

  /** Offsets of the buffered docs that are live, in buffer order. */
  function TrainingOffsets(docs: Docs, buffer: seq<nat>): seq<nat> {
    if buffer == [] then []
    else
      var front, id := TrainingOffsets(docs, buffer[..|buffer| - 1]), buffer[|buffer| - 1];
      if IsLive(docs, id) then front + [docs[id].offset] else front
  }

  ghost function LiveAt(docs: Docs, buffer: seq<nat>): set<nat> {
    set i: nat | i < |buffer| && buffer[i] in docs && !docs[buffer[i]].deleted
  }

  /** As many training points as there are places in the buffer that name a live doc. */
  lemma {:induction false} TrainingPoints(docs: Docs, buffer: seq<nat>)
    ensures |TrainingOffsets(docs, buffer)| == |LiveAt(docs, buffer)|
  {
    if buffer == [] {
    } else {
      var n := |buffer| - 1;
      var front := buffer[..n];
      TrainingPoints(docs, front);
      LiveAtLast(docs, buffer);
    }
  }

  lemma LiveAtLast(docs: Docs, buffer: seq<nat>)
    requires buffer != []
    ensures var n := |buffer| - 1;
            var before := LiveAt(docs, buffer[..n]);
            n !in before && LiveAt(docs, buffer) == if IsLive(docs, buffer[n]) then before + {n} else before
  {
    var n := |buffer| - 1;
    var before, after := LiveAt(docs, buffer[..n]), LiveAt(docs, buffer);
    assert forall i: nat :: i < n ==> buffer[..n][i] == buffer[i];
    forall i ensures i in after <==> i in before || (i == n && IsLive(docs, buffer[n])) {
    }
  }

  /** The training points are the offsets of the live docs in the buffer. */
  lemma {:induction false} TrainingReads(docs: Docs, buffer: seq<nat>)
    ensures forall o :: o in TrainingOffsets(docs, buffer) <==>
                        exists id :: id in buffer && id in docs && !docs[id].deleted && docs[id].offset == o
  {
    if buffer == [] {
    } else {
      var front, id := buffer[..|buffer| - 1], buffer[|buffer| - 1];
      assert buffer == front + [id];
      TrainingReads(docs, front);
    }
  }

  /** The unordered scan of the training buffer. */
  function ScanBuffer(dot: (Vec, Vec) -> real, docs: Docs, store: nat -> Vec, q: Vec,
                      buffer: seq<nat>): seq<Candidate> {
    if buffer == [] then []
    else
      var front, id := ScanBuffer(dot, docs, store, q, buffer[..|buffer| - 1]), buffer[|buffer| - 1];
      if IsLive(docs, id) then front + [Candidate(id, DocScore(dot, docs, store, q, id))] else front
  }

  /** The buffer scan holds the live docs of the buffer, each as often as it was buffered. */
  lemma {:induction false} BufferHas(dot: (Vec, Vec) -> real, docs: Docs, store: nat -> Vec, q: Vec, buffer: seq<nat>)
    ensures forall x :: x in ScanBuffer(dot, docs, store, q, buffer) <==>
              x.id in buffer && x.id in docs && !docs[x.id].deleted && x.score == dot(q, store(docs[x.id].offset))
    ensures (forall i, j :: 0 <= i < j < |buffer| ==> buffer[i] != buffer[j]) ==>
              DistinctIds(ScanBuffer(dot, docs, store, q, buffer))
  {
    if buffer == [] {
    } else {
      var front, id := buffer[..|buffer| - 1], buffer[|buffer| - 1];
      assert buffer == front + [id];
      BufferHas(dot, docs, store, q, front);
      var s := ScanBuffer(dot, docs, store, q, front);
      if forall i, j :: 0 <= i < j < |buffer| ==> buffer[i] != buffer[j] {
        assert forall i, j :: 0 <= i < j < |front| ==> front[i] == buffer[i] && front[j] == buffer[j];
        forall i | 0 <= i < |s| ensures s[i].id != id {
          assert s[i] in s && s[i].id in front;
        }
      }
    }
  }

  function StaleCount(docs: Docs, list: seq<Posting>): nat {
    if list == [] then 0
    else StaleCount(docs, list[..|list| - 1]) + (if EntryIsLive(docs, list[|list| - 1]) then 0 else 1)
  }

  /** The counters after scanning one more list. */
  function Counted(metrics: seq<ListMetrics>, docs: Docs, lists: seq<seq<Posting>>, c: nat): seq<ListMetrics> {
    if c < |metrics| && c < |lists| then
      metrics[c := ListMetrics(metrics[c].staleEntries + StaleCount(docs, lists[c]),
                               metrics[c].staleChecked + |lists[c]|)]
    else metrics
  }

  function CountedAll(metrics: seq<ListMetrics>, docs: Docs, lists: seq<seq<Posting>>,
                      probes: seq<nat>): seq<ListMetrics> {
    if probes == [] then metrics
    else Counted(CountedAll(metrics, docs, lists, probes[..|probes| - 1]), docs, lists, probes[|probes| - 1])
  }

  /** The places in a list whose posting is not its doc's current one. */
  ghost function StaleAt(docs: Docs, list: seq<Posting>): set<nat> {
    set j: nat | j < |list| && !(var p := list[j]; p.id in docs && !docs[p.id].deleted && docs[p.id].gen == p.gen)
  }

  lemma StaleLast(docs: Docs, list: seq<Posting>)
    requires list != []
    ensures var n := |list| - 1;
            var before := StaleAt(docs, list[..n]);
            n !in before && StaleAt(docs, list) == if EntryIsLive(docs, list[n]) then before else before + {n}
  {
    var n := |list| - 1;
    var before, after := StaleAt(docs, list[..n]), StaleAt(docs, list);
    assert forall j: nat :: j < n ==> list[..n][j] == list[j];
    forall j ensures j in after <==> j in before || (j == n && !EntryIsLive(docs, list[n])) {
    }
  }

  lemma {:induction false} StaleCounts(docs: Docs, list: seq<Posting>)
    ensures StaleCount(docs, list) == |StaleAt(docs, list)|
  {
    if list != [] {
      StaleCounts(docs, list[..|list| - 1]);
      StaleLast(docs, list);
    }
  }

  /** The counters of every list in `probes` have grown by its stale postings and by its length; no
      other list's counters have changed. */
  ghost predicate Tallied(before: seq<ListMetrics>, after: seq<ListMetrics>, docs: Docs, lists: seq<seq<Posting>>,
                          probes: seq<nat>) {
    && |after| == |before|
    && forall c :: 0 <= c < |before| ==>
         if c in probes && c < |lists| then
           && after[c].staleEntries == before[c].staleEntries + |StaleAt(docs, lists[c])|
           && after[c].staleChecked == before[c].staleChecked + |lists[c]|
         else after[c] == before[c]
  }

  lemma OneMoreTallied(before: seq<ListMetrics>, mid: seq<ListMetrics>, docs: Docs, lists: seq<seq<Posting>>,
                       probes: seq<nat>, c: nat)
    requires Tallied(before, mid, docs, lists, probes) && c !in probes
    ensures Tallied(before, Counted(mid, docs, lists, c), docs, lists, probes + [c])
  {
    if c < |lists| { StaleCounts(docs, lists[c]); }
    hide StaleCount, StaleAt;
    assert forall d :: d in probes + [c] <==> d in probes || d == c;
  }

  lemma {:induction false} CountedAllTallies(before: seq<ListMetrics>, docs: Docs, lists: seq<seq<Posting>>,
                                             probes: seq<nat>)
    requires forall i, j :: 0 <= i < j < |probes| ==> probes[i] != probes[j]
    ensures Tallied(before, CountedAll(before, docs, lists, probes), docs, lists, probes)
  {
    hide StaleAt, Counted;
    if probes != [] {
      var front, last := probes[..|probes| - 1], probes[|probes| - 1];
      CountedAllTallies(before, docs, lists, front);
      hide Tallied;
      OneMoreTallied(before, CountedAll(before, docs, lists, front), docs, lists, front, last);
      assert probes == front + [last];
    }
  }

  class IvfFlatIndex {
    const dot: (Vec, Vec) -> real
    const nlist: nat
    const nprobe: nat
    const minTrainSize: nat
    const staleRatioThreshold: real
    const maxListSize: nat
    const maxListBytes: nat

    var trained: bool
    var centroids: seq<Vec>
    var lists: seq<seq<Posting>>
    var metrics: seq<ListMetrics>
    var docs: Docs
    var bufferIds: seq<nat>
    ghost var placed: map<nat, Vec>  // the vector each doc had when it was last placed

    /** The list each placed doc belongs to. */
    ghost function Home(): map<nat, int>
      reads this
    {
      HomesOf(dot, centroids, placed)
    }

    ghost predicate Valid()
      reads this
    {
      && |lists| == |metrics|
      && (trained ==> |centroids| == nlist && |lists| == nlist && Placed(docs, lists, Home()) && bufferIds == [])
      && (!trained ==> lists == [] && forall id :: id in docs <==> id in bufferIds)
    }

    /** No id was buffered twice before training, so no doc has two live postings after it. */
    ghost predicate SinglePostings()
      reads this
    {
      if trained then Once(docs, lists) else forall i, j :: 0 <= i < j < |bufferIds| ==> bufferIds[i] != bufferIds[j]
    }

    /** The store still holds, for every live doc, the vector it was placed with. */
    ghost predicate PlacedIn(store: nat -> Vec)
      reads this
    {
      forall id :: IsLive(docs, id) ==> id in placed && placed[id] == store(docs[id].offset)
    }

    constructor (dot: (Vec, Vec) -> real, nlist: nat, nprobe: nat, minTrainSize: nat,
                 staleRatioThreshold: real, maxListSize: nat, maxListBytes: nat)
      ensures Valid() && SinglePostings() && !trained && docs == map[]
      ensures this.dot == dot && this.nlist == nlist && this.nprobe == nprobe
      ensures this.minTrainSize ==
              if minTrainSize > 0 then minTrainSize else if nlist * 39 < 100 then 100 else nlist * 39
      ensures this.staleRatioThreshold == staleRatioThreshold && this.maxListSize == maxListSize
      ensures this.maxListBytes == maxListBytes
    {
      this.dot, this.nlist, this.nprobe := dot, nlist, nprobe;
      this.minTrainSize := if minTrainSize == 0 then (if nlist * 39 < 100 then 100 else nlist * 39) else minTrainSize;
      this.staleRatioThreshold, this.maxListSize, this.maxListBytes := staleRatioThreshold, maxListSize, maxListBytes;
      trained, centroids, lists, metrics, docs, bufferIds, placed := false, [], [], [], map[], [], map[];
    }

    /** Whether a list with these counters is due for compaction. */
    predicate Overdue(list: seq<Posting>, m: ListMetrics) {
      && list != []
      && (|| (m.staleChecked > 0 && m.staleEntries as real / m.staleChecked as real > staleRatioThreshold)
          || (m.staleChecked == 0 && 0.0 > staleRatioThreshold)
          || |list| > maxListSize
          || |list| * POSTING_BYTES > maxListBytes)
    }

    predicate ListNeedsCompaction(c: nat)
      reads this
    {
      c < |lists| && c < |metrics| && Overdue(lists[c], metrics[c])
    }

    /** Every posting of the list is live, or the list is within all thresholds. */
    ghost predicate InBounds(list: seq<Posting>, m: ListMetrics)
      reads this`docs
    {
      || (forall p :: p in list ==> p.id in docs && !docs[p.id].deleted && docs[p.id].gen == p.gen)
      || (list != [] ==>
            && |list| <= maxListSize && 8 * |list| <= maxListBytes
            && (m.staleChecked > 0 ==> m.staleEntries as real <= staleRatioThreshold * m.staleChecked as real))
    }

    /** A list is due exactly when it is not empty and breaks one of the three limits. */
    lemma DueIff(list: seq<Posting>, m: ListMetrics)
      ensures Overdue(list, m) <==>
                && list != []
                && (|| |list| > maxListSize || 8 * |list| > maxListBytes
                    || (m.staleChecked > 0 && m.staleEntries as real > staleRatioThreshold * m.staleChecked as real)
                    || (m.staleChecked == 0 && 0.0 > staleRatioThreshold))
      ensures !Overdue(list, m) ==> InBounds(list, m)
    {
      if m.staleChecked > 0 {
        RatioBound(m.staleEntries as real, m.staleChecked as real, staleRatioThreshold);
      }
    }

    static lemma RatioBound(a: real, b: real, t: real)
      requires b > 0.0
      ensures a / b > t <==> a > t * b
    {
      var r := a / b;
      assert r * b == a;
      assert (r - t) * b == a - t * b;
      if r > t { assert (r - t) * b > 0.0; } else { assert (t - r) * b >= 0.0; }
    }

    lemma CompactedInBounds(list: seq<Posting>, m: ListMetrics)
      ensures InBounds(Compacted(docs, list), m)
    {
      CompactedHas(docs, list);
    }

    /** Lists and counters after an upsert has put a posting on list c: the list is compacted, and its
        counters start again, exactly when it is then due. */
    ghost predicate Stepped(lists0: seq<seq<Posting>>, metrics0: seq<ListMetrics>, c: int, p: Posting)
      reads this
    {
      var pushed := Pushed(lists0, c, p);
      if 0 <= c < |pushed| && c < |metrics0| && Overdue(pushed[c], metrics0[c])
      then lists == pushed[c := Compacted(docs, pushed[c])] && metrics == metrics0[c := FRESH_METRICS]
      else lists == pushed && metrics == metrics0
    }

    /** When an upsert reports an error, although it has already renewed the doc: no centroid takes
        the vector, or the buffer is full and too few of its docs are live to train on. */
    ghost predicate Refuses(store: nat -> Vec, id: nat, offset: nat)
      reads this
    {
      if trained then Assign(dot, centroids, store(offset)) == -1
      else
        var buffer := bufferIds + [id];
        |buffer| >= minTrainSize && 0 < |TrainingOffsets(Bumped(docs, id, offset), buffer)| < nlist
    }

    /** newCentroids is what k-means returns if this call triggers training. */
    method Upsert(store: nat -> Vec, id: nat, offset: nat, newCentroids: seq<Vec>) returns (s: Status)
      requires Valid() && |newCentroids| == nlist
      modifies this
      ensures Valid() && docs == Bumped(old(docs), id, offset) && DocsAdvance(old(docs), docs)
      ensures Renewed(old(docs), docs, id, offset)
      ensures s == Ok <==> !old(Refuses(store, id, offset))
      ensures old(SinglePostings()) && (old(trained) || id !in old(bufferIds)) ==> SinglePostings()
      ensures old(trained) ==>
                && trained && centroids == old(centroids) && placed == old(placed)[id := store(offset)]
                && s == (if Assign(dot, centroids, store(offset)) == -1 then Internal else Ok)
                && Stepped(old(lists), old(metrics), Assign(dot, centroids, store(offset)), Posting(id, docs[id].gen))
                && (var c := Assign(dot, centroids, store(offset));
                    0 <= c < |lists| == |metrics| ==> InBounds(lists[c], metrics[c]))
      ensures !old(trained) ==>
                var buffer := old(bufferIds) + [id];
                var n := |TrainingOffsets(docs, buffer)|;
                && (trained <==> |buffer| >= minTrainSize && n > 0 && n >= nlist)
                && s == (if |buffer| >= minTrainSize && 0 < n < nlist then InvalidArgument else Ok)
                && (trained ==> PlacedIn(store) && centroids == newCentroids)
      ensures !trained ==> bufferIds == old(bufferIds) + [id]
    {
      hide Placed, Once, HomesOf, TrainingOffsets, Stepped, InBounds;
      if trained {
        s := UpsertTrained(store, id, offset);
      } else {
        docs := Bumped(docs, id, offset);
        bufferIds := bufferIds + [id];
        s := Ok;
        if |bufferIds| >= minTrainSize {
          s := TrainImpl(store, newCentroids);
        }
      }
    }

    method UpsertTrained(store: nat -> Vec, id: nat, offset: nat) returns (s: Status)
      requires Valid() && trained
      modifies `docs, `placed, `lists, `metrics
      ensures Valid() && docs == Bumped(old(docs), id, offset) && DocsAdvance(old(docs), docs)
      ensures old(SinglePostings()) ==> SinglePostings()
      ensures placed == old(placed)[id := store(offset)]
      ensures s == if Assign(dot, centroids, store(offset)) == -1 then Internal else Ok
      ensures Stepped(old(lists), old(metrics), Assign(dot, centroids, store(offset)), Posting(id, docs[id].gen))
      ensures var c := Assign(dot, centroids, store(offset));
              0 <= c < |lists| == |metrics| ==> InBounds(lists[c], metrics[c])
    {
      hide Placed, Once, HomesOf, Compacted, DocsAdvance, Assign, InBounds;
      var c := AddPosting(store, id, offset);
      if c < 0 || c >= |lists| {
        return Internal;
      }
      if ListNeedsCompaction(c) {
        CompactedInBounds(lists[c], FRESH_METRICS);
        CompactList(c);
      } else {
        DueIff(lists[c], metrics[c]);
      }
      s := Ok;
    }

    method AddPosting(store: nat -> Vec, id: nat, offset: nat) returns (c: int)
      requires Valid() && trained
      modifies `docs, `placed, `lists
      ensures Valid() && docs == Bumped(old(docs), id, offset) && DocsAdvance(old(docs), docs)
      ensures old(SinglePostings()) ==> SinglePostings()
      ensures placed == old(placed)[id := store(offset)] && c == Assign(dot, centroids, store(offset))
      ensures lists == Pushed(old(lists), c, Posting(id, docs[id].gen)) && -1 <= c < |lists|
    {
      hide Placed, Once, DocsAdvance;
      var vec := store(offset);
      ghost var home := Home();
      UpsertKeeps(docs, lists, home, id, offset, Assign(dot, centroids, vec));
      docs := Bumped(docs, id, offset);
      placed := placed[id := vec];
      c := AssignOne(dot, centroids, vec);
      assert Home() == home[id := c] by { HomeMoved(dot, centroids, old(placed), id, vec); }
      if 0 <= c < |lists| {
        lists := lists[c := lists[c] + [Posting(id, docs[id].gen)]];
      }
    }

    method Delete(id: nat) returns (s: Status)
      requires Valid()
      modifies `docs
      ensures Valid() && DocsAdvance(old(docs), docs)
      ensures old(SinglePostings()) ==> SinglePostings()
      ensures if id in old(docs) then s == Ok && docs == Dropped(old(docs), id) else s == NotFound && docs == old(docs)
      ensures s == Ok ==> Retired(old(docs), docs, id)
    {
      if id !in docs {
        return NotFound;
      }
      if trained {
        DeleteKeeps(docs, lists, Home(), id);
      }
      docs := Dropped(docs, id);
      s := Ok;
    }

    method Train(store: nat -> Vec, newCentroids: seq<Vec>) returns (s: Status)
      requires Valid() && |newCentroids| == nlist
      modifies this
      ensures Valid() && docs == old(docs)
      ensures old(SinglePostings()) ==> SinglePostings()
      ensures trained && !old(trained) ==> PlacedIn(store) && s == Ok
      ensures old(trained) ==> unchanged(this) && s == Ok
    {
      if trained {
        return Ok;
      }
      s := TrainImpl(store, newCentroids);
    }

    /** Distributes the buffer over the trained centroids, if k-means gets enough points. */
    method TrainImpl(store: nat -> Vec, newCentroids: seq<Vec>) returns (s: Status)
      requires Valid() && !trained && |newCentroids| == nlist
      modifies this
      ensures Valid() && docs == old(docs)
      ensures old(SinglePostings()) ==> SinglePostings()
      ensures var n := |TrainingOffsets(docs, old(bufferIds))|;
              if n > 0 && n >= nlist
              then trained && centroids == newCentroids && PlacedIn(store) && s == Ok
                   && (Once(docs, lists) <==> BufferedOnce(docs, Home(), old(bufferIds)))
              else unchanged(this) && s == (if n == 0 then Ok else InvalidArgument)
    {
      hide Placed, Once, PlacedSoFar, TrainingOffsets, Distributed;
      var offsets := TrainingOffsets(docs, bufferIds);
      if offsets == [] {
        return Ok;
      }
      if |offsets| < nlist {
        return InvalidArgument;
      }
      ghost var vectors := VectorsOf(docs, store);
      var filled := Distribute(dot, newCentroids, docs, store, bufferIds);
      BufferPlaced(docs, dot, newCentroids, vectors, bufferIds, filled);
      InstallLists(newCentroids, filled, vectors);
      s := Ok;
    }

    method InstallLists(newCentroids: seq<Vec>, filled: seq<seq<Posting>>, ghost vectors: map<nat, Vec>)
      requires |newCentroids| == |filled| == nlist && Placed(docs, filled, HomesOf(dot, newCentroids, vectors))
      modifies `centroids, `lists, `metrics, `placed, `bufferIds, `trained
      ensures Valid() && trained && lists == filled && centroids == newCentroids && placed == vectors && bufferIds == []
    {
      hide Placed, HomesOf;
      centroids, lists := newCentroids, filled;
      metrics := seq(nlist, _ => FRESH_METRICS);
      placed := vectors;
      bufferIds := [];
      trained := true;
    }

    /** Where the live postings of a doc are: one, in the list its vector is assigned to, if there is such a list. */
    lemma OneLivePosting(store: nat -> Vec, id: nat)
      requires Valid() && trained && SinglePostings() && PlacedIn(store) && id in docs
      ensures var h := if IsLive(docs, id) then Assign(dot, centroids, store(docs[id].offset)) else -1;
        && (h >= 0 ==> exists j :: 0 <= j < |lists[h]| && lists[h][j] == Posting(id, docs[id].gen))
        && (forall c, j ::
              0 <= c < |lists| && 0 <= j < |lists[c]| && lists[c][j].id == id && EntryIsLive(docs, lists[c][j]) ==>
              c == h && forall k :: 0 <= k < |lists[c]| && lists[c][k] == lists[c][j] ==> k == j)
    {
      var home := Home();
      if IsLive(docs, id) {
        assert home[id] == Assign(dot, centroids, store(docs[id].offset));
      }
      forall c, j | 0 <= c < |lists| && 0 <= j < |lists[c]| && lists[c][j].id == id && EntryIsLive(docs, lists[c][j])
        ensures home[id] == c && forall k :: 0 <= k < |lists[c]| && lists[c][k] == lists[c][j] ==> k == j
      {
        assert PostingOk(docs, home, c, lists[c][j]) && OnceIn(docs, lists[c]);
      }
    }

    /** A search over the lists is an exact top k, by score, of the live docs assigned to the probed centroids. */
    lemma SearchIsExact(store: nat -> Vec, q: Vec, topk: nat)
      requires Valid() && trained && SinglePostings() && PlacedIn(store)
      ensures var probes := Probes(dot, centroids, q, if nprobe < nlist then nprobe else nlist);
              var res := Kept(topk, ScanProbes(dot, docs, store, q, lists, probes));
        && DistinctIds(res) && Ranked(PairAbove, res) && |res| <= topk
        && (forall x :: x in res ==>
              IsLive(docs, x.id) && x.score == dot(q, store(docs[x.id].offset))
              && Assign(dot, centroids, store(docs[x.id].offset)) in probes)
        && (forall id :: IsLive(docs, id) && Assign(dot, centroids,
                                                    store(docs[id].offset)) in probes && id !in IdSeq(res) ==>
              |res| == topk && forall x :: x in res ==> x.score >= dot(q, store(docs[id].offset)))
    {
      var n := if nprobe < nlist then nprobe else nlist;
      ProbesAreBest(dot, centroids, q, n);
      ScanTopK(dot, docs, store, q, lists, Home(), Probes(dot, centroids, q, n), topk);
    }

    /** With nprobe >= nlist the scores are those of a brute-force scan over all live docs. */
    lemma SearchAllListsIsBruteForce(store: nat -> Vec, q: Vec, topk: nat, all: seq<Candidate>)
      requires Valid() && trained && SinglePostings() && PlacedIn(store) && nprobe >= nlist
      requires forall id :: IsLive(docs, id) ==> Assign(dot, centroids, store(docs[id].offset)) >= 0
      requires DistinctIds(all)
      requires forall x :: x in all <==> IsLive(docs, x.id) && x.score == dot(q, store(docs[x.id].offset))
      ensures ScoreSeq(Kept(topk, ScanProbes(dot, docs, store, q, lists, Probes(dot, centroids, q, nlist))))
           == TopK(Higher, topk, ScoreSeq(all))
    {
      ProbesAreBest(dot, centroids, q, nlist);
      FullProbeIsBruteForce(dot, docs, store, q, lists, Home(), Probes(dot, centroids, q, nlist), topk, all);
    }

    method CompactList(c: nat)
      requires Valid()
      modifies `lists, `metrics
      ensures Valid() && (old(SinglePostings()) ==> SinglePostings())
      ensures lists == if c < |old(lists)| then old(lists)[c := Compacted(docs, old(lists)[c])] else old(lists)
      ensures metrics == if c < |old(lists)| then old(metrics)[c := FRESH_METRICS] else old(metrics)
    {
      if c >= |lists| {
        return;
      }
      var list := lists[c];
      var compacted := [];
      for i := 0 to |list|
        invariant compacted == Compacted(docs, list[..i])
        invariant unchanged(this)
      {
        assert list[..i + 1] == list[..i] + [list[i]];
        if EntryIsLive(docs, list[i]) {
          compacted := compacted + [list[i]];
        }
      }
      assert list[..|list|] == list;
      CompactKeeps(docs, lists, Home(), c);
      lists := lists[c := compacted];
      metrics := metrics[c := FRESH_METRICS];
    }

    /** List c and its counters after compaction: compacted and reset exactly if it was due. */
    ghost predicate Tidied(list0: seq<Posting>, m0: ListMetrics, list: seq<Posting>, m: ListMetrics)
      reads this`docs
    {
      if Overdue(list0, m0) then list == Compacted(docs, list0) && m == FRESH_METRICS else list == list0 && m == m0
    }

    /** Compacts every list that is due. Whatever is searched for, the result is the same as before. */
    method Compact()
      requires Valid()
      modifies `lists, `metrics
      ensures Valid() && (old(SinglePostings()) ==> SinglePostings()) && |lists| == |old(lists)| == |old(metrics)|
      ensures forall c :: 0 <= c < |lists| ==> Tidied(old(lists)[c], old(metrics)[c], lists[c], metrics[c])
      ensures forall c :: 0 <= c < |lists| == |metrics| ==> InBounds(lists[c], metrics[c])
      ensures forall store: nat -> Vec, q, topk :: Found(store, q, topk) == old(Found(store, q, topk))
    {
      CompactDue();
      forall c | 0 <= c < |lists| == |metrics| ensures InBounds(lists[c], metrics[c]) {
        assert Tidied(old(lists)[c], old(metrics)[c], lists[c], metrics[c]);
        CompactedInBounds(old(lists)[c], FRESH_METRICS);
        if !Overdue(old(lists)[c], old(metrics)[c]) { DueIff(old(lists)[c], old(metrics)[c]); }
      }
      assert SomeCompacted(docs, old(lists), lists) by {
        forall c | 0 <= c < |lists| ensures lists[c] == old(lists)[c] || lists[c] == Compacted(docs, old(lists)[c]) {
          assert Tidied(old(lists)[c], old(metrics)[c], lists[c], metrics[c]);
        }
      }
      hide Valid, SinglePostings, Tidied, SomeCompacted, InBounds;
      SameFound(old(lists), lists);
      assert forall store: nat -> Vec, q, topk :: old(Found(store, q, topk)) == FoundIn(old(lists), store, q, topk);
    }

    method CompactDue()
      requires Valid()
      modifies `lists, `metrics
      ensures Valid() && (old(SinglePostings()) ==> SinglePostings()) && |lists| == |old(lists)| == |old(metrics)|
      ensures forall c :: 0 <= c < |lists| ==> Tidied(old(lists)[c], old(metrics)[c], lists[c], metrics[c])
    {
      hide Placed, Once, HomesOf, Overdue, Compacted;
      for i := 0 to |lists|
        invariant Valid() && |lists| == |old(lists)| == |old(metrics)| && (old(SinglePostings()) ==> SinglePostings())
        invariant forall c :: 0 <= c < i ==> Tidied(old(lists)[c], old(metrics)[c], lists[c], metrics[c])
        invariant forall c :: i <= c < |lists| ==> lists[c] == old(lists)[c] && metrics[c] == old(metrics)[c]
      {
        if ListNeedsCompaction(i) {
          CompactList(i);
        }
      }
    }

    /** What a search returns. */
    ghost function Found(store: nat -> Vec, q: Vec, topk: nat): seq<Candidate>
      reads this
    {
      FoundIn(lists, store, q, topk)
    }

    ghost function FoundIn(lists: seq<seq<Posting>>, store: nat -> Vec, q: Vec, topk: nat): seq<Candidate>
      reads this
    {
      if !trained then Kept(topk, ScanBuffer(dot, docs, store, q, bufferIds))
      else Kept(topk, ScanProbes(dot, docs, store, q, lists,
                                 Probes(dot, centroids, q, if nprobe < nlist then nprobe else nlist)))
    }

    lemma SameFound(before: seq<seq<Posting>>, after: seq<seq<Posting>>)
      requires SomeCompacted(docs, before, after)
      ensures forall store: nat -> Vec, q, topk :: FoundIn(after, store, q, topk) == FoundIn(before, store, q, topk)
    {
      forall store: nat -> Vec, q, topk: nat
        ensures FoundIn(after, store, q, topk) == FoundIn(before, store, q, topk)
      {
        CompactionInvisible(dot, docs, store, q, before, after,
                            Probes(dot, centroids, q, if nprobe < nlist then nprobe else nlist));
      }
    }

    /** Scans the buffer, or the lists of the nprobe best centroids, through the bounded queue. */
    method Search(store: nat -> Vec, q: Vec, topk: nat) returns (res: seq<Candidate>)
      requires Valid() && topk > 0
      modifies `metrics
      ensures Valid() && SinglePostings() == old(SinglePostings()) && res == Found(store, q, topk)
      ensures !trained ==> res == Kept(topk, ScanBuffer(dot, docs, store, q, bufferIds)) && metrics == old(metrics)
      ensures trained ==>
                var probes := Probes(dot, centroids, q, if nprobe < nlist then nprobe else nlist);
                && res == Kept(topk, ScanProbes(dot, docs, store, q, lists, probes))
                && metrics == CountedAll(old(metrics), docs, lists, probes)
                && Tallied(old(metrics), metrics, docs, lists, probes)
      ensures SinglePostings() && (trained ==> PlacedIn(store)) ==> IsExact(store, q, topk, res)
    {
      hide Placed, Kept, Probes, ScanProbes, ScanBuffer, CountedAll, Tallied, Once, IsExact, PlacedIn;
      if !trained {
        res := SearchBuffer(dot, docs, store, q, topk, bufferIds);
      } else {
        var n := if nprobe < nlist then nprobe else nlist;
        ProbesAreBest(dot, centroids, q, n);
        CountedAllTallies(metrics, docs, lists, Probes(dot, centroids, q, n));
        res := SearchLists(store, q, topk);
      }
      if SinglePostings() && (trained ==> PlacedIn(store)) {
        FoundIsExact(store, q, topk);
      }
    }

    /** Docs a search is to consider: all live ones before training; then those assigned to one of the
        nprobe best centroids. */
    ghost predicate InScope(store: nat -> Vec, q: Vec, id: nat)
      reads this
    {
      && id in docs && !docs[id].deleted
      && (trained ==> Assign(dot, centroids, store(docs[id].offset)) in
                        Probes(dot, centroids, q, if nprobe < nlist then nprobe else nlist))
    }

    /** Distinct docs in scope with their exact scores, best first, and one in scope is missing only
        when topk others score at least as high. */
    ghost predicate IsExact(store: nat -> Vec, q: Vec, topk: nat, res: seq<Candidate>)
      reads this
    {
      && |res| <= topk && DistinctIds(res)
      && (forall i, j :: 0 <= i < j < |res| ==>
            res[i].score > res[j].score || (res[i].score == res[j].score && res[i].id > res[j].id))
      && (forall x :: x in res ==>
            x.id in docs && InScope(store, q, x.id) && x.score == dot(q, store(docs[x.id].offset)))
      && (forall id :: id in docs && InScope(store, q, id) ==>
            var x := Candidate(id, dot(q, store(docs[id].offset)));
            x in res || (|res| == topk && forall y :: y in res ==> y.score >= x.score))
    }

    /** What a search reads: the buffer, or the probed lists. */
    ghost function Stream(store: nat -> Vec, q: Vec): seq<Candidate>
      reads this
    {
      if trained then ScanProbes(dot, docs, store, q, lists,
                                 Probes(dot, centroids, q, if nprobe < nlist then nprobe else nlist))
      else ScanBuffer(dot, docs, store, q, bufferIds)
    }

    ghost predicate ReadsScope(store: nat -> Vec, q: Vec, stream: seq<Candidate>)
      reads this
    {
      DistinctIds(stream)
      && forall x :: x in stream <==>
                     x.id in docs && InScope(store, q, x.id) && x.score == dot(q, store(docs[x.id].offset))
    }

    lemma BufferReadsScope(store: nat -> Vec, q: Vec)
      requires Valid() && !trained && SinglePostings()
      ensures ReadsScope(store, q, Stream(store, q))
    {
      hide ScanBuffer, ScanProbes, Probes;
      BufferHas(dot, docs, store, q, bufferIds);
    }

    lemma ListsReadScope(store: nat -> Vec, q: Vec)
      requires Valid() && trained && SinglePostings() && PlacedIn(store)
      ensures ReadsScope(store, q, Stream(store, q))
    {
      var n := if nprobe < nlist then nprobe else nlist;
      var probes := Probes(dot, centroids, q, n);
      var home := Home();
      forall id | id in docs && !docs[id].deleted
        ensures id in home && home[id] == Assign(dot, centroids, store(docs[id].offset))
      {
        assert IsLive(docs, id) && id in placed && placed[id] == store(docs[id].offset);
      }
      hide Home, HomesOf, PlacedIn, ScanProbes, Probes, Assign;
      ProbesAreBest(dot, centroids, q, n);
      ScanDistinct(dot, docs, store, q, lists, home, probes);
      ScanReadsPlaced(dot, docs, store, q, lists, home, probes);
      hide Placed, Once, DistinctIds;
    }

    lemma FoundIsExact(store: nat -> Vec, q: Vec, topk: nat)
      requires Valid() && SinglePostings() && (trained ==> PlacedIn(store))
      ensures IsExact(store, q, topk, Found(store, q, topk))
    {
      if trained { ListsReadScope(store, q); } else { BufferReadsScope(store, q); }
      hide Valid, SinglePostings, PlacedIn, InScope, Kept, ScanProbes, ScanBuffer, Probes;
      KeptAre(topk, Stream(store, q));
      hide DistinctIds;
    }

    /** Before training too the scores are those of a brute-force scan over all live docs. */
    lemma BufferSearchIsBruteForce(store: nat -> Vec, q: Vec, topk: nat, all: seq<Candidate>)
      requires Valid() && !trained && SinglePostings() && DistinctIds(all)
      requires forall x :: x in all <==>
                           x.id in docs && !docs[x.id].deleted && x.score == dot(q, store(docs[x.id].offset))
      ensures ScoreSeq(Found(store, q, topk)) == TopK(Higher, topk, ScoreSeq(all))
    {
      BufferHas(dot, docs, store, q, bufferIds);
      SameStreams(ScanBuffer(dot, docs, store, q, bufferIds), all, topk);
    }

    method SearchLists(store: nat -> Vec, q: Vec, topk: nat) returns (res: seq<Candidate>)
      requires Valid() && trained && topk > 0
      modifies `metrics
      ensures Valid()
      ensures var probes := Probes(dot, centroids, q, if nprobe < nlist then nprobe else nlist);
              && res == Kept(topk, ScanProbes(dot, docs, store, q, lists, probes))
              && metrics == CountedAll(old(metrics), docs, lists, probes)
    {
      hide Placed, Kept, Probes, Counted, ScanList;
      var probes := Probes(dot, centroids, q, if nprobe < nlist then nprobe else nlist);
      res := [];
      NothingKept(topk);
      for i := 0 to |probes|
        invariant Valid()
        invariant res == Kept(topk, ScanProbes(dot, docs, store, q, lists, probes[..i]))
        invariant metrics == CountedAll(old(metrics), docs, lists, probes[..i])
      {
        assert probes[..i + 1] == probes[..i] + [probes[i]];
        res := ScanOne(store, q, topk, probes[i], ScanProbes(dot, docs, store, q, lists, probes[..i]), res);
      }
      assert probes[..|probes|] == probes;
    }

    /** The loop over one probed list. */
    method ScanOne(store: nat -> Vec, q: Vec, topk: nat, c: nat, ghost seen: seq<Candidate>, res0: seq<Candidate>)
      returns (res: seq<Candidate>)
      requires Valid() && res0 == Kept(topk, seen)
      modifies `metrics
      ensures Valid() && metrics == Counted(old(metrics), docs, lists, c)
      ensures res == Kept(topk, seen + (if c < |lists| then ScanList(dot, docs, store, q, lists[c]) else []))
    {
      hide Placed, Kept, Offer;
      res := res0;
      if c >= |lists| {
        assert seen + [] == seen;
        return;
      }
      var list := lists[c];
      assert seen + [] == seen;
      for j := 0 to |list|
        invariant Valid() && lists == old(lists) && docs == old(docs)
        invariant res == Kept(topk, seen + ScanList(dot, docs, store, q, list[..j]))
        invariant metrics == old(metrics)[c := ListMetrics(old(metrics)[c].staleEntries + StaleCount(docs, list[..j]),
                                                           old(metrics)[c].staleChecked + j)]
      {
        ScanMore(dot, docs, store, q, list, j, seen);
        var p := list[j];
        var stale := !EntryIsLive(docs, p);
        metrics := metrics[c := ListMetrics(metrics[c].staleEntries + (if stale then 1 else 0),
                                            metrics[c].staleChecked + 1)];
        if !stale {
          var x := Candidate(p.id, dot(q, store(docs[p.id].offset)));
          KeptAppend(topk, seen + ScanList(dot, docs, store, q, list[..j]), x);
          res := Offer(topk, res, x);
        }
      }
      assert list[..|list|] == list;
    }
  }

  lemma ScanMore(dot: (Vec, Vec) -> real, docs: Docs, store: nat -> Vec, q: Vec, list: seq<Posting>, j: nat,
                 seen: seq<Candidate>)
    requires j < |list|
    ensures StaleCount(docs, list[..j + 1]) ==
              StaleCount(docs, list[..j]) + (if EntryIsLive(docs, list[j]) then 0 else 1)
    ensures seen + ScanList(dot, docs, store, q, list[..j + 1]) ==
            if EntryIsLive(docs, list[j])
            then seen + ScanList(dot, docs, store, q, list[..j])
              + [Candidate(list[j].id, DocScore(dot, docs, store, q, list[j].id))]
            else seen + ScanList(dot, docs, store, q, list[..j])
  {
    assert list[..j + 1] == list[..j] + [list[j]];
    assert list[..j + 1][..j] == list[..j];
  }

  lemma NothingKept(k: nat)
    ensures Kept(k, []) == []
  {
  }

  method SearchBuffer(dot: (Vec, Vec) -> real, docs: Docs, store: nat -> Vec, q: Vec, topk: nat, buffer: seq<nat>)
    returns (res: seq<Candidate>)
    ensures res == Kept(topk, ScanBuffer(dot, docs, store, q, buffer))
  {
    res := [];
    for i := 0 to |buffer|
      invariant res == Kept(topk, ScanBuffer(dot, docs, store, q, buffer[..i]))
    {
      var id := buffer[i];
      assert buffer[..i + 1] == buffer[..i] + [id];
      if IsLive(docs, id) {
        var x := Candidate(id, dot(q, store(docs[id].offset)));
        KeptAppend(topk, ScanBuffer(dot, docs, store, q, buffer[..i]), x);
        res := Offer(topk, res, x);
      }
    }
    assert buffer[..|buffer|] == buffer;
  }

  /** The loop that turns the buffer into posting lists. */
  method Distribute(dot: (Vec, Vec) -> real, centroids: seq<Vec>, docs: Docs, store: nat -> Vec, buffer: seq<nat>)
    returns (lists: seq<seq<Posting>>)
    ensures lists == Distributed(docs, HomesOf(dot, centroids, VectorsOf(docs, store)), |centroids|, buffer)
  {
    ghost var home := HomesOf(dot, centroids, VectorsOf(docs, store));
    lists := seq(|centroids|, _ => []);
    for i := 0 to |buffer|
      invariant lists == Distributed(docs, home, |centroids|, buffer[..i])
    {
      var id := buffer[i];
      assert buffer[..i + 1] == buffer[..i] + [id];
      if IsLive(docs, id) {
        var c := AssignOne(dot, centroids, store(docs[id].offset));
        if 0 <= c < |lists| {
          lists := lists[c := lists[c] + [Posting(id, docs[id].gen)]];
        }
      }
    }
    assert buffer[..|buffer|] == buffer;
  }

  /** The input on which single postings fail: one doc buffered by two upserts is live twice after training. */
  lemma UpsertedTwiceBeforeTraining()
    ensures var docs := Bumped(Bumped(map[], 7, 0), 7, 0);
            var lists := Distributed(docs, map[7 := 0], 1, [7, 7]);
            lists[0] == [Posting(7, 2), Posting(7, 2)] && EntryIsLive(docs, lists[0][0]) && !Once(docs, lists)
  {
    var docs := Bumped(Bumped(map[], 7, 0), 7, 0);
    var home, p := map[7 := 0], Posting(7, 2);
    assert docs[7] == DocState(0, 2, false);
    assert [7, 7][..1] == [7] && [7][..0] == [];
    var none, one, lists := Distributed(docs, home, 1, []), Distributed(docs, home, 1, [7]),
      Distributed(docs, home, 1, [7, 7]);
    assert none[0] == [];
    assert one == Pushed(none, 0, p) && one[0] == [p];
    assert lists == Pushed(one, 0, p) && lists[0] == [p, p];
    assert !OnceIn(docs, lists[0]) by {
      assert lists[0][0] == lists[0][1];
    }
  }
}
