/** The IVF-SQ8 index: posting lists with quantized code blobs, a quantized first
    pass and an exact second pass. */
module IvfSq8 {
  import opened Ranking
  import opened Candidates
  import opened Centroids
  import opened ScoreQueue
  import opened Postings
  import opened IvfScan
  import opened Quantizer
  import opened Sq8Lists
  import opened Status
  import Flat = IvfFlat

  /** A posting list, its code blob, the vectors its postings were added with, and its counters. */
  datatype Row = Row(list: seq<Posting>, blob: seq<Code>, vecs: seq<Vec>, metrics: Flat.ListMetrics)

  class IvfSq8Index {
    const dim: nat
    const nlist: nat
    const nprobe: nat
    const minTrainSize: nat
    const refineFactor: real
    const staleRatioThreshold: real
    const maxListSize: nat
    const maxListBytes: nat
    const quantizer: ScalarQuantizer

    var trained: bool
    var centroids: seq<Vec>
    var lists: seq<seq<Posting>>
    var codes: seq<seq<Code>>
    var metrics: seq<Flat.ListMetrics>
    var docs: Docs
    var bufferIds: seq<nat>
    ghost var placed: map<nat, Vec>    // the vector each doc had when it was last placed
    ghost var vecs: seq<seq<Vec>>      // the vector each posting was added with

    ghost function Home(): map<nat, int>
      reads this
    {
      HomesOf(Dot, centroids, placed)
    }

    ghost predicate Valid()
      reads this, quantizer
    {
      && quantizer.dim == dim && |lists| == |metrics| == |codes| == |vecs|
      && (trained ==> TrainedOk())
      && (!trained ==> lists == [] && forall id :: id in docs <==> id in bufferIds)
    }

    ghost predicate TrainedOk()
      reads this, quantizer
    {
      && |centroids| == nlist && |lists| == nlist && bufferIds == []
      && Placed(docs, lists, Home())
      && ParamsOk(quantizer.P(), dim)
      && ListsOk(docs, placed, quantizer.P(), dim, lists, codes, vecs)
    }

    ghost predicate SinglePostings()
      reads this
    {
      if trained then Once(docs, lists) else forall i, j :: 0 <= i < j < |bufferIds| ==> bufferIds[i] != bufferIds[j]
    }

    ghost predicate PlacedIn(store: nat -> Vec)
      reads this
    {
      forall id :: IsLive(docs, id) ==> id in placed && placed[id] == store(docs[id].offset)
    }

    constructor (dim: nat, nlist: nat, nprobe: nat, minTrainSize: nat, refineFactor: real,
                 staleRatioThreshold: real, maxListSize: nat, maxListBytes: nat)
      ensures Valid() && SinglePostings() && !trained && docs == map[] && fresh(quantizer)
      ensures this.dim == dim && this.nlist == nlist && this.nprobe == nprobe && this.refineFactor == refineFactor
      ensures this.minTrainSize ==
              if minTrainSize > 0 then minTrainSize else if nlist * 39 < 100 then 100 else nlist * 39
      ensures this.staleRatioThreshold == staleRatioThreshold && this.maxListSize == maxListSize
      ensures this.maxListBytes == maxListBytes
    {
      this.dim, this.nlist, this.nprobe, this.refineFactor := dim, nlist, nprobe, refineFactor;
      this.minTrainSize := if minTrainSize == 0 then (if nlist * 39 < 100 then 100 else nlist * 39) else minTrainSize;
      this.staleRatioThreshold, this.maxListSize, this.maxListBytes := staleRatioThreshold, maxListSize, maxListBytes;
      quantizer := new ScalarQuantizer(dim);
      trained, centroids, lists, codes, metrics, docs, bufferIds := false, [], [], [], [], map[], [];
      placed, vecs := map[], [];
    }

    /** Whether a list with this blob and these counters is due for compaction. */
    predicate Overdue(list: seq<Posting>, blob: seq<Code>, m: Flat.ListMetrics) {
      && list != []
      && (|| (m.staleChecked > 0 && m.staleEntries as real / m.staleChecked as real > staleRatioThreshold)
          || (m.staleChecked == 0 && 0.0 > staleRatioThreshold)
          || |list| > maxListSize
          || |list| * Flat.POSTING_BYTES + |blob| > maxListBytes)
    }

    predicate ListNeedsCompaction(c: nat)
      reads this
    {
      c < |lists| && c < |metrics| && c < |codes| && Overdue(lists[c], codes[c], metrics[c])
    }

    /** A list is due exactly when it is not empty and breaks one of the three limits. */
    lemma DueIff(list: seq<Posting>, blob: seq<Code>, m: Flat.ListMetrics)
      ensures Overdue(list, blob, m) <==>
                && list != []
                && (|| |list| > maxListSize || 8 * |list| + |blob| > maxListBytes
                    || (m.staleChecked > 0 && m.staleEntries as real > staleRatioThreshold * m.staleChecked as real)
                    || (m.staleChecked == 0 && 0.0 > staleRatioThreshold))
      ensures !Overdue(list, blob, m) ==> InBounds(list, blob, m)
    {
      if m.staleChecked > 0 {
        Flat.IvfFlatIndex.RatioBound(m.staleEntries as real, m.staleChecked as real, staleRatioThreshold);
      }
    }

    /** Every posting of the list is live, or list and blob are within all limits. */
    ghost predicate InBounds(list: seq<Posting>, blob: seq<Code>, m: Flat.ListMetrics)
      reads this`docs
    {
      || (forall p :: p in list ==> p.id in docs && !docs[p.id].deleted && docs[p.id].gen == p.gen)
      || (list != [] ==>
            && |list| <= maxListSize && 8 * |list| + |blob| <= maxListBytes
            && (m.staleChecked > 0 ==> m.staleEntries as real <= staleRatioThreshold * m.staleChecked as real))
    }

    lemma CompactedInBounds(list: seq<Posting>, blob: seq<Code>, m: Flat.ListMetrics)
      ensures InBounds(Compacted(docs, list), blob, m)
    {
      CompactedHas(docs, list);
    }

    /** Lists and counters after an upsert has put a posting and its code block on list c: the list is
        compacted, and its counters start again, exactly when it is then due. */
    ghost predicate Stepped(lists0: seq<seq<Posting>>, codes0: seq<seq<Code>>, metrics0: seq<Flat.ListMetrics>,
                            c: int, p: Posting, block: seq<Code>)
      reads this
    {
      var pushed := Pushed(lists0, c, p);
      if 0 <= c < |pushed| && c < |metrics0| && c < |codes0| && Overdue(pushed[c], codes0[c] + block, metrics0[c])
      then lists == pushed[c := Compacted(docs, pushed[c])] && metrics == metrics0[c := Flat.FRESH_METRICS]
      else lists == pushed && metrics == metrics0
    }

    /** When an upsert reports an error, although it has already renewed the doc: no centroid takes
        the vector, or the buffer is full and too few of its docs are live to train on. */
    ghost predicate Refuses(store: nat -> Vec, id: nat, offset: nat)
      reads this
    {
      if trained then Assign(Dot, centroids, store(offset)) == -1
      else
        var buffer := bufferIds + [id];
        |buffer| >= minTrainSize && 0 < |Flat.TrainingOffsets(Bumped(docs, id, offset), buffer)| < nlist
    }

    /** The store holds a finite vector of the index's dimension for every live doc. */
    ghost predicate Readable(store: nat -> Vec, docs: Docs) {
      forall id :: IsLive(docs, id) ==> |store(docs[id].offset)| == dim && Finite(store(docs[id].offset))
    }

    /** newCentroids is what k-means returns if this call triggers training. */
    method Upsert(store: nat -> Vec, id: nat, offset: nat, newCentroids: seq<Vec>) returns (s: Status)
      requires Valid() && |newCentroids| == nlist
      requires if trained then |store(offset)| == dim else Readable(store, Bumped(docs, id, offset))
      modifies this, quantizer
      ensures Valid() && docs == Bumped(old(docs), id, offset) && DocsAdvance(old(docs), docs)
      ensures Renewed(old(docs), docs, id, offset)
      ensures s == Ok <==> !old(Refuses(store, id, offset))
      ensures old(SinglePostings()) && (old(trained) || id !in old(bufferIds)) ==> SinglePostings()
      ensures old(trained) ==>
                && trained && centroids == old(centroids) && placed == old(placed)[id := store(offset)]
                && quantizer.P() == old(quantizer.P()) && ParamsOk(quantizer.P(), dim) && |store(offset)| == dim
                && s == (if Assign(Dot, centroids, store(offset)) == -1 then Internal else Ok)
                && Stepped(old(lists), old(codes), old(metrics), Assign(Dot, centroids, store(offset)),
                           Posting(id, docs[id].gen), EncodeVec(quantizer.P(), dim, store(offset)))
                && (var c := Assign(Dot, centroids, store(offset));
                    0 <= c < |lists| == |codes| == |metrics| ==> InBounds(lists[c], codes[c], metrics[c]))
      ensures !old(trained) ==>
                var buffer := old(bufferIds) + [id];
                var n := |Flat.TrainingOffsets(docs, buffer)|;
                && (trained <==> |buffer| >= minTrainSize && n > 0 && n >= nlist)
                && s == (if |buffer| >= minTrainSize && 0 < n < nlist then InvalidArgument else Ok)
                && (trained ==> PlacedIn(store) && centroids == newCentroids)
      ensures !trained ==> bufferIds == old(bufferIds) + [id]
    {
      hide TrainedOk, Flat.TrainingOffsets, Compacted, Stepped, InBounds;
      if trained {
        s := UpsertTrained(store, id, offset);
      } else {
        docs := Bumped(docs, id, offset);
        bufferIds := bufferIds + [id];
        s := Ok;
        if |bufferIds| >= minTrainSize {
          s := TrainImpl(store, newCentroids);
        }
      }
    }

    method UpsertTrained(store: nat -> Vec, id: nat, offset: nat) returns (s: Status)
      requires Valid() && trained && |store(offset)| == dim
      modifies `docs, `placed, `lists, `codes, `vecs, `metrics
      ensures Valid() && docs == Bumped(old(docs), id, offset) && DocsAdvance(old(docs), docs)
      ensures old(SinglePostings()) ==> SinglePostings()
      ensures placed == old(placed)[id := store(offset)]
      ensures s == if Assign(Dot, centroids, store(offset)) == -1 then Internal else Ok
      ensures ParamsOk(quantizer.P(), dim)
      ensures Stepped(old(lists), old(codes), old(metrics), Assign(Dot, centroids, store(offset)),
                      Posting(id, docs[id].gen), EncodeVec(quantizer.P(), dim, store(offset)))
      ensures var c := Assign(Dot, centroids, store(offset));
              0 <= c < |lists| == |codes| == |metrics| ==> InBounds(lists[c], codes[c], metrics[c])
    {
      hide TrainedOk, DocsAdvance, Assign, Once, Compacted, ParamsOk, EncodeVec, Overdue, InBounds;
      var c := AddPosting(store, id, offset);
      if c < 0 || c >= |lists| {
        return Internal;
      }
      if ListNeedsCompaction(c) {
        ghost var list := lists[c];
        CompactList(c);
        CompactedInBounds(list, codes[c], metrics[c]);
      } else {
        DueIff(lists[c], codes[c], metrics[c]);
      }
      s := Ok;
    }

    method AddPosting(store: nat -> Vec, id: nat, offset: nat) returns (c: int)
      requires Valid() && trained && |store(offset)| == dim
      modifies `docs, `placed, `lists, `codes, `vecs
      ensures Valid() && docs == Bumped(old(docs), id, offset) && DocsAdvance(old(docs), docs)
      ensures old(SinglePostings()) ==> SinglePostings()
      ensures placed == old(placed)[id := store(offset)] && c == Assign(Dot, centroids, store(offset))
              && -1 <= c < |lists|
      ensures lists == Pushed(old(lists), c, Posting(id, docs[id].gen)) && |codes| == |lists| == |old(codes)|
      ensures ParamsOk(quantizer.P(), dim)
      ensures c >= 0 ==> codes[c] == old(codes)[c] + EncodeVec(quantizer.P(), dim, store(offset))
    {
      hide Placed, Once, DocsAdvance, ListsOk, EncodeVec, Assign;
      var vec := store(offset);
      ghost var home, p := Home(), quantizer.P();
      c := AssignOne(Dot, centroids, vec);
      UpsertKeeps(docs, lists, home, id, offset, c);
      UpsertKeepsBlobs(docs, home, placed, p, dim, lists, codes, vecs, id, offset, vec, c);
      HomeMoved(Dot, centroids, placed, id, vec);
      docs := Bumped(docs, id, offset);
      placed := placed[id := vec];
      if 0 <= c < |lists| {
        var block := quantizer.Encode(vec);
        BlockWritten(quantizer, dim, vec, block);
        lists := lists[c := lists[c] + [Posting(id, docs[id].gen)]];
        codes := codes[c := codes[c] + block];
        vecs := vecs[c := vecs[c] + [vec]];
      }
    }

    method Delete(id: nat) returns (s: Status)
      requires Valid()
      modifies `docs
      ensures Valid() && DocsAdvance(old(docs), docs)
      ensures old(SinglePostings()) ==> SinglePostings()
      ensures if id in old(docs) then s == Ok && docs == Dropped(old(docs), id) else s == NotFound && docs == old(docs)
      ensures s == Ok ==> Retired(old(docs), docs, id)
    {
      if id !in docs {
        return NotFound;
      }
      if trained {
        DeleteKeeps(docs, lists, Home(), id);
        DocsMoveOn(docs, Dropped(docs, id), Home(), placed, quantizer.P(), dim, lists, codes, vecs);
      }
      hide Placed, ListsOk, Once;
      docs := Dropped(docs, id);
      s := Ok;
    }

    method Train(store: nat -> Vec, newCentroids: seq<Vec>) returns (s: Status)
      requires Valid() && |newCentroids| == nlist && (!trained ==> Readable(store, docs))
      modifies this, quantizer
      ensures Valid() && docs == old(docs)
      ensures old(SinglePostings()) ==> SinglePostings()
      ensures trained && !old(trained) ==> PlacedIn(store) && s == Ok
      ensures old(trained) ==> unchanged(this) && unchanged(quantizer) && s == Ok
    {
      if trained {
        return Ok;
      }
      s := TrainImpl(store, newCentroids);
    }

    /** Trains centroids and quantizer on the live buffered docs and distributes the buffer. */
    method TrainImpl(store: nat -> Vec, newCentroids: seq<Vec>) returns (s: Status)
      requires Valid() && !trained && |newCentroids| == nlist && Readable(store, docs)
      modifies this, quantizer
      ensures Valid() && docs == old(docs)
      ensures old(SinglePostings()) ==> SinglePostings()
      ensures var n := |Flat.TrainingOffsets(docs, old(bufferIds))|;
              if n > 0 && n >= nlist
              then trained && centroids == newCentroids && PlacedIn(store) && s == Ok
                   && forall id :: IsLive(docs, id) ==> InRange(quantizer.P(), dim, store(docs[id].offset))
              else unchanged(this) && unchanged(quantizer) && s == (if n == 0 then Ok else InvalidArgument)
    {
      hide Placed, Once, Distributed, ListsOk, Flat.TrainingOffsets, TrainedOk, ParamsOk, InRange;
      var offsets := Flat.TrainingOffsets(docs, bufferIds);
      if offsets == [] {
        return Ok;
      }
      if |offsets| < nlist {
        return InvalidArgument;
      }
      TrainQuantizer(store, offsets);
      ghost var vectors := VectorsOf(docs, store);
      var filled, blobs, added := Distribute(quantizer, dim, newCentroids, docs, store, bufferIds);
      BufferPlaced(docs, Dot, newCentroids, vectors, bufferIds, filled);
      InstallLists(newCentroids, filled, blobs, vectors, added);
      s := Ok;
    }

    method TrainQuantizer(store: nat -> Vec, offsets: seq<nat>)
      requires quantizer.dim == dim && offsets == Flat.TrainingOffsets(docs, bufferIds) && offsets != []
      requires (forall id :: id in docs <==> id in bufferIds) && Readable(store, docs)
      modifies quantizer
      ensures quantizer.Trained()
      ensures forall id :: IsLive(docs, id) ==> InRange(quantizer.P(), dim, store(docs[id].offset))
    {
      Flat.TrainingReads(docs, bufferIds);
      var sample := seq(|offsets|, i requires 0 <= i < |offsets| => store(offsets[i]));
      forall i | 0 <= i < |sample| ensures |sample[i]| == dim && Finite(sample[i]) {
        assert offsets[i] in offsets;
      }
      quantizer.Train(sample);
      SampleCovers(quantizer.P(), dim, docs, store, bufferIds, sample);
    }

    method InstallLists(newCentroids: seq<Vec>, filled: seq<seq<Posting>>, blobs: seq<seq<Code>>,
                        ghost vectors: map<nat, Vec>, ghost added: seq<seq<Vec>>)
      requires quantizer.dim == dim && quantizer.Trained() && |newCentroids| == |filled| == nlist
      requires Placed(docs, filled, HomesOf(Dot, newCentroids, vectors))
      requires ListsOk(docs, vectors, quantizer.P(), dim, filled, blobs, added)
      modifies `centroids, `lists, `codes, `metrics, `placed, `vecs, `bufferIds, `trained
      ensures Valid() && trained && lists == filled && centroids == newCentroids && placed == vectors && bufferIds == []
    {
      hide Placed, HomesOf, ListOk;
      centroids, lists, codes := newCentroids, filled, blobs;
      metrics := seq(nlist, _ => Flat.FRESH_METRICS);
      placed, vecs := vectors, added;
      bufferIds := [];
      trained := true;
    }

    method CompactList(c: nat)
      requires Valid()
      modifies `lists, `codes, `vecs, `metrics
      ensures Valid() && (old(SinglePostings()) ==> SinglePostings())
      ensures lists == if c < |old(lists)| then old(lists)[c := Compacted(docs, old(lists)[c])] else old(lists)
      ensures |old(vecs)| == |old(lists)| && (c < |old(lists)| ==> |old(vecs)[c]| == |old(lists)[c]|)
      ensures vecs ==
              if c < |old(lists)| then old(vecs)[c := CompactedVecs(docs, old(lists)[c], old(vecs)[c])] else old(vecs)
      ensures |old(metrics)| == |old(codes)| == |old(lists)| == |codes|
      ensures metrics == if c < |old(lists)| then old(metrics)[c := Flat.FRESH_METRICS] else old(metrics)
      ensures forall b :: 0 <= b < |codes| && b != c ==> codes[b] == old(codes)[b]
    {
      if c >= |lists| {
        return;
      }
      assert ListOk(docs, placed, quantizer.P(), dim, lists[c], codes[c], vecs[c]);
      hide Placed, Once, ListsOk, CompactLoop, Compacted, CompactedVecs, EncodeAll;
      var list', blob' := CompactBlob(docs, quantizer.P(), dim, lists[c], codes[c], vecs[c]);
      CompactKeepsBlobs(docs, placed, quantizer.P(), dim, lists, codes, vecs, c, list', blob');
      CompactKeeps(docs, lists, Home(), c);
      ReplaceList(c, list', blob', CompactedVecs(docs, lists[c], vecs[c]));
    }

    method ReplaceList(c: nat, list': seq<Posting>, blob': seq<Code>, ghost vecs': seq<Vec>)
      requires Valid() && trained && c < |lists|
      requires Placed(docs, lists[c := list'], Home()) && (SinglePostings() ==> Once(docs, lists[c := list']))
      requires ListsOk(docs, placed, quantizer.P(), dim, lists[c := list'], codes[c := blob'], vecs[c := vecs'])
      modifies `lists, `codes, `vecs, `metrics
      ensures Valid() && (old(SinglePostings()) ==> SinglePostings())
      ensures lists == old(lists)[c := list'] && |vecs| == |old(vecs)| && c < |old(vecs)|
              && vecs == old(vecs)[c := vecs']
      ensures c < |old(metrics)| && metrics == old(metrics)[c := Flat.FRESH_METRICS]
      ensures |codes| == |old(codes)| && c < |codes| && codes == old(codes)[c := blob']
    {
      hide Placed, Once, ListOk, HomesOf;
      lists, codes, vecs := lists[c := list'], codes[c := blob'], vecs[c := vecs'];
      metrics := metrics[c := Flat.FRESH_METRICS];
    }

    function RefineK(topk: nat): int {
      (topk as real * refineFactor).Floor
    }

    ghost function ProbeList(q: Vec): seq<nat>
      reads this
    {
      Probes(Dot, centroids, q, if nprobe < nlist then nprobe else nlist)
    }

    /** What the quantized pass reads. */
    ghost function ApproxScan(q: Vec): seq<Candidate>
      requires Valid() && trained
      reads this, quantizer
    {
      BlobsFit(docs, placed, quantizer.P(), dim, lists, codes, vecs);
      ScanCodeLists(docs, quantizer.P(), dim, q, lists, vecs, ProbeList(q))
    }

    /** What a search returns. */
    ghost function Found(store: nat -> Vec, q: Vec, topk: nat): seq<Candidate>
      requires Valid()
      reads this, quantizer
    {
      if trained then TwoStage(docs, store, q, ApproxScan(q), if RefineK(topk) > 0 then RefineK(topk) else 0, topk)
      else Kept(topk, Flat.ScanBuffer(Dot, docs, store, q, bufferIds))
    }

    /** The posting lists, each with what goes with it. */
    ghost function Rows(): (rows: seq<Row>)
      requires Parallel()
      reads this
      ensures |rows| == |lists|
      ensures forall c :: 0 <= c < |rows| ==> rows[c] == Row(lists[c], codes[c], vecs[c], metrics[c])
    {
      seq(|lists|, c requires 0 <= c < |lists| reads this requires Parallel() =>
        Row(lists[c], codes[c], vecs[c], metrics[c]))
    }

    ghost predicate Parallel()
      reads this
    {
      |lists| == |codes| == |vecs| == |metrics| && forall c :: 0 <= c < |lists| ==> |vecs[c]| == |lists[c]|
    }

    lemma RowsParallel()
      requires Valid()
      ensures Parallel()
    {
      if trained {
        BlobsFit(docs, placed, quantizer.P(), dim, lists, codes, vecs);
      }
    }

    /** A list before and after compaction: it is compacted, and its counters start again, exactly if
        it was due. */
    ghost predicate Tidied(docs: Docs, before: Row, after: Row) {
      if Overdue(before.list, before.blob, before.metrics)
      then && |before.vecs| == |before.list|
           && after.list == Compacted(docs, before.list) && after.vecs == CompactedVecs(docs, before.list, before.vecs)
           && after.metrics == Flat.FRESH_METRICS
      else after == before
    }

    lemma TidiedInBounds(before: Row, after: Row)
      requires Tidied(docs, before, after)
      ensures InBounds(after.list, after.blob, after.metrics)
    {
      DueIff(before.list, before.blob, before.metrics);
      CompactedInBounds(before.list, after.blob, after.metrics);
    }

    /** The first n lists have been tidied, the others not looked at. */
    ghost predicate TidiedTo(docs: Docs, before: seq<Row>, after: seq<Row>, n: nat) {
      && |after| == |before|
      && forall c :: 0 <= c < |after| ==> if c < n then Tidied(docs, before[c], after[c]) else after[c] == before[c]
    }

    lemma OneMoreTidied(docs: Docs, before: seq<Row>, rows: seq<Row>, after: seq<Row>, n: nat)
      requires TidiedTo(docs, before, rows, n) && n < |rows| == |after| && Tidied(docs, rows[n], after[n])
      requires forall c :: 0 <= c < |after| && c != n ==> after[c] == rows[c]
      ensures TidiedTo(docs, before, after, n + 1)
    {
    }

    /** Compacts every list that is due. Whatever is searched for, the result is the same as before. */
    method Compact()
      requires Valid()
      modifies `lists, `codes, `vecs, `metrics
      ensures Valid() && (old(SinglePostings()) ==> SinglePostings())
      ensures Parallel() && old(Parallel()) && TidiedTo(docs, old(Rows()), Rows(), |lists|)
      ensures forall c :: 0 <= c < |lists| ==> InBounds(lists[c], codes[c], metrics[c])
      ensures forall store: nat -> Vec, q, topk :: Found(store, q, topk) == old(Found(store, q, topk))
    {
      RowsParallel();
      ghost var before := Rows();
      CompactDue();
      forall c | 0 <= c < |lists| ensures InBounds(lists[c], codes[c], metrics[c]) {
        TidiedInBounds(before[c], Rows()[c]);
      }
      assert SomeBlobsCompacted(docs, old(lists), old(vecs), lists, vecs) by {
        forall c | 0 <= c < |lists|
          ensures (lists[c] == old(lists)[c] && vecs[c] == old(vecs)[c])
               || (lists[c] == Compacted(docs, old(lists)[c])
                   && vecs[c] == CompactedVecs(docs, old(lists)[c], old(vecs)[c]))
        {
          assert Tidied(docs, before[c], Rows()[c]);
        }
      }
      if trained {
        assert old(VecsFit(lists, vecs, dim)) by {
          BlobsFit(docs, placed, quantizer.P(), dim, old(lists), old(codes), old(vecs));
        }
        hide SinglePostings, Tidied, Rows, InBounds, SomeBlobsCompacted, Parallel, TrainedOk, VecsFit, TwoStage,
          ScanCodeLists;
        SameScans(old(lists), old(vecs));
        assert forall q :: ApproxScan(q) == old(ApproxScan(q));
      }
    }

    lemma SameScans(lists0: seq<seq<Posting>>, vecs0: seq<seq<Vec>>)
      requires Valid() && trained && VecsFit(lists0, vecs0, dim)
      requires SomeBlobsCompacted(docs, lists0, vecs0, lists, vecs)
      ensures forall q :: ApproxScan(q) == ScanCodeLists(docs, quantizer.P(), dim, q, lists0, vecs0, ProbeList(q))
    {
      BlobsFit(docs, placed, quantizer.P(), dim, lists, codes, vecs);
      hide Placed, ListsOk, VecsFit, SomeBlobsCompacted, ScanCodeLists, Probes, ParamsOk;
      forall q ensures ApproxScan(q) == ScanCodeLists(docs, quantizer.P(), dim, q, lists0, vecs0, ProbeList(q)) {
        CodeCompactionInvisible(docs, quantizer.P(), dim, q, lists0, vecs0, lists, vecs, ProbeList(q));
      }
    }

    method CompactDue()
      requires Valid()
      modifies `lists, `codes, `vecs, `metrics
      ensures Valid() && (old(SinglePostings()) ==> SinglePostings())
      ensures Parallel() && old(Parallel()) && TidiedTo(docs, old(Rows()), Rows(), |lists|)
    {
      RowsParallel();
      ghost var before := Rows();
      for i := 0 to |lists|
        invariant Valid() && (old(SinglePostings()) ==> SinglePostings()) && Parallel() && |lists| == |before|
        invariant TidiedTo(docs, before, Rows(), i)
      {
        hide *;
        ghost var rows := Rows();
        CompactIfDue(i);
        OneMoreTidied(docs, before, rows, Rows(), i);
      }
    }

    method CompactIfDue(i: nat)
      requires Valid() && i < |lists|
      modifies `lists, `codes, `vecs, `metrics
      ensures Valid() && (old(SinglePostings()) ==> SinglePostings())
      ensures Parallel() && old(Parallel()) && |Rows()| == |old(Rows())|
      ensures i < |Rows()| && Tidied(docs, old(Rows())[i], Rows()[i])
      ensures forall c :: 0 <= c < |Rows()| && c != i ==> Rows()[c] == old(Rows())[c]
    {
      RowsParallel();
      hide TrainedOk, Once, HomesOf, Overdue, Compacted, CompactedVecs;
      if ListNeedsCompaction(i) {
        CompactList(i);
        RowsParallel();
      }
    }

    /** The docs a search is to consider: all live ones before training; then those assigned to one of
        the nprobe best centroids. */
    ghost function Scope(store: nat -> Vec, q: Vec): set<nat>
      reads this
    {
      set id | id in docs && !docs[id].deleted
               && (trained ==> Assign(Dot, centroids, store(docs[id].offset)) in
                                 Probes(Dot, centroids, q, if nprobe < nlist then nprobe else nlist))
    }

    /** Distinct docs in scope with their exact scores, best first. */
    ghost predicate IsSound(store: nat -> Vec, q: Vec, topk: nat, res: seq<Candidate>)
      reads this
    {
      && |res| <= topk && DistinctIds(res)
      && (forall i, j :: 0 <= i < j < |res| ==>
            res[i].score > res[j].score || (res[i].score == res[j].score && res[i].id > res[j].id))
      && (forall x :: x in res ==>
            x.id in docs && x.id in Scope(store, q) && x.score == Dot(q, store(docs[x.id].offset)))
    }

    /** A doc in scope is missing only when topk others score at least as high. */
    ghost predicate IsComplete(store: nat -> Vec, q: Vec, topk: nat, res: seq<Candidate>)
      reads this
    {
      forall id :: id in docs && id in Scope(store, q) ==>
        var x := Candidate(id, Dot(q, store(docs[id].offset)));
        x in res || (|res| == topk && forall y :: y in res ==> y.score >= x.score)
    }

    lemma BufferFound(store: nat -> Vec, q: Vec, topk: nat)
      requires Valid() && !trained && SinglePostings()
      ensures IsSound(store, q, topk, Found(store, q, topk)) && IsComplete(store, q, topk, Found(store, q, topk))
      ensures |Found(store, q, topk)| == if |Scope(store, q)| <= topk then |Scope(store, q)| else topk
    {
      var stream := Flat.ScanBuffer(Dot, docs, store, q, bufferIds);
      BufferReadsScope(store, q);
      hide Flat.ScanBuffer, Kept, Valid, SinglePostings, Scope, Dot, DistinctIds;
      KeptAre(topk, stream);
      StreamCounts(docs, store, q, stream, Scope(store, q));
    }

    lemma BufferReadsScope(store: nat -> Vec, q: Vec)
      requires Valid() && !trained && SinglePostings()
      ensures DistinctIds(Flat.ScanBuffer(Dot, docs, store, q, bufferIds))
      ensures forall id :: id in Scope(store, q) ==> id in docs
      ensures forall x :: x in Flat.ScanBuffer(Dot, docs, store, q, bufferIds) <==>
                          x.id in Scope(store, q) && x.score == DocScore(Dot, docs, store, q, x.id)
    {
      hide Dot, Flat.ScanBuffer;
      Flat.BufferHas(Dot, docs, store, q, bufferIds);
    }

    /** Before training the scores are those of a brute-force scan over all live docs. */
    lemma BufferSearchIsBruteForce(store: nat -> Vec, q: Vec, topk: nat, all: seq<Candidate>)
      requires Valid() && !trained && SinglePostings() && DistinctIds(all)
      requires forall x :: x in all <==>
                           x.id in docs && !docs[x.id].deleted && x.score == Dot(q, store(docs[x.id].offset))
      ensures ScoreSeq(Found(store, q, topk)) == TopK(Higher, topk, ScoreSeq(all))
    {
      hide Dot;
      Flat.BufferHas(Dot, docs, store, q, bufferIds);
      SameStreams(Flat.ScanBuffer(Dot, docs, store, q, bufferIds), all, topk);
    }

    /** The probed docs are those in scope. */
    lemma ProbedIsScope(store: nat -> Vec, q: Vec)
      requires Valid() && trained && PlacedIn(store)
      ensures Probed(docs, Home(), ProbeList(q)) == Scope(store, q)
    {
      var home := Home();
      forall id | id in docs && !docs[id].deleted
        ensures id in home && home[id] == Assign(Dot, centroids, store(docs[id].offset))
      {
        assert IsLive(docs, id) && id in placed && placed[id] == store(docs[id].offset);
      }
      hide Valid, Home, HomesOf, PlacedIn, Probes, Assign, Dot;
    }

    lemma ListsFound(store: nat -> Vec, q: Vec, topk: nat)
      requires Valid() && trained && SinglePostings() && PlacedIn(store)
      ensures IsSound(store, q, topk, Found(store, q, topk))
      ensures refineFactor >= 1.0 ==>
                |Found(store, q, topk)| == if |Scope(store, q)| <= topk then |Scope(store, q)| else topk
    {
      ApproxReadsScope(store, q);
      if refineFactor >= 1.0 { FirstPassIsWider(topk); }
      hide IsSound, Scope, TwoStage, DistinctIds, ScanCodeLists, RefineK, Placed, ListsOk, ParamsOk, Home;
      TwoStageFound(store, q, ApproxScan(q), if RefineK(topk) > 0 then RefineK(topk) else 0, topk);
    }

    lemma FirstPassIsWider(topk: nat)
      requires refineFactor >= 1.0
      ensures RefineK(topk) >= topk
    {
      GrowsWith(topk, refineFactor);
    }

    lemma TwoStageFound(store: nat -> Vec, q: Vec, approx: seq<Candidate>, refineK: nat, topk: nat)
      requires DistinctIds(approx) && |approx| == |Scope(store, q)|
      requires forall c :: c in approx ==> IsLive(docs, c.id) && c.id in Scope(store, q)
      ensures var found := TwoStage(docs, store, q, approx, refineK, topk);
              && IsSound(store, q, topk, found)
              && (refineK >= topk ==> |found| == if |Scope(store, q)| <= topk then |Scope(store, q)| else topk)
    {
      hide Scope, TwoStage, DistinctIds, Dot;
      TwoPassesKeep(docs, store, q, approx, refineK, topk);
    }

    /** The quantized pass reads the docs in scope, each once. */
    lemma ApproxReadsScope(store: nat -> Vec, q: Vec)
      requires Valid() && trained && SinglePostings() && PlacedIn(store)
      ensures DistinctIds(ApproxScan(q)) && |ApproxScan(q)| == |Scope(store, q)|
      ensures forall c :: c in ApproxScan(q) ==> IsLive(docs, c.id) && c.id in Scope(store, q)
    {
      ProbedIsScope(store, q);
      ProbesAreBest(Dot, centroids, q, if nprobe < nlist then nprobe else nlist);
      BlobsFit(docs, placed, quantizer.P(), dim, lists, codes, vecs);
      hide Home, HomesOf, Probes, ScanProbes, ScanCodeLists, Dot, ParamsOk, VecsFit, Scope, Placed, Once, ListsOk,
        DistinctIds;
      ListsRead(docs, placed, Home(), ProbeList(q), store, quantizer.P(), dim, q, lists, codes, vecs);
    }

    method Search(store: nat -> Vec, q: Vec, topk: nat) returns (res: seq<Candidate>)
      requires Valid() && topk > 0 && |q| == dim && (topk as real * refineFactor).Floor > 0
      modifies `metrics
      ensures Valid() && SinglePostings() == old(SinglePostings()) && res == Found(store, q, topk)
      ensures !trained ==> res == Kept(topk, Flat.ScanBuffer(Dot, docs, store, q, bufferIds)) && metrics == old(metrics)
      ensures trained ==>
                && res == TwoStage(docs, store, q, ApproxScan(q), (topk as real * refineFactor).Floor, topk)
                && metrics == Flat.CountedAll(old(metrics), docs, lists, ProbeList(q))
                && Flat.Tallied(old(metrics), metrics, docs, lists, ProbeList(q))
      ensures SinglePostings() && (trained ==> PlacedIn(store)) ==>
                && IsSound(store, q, topk, res)
                && (!trained ==> IsComplete(store, q, topk, res))
                && (!trained || refineFactor >= 1.0 ==>
                      |res| == if |Scope(store, q)| <= topk then |Scope(store, q)| else topk)
    {
      hide IsSound, IsComplete, Scope, PlacedIn, Once, Flat.Tallied;
      hide TrainedOk, TwoStage, Kept, ScanCodeLists, Flat.CountedAll, Flat.ScanBuffer, Refine;
      if !trained {
        res := Flat.SearchBuffer(Dot, docs, store, q, topk, bufferIds);
      } else {
        ProbesAreBest(Dot, centroids, q, if nprobe < nlist then nprobe else nlist);
        Flat.CountedAllTallies(metrics, docs, lists, ProbeList(q));
        var approx := QuantizedPass(q, RefineK(topk));
        res := ExactPass(docs, store, q, PopOrder(approx), topk);
        TwoStageIs(docs, store, q, ApproxScan(q), RefineK(topk), topk);
      }
      if SinglePostings() && (trained ==> PlacedIn(store)) {
        if trained { ListsFound(store, q, topk); } else { BufferFound(store, q, topk); }
      }
    }

    /** The first pass: the code blocks of the probed lists through the bounded queue. */
    method QuantizedPass(q: Vec, refineK: nat) returns (approx: seq<Candidate>)
      requires Valid() && trained && |q| == dim
      modifies `metrics
      ensures Valid() && approx == Kept(refineK, ApproxScan(q))
      ensures metrics == Flat.CountedAll(old(metrics), docs, lists, ProbeList(q))
    {
      BlobsFit(docs, placed, quantizer.P(), dim, lists, codes, vecs);
      hide Placed, ListsOk, VecsFit, Kept, Probes, Flat.Counted, ScanCodes, ParamsOk;
      ghost var p := quantizer.P();
      var probes := Probes(Dot, centroids, q, if nprobe < nlist then nprobe else nlist);
      approx := [];
      Flat.NothingKept(refineK);
      for i := 0 to |probes|
        invariant Valid() && VecsFit(lists, vecs, dim)
        invariant approx == Kept(refineK, ScanCodeLists(docs, p, dim, q, lists, vecs, probes[..i]))
        invariant metrics == Flat.CountedAll(old(metrics), docs, lists, probes[..i])
      {
        assert probes[..i + 1] == probes[..i] + [probes[i]];
        MoreCodeLists(docs, p, dim, q, lists, vecs, probes, i);
        approx := ScanOne(q, refineK, probes[i], ScanCodeLists(docs, p, dim, q, lists, vecs, probes[..i]), approx);
      }
      assert probes[..|probes|] == probes;
    }

    /** The loop over one probed list. */
    method ScanOne(q: Vec, k: nat, c: nat, ghost seen: seq<Candidate>, h0: seq<Candidate>) returns (h: seq<Candidate>)
      requires Valid() && trained && |q| == dim && VecsFit(lists, vecs, dim) && h0 == Kept(k, seen)
      modifies `metrics
      ensures Valid() && metrics == Flat.Counted(old(metrics), docs, lists, c)
      ensures h == Kept(k, seen + (if c < |lists| then ScanCodes(docs, quantizer.P(), dim, q, lists[c],
                                                                 vecs[c]) else []))
    {
      h := h0;
      assert seen + [] == seen;
      if c >= |lists| {
        return;
      }
      assert ListOk(docs, placed, quantizer.P(), dim, lists[c], codes[c], vecs[c]);
      hide Placed, ListsOk, VecsFit, Kept, HomesOf, ScanCodes;
      var stale;
      h, stale := ScanBlob(quantizer, docs, dim, q, lists[c], codes[c], vecs[c], k, seen, h0);
      Charge(c, stale);
    }

    method Charge(c: nat, stale: nat)
      requires Valid() && trained && c < |lists| && stale == Flat.StaleCount(docs, lists[c])
      modifies `metrics
      ensures Valid() && metrics == Flat.Counted(old(metrics), docs, lists, c)
    {
      hide Placed, ListsOk, HomesOf, Flat.StaleCount, Once;
      metrics := metrics[c := Flat.ListMetrics(metrics[c].staleEntries + stale, metrics[c].staleChecked + |lists[c]|)];
    }

    /** Recall: a probed live doc is returned with its exact score if fewer than RefineK others come within
        the quantization slack of it and fewer than topk others score at least as high. */
    lemma Recall(store: nat -> Vec, q: Vec, topk: nat, x: nat)
      requires Valid() && trained && SinglePostings() && PlacedIn(store) && |q| == dim
      requires (topk as real * refineFactor).Floor > 0
      requires x in Probed(docs, Home(), ProbeList(q))
      requires forall id :: id in Probed(docs, Home(), ProbeList(q)) ==>
                 InRange(quantizer.P(), dim, store(docs[id].offset))
      requires var score := DocScore(Dot, docs, store, q, x);
               && |Rivals(docs, Home(), ProbeList(q), store, q, x, score - SlackUpTo(quantizer.P(), q, dim))| <
                    (topk as real * refineFactor).Floor
               && |Rivals(docs, Home(), ProbeList(q), store, q, x, score)| < topk
      ensures Candidate(x, DocScore(Dot, docs, store, q, x)) in Found(store, q, topk)
    {
      hide Placed, ListsOk, VecsFit, Once, Rivals, Probed, InRange, TwoStage, ScanCodeLists, ParamsOk, Probes;
      BlobsFit(docs, placed, quantizer.P(), dim, lists, codes, vecs);
      ProbesAreBest(Dot, centroids, q, if nprobe < nlist then nprobe else nlist);
      TwoPassRecall(docs, placed, Home(), ProbeList(q), store, quantizer.P(), dim, q, lists, codes, vecs,
                    RefineK(topk), topk, x);
    }
  }

  /** The quantized scan reads the docs of the exact scan: live probed ones, each once, all of them. */
  lemma ListsRead(docs: Docs, placed: map<nat, Vec>, home: map<nat, int>, probes: seq<nat>, store: nat -> Vec,
                  p: Params, dim: nat, q: Vec, lists: seq<seq<Posting>>, codes: seq<seq<Code>>, vecs: seq<seq<Vec>>)
    requires Placed(docs, lists, home) && Once(docs, lists)
    requires forall i, j :: 0 <= i < j < |probes| ==> probes[i] != probes[j]
    requires ParamsOk(p, dim) && ListsOk(docs, placed, p, dim, lists, codes, vecs) && VecsFit(lists, vecs, dim)
    requires forall id :: IsLive(docs, id) ==> id in placed && placed[id] == store(docs[id].offset)
    ensures var approx := ScanCodeLists(docs, p, dim, q, lists, vecs, probes);
      && DistinctIds(approx) && |approx| == |Probed(docs, home, probes)|
      && (forall c :: c in approx ==> IsLive(docs, c.id) && c.id in Probed(docs, home, probes))
  {
    var approx, exact := ScanCodeLists(docs, p, dim, q, lists, vecs, probes),
      ScanProbes(Dot, docs, store, q, lists, probes);
    ScanCodeListsHas(docs, placed, p, dim, q, store, lists, codes, vecs, probes);
    ScanCounts(docs, store, q, lists, home, probes);
    ScanReadsPlaced(Dot, docs, store, q, lists, home, probes);
    assert forall id :: IsLive(docs, id) ==> id in home;
    hide Placed, Once, ListsOk, ScanCodeLists, ScanProbes, ParamsOk, VecsFit;
    SameDistinct(docs, p, dim, q, store, approx, exact);
    forall c | c in approx ensures IsLive(docs, c.id) && c.id in Probed(docs, home, probes) {
      var i :| 0 <= i < |approx| && approx[i] == c;
      assert exact[i] in exact;
    }
  }

  lemma GrowsWith(n: nat, f: real)
    requires f >= 1.0
    ensures (n as real * f).Floor >= n
  {
    var more := n as real * (f - 1.0);
    assert more >= 0.0;
    assert n as real * f == n as real + more;
    assert (n as real + more).Floor >= n;
  }

  lemma BlobsFit(docs: Docs, placed: map<nat, Vec>, p: Params, dim: nat, lists: seq<seq<Posting>>,
                 codes: seq<seq<Code>>, vecs: seq<seq<Vec>>)
    requires ParamsOk(p, dim) && ListsOk(docs, placed, p, dim, lists, codes, vecs)
    ensures VecsFit(lists, vecs, dim)
  {
    forall c | 0 <= c < |lists|
      ensures |vecs[c]| == |lists[c]| && forall j :: 0 <= j < |vecs[c]| ==> |vecs[c][j]| == dim
    {
      assert ListOk(docs, placed, p, dim, lists[c], codes[c], vecs[c]);
    }
  }

  lemma MoreCodeLists(docs: Docs, p: Params, dim: nat, q: Vec, lists: seq<seq<Posting>>, vecs: seq<seq<Vec>>,
                      probes: seq<nat>, i: nat)
    requires ParamsOk(p, dim) && VecsFit(lists, vecs, dim) && i < |probes|
    ensures ScanCodeLists(docs, p, dim, q, lists, vecs, probes[..i + 1]) ==
              ScanCodeLists(docs, p, dim, q, lists, vecs, probes[..i])
              + (if probes[i] < |lists| then ScanCodes(docs, p, dim, q, lists[probes[i]], vecs[probes[i]]) else [])
  {
    assert probes[..i + 1][..i] == probes[..i];
  }

  lemma MoreCodes(docs: Docs, p: Params, dim: nat, q: Vec, list: seq<Posting>, vecs: seq<Vec>, j: nat,
                  seen: seq<Candidate>)
    requires ParamsOk(p, dim) && |vecs| == |list| && (forall j :: 0 <= j < |vecs| ==> |vecs[j]| == dim) && j < |list|
    ensures var before := seen + ScanCodes(docs, p, dim, q, list[..j], vecs[..j]);
            seen + ScanCodes(docs, p, dim, q, list[..j + 1], vecs[..j + 1]) ==
            if EntryIsLive(docs, list[j]) then before + [ApproxCandidate(p, dim, q, list[j], vecs[j])] else before
  {
    assert list[..j + 1][..j] == list[..j] && vecs[..j + 1][..j] == vecs[..j];
  }

  lemma DistsAreApprox(p: Params, dim: nat, q: Vec, blob: seq<Code>, vecs: seq<Vec>, dists: seq<real>)
    requires ParamsOk(p, dim) && (forall j :: 0 <= j < |vecs| ==> |vecs[j]| == dim) && blob == EncodeAll(p, dim, vecs)
    requires |dists| == |vecs| && forall i :: 0 <= i < |vecs| ==>
               i * dim + dim <= |blob| && dists[i] == ApproxScore(p, dim, q, blob[i * dim..i * dim + dim])
    ensures forall i :: 0 <= i < |vecs| ==> dists[i] == ApproxScore(p, dim, q, EncodeVec(p, dim, vecs[i]))
  {
    forall i | 0 <= i < |vecs| ensures dists[i] == ApproxScore(p, dim, q, EncodeVec(p, dim, vecs[i])) {
      BlockOf(p, dim, vecs, i);
    }
  }

  method ScanBlob(quantizer: ScalarQuantizer, docs: Docs, dim: nat, q: Vec, list: seq<Posting>, blob: seq<Code>,
                  ghost vecs: seq<Vec>, k: nat, ghost seen: seq<Candidate>, h0: seq<Candidate>)
    returns (h: seq<Candidate>, stale: nat)
    requires quantizer.dim == dim && ParamsOk(quantizer.P(), dim) && |q| == dim && h0 == Kept(k, seen)
    requires |vecs| == |list| && (forall j :: 0 <= j < |vecs| ==> |vecs[j]| == dim)
             && blob == EncodeAll(quantizer.P(), dim, vecs)
    ensures h == Kept(k, seen + ScanCodes(docs, quantizer.P(), dim, q, list, vecs))
            && stale == Flat.StaleCount(docs, list)
  {
    hide Kept, ScanCodes;
    var dists := quantizer.ComputeDotProducts(q, blob, |list|);
    DistsAreApprox(quantizer.P(), dim, q, blob, vecs, dists);
    h, stale := ScanEntries(docs, quantizer.P(), dim, q, list, vecs, dists, k, seen, h0);
  }

  method ScanEntries(docs: Docs, ghost p: Params, ghost dim: nat, ghost q: Vec, entries: seq<Posting>,
                     ghost vecs: seq<Vec>,
                     dists: seq<real>, k: nat, ghost seen: seq<Candidate>, h0: seq<Candidate>)
    returns (h: seq<Candidate>, stale: nat)
    requires ParamsOk(p, dim) && |dists| == |vecs| == |entries| && (forall j :: 0 <= j < |vecs| ==> |vecs[j]| == dim)
    requires forall j :: 0 <= j < |vecs| ==> dists[j] == ApproxScore(p, dim, q, EncodeVec(p, dim, vecs[j]))
    requires h0 == Kept(k, seen)
    ensures h == Kept(k, seen + ScanCodes(docs, p, dim, q, entries, vecs)) && stale == Flat.StaleCount(docs, entries)
  {
    hide Kept, Offer;
    h, stale := h0, 0;
    assert seen + [] == seen;
    for j := 0 to |entries|
      invariant h == Kept(k, seen + ScanCodes(docs, p, dim, q, entries[..j], vecs[..j]))
      invariant stale == Flat.StaleCount(docs, entries[..j])
    {
      MoreCodes(docs, p, dim, q, entries, vecs, j, seen);
      assert entries[..j + 1][..j] == entries[..j];
      if EntryIsLive(docs, entries[j]) {
        var x := Candidate(entries[j].id, dists[j]);
        KeptAppend(k, seen + ScanCodes(docs, p, dim, q, entries[..j], vecs[..j]), x);
        h := Offer(k, h, x);
      } else {
        stale := stale + 1;
      }
    }
    assert entries[..|entries|] == entries && vecs[..|entries|] == vecs;
  }

  /** The second pass: exact scores of the surviving ids through a queue of size topk. */
  method ExactPass(docs: Docs, store: nat -> Vec, q: Vec, ids: seq<nat>, topk: nat) returns (res: seq<Candidate>)
    ensures res == Kept(topk, Refine(docs, store, q, ids))
  {
    res := [];
    for i := 0 to |ids|
      invariant res == Kept(topk, Refine(docs, store, q, ids[..i]))
    {
      var id := ids[i];
      assert ids[..i + 1] == ids[..i] + [id];
      if IsLive(docs, id) {
        var x := Candidate(id, Dot(q, store(docs[id].offset)));
        KeptAppend(topk, Refine(docs, store, q, ids[..i]), x);
        res := Offer(topk, res, x);
      }
    }
    assert ids[..|ids|] == ids;
  }

  lemma TwoStageIs(docs: Docs, store: nat -> Vec, q: Vec, approx: seq<Candidate>, refineK: nat, topk: nat)
    ensures TwoStage(docs, store, q, approx, refineK, topk) ==
              Kept(topk, Refine(docs, store, q, PopOrder(Kept(refineK, approx))))
  {
  }

  // ----- recall of the two passes -----

  lemma TwoPassRecall(docs: Docs, placed: map<nat, Vec>, home: map<nat, int>, probes: seq<nat>, store: nat -> Vec,
                      p: Params, dim: nat, q: Vec, lists: seq<seq<Posting>>, codes: seq<seq<Code>>, vecs: seq<seq<Vec>>,
                      refineK: nat, topk: nat, x: nat)
    requires Placed(docs, lists, home) && Once(docs, lists)
    requires forall i, j :: 0 <= i < j < |probes| ==> probes[i] != probes[j]
    requires ParamsOk(p, dim) && ListsOk(docs, placed, p, dim, lists, codes, vecs) && VecsFit(lists, vecs, dim)
             && |q| == dim
    requires forall id :: IsLive(docs, id) ==> id in placed && placed[id] == store(docs[id].offset)
    requires x in Probed(docs, home, probes)
    requires forall id :: id in Probed(docs, home, probes) ==> InRange(p, dim, store(docs[id].offset))
    requires var score := DocScore(Dot, docs, store, q, x);
             && |Rivals(docs, home, probes, store, q, x, score - SlackUpTo(p, q, dim))| < refineK
             && |Rivals(docs, home, probes, store, q, x, score)| < topk
    ensures Candidate(x, DocScore(Dot, docs, store, q, x)) in
              TwoStage(docs, store, q, ScanCodeLists(docs, p, dim, q, lists, vecs, probes), refineK, topk)
  {
    ScanCodeListsHas(docs, placed, p, dim, q, store, lists, codes, vecs, probes);
    ScanReadsPlaced(Dot, docs, store, q, lists, home, probes);
    ScanDistinct(Dot, docs, store, q, lists, home, probes);
    assert forall id :: IsLive(docs, id) ==> id in home;
    hide Placed, ListsOk, VecsFit, Once, ScanCodeLists, ScanProbes, Rivals, Probed, InRange, TwoStage, SameDocs,
      DistinctIds;
    var approx, exact := ScanCodeLists(docs, p, dim, q, lists, vecs, probes),
      ScanProbes(Dot, docs, store, q, lists, probes);
    RecallFirst(docs, home, probes, store, p, dim, q, approx, exact, refineK, x);
    RecallSecond(docs, home, probes, store, q, approx, refineK, topk, x);
  }

  lemma Within(a: real, s: real, a': real, s': real, slack: real)
    requires Abs(a - s) <= slack / 2.0 && Abs(a' - s') <= slack / 2.0 && a' >= a
    ensures s' >= s - slack
  {
  }

  /** The doc survives the quantized pass. */
  lemma RecallFirst(docs: Docs, home: map<nat, int>, probes: seq<nat>, store: nat -> Vec, p: Params, dim: nat, q: Vec,
                    approx: seq<Candidate>, exact: seq<Candidate>, refineK: nat, x: nat)
    requires ParamsOk(p, dim) && |q| == dim && SameDocs(docs, p, dim, q, store, approx, exact) && DistinctIds(exact)
    requires forall id :: IsLive(docs, id) ==> id in home
    requires forall y :: y in exact <==>
               IsLive(docs, y.id) && home[y.id] >= 0 && home[y.id] in probes
                 && y.score == DocScore(Dot, docs, store, q, y.id)
    requires x in Probed(docs, home, probes)
    requires forall id :: id in Probed(docs, home, probes) ==> InRange(p, dim, store(docs[id].offset))
    requires var bound := DocScore(Dot, docs, store, q, x) - SlackUpTo(p, q, dim);
             |Rivals(docs, home, probes, store, q, x, bound)| < refineK
    ensures x in PopOrder(Kept(refineK, approx)) && DistinctIds(approx)
    ensures forall y :: y in approx ==> y.id in Probed(docs, home, probes)
  {
    var score, slack := DocScore(Dot, docs, store, q, x), SlackUpTo(p, q, dim);
    var rivals := Rivals(docs, home, probes, store, q, x, score - slack);
    SameDistinct(docs, p, dim, q, store, approx, exact);
    forall y | y in approx
      ensures y.id in Probed(docs, home, probes) && Abs(y.score - DocScore(Dot, docs, store, q, y.id)) <= slack / 2.0
    {
      ApproxNear(docs, home, probes, store, p, dim, q, approx, exact, y);
    }
    assert Candidate(x, score) in exact;
    var k :| 0 <= k < |exact| && exact[k] == Candidate(x, score);
    var mine := approx[k];
    assert mine in approx && mine.id == x;
    hide DistinctIds, SameDocs, InRange, ParamsOk, Kept;
    forall y | y in approx && y.id != mine.id && y.score >= mine.score ensures y.id in rivals {
      Within(mine.score, score, y.score, DocScore(Dot, docs, store, q, y.id), slack);
    }
    KeptUnlessBeaten(refineK, approx, mine, rivals);
    InPopOrder(Kept(refineK, approx), mine);
  }

  lemma SameDistinct(docs: Docs, p: Params, dim: nat, q: Vec, store: nat -> Vec, approx: seq<Candidate>,
                     exact: seq<Candidate>)
    requires ParamsOk(p, dim) && SameDocs(docs, p, dim, q, store, approx, exact) && DistinctIds(exact)
    ensures DistinctIds(approx)
  {
  }

  lemma ApproxNear(docs: Docs, home: map<nat, int>, probes: seq<nat>, store: nat -> Vec, p: Params, dim: nat, q: Vec,
                   approx: seq<Candidate>, exact: seq<Candidate>, y: Candidate)
    requires ParamsOk(p, dim) && |q| == dim && SameDocs(docs, p, dim, q, store, approx, exact)
    requires forall id :: IsLive(docs, id) ==> id in home
    requires forall y :: y in exact <==>
               IsLive(docs, y.id) && home[y.id] >= 0 && home[y.id] in probes
                 && y.score == DocScore(Dot, docs, store, q, y.id)
    requires forall id :: id in Probed(docs, home, probes) ==> InRange(p, dim, store(docs[id].offset))
    requires y in approx
    ensures y.id in Probed(docs, home, probes)
    ensures Abs(y.score - DocScore(Dot, docs, store, q, y.id)) <= SlackUpTo(p, q, dim) / 2.0
  {
    var i :| 0 <= i < |approx| && approx[i] == y;
    assert exact[i] in exact;
    ScoreError(p, dim, q, store(docs[y.id].offset));
  }

  lemma InPopOrder(h: seq<Candidate>, x: Candidate)
    requires x in h
    ensures x.id in PopOrder(h)
  {
    var i :| 0 <= i < |h| && h[i] == x;
    assert PopOrder(h)[|h| - 1 - i] == x.id;
  }

  /** ... and the exact pass. */
  lemma RecallSecond(docs: Docs, home: map<nat, int>, probes: seq<nat>, store: nat -> Vec, q: Vec,
                     approx: seq<Candidate>, refineK: nat, topk: nat, x: nat)
    requires DistinctIds(approx) && x in PopOrder(Kept(refineK, approx)) && x in Probed(docs, home, probes)
    requires forall y :: y in approx ==> y.id in Probed(docs, home, probes)
    requires |Rivals(docs, home, probes, store, q, x, DocScore(Dot, docs, store, q, x))| < topk
    ensures Candidate(x, DocScore(Dot, docs, store, q, x)) in TwoStage(docs, store, q, approx, refineK, topk)
  {
    var h := Kept(refineK, approx);
    var ids := PopOrder(h);
    KeptIsBest(refineK, approx);
    SubDistinct(h, approx);
    RefineHas(docs, store, q, ids);
    var refined := Refine(docs, store, q, ids);
    assert forall i, j :: 0 <= i < j < |ids| ==> ids[i] != ids[j];
    forall y | y in refined ensures y.id in Probed(docs, home, probes) {
      var i :| 0 <= i < |ids| && ids[i] == y.id;
      assert h[|h| - 1 - i] in multiset(h) && h[|h| - 1 - i] in multiset(approx);
      assert h[|h| - 1 - i] in approx;
    }
    KeptUnlessBeaten(topk, refined, Candidate(x, DocScore(Dot, docs, store, q, x)),
                     Rivals(docs, home, probes, store, q, x, DocScore(Dot, docs, store, q, x)));
  }

  lemma BlockWritten(quantizer: ScalarQuantizer, dim: nat, v: Vec, block: seq<Code>)
    requires quantizer.dim == dim && |v| == dim && |block| == dim && ParamsOk(quantizer.P(), dim)
    requires quantizer.min != [] ==> block == EncodeVec(quantizer.P(), dim, v)
    ensures block == EncodeVec(quantizer.P(), dim, v)
  {
  }

  /** Every live buffered doc is in the training sample, so in range. */
  lemma {:induction false} SampleCovers(p: Params, dim: nat, docs: Docs, store: nat -> Vec, buffer: seq<nat>,
                                        sample: seq<Vec>)
    requires ParamsOk(p, dim)
    requires var offsets := Flat.TrainingOffsets(docs, buffer);
             |sample| >= |offsets| && forall i :: 0 <= i < |offsets| ==> sample[i] == store(offsets[i])
    requires forall i :: 0 <= i < |sample| ==> InRange(p, dim, sample[i])
    ensures forall id :: id in buffer && IsLive(docs, id) ==> InRange(p, dim, store(docs[id].offset))
  {
    if buffer == [] {
    } else {
      var front, id := buffer[..|buffer| - 1], buffer[|buffer| - 1];
      assert buffer == front + [id];
      var a, b := Flat.TrainingOffsets(docs, front), Flat.TrainingOffsets(docs, buffer);
      assert forall i :: 0 <= i < |a| ==> b[i] == a[i];
      SampleCovers(p, dim, docs, store, front, sample);
      if IsLive(docs, id) {
        assert b[|b| - 1] == docs[id].offset;
      }
    }
  }

  /** The loop that turns the buffer into posting lists and code blobs. */
  method Distribute(quantizer: ScalarQuantizer, dim: nat, centroids: seq<Vec>, docs: Docs, store: nat -> Vec,
                    buffer: seq<nat>)
    returns (lists: seq<seq<Posting>>, codes: seq<seq<Code>>, ghost vecs: seq<seq<Vec>>)
    requires quantizer.dim == dim && quantizer.Trained()
    requires forall id :: IsLive(docs, id) ==> |store(docs[id].offset)| == dim
    ensures lists == Distributed(docs, HomesOf(Dot, centroids, VectorsOf(docs, store)), |centroids|, buffer)
    ensures ListsOk(docs, VectorsOf(docs, store), quantizer.P(), dim, lists, codes, vecs)
  {
    ghost var home, vectors := HomesOf(Dot, centroids, VectorsOf(docs, store)), VectorsOf(docs, store);
    lists, codes := seq(|centroids|, _ => []), seq(|centroids|, _ => []);
    vecs := seq(|centroids|, _ => []);
    for i := 0 to |buffer|
      invariant lists == Distributed(docs, home, |centroids|, buffer[..i])
      invariant ListsOk(docs, vectors, quantizer.P(), dim, lists, codes, vecs)
    {
      hide ListsOk, EncodeVec, ParamsOk, Assign;
      var id := buffer[i];
      assert buffer[..i + 1] == buffer[..i] + [id];
      if IsLive(docs, id) {
        var vec := store(docs[id].offset);
        var c := AssignOne(Dot, centroids, vec);
        if 0 <= c < |lists| {
          var block := quantizer.Encode(vec);
          BlockWritten(quantizer, dim, vec, block);
          AddToBlob(docs, vectors, quantizer.P(), dim, lists, codes, vecs, c, Posting(id, docs[id].gen), vec);
          lists := lists[c := lists[c] + [Posting(id, docs[id].gen)]];
          codes := codes[c := codes[c] + block];
          vecs := vecs[c := vecs[c] + [vec]];
        }
      }
    }
    assert buffer[..|buffer|] == buffer;
  }

  lemma AddToBlob(docs: Docs, placed: map<nat, Vec>, p: Params, dim: nat, lists: seq<seq<Posting>>,
                  codes: seq<seq<Code>>,
                  vecs: seq<seq<Vec>>, c: nat, e: Posting, v: Vec)
    requires ParamsOk(p, dim) && |v| == dim && ListsOk(docs, placed, p, dim, lists, codes, vecs) && c < |lists|
    requires e.id in placed && placed[e.id] == v
    ensures c < |codes| && c < |vecs|
    ensures ListsOk(docs, placed, p, dim, lists[c := lists[c] + [e]], codes[c := codes[c] + EncodeVec(p, dim, v)],
                    vecs[c := vecs[c] + [v]])
  {
    assert ListOk(docs, placed, p, dim, lists[c], codes[c], vecs[c]);
    AppendBlock(p, dim, vecs[c], v);
  }
}
