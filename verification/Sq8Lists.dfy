/** Posting lists with code blobs: block j of a blob is the encoding of the
    vector posting j was added with. */
module Sq8Lists {
  import opened Candidates
  import opened Sequences
  import opened ScoreQueue
  import opened Postings
  import opened IvfScan
  import opened Quantizer

  /** Blob and list match, and a live posting was added with its doc's current vector. */
  ghost predicate ListOk(docs: Docs, placed: map<nat, Vec>, p: Params, dim: nat,
                         list: seq<Posting>, blob: seq<Code>, vecs: seq<Vec>)
    requires ParamsOk(p, dim)
  {
    && |vecs| == |list| && (forall j :: 0 <= j < |vecs| ==> |vecs[j]| == dim)
    && blob == EncodeAll(p, dim, vecs)
    && (forall j :: 0 <= j < |list| && EntryIsLive(docs, list[j]) ==>
        list[j].id in placed && vecs[j] == placed[list[j].id])
  }

  ghost predicate ListsOk(docs: Docs, placed: map<nat, Vec>, p: Params, dim: nat,
                          lists: seq<seq<Posting>>, codes: seq<seq<Code>>, vecs: seq<seq<Vec>>)
    requires ParamsOk(p, dim)
  {
    |codes| == |lists| == |vecs| && forall c :: 0 <= c < |lists| ==>
      ListOk(docs, placed, p, dim, lists[c], codes[c], vecs[c])
  }

  lemma AppendBlock(p: Params, dim: nat, vecs: seq<Vec>, v: Vec)
    requires ParamsOk(p, dim) && |v| == dim && forall j :: 0 <= j < |vecs| ==> |vecs[j]| == dim
    ensures EncodeAll(p, dim, vecs + [v]) == EncodeAll(p, dim, vecs) + EncodeVec(p, dim, v)
  {
    assert (vecs + [v])[..|vecs|] == vecs;
  }

  /** An upsert: older postings of the doc go stale, the new block goes to the end of one blob. */
  lemma UpsertKeepsBlobs(docs: Docs, home: map<nat, int>, placed: map<nat, Vec>, p: Params, dim: nat,
                         lists: seq<seq<Posting>>,
                         codes: seq<seq<Code>>, vecs: seq<seq<Vec>>, id: nat, offset: nat, v: Vec, c: int)
    requires ParamsOk(p, dim) && |v| == dim && -1 <= c < |lists|
    requires Placed(docs, lists, home) && ListsOk(docs, placed, p, dim, lists, codes, vecs)
    ensures var docs' := Bumped(docs, id, offset);
            var placed' := placed[id := v];
            if c == -1 then ListsOk(docs', placed', p, dim, lists, codes, vecs)
            else ListsOk(docs', placed', p, dim, lists[c := lists[c] + [Posting(id, docs'[id].gen)]],
                         codes[c := codes[c] + EncodeVec(p, dim, v)], vecs[c := vecs[c] + [v]])
  {
    var docs', placed' := Bumped(docs, id, offset), placed[id := v];
    forall b | 0 <= b < |lists| ensures ListOk(docs', placed', p, dim, lists[b], codes[b], vecs[b]) {
      assert ListOk(docs, placed, p, dim, lists[b], codes[b], vecs[b]);
      forall j | 0 <= j < |lists[b]| && EntryIsLive(docs', lists[b][j])
        ensures lists[b][j].id in placed' && vecs[b][j] == placed'[lists[b][j].id]
      {
        assert PostingOk(docs, home, b, lists[b][j]);
      }
    }
    if c != -1 {
      assert ListOk(docs', placed', p, dim, lists[c], codes[c], vecs[c]);
      AppendBlock(p, dim, vecs[c], v);
    }
  }

  lemma DocsMoveOn(docs: Docs, docs': Docs, home: map<nat, int>, placed: map<nat, Vec>, p: Params, dim: nat,
                   lists: seq<seq<Posting>>, codes: seq<seq<Code>>, vecs: seq<seq<Vec>>)
    requires ParamsOk(p, dim) && DocsAdvance(docs, docs') && Placed(docs, lists, home)
    requires ListsOk(docs, placed, p, dim, lists, codes, vecs)
    ensures ListsOk(docs', placed, p, dim, lists, codes, vecs)
  {
    forall b | 0 <= b < |lists| ensures ListOk(docs', placed, p, dim, lists[b], codes[b], vecs[b]) {
      assert ListOk(docs, placed, p, dim, lists[b], codes[b], vecs[b]);
      forall j | 0 <= j < |lists[b]| && EntryIsLive(docs', lists[b][j])
        ensures lists[b][j].id in placed && vecs[b][j] == placed[lists[b][j].id]
      {
        assert PostingOk(docs, home, b, lists[b][j]);
        if !EntryIsLive(docs, lists[b][j]) {
          StaleStaysStale(docs, docs', lists[b][j]);
        }
      }
    }
  }

  // ----- compaction -----

  /** The vectors of the live postings, in order. */
  function CompactedVecs(docs: Docs, list: seq<Posting>, vecs: seq<Vec>): seq<Vec>
    requires |vecs| == |list|
  {
    if list == [] then []
    else
      var n := |list| - 1;
      var front := CompactedVecs(docs, list[..n], vecs[..n]);
      if EntryIsLive(docs, list[n]) then front + [vecs[n]] else front
  }

  lemma CompactedMore(docs: Docs, list: seq<Posting>, vecs: seq<Vec>, j: nat)
    requires |vecs| == |list| && j < |list|
    ensures var v := CompactedVecs(docs, list[..j], vecs[..j]);
            CompactedVecs(docs, list[..j + 1], vecs[..j + 1]) == if EntryIsLive(docs, list[j]) then v + [vecs[j]] else v
    ensures var l := Compacted(docs, list[..j]);
            Compacted(docs, list[..j + 1]) == if EntryIsLive(docs, list[j]) then l + [list[j]] else l
  {
    assert list[..j + 1][..j] == list[..j] && vecs[..j + 1][..j] == vecs[..j];
  }

  lemma {:induction false} CompactedVecsOk(docs: Docs, placed: map<nat, Vec>, dim: nat, list: seq<Posting>,
                                           vecs: seq<Vec>)
    requires |vecs| == |list| && forall j :: 0 <= j < |vecs| ==> |vecs[j]| == dim
    requires forall j :: 0 <= j < |list| && EntryIsLive(docs, list[j]) ==>
               list[j].id in placed && vecs[j] == placed[list[j].id]
    ensures var l, v := Compacted(docs, list), CompactedVecs(docs, list, vecs);
      && |v| == |l| && (forall j :: 0 <= j < |v| ==> |v[j]| == dim)
      && (forall j :: 0 <= j < |l| ==> EntryIsLive(docs, l[j]) && l[j].id in placed && v[j] == placed[l[j].id])
  {
    if list == [] {
    } else {
      var n := |list| - 1;
      CompactedVecsOk(docs, placed, dim, list[..n], vecs[..n]);
    }
  }

  ghost predicate CompactLoop(docs: Docs, p: Params, dim: nat, list: seq<Posting>, vecs: seq<Vec>, i: nat,
                              list': seq<Posting>, blob': seq<Code>)
    requires ParamsOk(p, dim) && |vecs| == |list| && i <= |list|
  {
    var v := CompactedVecs(docs, list[..i], vecs[..i]);
    && list' == Compacted(docs, list[..i])
    && (forall j :: 0 <= j < |v| ==> |v[j]| == dim) && blob' == EncodeAll(p, dim, v)
  }

  lemma CompactBlobStep(docs: Docs, p: Params, dim: nat, list: seq<Posting>, blob: seq<Code>, vecs: seq<Vec>, i: nat,
                        list': seq<Posting>, blob': seq<Code>)
    requires ParamsOk(p, dim) && |vecs| == |list| && i < |list| && forall j :: 0 <= j < |vecs| ==> |vecs[j]| == dim
    requires blob == EncodeAll(p, dim, vecs) && CompactLoop(docs, p, dim, list, vecs, i, list', blob')
    ensures i * dim + dim <= |blob|
    ensures if EntryIsLive(docs, list[i])
            then CompactLoop(docs, p, dim, list, vecs, i + 1, list' + [list[i]], blob' + blob[i * dim..i * dim + dim])
            else CompactLoop(docs, p, dim, list, vecs, i + 1, list', blob')
  {
    hide EncodeVec, Compacted, CompactedVecs;
    CompactedMore(docs, list, vecs, i);
    BlockOf(p, dim, vecs, i);
    AppendBlock(p, dim, CompactedVecs(docs, list[..i], vecs[..i]), vecs[i]);
  }

  /** The loop that keeps the live postings and their code blocks. */
  method CompactBlob(docs: Docs, p: Params, dim: nat, list: seq<Posting>, blob: seq<Code>, ghost vecs: seq<Vec>)
    returns (list': seq<Posting>, blob': seq<Code>)
    requires ParamsOk(p, dim) && |vecs| == |list| && (forall j :: 0 <= j < |vecs| ==> |vecs[j]| == dim)
    requires blob == EncodeAll(p, dim, vecs)
    ensures CompactLoop(docs, p, dim, list, vecs, |list|, list', blob')
  {
    list', blob' := [], [];
    for i := 0 to |list|
      invariant CompactLoop(docs, p, dim, list, vecs, i, list', blob')
    {
      hide CompactLoop;
      CompactBlobStep(docs, p, dim, list, blob, vecs, i, list', blob');
      if EntryIsLive(docs, list[i]) {
        list' := list' + [list[i]];
        blob' := blob' + blob[i * dim..i * dim + dim];
      }
    }
  }

  lemma CompactKeepsBlobs(docs: Docs, placed: map<nat, Vec>, p: Params, dim: nat, lists: seq<seq<Posting>>,
                          codes: seq<seq<Code>>, vecs: seq<seq<Vec>>, c: nat, list': seq<Posting>, blob': seq<Code>)
    requires ParamsOk(p, dim) && ListsOk(docs, placed, p, dim, lists, codes, vecs) && c < |lists|
    requires |vecs[c]| == |lists[c]| && CompactLoop(docs, p, dim, lists[c], vecs[c], |lists[c]|, list', blob')
    ensures list' == Compacted(docs, lists[c])
    ensures ListsOk(docs, placed, p, dim, lists[c := list'], codes[c := blob'],
                    vecs[c := CompactedVecs(docs, lists[c], vecs[c])])
  {
    assert ListOk(docs, placed, p, dim, lists[c], codes[c], vecs[c]);
    assert lists[c][..|lists[c]|] == lists[c] && vecs[c][..|lists[c]|] == vecs[c];
    CompactedVecsOk(docs, placed, dim, lists[c], vecs[c]);
  }

  // ----- the quantized scan -----

  function ApproxCandidate(p: Params, dim: nat, q: Vec, e: Posting, v: Vec): Candidate
    requires ParamsOk(p, dim) && |v| == dim
  {
    Candidate(e.id, ApproxScore(p, dim, q, EncodeVec(p, dim, v)))
  }

  function ScanCodes(docs: Docs, p: Params, dim: nat, q: Vec, list: seq<Posting>, vecs: seq<Vec>): seq<Candidate>
    requires ParamsOk(p, dim) && |vecs| == |list| && forall j :: 0 <= j < |vecs| ==> |vecs[j]| == dim
  {
    if list == [] then []
    else
      var n := |list| - 1;
      var front := ScanCodes(docs, p, dim, q, list[..n], vecs[..n]);
      if EntryIsLive(docs, list[n]) then front + [ApproxCandidate(p, dim, q, list[n], vecs[n])] else front
  }

  /** Compaction is invisible to the quantized scan too. */
  lemma {:induction false} ScanCodesCompacted(docs: Docs, p: Params, dim: nat, q: Vec, list: seq<Posting>,
                                              vecs: seq<Vec>)
    requires ParamsOk(p, dim) && |vecs| == |list| && forall j :: 0 <= j < |vecs| ==> |vecs[j]| == dim
    ensures var l, v := Compacted(docs, list), CompactedVecs(docs, list, vecs);
      && |v| == |l| && (forall j :: 0 <= j < |v| ==> |v[j]| == dim)
      && ScanCodes(docs, p, dim, q, l, v) == ScanCodes(docs, p, dim, q, list, vecs)
  {
    if list == [] {
    } else {
      var n := |list| - 1;
      ScanCodesCompacted(docs, p, dim, q, list[..n], vecs[..n]);
      var l, v := Compacted(docs, list[..n]), CompactedVecs(docs, list[..n], vecs[..n]);
      assert (l + [list[n]])[..|l|] == l && (v + [vecs[n]])[..|v|] == v;
      assert Compacted(docs, list) == if EntryIsLive(docs, list[n]) then l + [list[n]] else l;
    }
  }

  /** The quantized scan of the probed lists. */
  function ScanCodeLists(docs: Docs, p: Params, dim: nat, q: Vec, lists: seq<seq<Posting>>, vecs: seq<seq<Vec>>,
                         probes: seq<nat>): seq<Candidate>
    requires ParamsOk(p, dim) && VecsFit(lists, vecs, dim)
  {
    if probes == [] then []
    else
      var front, c := ScanCodeLists(docs, p, dim, q, lists, vecs, probes[..|probes| - 1]), probes[|probes| - 1];
      front + (if c < |lists| then ScanCodes(docs, p, dim, q, lists[c], vecs[c]) else [])
  }

  predicate VecsFit(lists: seq<seq<Posting>>, vecs: seq<seq<Vec>>, dim: nat) {
    |vecs| == |lists| && forall c :: 0 <= c < |lists| ==>
      |vecs[c]| == |lists[c]| && forall j :: 0 <= j < |vecs[c]| ==> |vecs[c][j]| == dim
  }

  /** Any of the lists, with its vectors, may have been compacted. */
  ghost predicate SomeBlobsCompacted(docs: Docs, before: seq<seq<Posting>>, vecs: seq<seq<Vec>>,
                                     after: seq<seq<Posting>>, vecs': seq<seq<Vec>>) {
    |after| == |before| == |vecs| == |vecs'| && forall c :: 0 <= c < |before| ==>
      || (after[c] == before[c] && vecs'[c] == vecs[c])
      || (|vecs[c]| == |before[c]| && after[c] == Compacted(docs, before[c])
          && vecs'[c] == CompactedVecs(docs, before[c], vecs[c]))
  }

  /** Compacting any lists and their blobs at any time leaves the quantized scan as it was. */
  lemma {:induction false} CodeCompactionInvisible(docs: Docs, p: Params, dim: nat, q: Vec, before: seq<seq<Posting>>,
                                                   vecs: seq<seq<Vec>>, after: seq<seq<Posting>>, vecs': seq<seq<Vec>>,
                                                   probes: seq<nat>)
    requires ParamsOk(p, dim) && VecsFit(before, vecs, dim) && VecsFit(after, vecs', dim)
    requires SomeBlobsCompacted(docs, before, vecs, after, vecs')
    ensures ScanCodeLists(docs, p, dim, q, after, vecs', probes) == ScanCodeLists(docs, p, dim, q, before, vecs, probes)
  {
    if probes == [] {
    } else {
      CodeCompactionInvisible(docs, p, dim, q, before, vecs, after, vecs', probes[..|probes| - 1]);
      var c := probes[|probes| - 1];
      if c < |before| {
        ScanCodesCompacted(docs, p, dim, q, before[c], vecs[c]);
      }
    }
  }

  /** Live postings are read with the approximate score of their doc's current vector, in the order of
      the exact scan. */
  lemma {:induction false} ScanCodesHas(docs: Docs, placed: map<nat, Vec>, p: Params, dim: nat, q: Vec,
                                        store: nat -> Vec,
                                        list: seq<Posting>, vecs: seq<Vec>)
    requires ParamsOk(p, dim) && |vecs| == |list| && (forall j :: 0 <= j < |vecs| ==> |vecs[j]| == dim)
    requires forall j :: 0 <= j < |list| && EntryIsLive(docs, list[j]) ==>
               list[j].id in placed && vecs[j] == placed[list[j].id]
    requires forall id :: IsLive(docs, id) ==> id in placed && placed[id] == store(docs[id].offset)
    ensures var a, e := ScanCodes(docs, p, dim, q, list, vecs), ScanList(Dot, docs, store, q, list);
      SameDocs(docs, p, dim, q, store, a, e)
  {
    if list == [] {
    } else {
      var n := |list| - 1;
      ScanCodesHas(docs, placed, p, dim, q, store, list[..n], vecs[..n]);
    }
  }

  ghost predicate SameDocs(docs: Docs, p: Params, dim: nat, q: Vec, store: nat -> Vec, a: seq<Candidate>,
                           e: seq<Candidate>)
    requires ParamsOk(p, dim)
  {
    |a| == |e| && forall i :: 0 <= i < |a| ==>
      && a[i].id == e[i].id && IsLive(docs, a[i].id) && |store(docs[a[i].id].offset)| == dim
      && a[i].score == ApproxScore(p, dim, q, EncodeVec(p, dim, store(docs[a[i].id].offset)))
  }

  lemma {:induction false} ScanCodeListsHas(docs: Docs, placed: map<nat, Vec>, p: Params, dim: nat, q: Vec,
                                            store: nat -> Vec,
                                            lists: seq<seq<Posting>>, codes: seq<seq<Code>>, vecs: seq<seq<Vec>>,
                                            probes: seq<nat>)
    requires ParamsOk(p, dim) && ListsOk(docs, placed, p, dim, lists, codes, vecs) && VecsFit(lists, vecs, dim)
    requires forall id :: IsLive(docs, id) ==> id in placed && placed[id] == store(docs[id].offset)
    ensures SameDocs(docs, p, dim, q, store, ScanCodeLists(docs, p, dim, q, lists, vecs, probes),
                     ScanProbes(Dot, docs, store, q, lists, probes))
  {
    if probes == [] {
    } else {
      var c := probes[|probes| - 1];
      ScanCodeListsHas(docs, placed, p, dim, q, store, lists, codes, vecs, probes[..|probes| - 1]);
      if c < |lists| {
        assert ListOk(docs, placed, p, dim, lists[c], codes[c], vecs[c]);
        ScanCodesHas(docs, placed, p, dim, q, store, lists[c], vecs[c]);
      }
    }
  }

  // ----- refinement -----

  /** The exact scores of the refined ids that are still live, in the given order. */
  function Refine(docs: Docs, store: nat -> Vec, q: Vec, ids: seq<nat>): seq<Candidate> {
    if ids == [] then []
    else
      var front, id := Refine(docs, store, q, ids[..|ids| - 1]), ids[|ids| - 1];
      if IsLive(docs, id) then front + [Candidate(id, DocScore(Dot, docs, store, q, id))] else front
  }

  /** The ids of a queue in the order it is popped: worst pair first. */
  function PopOrder(h: seq<Candidate>): (ids: seq<nat>)
    ensures |ids| == |h| && forall i :: 0 <= i < |h| ==> ids[i] == h[|h| - 1 - i].id
  {
    seq(|h|, i requires 0 <= i < |h| => h[|h| - 1 - i].id)
  }

  /** The two-stage search. */
  function TwoStage(docs: Docs, store: nat -> Vec, q: Vec, approx: seq<Candidate>, refineK: nat,
                    topk: nat): seq<Candidate> {
    Kept(topk, Refine(docs, store, q, PopOrder(Kept(refineK, approx))))
  }

  lemma {:induction false} RefineHas(docs: Docs, store: nat -> Vec, q: Vec, ids: seq<nat>)
    ensures forall x :: x in Refine(docs, store, q, ids) <==>
              x.id in ids && IsLive(docs, x.id) && x.score == DocScore(Dot, docs, store, q, x.id)
    ensures (forall i, j :: 0 <= i < j < |ids| ==> ids[i] != ids[j]) ==> DistinctIds(Refine(docs, store, q, ids))
  {
    if ids == [] {
    } else {
      var front, id := ids[..|ids| - 1], ids[|ids| - 1];
      assert ids == front + [id];
      RefineHas(docs, store, q, front);
      if forall i, j :: 0 <= i < j < |ids| ==> ids[i] != ids[j] {
        assert forall i, j :: 0 <= i < j < |front| ==> front[i] == ids[i] && front[j] == ids[j];
        var r := Refine(docs, store, q, front);
        forall i | 0 <= i < |r| ensures r[i].id != id {
          assert r[i] in r && r[i].id in front;
        }
      }
    }
  }

  // ----- recall -----

  /** The live docs placed in the probed lists. */
  function Probed(docs: Docs, home: map<nat, int>, probes: seq<nat>): set<nat> {
    set id | id in docs && IsLive(docs, id) && id in home && home[id] >= 0 && home[id] in probes
  }

  /** The docs other than x, among the probed ones, that score at least bound. */
  function Rivals(docs: Docs, home: map<nat, int>, probes: seq<nat>, store: nat -> Vec, q: Vec, x: nat,
                  bound: real): set<nat> {
    set id | id in Probed(docs, home, probes) && id != x && DocScore(Dot, docs, store, q, id) >= bound
  }

  function IdSet(s: seq<Candidate>): set<nat> {
    if s == [] then {} else IdSet(s[..|s| - 1]) + {s[|s| - 1].id}
  }

  lemma {:induction false} IdsCount(s: seq<Candidate>)
    requires DistinctIds(s)
    ensures |IdSet(s)| == |s|
    ensures forall id :: id in IdSet(s) ==> exists i :: 0 <= i < |s| && s[i].id == id
  {
    if s == [] {
    } else {
      var front, last := s[..|s| - 1], s[|s| - 1];
      IdsCount(front);
      assert last.id !in IdSet(front) by {
        forall i | 0 <= i < |front| ensures front[i].id != last.id {
          assert front[i] == s[i];
        }
      }
      forall id | id in IdSet(front) ensures exists i :: 0 <= i < |s| && s[i].id == id {
        var i :| 0 <= i < |front| && front[i].id == id;
        assert s[i].id == id;
      }
    }
  }

  /** A candidate left out of a full queue over a duplicate-free stream has at least k rivals. */
  lemma LeftOutHasRivals(k: nat, stream: seq<Candidate>, x: Candidate, rivals: set<nat>)
    requires DistinctIds(stream) && x in stream && x !in Kept(k, stream)
    requires forall y :: y in stream && y.id != x.id && y.score >= x.score ==> y.id in rivals
    ensures |rivals| >= k
  {
    var h := Kept(k, stream);
    LeftOutIsBeaten(k, stream, x);
    KeptIsBest(k, stream);
    SubDistinct(h, stream);
    IdsCount(h);
    hide DistinctIds, Kept, BestByScore, IdSet;
    forall id | id in IdSet(h) ensures id in rivals {
      var i :| 0 <= i < |h| && h[i].id == id;
      assert h[i] in h;
      if h[i].id == x.id { SameIdSame(stream, h[i], x); }
    }
    SubsetSize(IdSet(h), rivals);
  }

  /** With fewer than k rivals at least as good, a candidate is kept. */
  lemma KeptUnlessBeaten(k: nat, stream: seq<Candidate>, x: Candidate, rivals: set<nat>)
    requires DistinctIds(stream) && x in stream && |rivals| < k
    requires forall y :: y in stream && y.id != x.id && y.score >= x.score ==> y.id in rivals
    ensures x in Kept(k, stream)
  {
    hide Kept, DistinctIds;
    if x !in Kept(k, stream) {
      LeftOutHasRivals(k, stream, x, rivals);
    }
  }

  lemma SameIdSame(s: seq<Candidate>, a: Candidate, b: Candidate)
    requires DistinctIds(s) && a in s && b in s && a.id == b.id
    ensures a == b
  {
    var i :| 0 <= i < |s| && s[i] == a;
    var j :| 0 <= j < |s| && s[j] == b;
  }

  // ----- what the two passes return -----

  lemma {:induction false} RefineKeepsAll(docs: Docs, store: nat -> Vec, q: Vec, ids: seq<nat>)
    requires forall i :: 0 <= i < |ids| ==> IsLive(docs, ids[i])
    ensures |Refine(docs, store, q, ids)| == |ids|
  {
    if ids != [] {
      RefineKeepsAll(docs, store, q, ids[..|ids| - 1]);
    }
  }

  /** The ids that survive the first pass are distinct ids of the stream, as many as fit. */
  lemma Survivors(k: nat, stream: seq<Candidate>)
    requires DistinctIds(stream)
    ensures var ids := PopOrder(Kept(k, stream));
      && |ids| == (if |stream| <= k then |stream| else k)
      && (forall i, j :: 0 <= i < j < |ids| ==> ids[i] != ids[j])
      && (forall i :: 0 <= i < |ids| ==> exists c :: c in stream && c.id == ids[i])
  {
    var h := Kept(k, stream);
    var ids := PopOrder(h);
    KeptAre(k, stream);
    hide Kept;
    forall i | 0 <= i < |ids| ensures exists c :: c in stream && c.id == ids[i] {
      assert h[|h| - 1 - i] in h;
    }
  }

  /** Two passes over a stream of live docs, each named once: distinct docs of the stream with their
      exact scores, best first, and topk of them if the stream has as many. */
  lemma TwoPassesKeep(docs: Docs, store: nat -> Vec, q: Vec, approx: seq<Candidate>, refineK: nat, topk: nat)
    requires DistinctIds(approx) && forall c :: c in approx ==> IsLive(docs, c.id)
    ensures var res := TwoStage(docs, store, q, approx, refineK, topk);
      && DistinctIds(res)
      && (forall i, j :: 0 <= i < j < |res| ==>
            res[i].score > res[j].score || (res[i].score == res[j].score && res[i].id > res[j].id))
      && (forall x :: x in res ==>
            IsLive(docs, x.id) && x.score == DocScore(Dot, docs, store, q, x.id)
            && exists c :: c in approx && c.id == x.id)
      && |res| <= topk && (refineK >= topk ==> |res| == if |approx| <= topk then |approx| else topk)
  {
    var ids := PopOrder(Kept(refineK, approx));
    Survivors(refineK, approx);
    forall i | 0 <= i < |ids| ensures IsLive(docs, ids[i]) {
      var c :| c in approx && c.id == ids[i];
    }
    RefineHas(docs, store, q, ids);
    RefineKeepsAll(docs, store, q, ids);
    KeptAre(topk, Refine(docs, store, q, ids));
    hide Kept, PopOrder, DocScore, DistinctIds;
    var res := Kept(topk, Refine(docs, store, q, ids));
    forall x | x in res ensures exists c :: c in approx && c.id == x.id {
      assert x.id in ids;
      var i :| 0 <= i < |ids| && ids[i] == x.id;
    }
  }

  lemma {:induction false} IdSetHas(s: seq<Candidate>)
    ensures forall id :: id in IdSet(s) <==> exists i :: 0 <= i < |s| && s[i].id == id
  {
    if s != [] {
      var front := s[..|s| - 1];
      IdSetHas(front);
      forall id ensures id in IdSet(s) <==> exists i :: 0 <= i < |s| && s[i].id == id {
        if id in IdSet(front) {
          var i :| 0 <= i < |front| && front[i].id == id;
          assert s[i].id == id;
        }
        if exists i :: 0 <= i < |s| && s[i].id == id {
          var i :| 0 <= i < |s| && s[i].id == id;
          assert i < |front| ==> front[i].id == id;
        }
      }
    }
  }

  /** A stream that reads each doc in scope once is as long as the scope is large. */
  lemma StreamCounts(docs: Docs, store: nat -> Vec, q: Vec, stream: seq<Candidate>, scope: set<nat>)
    requires DistinctIds(stream) && forall id :: id in scope ==> id in docs
    requires forall x :: x in stream <==> x.id in scope && x.score == DocScore(Dot, docs, store, q, x.id)
    ensures |stream| == |scope|
  {
    IdsCount(stream);
    IdSetHas(stream);
    hide IdSet, DistinctIds, DocScore;
    forall id ensures id in IdSet(stream) <==> id in scope {
      if id in IdSet(stream) {
        var i :| 0 <= i < |stream| && stream[i].id == id;
        assert stream[i] in stream;
      }
      if id in scope {
        assert Candidate(id, DocScore(Dot, docs, store, q, id)) in stream;
        var i :| 0 <= i < |stream| && stream[i] == Candidate(id, DocScore(Dot, docs, store, q, id));
        assert stream[i].id == id;
      }
    }
    assert IdSet(stream) == scope;
  }

  /** As many probed docs as the scan of the probed lists reads. */
  lemma ScanCounts(docs: Docs, store: nat -> Vec, q: Vec, lists: seq<seq<Posting>>, home: map<nat, int>,
                   probes: seq<nat>)
    requires Placed(docs, lists, home) && Once(docs, lists)
    requires forall i, j :: 0 <= i < j < |probes| ==> probes[i] != probes[j]
    ensures DistinctIds(ScanProbes(Dot, docs, store, q, lists, probes))
    ensures |ScanProbes(Dot, docs, store, q, lists, probes)| == |Probed(docs, home, probes)|
  {
    var stream := ScanProbes(Dot, docs, store, q, lists, probes);
    ScanReadsPlaced(Dot, docs, store, q, lists, home, probes);
    ScanDistinct(Dot, docs, store, q, lists, home, probes);
    assert forall id :: IsLive(docs, id) ==> id in home;
    hide ScanProbes, Placed, Once, DocScore, DistinctIds;
    StreamCounts(docs, store, q, stream, Probed(docs, home, probes));
  }
}
