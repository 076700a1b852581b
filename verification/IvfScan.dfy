/** What an IVF search reads: the probed lists, live postings only, each with
    the exact score of its doc's current vector. */
module IvfScan {
  import opened Ranking
  import opened Candidates
  import opened Sequences
  import opened ScoreQueue
  import opened Postings

  function DocScore(dot: (Vec, Vec) -> real, docs: Docs, store: nat -> Vec, q: Vec, id: nat): real {
    if id in docs then dot(q, store(docs[id].offset)) else 0.0
  }

  function ScanList(dot: (Vec, Vec) -> real, docs: Docs, store: nat -> Vec, q: Vec,
                    list: seq<Posting>): seq<Candidate> {
    if list == [] then []
    else
      var front, p := ScanList(dot, docs, store, q, list[..|list| - 1]), list[|list| - 1];
      if EntryIsLive(docs, p) then front + [Candidate(p.id, DocScore(dot, docs, store, q, p.id))] else front
  }

  function ScanProbes(dot: (Vec, Vec) -> real, docs: Docs, store: nat -> Vec, q: Vec,
                      lists: seq<seq<Posting>>, probes: seq<nat>): seq<Candidate> {
    if probes == [] then []
    else
      var front, c := ScanProbes(dot, docs, store, q, lists, probes[..|probes| - 1]), probes[|probes| - 1];
      front + (if c < |lists| then ScanList(dot, docs, store, q, lists[c]) else [])
  }

  /** Compaction does not change what a scan of the list reads. */
  lemma {:induction false} ScanCompacted(dot: (Vec, Vec) -> real, docs: Docs, store: nat -> Vec, q: Vec,
                                         list: seq<Posting>)
    ensures ScanList(dot, docs, store, q, Compacted(docs, list)) == ScanList(dot, docs, store, q, list)
  {
    if list == [] {
    } else {
      var front, p := list[..|list| - 1], list[|list| - 1];
      ScanCompacted(dot, docs, store, q, front);
      if EntryIsLive(docs, p) {
        assert (Compacted(docs, front) + [p])[..|Compacted(docs, front)|] == Compacted(docs, front);
      }
    }
  }

  /** Any of the lists may have been compacted. */
  ghost predicate SomeCompacted(docs: Docs, before: seq<seq<Posting>>, after: seq<seq<Posting>>) {
    |after| == |before|
    && forall c :: 0 <= c < |before| ==> after[c] == before[c] || after[c] == Compacted(docs, before[c])
  }

  /** Compacting any lists at any time leaves every scan, so every search result, as it was. */
  lemma {:induction false} CompactionInvisible(dot: (Vec, Vec) -> real, docs: Docs, store: nat -> Vec, q: Vec,
                                               before: seq<seq<Posting>>, after: seq<seq<Posting>>, probes: seq<nat>)
    requires SomeCompacted(docs, before, after)
    ensures ScanProbes(dot, docs, store, q, after, probes) == ScanProbes(dot, docs, store, q, before, probes)
  {
    if probes == [] {
    } else {
      CompactionInvisible(dot, docs, store, q, before, after, probes[..|probes| - 1]);
      var c := probes[|probes| - 1];
      if c < |before| {
        ScanCompacted(dot, docs, store, q, before[c]);
      }
    }
  }

  // ----- which lists are probed -----

  function CentroidScores(dot: (Vec, Vec) -> real, centroids: seq<Vec>, q: Vec): (s: seq<Candidate>)
    ensures |s| == |centroids|
    ensures forall c :: 0 <= c < |centroids| ==> s[c] == Candidate(c, dot(q, centroids[c]))
  {
    seq(|centroids|, c requires 0 <= c < |centroids| => Candidate(c, dot(q, centroids[c])))
  }

  function IdSeq(s: seq<Candidate>): (ids: seq<nat>)
    ensures |ids| == |s| && forall i :: 0 <= i < |s| ==> ids[i] == s[i].id
  {
    seq(|s|, i requires 0 <= i < |s| => s[i].id)
  }

  /** The nprobe best centroids for the query, best first. */
  function Probes(dot: (Vec, Vec) -> real, centroids: seq<Vec>, q: Vec, nprobe: nat): seq<nat> {
    IdSeq(TopK(PairAbove, nprobe, CentroidScores(dot, centroids, q)))
  }

  /** Every probed centroid is one of the best nprobe, each probed once; with nprobe >= nlist all are probed. */
  lemma ProbesAreBest(dot: (Vec, Vec) -> real, centroids: seq<Vec>, q: Vec, nprobe: nat)
    ensures var p := Probes(dot, centroids, q, nprobe);
      && |p| == (if |centroids| <= nprobe then |centroids| else nprobe)
      && (forall i :: 0 <= i < |p| ==> p[i] < |centroids|)
      && (forall i, j :: 0 <= i < j < |p| ==> p[i] != p[j])
      && (forall i, c :: 0 <= i < |p| && 0 <= c < |centroids| && c !in p ==>
            dot(q, centroids[c]) <= dot(q, centroids[p[i]]))
      && (nprobe >= |centroids| ==> forall c :: 0 <= c < |centroids| ==> c in p)
  {
    var all := CentroidScores(dot, centroids, q);
    var top := TopK(PairAbove, nprobe, all);
    var p := Probes(dot, centroids, q, nprobe);
    PairAboveTotal();
    TopKIsBest(PairAbove, nprobe, all);
    forall i | 0 <= i < |top| ensures top[i].id < |centroids| && top[i] == all[top[i].id] {
      assert top[i] in multiset(top) && top[i] in multiset(all);
    }
    forall i, j | 0 <= i < j < |p| ensures p[i] != p[j] {
      if p[i] == p[j] {
        assert top[i] == top[j];
        TwiceIn(top, i, j);
        OnceCounts(all, top[i].id);
      }
    }
    forall c | 0 <= c < |centroids| && c !in p
      ensures nprobe < |centroids| && forall i :: 0 <= i < |p| ==> dot(q, centroids[c]) <= dot(q, centroids[p[i]])
    {
      forall i | 0 <= i < |top| ensures top[i] != all[c] {
        assert p[i] in p;
      }
      assert all[c] in multiset(all) && all[c] !in multiset(top);
      assert all[c] in multiset(all) - multiset(top);
      if |centroids| <= nprobe {
        SameSizeEqual(multiset(top), multiset(all));
      }
      forall i | 0 <= i < |p| ensures dot(q, centroids[c]) <= dot(q, centroids[p[i]]) {
        assert top[i] in top;
        assert !PairAbove(all[c], top[i]);
      }
    }
  }

  lemma OnceCounts(s: seq<Candidate>, c: nat)
    requires c < |s| && forall i :: 0 <= i < |s| ==> s[i].id == i
    ensures multiset(s)[s[c]] == 1
  {
    assert s == s[..c] + [s[c]] + s[c + 1..];
    assert s[c] !in s[..c] && s[c] !in s[c + 1..];
  }

  // ----- what the scan holds -----

  lemma {:induction false} ScanListHas(dot: (Vec, Vec) -> real, docs: Docs, store: nat -> Vec, q: Vec,
                                       list: seq<Posting>)
    ensures forall x :: x in ScanList(dot, docs, store, q, list) <==>
              IsLive(docs, x.id) && Posting(x.id, docs[x.id].gen) in list
                && x.score == DocScore(dot, docs, store, q, x.id)
  {
    if list == [] {
    } else {
      var front, p := list[..|list| - 1], list[|list| - 1];
      assert list == front + [p];
      ScanListHas(dot, docs, store, q, front);
    }
  }

  lemma {:induction false} ScanProbesHas(dot: (Vec, Vec) -> real, docs: Docs, store: nat -> Vec, q: Vec,
                                         lists: seq<seq<Posting>>, probes: seq<nat>)
    ensures forall x :: x in ScanProbes(dot, docs, store, q, lists, probes) <==>
              exists c :: c in probes && c < |lists| && x in ScanList(dot, docs, store, q, lists[c])
  {
    if probes == [] {
    } else {
      var front, c := probes[..|probes| - 1], probes[|probes| - 1];
      assert probes == front + [c];
      ScanProbesHas(dot, docs, store, q, lists, front);
    }
  }

  /** The scan of the probed lists reads exactly the live docs placed in them, with their exact scores. */
  lemma ScanReadsPlaced(dot: (Vec, Vec) -> real, docs: Docs, store: nat -> Vec, q: Vec,
                        lists: seq<seq<Posting>>, home: map<nat, int>, probes: seq<nat>)
    requires Placed(docs, lists, home)
    ensures forall x :: x in ScanProbes(dot, docs, store, q, lists, probes) <==>
              IsLive(docs, x.id) && home[x.id] >= 0 && home[x.id] in probes
                && x.score == DocScore(dot, docs, store, q, x.id)
  {
    ScanProbesHas(dot, docs, store, q, lists, probes);
    forall x ensures x in ScanProbes(dot, docs, store, q, lists, probes) <==>
                     IsLive(docs, x.id) && home[x.id] >= 0 && home[x.id] in probes
                       && x.score == DocScore(dot, docs, store, q, x.id)
    {
      if x in ScanProbes(dot, docs, store, q, lists, probes) {
        var c :| c in probes && c < |lists| && x in ScanList(dot, docs, store, q, lists[c]);
        ScanListHas(dot, docs, store, q, lists[c]);
        var j :| 0 <= j < |lists[c]| && lists[c][j] == Posting(x.id, docs[x.id].gen);
        assert PostingOk(docs, home, c, lists[c][j]);
      }
      if IsLive(docs, x.id) && home[x.id] >= 0 && home[x.id] in probes
         && x.score == DocScore(dot, docs, store, q, x.id)
      {
        var c := home[x.id];
        ScanListHas(dot, docs, store, q, lists[c]);
        assert x in ScanList(dot, docs, store, q, lists[c]);
      }
    }
  }

  lemma {:induction false} ScanListDistinct(dot: (Vec, Vec) -> real, docs: Docs, store: nat -> Vec, q: Vec,
                                            list: seq<Posting>)
    requires OnceIn(docs, list)
    ensures DistinctIds(ScanList(dot, docs, store, q, list))
  {
    if list == [] {
    } else {
      var front, p := list[..|list| - 1], list[|list| - 1];
      assert list == front + [p];
      assert forall i, j :: 0 <= i < j < |front| ==> front[i] == list[i] && front[j] == list[j];
      ScanListDistinct(dot, docs, store, q, front);
      ScanListHas(dot, docs, store, q, front);
      if EntryIsLive(docs, p) {
        var s := ScanList(dot, docs, store, q, front);
        assert p !in front by {
          forall k | 0 <= k < |front| ensures front[k] != p {
            assert EntryIsLive(docs, list[k]) ==> list[k] != list[|list| - 1];
          }
        }
        forall i | 0 <= i < |s| ensures s[i].id != p.id {
          assert s[i] in s;
        }
      }
    }
  }

  /** With no doc twice live in a list and each list probed once, no doc is read twice. */
  lemma {:induction false} ScanDistinct(dot: (Vec, Vec) -> real, docs: Docs, store: nat -> Vec, q: Vec,
                                        lists: seq<seq<Posting>>, home: map<nat, int>, probes: seq<nat>)
    requires Placed(docs, lists, home) && Once(docs, lists)
    requires forall i, j :: 0 <= i < j < |probes| ==> probes[i] != probes[j]
    ensures DistinctIds(ScanProbes(dot, docs, store, q, lists, probes))
  {
    if probes == [] {
    } else {
      var front, c := probes[..|probes| - 1], probes[|probes| - 1];
      assert probes == front + [c];
      ScanDistinct(dot, docs, store, q, lists, home, front);
      if c < |lists| {
        var a, b := ScanProbes(dot, docs, store, q, lists, front), ScanList(dot, docs, store, q, lists[c]);
        assert OnceIn(docs, lists[c]);
        ScanListDistinct(dot, docs, store, q, lists[c]);
        ScanReadsPlaced(dot, docs, store, q, lists, home, front);
        ScanReadsPlaced(dot, docs, store, q, lists, home, [c]);
        assert ScanProbes(dot, docs, store, q, lists, []) == [];
        assert ScanProbes(dot, docs, store, q, lists, [c]) == b;
        forall i, j | 0 <= i < |a| && 0 <= j < |b| ensures a[i].id != b[j].id {
          assert a[i] in a && b[j] in b;
        }
        assert forall i, j :: 0 <= i < j < |a + b| ==> (a + b)[i].id != (a + b)[j].id;
      }
    }
  }

  // ----- what a search returns -----

  /** The kept queue of a scan is an exact top k by score over the live docs placed in the probed lists. */
  lemma ScanTopK(dot: (Vec, Vec) -> real, docs: Docs, store: nat -> Vec, q: Vec,
                 lists: seq<seq<Posting>>, home: map<nat, int>, probes: seq<nat>, k: nat)
    requires Placed(docs, lists, home) && Once(docs, lists)
    requires forall i, j :: 0 <= i < j < |probes| ==> probes[i] != probes[j]
    ensures var res := Kept(k, ScanProbes(dot, docs, store, q, lists, probes));
      && DistinctIds(res) && Ranked(PairAbove, res) && |res| <= k
      && (forall x :: x in res ==>
            IsLive(docs, x.id) && home[x.id] in probes && x.score == DocScore(dot, docs, store, q, x.id))
      && (forall id :: IsLive(docs, id) && home[id] >= 0 && home[id] in probes && id !in IdSeq(res) ==>
            |res| == k && forall x :: x in res ==> x.score >= DocScore(dot, docs, store, q, id))
  {
    var stream := ScanProbes(dot, docs, store, q, lists, probes);
    var res := Kept(k, stream);
    KeptIsBest(k, stream);
    ScanReadsPlaced(dot, docs, store, q, lists, home, probes);
    ScanDistinct(dot, docs, store, q, lists, home, probes);
    forall x | x in res ensures x in stream {
      assert x in multiset(res) && x in multiset(stream);
    }
    SubDistinct(res, stream);
    forall id | IsLive(docs, id) && home[id] >= 0 && home[id] in probes && id !in IdSeq(res)
      ensures |res| == k && forall x :: x in res ==> x.score >= DocScore(dot, docs, store, q, id)
    {
      var x := Candidate(id, DocScore(dot, docs, store, q, id));
      assert x !in res by {
        forall i | 0 <= i < |res| ensures res[i] != x {
          assert IdSeq(res)[i] in IdSeq(res);
        }
      }
      LeftOutIsBeaten(k, stream, x);
    }
  }

  /** Probing every list gives the scores of a brute-force scan over all live docs. */
  lemma FullProbeIsBruteForce(dot: (Vec, Vec) -> real, docs: Docs, store: nat -> Vec, q: Vec, lists: seq<seq<Posting>>,
                              home: map<nat, int>, probes: seq<nat>, k: nat, all: seq<Candidate>)
    requires Placed(docs, lists, home) && Once(docs, lists)
    requires forall i, j :: 0 <= i < j < |probes| ==> probes[i] != probes[j]
    requires forall c: nat :: c < |lists| ==> c in probes
    requires forall id :: IsLive(docs, id) ==> home[id] >= 0
    requires DistinctIds(all)
    requires forall x :: x in all <==> IsLive(docs, x.id) && x.score == DocScore(dot, docs, store, q, x.id)
    ensures ScoreSeq(Kept(k, ScanProbes(dot, docs, store, q, lists, probes))) == TopK(Higher, k, ScoreSeq(all))
  {
    var stream := ScanProbes(dot, docs, store, q, lists, probes);
    ScanReadsPlaced(dot, docs, store, q, lists, home, probes);
    ScanDistinct(dot, docs, store, q, lists, home, probes);
    SameStreams(stream, all, k);
  }

  /** Two streams of the same candidates, each named once, keep the same scores. */
  lemma SameStreams(stream: seq<Candidate>, all: seq<Candidate>, k: nat)
    requires DistinctIds(stream) && DistinctIds(all) && forall x :: x in stream <==> x in all
    ensures ScoreSeq(Kept(k, stream)) == TopK(Higher, k, ScoreSeq(all))
  {
    forall x ensures multiset(stream)[x] == multiset(all)[x] {
      assert x in multiset(stream) <==> x in stream;
      assert x in multiset(all) <==> x in all;
      if x in stream {
        var i :| 0 <= i < |stream| && stream[i] == x;
        var j :| 0 <= j < |all| && all[j] == x;
        AtMostOnce(stream, i);
        AtMostOnce(all, j);
      }
    }
    assert multiset(stream) == multiset(all);
    KeptScores(k, stream);
    SameScores(stream, all);
    HigherTotal();
    SortOfPermutation(Higher, ScoreSeq(stream), ScoreSeq(all));
  }
}
