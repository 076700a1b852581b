/** The flat index: a table of items scanned in full, keeping the best in a bounded heap whose
    front is the worst element kept. */
module FlatIndex {
  import opened Ranking
  import opened Candidates
  import opened Sequences
  import opened Status

  datatype Item = Item(offset: nat, norm: real, deleted: bool)

  // ----- the bounded heap -----

  /** The front is an element that beats no other. */
  ghost predicate WorstFirst(heap: seq<Candidate>) {
    forall i :: 0 <= i < |heap| ==> !IsBetter(heap[0], heap[i])
  }

  method PushHeap(heap: seq<Candidate>, x: Candidate) returns (r: seq<Candidate>)
    requires WorstFirst(heap)
    ensures WorstFirst(r) && multiset(r) == multiset(heap) + multiset{x}
  {
    IsBetterTotal();
    if heap != [] && IsBetter(x, heap[0]) {
      r := heap + [x];
    } else {
      r := [x] + heap;
      forall i | 0 <= i < |heap| ensures !IsBetter(x, heap[i]) {
        NotBeatenChain(IsBetter, heap[i], heap[0], x);
      }
    }
  }

  /** Takes the front out and brings the worst of the others to the front. */
  method PopHeap(heap: seq<Candidate>) returns (r: seq<Candidate>)
    requires heap != []
    ensures WorstFirst(r) && multiset(heap) == multiset(r) + multiset{heap[0]}
  {
    r := [];
    for i := 1 to |heap|
      invariant WorstFirst(r) && multiset(heap[..i]) == multiset(r) + multiset{heap[0]}
    {
      assert heap[..i + 1] == heap[..i] + [heap[i]];
      r := PushHeap(r, heap[i]);
    }
    assert heap[..|heap|] == heap;
  }

  lemma FrontIsLast(heap: seq<Candidate>, ranked: seq<Candidate>)
    requires heap != [] && WorstFirst(heap) && Ranked(IsBetter, ranked) && multiset(heap) == multiset(ranked)
    ensures |ranked| == |heap| && heap[0] == ranked[|ranked| - 1]
  {
    assert |heap| == |multiset(heap)| == |multiset(ranked)| == |ranked|;
    var last := ranked[|ranked| - 1];
    assert last in multiset(heap) && heap[0] in multiset(ranked);
    var i :| 0 <= i < |heap| && heap[i] == last;
    var j :| 0 <= j < |ranked| && ranked[j] == heap[0];
    IsBetterTotal();
    Compare(IsBetter, heap[0], last);
  }

  /** The heap holds the best k of what was scanned. */
  ghost predicate HoldsBest(heap: seq<Candidate>, k: nat, scanned: seq<Candidate>) {
    WorstFirst(heap) && multiset(heap) == multiset(TopK(IsBetter, k, scanned))
  }

  lemma OfferWhenShort(heap: seq<Candidate>, k: nat, scanned: seq<Candidate>, x: Candidate)
    requires HoldsBest(heap, k, scanned) && |heap| < k
    ensures multiset(TopK(IsBetter, k, scanned + [x])) == multiset(heap) + multiset{x}
  {
    var best := TopK(IsBetter, k, scanned);
    assert |best| == |multiset(best)| == |multiset(heap)| == |heap|;
    TopKOfAppend(IsBetter, k, scanned, x);
    InsertAdds(IsBetter, x, best);
  }

  lemma ReplaceWorst(heap: seq<Candidate>, best: seq<Candidate>, x: Candidate)
    requires heap != [] && WorstFirst(heap) && Ranked(IsBetter, best) && multiset(heap) == multiset(best)
    ensures |best| == |heap|
    ensures multiset(Take(Insert(IsBetter, x, best), |best|)) ==
            if IsBetter(x, heap[0]) then multiset(heap) - multiset{heap[0]} + multiset{x} else multiset(heap)
  {
    FrontIsLast(heap, best);
    IsBetterTotal();
    OfferToFull(IsBetter, x, best);
    hide TotalOrder, WorstFirst, Insert, IsBetter;
    var front := best[..|best| - 1];
    assert best == front + [heap[0]];
    InsertAdds(IsBetter, x, front);
  }

  lemma OfferWhenFull(heap: seq<Candidate>, k: nat, scanned: seq<Candidate>, x: Candidate)
    requires HoldsBest(heap, k, scanned) && |heap| == k > 0
    ensures multiset(TopK(IsBetter, k, scanned + [x])) ==
            if IsBetter(x, heap[0]) then multiset(heap) - multiset{heap[0]} + multiset{x} else multiset(heap)
  {
    IsBetterTotal();
    hide TotalOrder, IsBetter;
    TopKIsBest(IsBetter, k, scanned);
    TopKOfAppend(IsBetter, k, scanned, x);
    hide TopK;
    ReplaceWorst(heap, TopK(IsBetter, k, scanned), x);
  }

  method Offer(heap: seq<Candidate>, k: nat, ghost scanned: seq<Candidate>, x: Candidate) returns (r: seq<Candidate>)
    requires HoldsBest(heap, k, scanned) && |heap| <= k && k > 0
    ensures HoldsBest(r, k, scanned + [x]) && |r| <= k
  {
    if |heap| < k {
      OfferWhenShort(heap, k, scanned, x);
      hide TopK, WorstFirst;
      r := PushHeap(heap, x);
      assert |r| == |multiset(r)| == |heap| + 1;
    } else {
      OfferWhenFull(heap, k, scanned, x);
      hide TopK, WorstFirst;
      r := heap;
      if IsBetter(x, heap[0]) {
        var rest := PopHeap(heap);
        r := PushHeap(rest, x);
        assert |r| == |multiset(r)| == |multiset(heap)| == |heap|;
      }
    }
  }

  // ----- the index -----

  class FlatIndex {
    const dim: nat
    const cosine: bool
    const dot: (Vec, Vec) -> real
    const sqrt: real -> real
    var maxPoints: nat
    var items: seq<Item>
    var ids: seq<nat>
    var idToIndex: map<nat, nat>

    ghost predicate Valid()
      reads this
    {
      && |ids| == |items|
      && (forall i :: 0 <= i < |ids| ==> ids[i] in idToIndex && idToIndex[ids[i]] == i)
      && (forall id :: id in idToIndex ==> idToIndex[id] < |ids| && ids[idToIndex[id]] == id)
    }

    /** What the index knows of each id. */
    ghost function Entries(): (m: map<nat, Item>)
      requires Valid()
      reads this
    {
      map id | id in idToIndex :: items[idToIndex[id]]
    }

    constructor (dim: nat, cosine: bool, dot: (Vec, Vec) -> real, sqrt: real -> real, maxPoints: nat)
      ensures Valid() && Entries() == map[] && this.dim == dim && this.cosine == cosine
      ensures this.dot == dot && this.sqrt == sqrt && this.maxPoints == maxPoints
    {
      this.dim, this.cosine, this.dot, this.sqrt, this.maxPoints := dim, cosine, dot, sqrt, maxPoints;
      items, ids, idToIndex := [], [], map[];
    }

    method Upsert(id: nat, offset: nat, norm: real) returns (status: Status)
      requires Valid()
      modifies this`items, this`ids, this`idToIndex
      ensures Valid()
      ensures status == (if id !in old(Entries()) && 0 < maxPoints <= |old(Entries())| then ResourceExhausted else Ok)
      ensures Entries() == if status == Ok then old(Entries())[id := Item(offset, norm, false)] else old(Entries())
    {
      ghost var before := Entries();
      if id in idToIndex {
        var at := idToIndex[id];
        items := items[at := Item(offset, norm, false)];
        assert Entries() == before[id := Item(offset, norm, false)];
        return Ok;
      }
      OneIndexPerId();
      if maxPoints > 0 && |items| >= maxPoints {
        return ResourceExhausted;
      }
      idToIndex := idToIndex[id := |items|];
      ids := ids + [id];
      items := items + [Item(offset, norm, false)];
      assert Entries() == before[id := Item(offset, norm, false)];
      return Ok;
    }

    lemma OneIndexPerId()
      requires Valid()
      ensures |Entries()| == |items|
    {
      DistinctCount(ids);
      assert Entries().Keys == SetOf(ids);
    }

    method Delete(id: nat) returns (status: Status)
      requires Valid()
      modifies this`items
      ensures Valid()
      ensures status == if id in old(Entries()) then Ok else NotFound
      ensures Entries() ==
              if status == Ok then old(Entries())[id := old(Entries())[id].(deleted := true)] else old(Entries())
    {
      ghost var before := Entries();
      if id !in idToIndex {
        return NotFound;
      }
      var at := idToIndex[id];
      items := items[at := items[at].(deleted := true)];
      assert Entries() == before[id := before[id].(deleted := true)];
      return Ok;
    }

    /** The score of an item: a dot product, divided by the norms for cosine unless one is zero. */
    function ScoreOf(store: nat -> Vec, q: Vec, queryNorm: real, item: Item): real {
      var raw := dot(q, store(item.offset));
      if !cosine then raw
      else if item.norm == 0.0 || queryNorm == 0.0 then 0.0
      else (NonZero(item.norm, queryNorm); raw / (item.norm * queryNorm))
    }

    static lemma NonZero(x: real, y: real)
      requires x != 0.0 && y != 0.0
      ensures x * y != 0.0
    {
    }

    /** The live items among the first n, scored. */
    ghost function Live(store: nat -> Vec, q: Vec, queryNorm: real, n: nat): seq<Candidate>
      requires Valid() && n <= |items|
      reads this
    {
      if n == 0 then []
      else
        var front := Live(store, q, queryNorm, n - 1);
        if items[n - 1].deleted then front
        else front + [Candidate(ids[n - 1], ScoreOf(store, q, queryNorm, items[n - 1]))]
    }

    static ghost function SquaresOf(q: Vec): real {
      if q == [] then 0.0 else SquaresOf(q[..|q| - 1]) + q[|q| - 1] * q[|q| - 1]
    }

    ghost function NormOf(q: Vec): real {
      if cosine then sqrt(SquaresOf(q)) else 1.0
    }

    method QueryNorm(q: Vec) returns (norm: real)
      ensures norm == NormOf(q)
    {
      norm := 1.0;
      if cosine {
        var sum := 0.0;
        for i := 0 to |q|
          invariant sum == SquaresOf(q[..i])
        {
          assert q[..i + 1][..i] == q[..i];
          sum := sum + q[i] * q[i];
        }
        assert q[..|q|] == q;
        norm := sqrt(sum);
      }
    }

    /** The squares over two stretches add up; of one number it is the square. */
    static lemma {:induction false} SquaresAdd(a: Vec, b: Vec)
      ensures SquaresOf(a + b) == SquaresOf(a) + SquaresOf(b)
      ensures SquaresOf([]) == 0.0 && forall x: real :: SquaresOf([x]) == x * x
    {
      if b == [] {
        assert a + b == a;
      } else {
        assert (a + b)[..|a + b| - 1] == a + b[..|b| - 1];
        SquaresAdd(a, b[..|b| - 1]);
      }
      forall x: real ensures SquaresOf([x]) == x * x {
        assert [x][..0] == [];
      }
    }

    /** The dot product; for cosine it is the product of the norms times the score, and 0 where a norm is 0. */
    ghost predicate IsScore(store: nat -> Vec, q: Vec, item: Item, score: real) {
      if !cosine then score == dot(q, store(item.offset))
      else if item.norm == 0.0 || sqrt(SquaresOf(q)) == 0.0 then score == 0.0
      else score * (item.norm * sqrt(SquaresOf(q))) == dot(q, store(item.offset))
    }

    /** Live entries, each once, with their scores, best first; and one is missing only when the answer is
        full of better ones. */
    ghost predicate IsBest(store: nat -> Vec, q: Vec, topk: nat, results: seq<Candidate>)
      requires Valid()
      reads this
    {
      && |results| <= topk && DistinctIds(results)
      && (forall i, j :: 0 <= i < j < |results| ==>
            var a, b := results[i], results[j]; a.score > b.score || (a.score == b.score && a.id < b.id))
      && (forall c :: c in results ==>
            c.id in idToIndex && !items[idToIndex[c.id]].deleted && IsScore(store, q, items[idToIndex[c.id]], c.score))
      && (forall id, score ::
            id in idToIndex && !items[idToIndex[id]].deleted && IsScore(store, q, items[idToIndex[id]], score) ==>
            || Candidate(id, score) in results
            || (|results| == topk && forall d :: d in results ==> d.score > score || (d.score == score && d.id < id)))
    }

    lemma ScoreIff(store: nat -> Vec, q: Vec, item: Item, score: real)
      ensures IsScore(store, q, item, score) <==> score == ScoreOf(store, q, NormOf(q), item)
    {
      if cosine && item.norm != 0.0 && NormOf(q) != 0.0 {
        NonZero(item.norm, NormOf(q));
        Quotient(dot(q, store(item.offset)), item.norm * NormOf(q), score);
      }
    }

    static lemma Quotient(x: real, y: real, r: real)
      requires y != 0.0
      ensures r == x / y <==> r * y == x
    {
      assert (x / y) * y == x;
      assert (r - x / y) * y == r * y - x;
    }

    lemma LiveIsBest(store: nat -> Vec, q: Vec, topk: nat)
      requires Valid()
      ensures IsBest(store, q, topk, TopK(IsBetter, topk, Live(store, q, NormOf(q), |items|)))
    {
      var live := Live(store, q, NormOf(q), |items|);
      LiveDistinct(store, q, NormOf(q), |items|);
      BestAre(topk, live);
      forall c
        ensures c in live <==> c.id in idToIndex && !items[idToIndex[c.id]].deleted
                               && IsScore(store, q, items[idToIndex[c.id]], c.score)
      {
        LivePrefix(store, q, NormOf(q), |items|, c);
        if c.id in idToIndex { ScoreIff(store, q, items[idToIndex[c.id]], c.score); }
      }
      hide IsScore, TopK, Live, DistinctIds;
      forall id, score | id in idToIndex && !items[idToIndex[id]].deleted
                      && IsScore(store, q, items[idToIndex[id]], score)
        ensures Candidate(id, score) in live
      {
        assert Candidate(id, score).id == id;
      }
    }

    /** Exactly the first topk of the full sort of the live items, without sorting them all. */
    method Search(store: nat -> Vec, q: Vec, topk: int) returns (status: Status, results: seq<Candidate>)
      requires Valid()
      ensures status == if |q| != dim || topk <= 0 then InvalidArgument else Ok
      ensures results == if status == Ok then TopK(IsBetter, topk, Live(store, q, NormOf(q), |items|)) else []
      ensures status == Ok ==> IsBest(store, q, topk, results)
    {
      if |q| != dim || topk <= 0 {
        return InvalidArgument, [];
      }
      var heap: seq<Candidate> := [];
      var queryNorm := QueryNorm(q);
      LiveIsBest(store, q, topk);
      hide HoldsBest, TopK, IsBest;
      NothingHeld(topk);
      for i := 0 to |items|
        invariant |heap| <= topk && HoldsBest(heap, topk, Live(store, q, queryNorm, i))
      {
        if !items[i].deleted {
          var cand := Candidate(ids[i], ScoreOf(store, q, queryNorm, items[i]));
          heap := Offer(heap, topk, Live(store, q, queryNorm, i), cand);
        }
      }
      SortedHeap(heap, topk, Live(store, q, queryNorm, |items|));
      return Ok, Sort(IsBetter, heap);
    }

    static lemma NothingHeld(k: nat)
      ensures HoldsBest([], k, [])
    {
    }

    static lemma SortedHeap(heap: seq<Candidate>, k: nat, scanned: seq<Candidate>)
      requires HoldsBest(heap, k, scanned)
      ensures Sort(IsBetter, heap) == TopK(IsBetter, k, scanned)
    {
      IsBetterTotal();
      TopKIsBest(IsBetter, k, scanned);
      SortOfPermutation(IsBetter, heap, TopK(IsBetter, k, scanned));
      SortOfRanked(IsBetter, TopK(IsBetter, k, scanned));
    }

    /** The scanned items are the live entries, one candidate for each. */
    lemma LiveIsEntries(store: nat -> Vec, q: Vec, queryNorm: real, c: Candidate)
      requires Valid()
      ensures c in Live(store, q, queryNorm, |items|) <==>
              c.id in Entries() && !Entries()[c.id].deleted && c.score == ScoreOf(store, q, queryNorm, Entries()[c.id])
    {
      LivePrefix(store, q, queryNorm, |items|, c);
    }

    lemma {:induction false} LivePrefix(store: nat -> Vec, q: Vec, queryNorm: real, n: nat, c: Candidate)
      requires Valid() && n <= |items|
      ensures c in Live(store, q, queryNorm, n) <==>
              c.id in idToIndex && idToIndex[c.id] < n && !items[idToIndex[c.id]].deleted
              && c.score == ScoreOf(store, q, queryNorm, items[idToIndex[c.id]])
    {
      if n > 0 {
        LivePrefix(store, q, queryNorm, n - 1, c);
      }
    }

    lemma {:induction false} LiveDistinct(store: nat -> Vec, q: Vec, queryNorm: real, n: nat)
      requires Valid() && n <= |items|
      ensures DistinctIds(Live(store, q, queryNorm, n))
    {
      if n > 0 {
        LiveDistinct(store, q, queryNorm, n - 1);
        var front := Live(store, q, queryNorm, n - 1);
        forall c | c in front ensures c.id != ids[n - 1] {
          LivePrefix(store, q, queryNorm, n - 1, c);
        }
      }
    }
  }
}
