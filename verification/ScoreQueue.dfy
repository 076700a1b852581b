/** The bounded priority queue of (score, id) pairs used by the IVF scans: the
    smallest pair is on top, and a newcomer replaces it only with a strictly
    higher score. The queue is kept here best pair first, so the top is last. */
module ScoreQueue {
  import opened Ranking
  import opened Candidates

  /** Order of std::pair<float, id>: higher score first, then higher id. */
  predicate PairAbove(a: Candidate, b: Candidate) {
    a.score > b.score || (a.score == b.score && a.id > b.id)
  }

  lemma PairAboveTotal()
    ensures TotalOrder(PairAbove)
  {
  }

  function Offer(k: nat, h: seq<Candidate>, x: Candidate): (r: seq<Candidate>)
    ensures |h| <= k ==> |r| <= k
  {
    if |h| < k then Insert(PairAbove, x, h)
    else if h != [] && x.score > h[|h| - 1].score then Insert(PairAbove, x, h[..|h| - 1])
    else h
  }

  /** The queue after offering a whole stream. */
  function Kept(k: nat, stream: seq<Candidate>): (r: seq<Candidate>)
    ensures |r| <= k
  {
    if stream == [] then [] else Offer(k, Kept(k, stream[..|stream| - 1]), stream[|stream| - 1])
  }

  /** k entries of the stream (all of them if there are fewer), best pair first,
      none of them scoring lower than an entry left out. */
  ghost predicate BestByScore(k: nat, stream: seq<Candidate>, h: seq<Candidate>) {
    && |h| == (if |stream| <= k then |stream| else k)
    && Ranked(PairAbove, h)
    && multiset(h) <= multiset(stream)
    && Dominates(h, multiset(stream) - multiset(h))
  }

  ghost predicate Dominates(h: seq<Candidate>, rest: multiset<Candidate>) {
    forall i, y :: 0 <= i < |h| && y in rest ==> y.score <= h[i].score
  }

  lemma KeptAppend(k: nat, s: seq<Candidate>, x: Candidate)
    ensures Kept(k, s + [x]) == Offer(k, Kept(k, s), x)
  {
    assert (s + [x])[..|s|] == s;
  }

  lemma {:induction false} KeptIsBest(k: nat, stream: seq<Candidate>)
    ensures BestByScore(k, stream, Kept(k, stream))
  {
    if stream == [] {
    } else {
      var front, x := stream[..|stream| - 1], stream[|stream| - 1];
      KeptIsBest(k, front);
      hide BestByScore, Offer, Kept;
      assert stream == front + [x];
      KeptAppend(k, front, x);
      OfferKeeps(k, front, Kept(k, front), x);
    }
  }

  lemma OfferKeeps(k: nat, s: seq<Candidate>, h: seq<Candidate>, x: Candidate)
    requires BestByScore(k, s, h) && |h| <= k
    ensures BestByScore(k, s + [x], Offer(k, h, x))
  {
    hide BestByScore, Insert;
    if |h| < k {
      OfferWithRoom(k, s, h, x);
    } else if h != [] && x.score > h[|h| - 1].score {
      OfferReplaces(k, s, h, x);
    } else {
      OfferRefused(k, s, h, x);
    }
  }

  lemma OfferWithRoom(k: nat, s: seq<Candidate>, h: seq<Candidate>, x: Candidate)
    requires BestByScore(k, s, h) && |h| < k
    ensures BestByScore(k, s + [x], Insert(PairAbove, x, h))
  {
    PairAboveTotal();
    InsertKeeps(PairAbove, x, h);
    assert multiset(h) == multiset(s) by { SameSizeEqual(multiset(h), multiset(s)); }
    assert multiset(s + [x]) == multiset(Insert(PairAbove, x, h));
  }

  lemma SameSizeEqual<T>(a: multiset<T>, b: multiset<T>)
    requires a <= b && |a| == |b|
    ensures a == b
  {
    assert b == a + (b - a);
    assert |b - a| == 0;
  }

  lemma OfferReplaces(k: nat, s: seq<Candidate>, h: seq<Candidate>, x: Candidate)
    requires BestByScore(k, s, h) && |h| == k > 0 && x.score > h[|h| - 1].score
    ensures BestByScore(k, s + [x], Insert(PairAbove, x, h[..|h| - 1]))
  {
    hide PairAbove, Dominates, TotalOrder;
    PairAboveTotal();
    var front, last := h[..|h| - 1], h[|h| - 1];
    InsertKeeps(PairAbove, x, front);
    var r := Insert(PairAbove, x, front);
    assert h == front + [last];
    assert multiset(s + [x]) == multiset(s) + multiset{x};
    SwapOne(multiset(s), front, last, x, multiset(s + [x]), multiset(r));
    LastIsLowest(h);
    ReplacedDominates(h, multiset(s) - multiset(h), x, r);
  }

  lemma SwapOne<T>(s: multiset<T>, front: seq<T>, last: T, x: T, s': multiset<T>, r: multiset<T>)
    requires multiset(front + [last]) <= s && s' == s + multiset{x} && r == multiset(front) + multiset{x}
    ensures r <= s' && s' - r == s - multiset(front + [last]) + multiset{last}
  {
    assert multiset(front + [last]) == multiset(front) + multiset{last};
  }

  lemma LastIsLowest(h: seq<Candidate>)
    requires Ranked(PairAbove, h) && h != []
    ensures forall i :: 0 <= i < |h| ==> h[|h| - 1].score <= h[i].score
  {
    forall i | 0 <= i < |h| ensures h[|h| - 1].score <= h[i].score {
      assert i == |h| - 1 || !PairAbove(h[|h| - 1], h[i]);
    }
  }

  lemma ReplacedDominates(h: seq<Candidate>, rest: multiset<Candidate>, x: Candidate, r: seq<Candidate>)
    requires h != [] && Dominates(h, rest) && x.score > h[|h| - 1].score
    requires forall i :: 0 <= i < |h| ==> h[|h| - 1].score <= h[i].score
    requires multiset(r) == multiset(h[..|h| - 1]) + multiset{x}
    ensures Dominates(r, rest + multiset{h[|h| - 1]})
  {
    var last := h[|h| - 1];
    forall i, y | 0 <= i < |r| && y in rest + multiset{last} ensures y.score <= r[i].score {
      assert y.score <= last.score by { assert y == last || y in rest; }
      assert r[i] in multiset(r);
      if r[i] != x {
        assert r[i] in multiset(h[..|h| - 1]);
        var j :| 0 <= j < |h| - 1 && h[j] == r[i];
      }
    }
  }

  lemma OfferRefused(k: nat, s: seq<Candidate>, h: seq<Candidate>, x: Candidate)
    requires BestByScore(k, s, h) && |h| == k && (h == [] || x.score <= h[|h| - 1].score)
    ensures BestByScore(k, s + [x], h)
  {
    assert multiset(s + [x]) - multiset(h) == multiset(s) - multiset(h) + multiset{x};
    if h != [] {
      LastIsLowest(h);
    }
  }

  // ----- consequences -----

  /** Something is left out only if k others score at least as high. */
  lemma LeftOutIsBeaten(k: nat, stream: seq<Candidate>, x: Candidate)
    requires x in stream && x !in Kept(k, stream)
    ensures |Kept(k, stream)| == k && forall a :: a in Kept(k, stream) ==> a.score >= x.score && a in stream && a != x
  {
    var h := Kept(k, stream);
    KeptIsBest(k, stream);
    assert x in multiset(stream) && x !in multiset(h);
    assert x in multiset(stream) - multiset(h);
    forall a | a in h ensures a in stream {
      assert a in multiset(h) && a in multiset(stream);
    }
    if |stream| <= k {
      SameSizeEqual(multiset(h), multiset(stream));
      assert false;
    }
  }

  /** The kept queue of a stream that names each id once: candidates of the stream, higher score
      first, then higher id, and one is missing only when k others score at least as high. */
  lemma KeptAre(k: nat, stream: seq<Candidate>)
    requires DistinctIds(stream)
    ensures var r := Kept(k, stream);
      && |r| == (if |stream| <= k then |stream| else k) && DistinctIds(r)
      && (forall i, j :: 0 <= i < j < |r| ==>
            r[i].score > r[j].score || (r[i].score == r[j].score && r[i].id > r[j].id))
      && (forall c :: c in r ==> c in stream)
      && (forall c :: c in stream && c !in r ==> |r| == k && forall d :: d in r ==> d.score >= c.score)
  {
    var r := Kept(k, stream);
    KeptIsBest(k, stream);
    SubDistinct(r, stream);
    hide Kept;
    forall i, j | 0 <= i < j < |r| ensures r[i].score > r[j].score || (r[i].score == r[j].score && r[i].id > r[j].id) {
      assert !PairAbove(r[j], r[i]) && r[i].id != r[j].id;
    }
    forall c | c in r ensures c in stream {
      assert c in multiset(r) && c in multiset(stream);
    }
    forall c | c in stream && c !in r ensures |r| == k && forall d :: d in r ==> d.score >= c.score {
      LeftOutIsBeaten(k, stream, c);
    }
  }

  predicate Higher(a: real, b: real) { a > b }

  lemma HigherTotal()
    ensures TotalOrder(Higher)
  {
  }

  function ScoreSeq(s: seq<Candidate>): (r: seq<real>)
    ensures |r| == |s|
    ensures forall i :: 0 <= i < |s| ==> r[i] == s[i].score
  {
    seq(|s|, i requires 0 <= i < |s| => s[i].score)
  }

  /** The kept scores are exactly the k highest scores of the stream, in order, however ties were broken. */
  lemma KeptScores(k: nat, stream: seq<Candidate>)
    ensures ScoreSeq(Kept(k, stream)) == TopK(Higher, k, ScoreSeq(stream))
  {
    KeptScoresStep(k, stream);
  }

  lemma {:induction false} KeptScoresStep(k: nat, stream: seq<Candidate>)
    ensures ScoreSeq(Kept(k, stream)) == TopK(Higher, k, ScoreSeq(stream))
  {
    if stream == [] {
    } else {
      var front, x := stream[..|stream| - 1], stream[|stream| - 1];
      KeptScoresStep(k, front);
      assert ScoreSeq(stream) == ScoreSeq(front) + [x.score];
      TopKOfAppend(Higher, k, ScoreSeq(front), x.score);
      KeptIsBest(k, front);
      OfferScores(k, Kept(k, front), x);
    }
  }

  lemma OfferScores(k: nat, h: seq<Candidate>, x: Candidate)
    requires Ranked(PairAbove, h) && |h| <= k
    ensures ScoreSeq(Offer(k, h, x)) == Take(Insert(Higher, x.score, ScoreSeq(h)), k)
  {
    HigherTotal();
    PairAboveTotal();
    var s := ScoreSeq(h);
    assert Ranked(Higher, s) by { ScoresRanked(h); }
    if |h| < k {
      InsertScores(h, x);
    } else if h == [] {
    } else {
      OfferToFull(Higher, x.score, s);
      if x.score > h[|h| - 1].score {
        InsertScores(h[..|h| - 1], x);
        assert ScoreSeq(h[..|h| - 1]) == s[..|s| - 1];
      }
    }
  }

  lemma ScoresRanked(h: seq<Candidate>)
    requires Ranked(PairAbove, h)
    ensures Ranked(Higher, ScoreSeq(h))
  {
    forall i, j | 0 <= i < j < |h| ensures !Higher(ScoreSeq(h)[j], ScoreSeq(h)[i]) {
      assert !PairAbove(h[j], h[i]);
    }
  }

  /** Both insertions give ranked lists of the same scores, so the same list. */
  lemma InsertScores(h: seq<Candidate>, x: Candidate)
    requires Ranked(PairAbove, h)
    ensures ScoreSeq(Insert(PairAbove, x, h)) == Insert(Higher, x.score, ScoreSeq(h))
  {
    HigherTotal();
    PairAboveTotal();
    var r := Insert(PairAbove, x, h);
    InsertKeeps(PairAbove, x, h);
    ScoresRanked(r);
    ScoresRanked(h);
    InsertKeeps(Higher, x.score, ScoreSeq(h));
    SameScores(r, h + [x]);
    assert ScoreSeq(h + [x]) == ScoreSeq(h) + [x.score];
    RankedUnique(Higher, ScoreSeq(r), Insert(Higher, x.score, ScoreSeq(h)));
  }

  lemma {:induction false} SameScores(a: seq<Candidate>, b: seq<Candidate>)
    requires multiset(a) == multiset(b)
    ensures multiset(ScoreSeq(a)) == multiset(ScoreSeq(b))
    decreases |a|
  {
    if a == [] {
      assert |b| == |multiset(b)| == 0;
    } else {
      var front, x := a[..|a| - 1], a[|a| - 1];
      assert a == front + [x];
      var k := TakeOutOne(front, x, b);
      var l, r := b[..k], b[k + 1..];
      SameScores(front, l + r);
      hide ScoreSeq;
      ScoreConcat(front, [x]);
      ScoreConcat(l, [x] + r);
      ScoreConcat([x], r);
      ScoreConcat(l, r);
    }
  }

  lemma ScoreConcat(a: seq<Candidate>, b: seq<Candidate>)
    ensures ScoreSeq(a + b) == ScoreSeq(a) + ScoreSeq(b)
  {
  }
}
