/** Scored candidates and the order every index returns them in. */
module Candidates {
  import opened Ranking
  import opened Sequences

  type Vec = seq<real>

  datatype Candidate = Candidate(id: nat, score: real)

  /** Higher score first, then lower id. */
  predicate IsBetter(a: Candidate, b: Candidate) {
    if a.score != b.score then a.score > b.score else a.id < b.id
  }

  lemma IsBetterTotal()
    ensures TotalOrder(IsBetter)
  {
  }

  ghost predicate DistinctIds(s: seq<Candidate>) {
    forall i, j :: 0 <= i < j < |s| ==> s[i].id != s[j].id
  }

  lemma SubDistinct(a: seq<Candidate>, b: seq<Candidate>)
    requires multiset(a) <= multiset(b) && DistinctIds(b)
    ensures DistinctIds(a)
  {
    forall i, j | 0 <= i < j < |a| ensures a[i].id != a[j].id {
      assert a[i] in multiset(a) && a[i] in multiset(b) && a[j] in multiset(a) && a[j] in multiset(b);
      var x :| 0 <= x < |b| && b[x] == a[i];
      var y :| 0 <= y < |b| && b[y] == a[j];
      if x == y {
        TwiceIn(a, i, j);
        AtMostOnce(b, x);
      }
    }
  }

  lemma AtMostOnce(s: seq<Candidate>, x: nat)
    requires x < |s| && DistinctIds(s)
    ensures multiset(s)[s[x]] == 1
  {
    assert s == s[..x] + [s[x]] + s[x + 1..];
    assert s[x] !in s[..x] && s[x] !in s[x + 1..];
  }

  /** The best k of a list, said without sorting: candidates of the list, each id once, best first,
      and one is missing only when k better ones are there. */
  lemma BestAre(k: nat, all: seq<Candidate>)
    requires DistinctIds(all)
    ensures var r := TopK(IsBetter, k, all);
      && |r| <= k && DistinctIds(r)
      && (forall i, j :: 0 <= i < j < |r| ==>
            r[i].score > r[j].score || (r[i].score == r[j].score && r[i].id < r[j].id))
      && (forall c :: c in r ==> c in all)
      && (forall c :: c in all && c !in r ==>
            |r| == k && forall d :: d in r ==> d.score > c.score || (d.score == c.score && d.id < c.id))
  {
    var r := TopK(IsBetter, k, all);
    IsBetterTotal();
    TopKIsBest(IsBetter, k, all);
    SubDistinct(r, all);
    hide TopK, TotalOrder;
    forall i, j | 0 <= i < j < |r|
      ensures r[i].score > r[j].score || (r[i].score == r[j].score && r[i].id < r[j].id)
    {
      assert !IsBetter(r[j], r[i]) && r[i].id != r[j].id;
    }
    forall c | c in r ensures c in all {
      assert c in multiset(r) && c in multiset(all);
    }
    forall c, d | c in all && c !in r && d in r
      ensures d.score > c.score || (d.score == c.score && d.id < c.id)
    {
      LeftOutIsWorse(k, all, c, d);
    }
    forall c | c in all && c !in r ensures |r| == k {
      LeftOut(IsBetter, k, all, c);
    }
  }

  lemma LeftOutIsWorse(k: nat, all: seq<Candidate>, c: Candidate, d: Candidate)
    requires c in all && c !in TopK(IsBetter, k, all) && d in TopK(IsBetter, k, all)
    ensures d.score > c.score || (d.score == c.score && d.id < c.id)
  {
    IsBetterTotal();
    LeftOut(IsBetter, k, all, c);
    var r := TopK(IsBetter, k, all);
    var i :| 0 <= i < |r| && r[i] == d;
    assert !IsBetter(c, r[i]);
    Compare(IsBetter, c, d);
  }
}
