/** Ranked lists under a strict total order: sorting, taking the best k, and
    the laws that let a bounded heap or a sharded merge stand in for one sort. */
module Ranking {

  ghost predicate TotalOrder<T(!new)>(better: (T, T) -> bool) {
    && (forall a :: !better(a, a))
    && (forall a, b :: better(a, b) || better(b, a) || a == b)
    && (forall a, b, c :: better(a, b) && better(b, c) ==> better(a, c))
  }

  /** No later element beats an earlier one. */
  ghost predicate Ranked<T>(better: (T, T) -> bool, s: seq<T>) {
    forall i, j :: 0 <= i < j < |s| ==> !better(s[j], s[i])
  }

  function Insert<T>(better: (T, T) -> bool, x: T, s: seq<T>): (r: seq<T>)
    ensures |r| == |s| + 1
  {
    if s == [] || better(x, s[0]) then [x] + s else [s[0]] + Insert(better, x, s[1..])
  }

  /** The ranked rearrangement of s (what std::sort computes for a total order). */
  function Sort<T>(better: (T, T) -> bool, s: seq<T>): (r: seq<T>)
    ensures |r| == |s|
  {
    if s == [] then [] else Insert(better, s[|s| - 1], Sort(better, s[..|s| - 1]))
  }

  function Take<T>(s: seq<T>, k: nat): (r: seq<T>) {
    if |s| <= k then s else s[..k]
  }

  function TopK<T>(better: (T, T) -> bool, k: nat, s: seq<T>): seq<T> {
    Take(Sort(better, s), k)
  }

  // ----- laws of a total order, one use at a time -----

  lemma Chain<T(!new)>(better: (T, T) -> bool, a: T, b: T, c: T)
    requires TotalOrder(better)
    ensures better(a, b) && better(b, c) ==> better(a, c)
  {
  }

  lemma Compare<T(!new)>(better: (T, T) -> bool, a: T, b: T)
    requires TotalOrder(better)
    ensures better(a, b) || better(b, a) || a == b
    ensures !(better(a, b) && better(b, a)) && !better(a, a)
  {
  }

  /** With ties impossible, "not beaten by" is transitive too. */
  lemma NotBeatenChain<T(!new)>(better: (T, T) -> bool, a: T, b: T, c: T)
    requires TotalOrder(better) && !better(b, a) && !better(c, b)
    ensures !better(c, a)
  {
    Compare(better, a, b);
    Compare(better, b, c);
    Compare(better, a, c);
    Chain(better, a, b, c);
    Chain(better, c, a, b);
  }

  // ----- sorting -----

  lemma {:induction false} InsertAdds<T(!new)>(better: (T, T) -> bool, x: T, s: seq<T>)
    ensures multiset(Insert(better, x, s)) == multiset(s) + multiset{x}
  {
    if s == [] || better(x, s[0]) {
    } else {
      InsertAdds(better, x, s[1..]);
      assert s == [s[0]] + s[1..];
    }
  }

  lemma {:induction false} InsertKeeps<T(!new)>(better: (T, T) -> bool, x: T, s: seq<T>)
    requires TotalOrder(better) && Ranked(better, s)
    ensures Ranked(better, Insert(better, x, s))
    ensures multiset(Insert(better, x, s)) == multiset(s) + multiset{x}
  {
    hide TotalOrder;
    InsertAdds(better, x, s);
    if s == [] {
      Compare(better, x, x);
    } else if better(x, s[0]) {
      forall i | 0 <= i < |s| ensures !better(s[i], x) {
        Compare(better, x, s[0]);
        Chain(better, s[i], x, s[0]);
        if i == 0 { Compare(better, s[0], x); }
      }
    } else {
      InsertKeeps(better, x, s[1..]);
      TailNotBetter(better, x, s);
    }
  }

  lemma TailNotBetter<T(!new)>(better: (T, T) -> bool, x: T, s: seq<T>)
    requires s != [] && Ranked(better, s) && !better(x, s[0])
    ensures forall i :: 0 <= i < |Insert(better, x, s[1..])| ==> !better(Insert(better, x, s[1..])[i], s[0])
  {
    var t := Insert(better, x, s[1..]);
    InsertAdds(better, x, s[1..]);
    forall i | 0 <= i < |t| ensures !better(t[i], s[0]) {
      assert t[i] in multiset(t);
      if t[i] != x {
        assert t[i] in multiset(s[1..]);
        var j :| 1 <= j < |s| && s[j] == t[i];
      }
    }
  }

  lemma {:induction false} SortRanks<T(!new)>(better: (T, T) -> bool, s: seq<T>)
    requires TotalOrder(better)
    ensures Ranked(better, Sort(better, s))
    ensures multiset(Sort(better, s)) == multiset(s)
  {
    hide TotalOrder;
    if s == [] {
    } else {
      var front, last := s[..|s| - 1], s[|s| - 1];
      SortRanks(better, front);
      InsertKeeps(better, last, Sort(better, front));
      assert s == front + [last];
    }
  }

  /** A ranked list is determined by its elements. */
  lemma {:induction false} RankedUnique<T(!new)>(better: (T, T) -> bool, s: seq<T>, t: seq<T>)
    requires TotalOrder(better) && Ranked(better, s) && Ranked(better, t)
    requires multiset(s) == multiset(t)
    ensures s == t
    decreases |s|
  {
    hide TotalOrder;
    assert |s| == |multiset(s)| == |multiset(t)| == |t|;
    if s != [] {
      SameHead(better, s, t);
      assert s == [s[0]] + s[1..] && t == [t[0]] + t[1..];
      assert multiset(s[1..]) == multiset(s) - multiset{s[0]};
      assert multiset(t[1..]) == multiset(t) - multiset{t[0]};
      RankedUnique(better, s[1..], t[1..]);
    }
  }

  lemma SameHead<T(!new)>(better: (T, T) -> bool, s: seq<T>, t: seq<T>)
    requires TotalOrder(better) && Ranked(better, s) && Ranked(better, t)
    requires multiset(s) == multiset(t) && s != [] && t != []
    ensures s[0] == t[0]
  {
    hide TotalOrder;
    assert s[0] in multiset(t) && t[0] in multiset(s);
    var i :| 0 <= i < |t| && t[i] == s[0];
    var j :| 0 <= j < |s| && s[j] == t[0];
    Compare(better, s[0], t[0]);
  }

  lemma SortOfPermutation<T(!new)>(better: (T, T) -> bool, s: seq<T>, t: seq<T>)
    requires TotalOrder(better) && multiset(s) == multiset(t)
    ensures Sort(better, s) == Sort(better, t)
  {
    hide TotalOrder;
    SortRanks(better, s);
    SortRanks(better, t);
    RankedUnique(better, Sort(better, s), Sort(better, t));
  }

  lemma SortOfRanked<T(!new)>(better: (T, T) -> bool, s: seq<T>)
    requires TotalOrder(better) && Ranked(better, s)
    ensures Sort(better, s) == s
  {
    hide TotalOrder;
    SortRanks(better, s);
    RankedUnique(better, Sort(better, s), s);
  }

  // ----- the best k -----

  lemma {:induction false} TakeOfInsert<T(!new)>(better: (T, T) -> bool, k: nat, x: T, s: seq<T>)
    ensures Take(Insert(better, x, s), k) == Take(Insert(better, x, Take(s, k)), k)
  {
    if |s| <= k || s == [] || k == 0 {
    } else if better(x, s[0]) {
      assert Take([x] + s, k) == [x] + s[..k - 1];
    } else {
      TakeOfInsert(better, k - 1, x, s[1..]);
      assert Take(s, k)[1..] == Take(s[1..], k - 1);
      assert Take(Insert(better, x, s), k) == [s[0]] + Take(Insert(better, x, s[1..]), k - 1);
    }
  }

  /** Offering one more element to the best k of a stream. */
  lemma TopKOfAppend<T(!new)>(better: (T, T) -> bool, k: nat, s: seq<T>, x: T)
    ensures TopK(better, k, s + [x]) == Take(Insert(better, x, TopK(better, k, s)), k)
  {
    assert (s + [x])[..|s|] == s;
    TakeOfInsert(better, k, x, Sort(better, s));
  }

  /** An offer to a full list replaces the last element or changes nothing. */
  lemma {:induction false} OfferToFull<T(!new)>(better: (T, T) -> bool, x: T, s: seq<T>)
    requires TotalOrder(better) && Ranked(better, s) && |s| > 0
    ensures Take(Insert(better, x, s), |s|)
         == if better(x, s[|s| - 1]) then Insert(better, x, s[..|s| - 1]) else s
  {
    hide TotalOrder;
    var last := s[|s| - 1];
    if |s| == 1 {
    } else if better(x, s[0]) {
      Compare(better, s[0], last);
      Chain(better, x, s[0], last);
    } else {
      OfferToFull(better, x, s[1..]);
      assert s[1..][..|s| - 2] == s[..|s| - 1][1..];
      assert Take(Insert(better, x, s), |s|) == [s[0]] + Take(Insert(better, x, s[1..]), |s| - 1);
      assert s == [s[0]] + s[1..];
    }
  }

  /** Truncating one part of the input to its best k does not change the best k. */
  lemma {:induction false} TopKAbsorbs<T(!new)>(better: (T, T) -> bool, k: nat, a: seq<T>, b: seq<T>)
    requires TotalOrder(better)
    ensures TopK(better, k, a + b) == TopK(better, k, TopK(better, k, a) + b)
    decreases |b|
  {
    hide TotalOrder;
    var ta := TopK(better, k, a);
    if b == [] {
      assert a + b == a && ta + b == ta;
      SortRanks(better, a);
      SortOfRanked(better, ta);
    } else {
      var front, last := b[..|b| - 1], b[|b| - 1];
      TopKAbsorbs(better, k, a, front);
      assert a + b == (a + front) + [last] && ta + b == (ta + front) + [last];
      TopKOfAppend(better, k, a + front, last);
      TopKOfAppend(better, k, ta + front, last);
    }
  }

  /** What TopK returns, said without sorting: k elements of the input, none of
      them beaten by an element left out. */
  lemma TopKIsBest<T(!new)>(better: (T, T) -> bool, k: nat, s: seq<T>)
    requires TotalOrder(better)
    ensures var r := TopK(better, k, s);
      && |r| == (if |s| <= k then |s| else k)
      && Ranked(better, r)
      && multiset(r) <= multiset(s)
      && (forall x, y :: x in r && y in multiset(s) - multiset(r) ==> !better(y, x))
  {
    hide TotalOrder;
    var z := Sort(better, s);
    var r := TopK(better, k, s);
    SortRanks(better, s);
    var rest := z[|r|..];
    assert z == r + rest;
    assert multiset(z) == multiset(r) + multiset(rest);
    assert multiset(s) - multiset(r) == multiset(rest);
    forall x, y | x in r && y in multiset(s) - multiset(r) ensures !better(y, x) {
      assert y in rest;
    }
  }

  /** An element is left out of the best k only when they are k, none of them beaten by it. */
  lemma LeftOut<T(!new)>(better: (T, T) -> bool, k: nat, s: seq<T>, y: T)
    requires TotalOrder(better) && y in s && y !in TopK(better, k, s)
    ensures |TopK(better, k, s)| == k
    ensures forall i :: 0 <= i < k ==> !better(y, TopK(better, k, s)[i])
  {
    hide TotalOrder;
    SortRanks(better, s);
    assert y in multiset(Sort(better, s));
    var at :| 0 <= at < |s| && Sort(better, s)[at] == y;
    assert at >= k;
  }

  // ----- multisets of sequences -----

  lemma TakeOutOne<T>(front: seq<T>, x: T, b: seq<T>) returns (k: nat)
    requires multiset(front + [x]) == multiset(b)
    ensures k < |b| && b[k] == x && b == b[..k] + ([x] + b[k + 1..])
    ensures multiset(front) == multiset(b[..k] + b[k + 1..])
  {
    assert x in multiset(front + [x]);
    k :| 0 <= k < |b| && b[k] == x;
    assert b == b[..k] + ([x] + b[k + 1..]);
    assert multiset(b) == multiset(b[..k]) + multiset{x} + multiset(b[k + 1..]);
    assert multiset(front) == multiset(front + [x]) - multiset{x};
  }
}
