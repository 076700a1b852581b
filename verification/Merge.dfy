/** Merging the shards' results: the order of returned items, truncation per shard, and the
    engine's selection of the best of the concatenation. */
module Merge {
  import opened Ranking
  import opened Candidates

  /** A returned item; its metadata goes with it and is not compared. */
  datatype Hit = Hit(key: string, score: real, id: nat)

  // ----- the order of results -----

  /** std::string's order: the first difference decides, a proper prefix comes first. */
  predicate KeyLess(a: string, b: string) {
    b != "" && (a == "" || a[0] < b[0] || (a[0] == b[0] && KeyLess(a[1..], b[1..])))
  }

  lemma {:induction false} KeyLessTotal(a: string, b: string)
    ensures KeyLess(a, b) || KeyLess(b, a) || a == b
    ensures !(KeyLess(a, b) && KeyLess(b, a)) && !KeyLess(a, a)
  {
    if a != "" {
      KeyLessTotal(a[1..], a[1..]);
      if b != "" {
        KeyLessTotal(a[1..], b[1..]);
        assert a == [a[0]] + a[1..] && b == [b[0]] + b[1..];
      }
    }
  }

  lemma {:induction false} KeyLessChain(a: string, b: string, c: string)
    requires KeyLess(a, b) && KeyLess(b, c)
    ensures KeyLess(a, c)
  {
    if a != "" && a[0] == b[0] == c[0] {
      KeyLessChain(a[1..], b[1..], c[1..]);
    }
  }

  /** The keys agree up to place i, where a ends or has the smaller character. */
  ghost predicate DiffersAt(a: string, b: string, i: nat) {
    i <= |a| && i < |b| && a[..i] == b[..i] && (i == |a| || a[i] < b[i])
  }

  lemma FirstSame(a: string, b: string, i: nat)
    requires DiffersAt(a, b, i) && i > 0
    ensures a != "" && b != "" && a[0] == b[0]
  {
    assert a[..i][0] == b[..i][0];
  }

  lemma {:induction false} KeyLessIff(a: string, b: string)
    ensures KeyLess(a, b) <==> exists i :: DiffersAt(a, b, i)
  {
    if a == "" || b == "" || a[0] != b[0] {
      if KeyLess(a, b) { assert DiffersAt(a, b, 0); }
      if i: nat :| DiffersAt(a, b, i) && i > 0 {
        FirstSame(a, b, i);
        assert false;
      }
    } else {
      KeyLessIff(a[1..], b[1..]);
      assert a == [a[0]] + a[1..] && b == [b[0]] + b[1..];
      if i: nat :| DiffersAt(a[1..], b[1..], i) {
        assert a[..i + 1] == [a[0]] + a[1..][..i] && b[..i + 1] == [b[0]] + b[1..][..i];
        assert DiffersAt(a, b, i + 1);
      }
      if i: nat :| DiffersAt(a, b, i) {
        assert i > 0;
        assert a[1..][..i - 1] == a[..i][1..] && b[1..][..i - 1] == b[..i][1..];
        assert DiffersAt(a[1..], b[1..], i - 1);
      }
    }
  }

  /** Higher score first, then key, then id. */
  predicate Better(a: Hit, b: Hit) {
    if a.score != b.score then a.score > b.score
    else if a.key != b.key then KeyLess(a.key, b.key)
    else a.id < b.id
  }

  lemma BetterIff(a: Hit, b: Hit)
    ensures Better(a, b) <==>
              || a.score > b.score
              || (a.score == b.score && exists i :: DiffersAt(a.key, b.key, i))
              || (a.score == b.score && a.key == b.key && a.id < b.id)
  {
    KeyLessIff(a.key, b.key);
    KeyLessTotal(a.key, b.key);
  }

  lemma BetterTotal()
    ensures TotalOrder(Better)
  {
    forall a, b ensures (Better(a, b) || Better(b, a) || a == b) && !Better(a, a) {
      KeyLessTotal(a.key, b.key);
    }
    forall a, b, c | Better(a, b) && Better(b, c) ensures Better(a, c) {
      BetterChain(a, b, c);
    }
  }

  lemma BetterChain(a: Hit, b: Hit, c: Hit)
    requires Better(a, b) && Better(b, c)
    ensures Better(a, c)
  {
    KeyLessTotal(a.key, b.key);
    KeyLessTotal(b.key, c.key);
    KeyLessTotal(a.key, c.key);
    if KeyLess(a.key, b.key) && KeyLess(b.key, c.key) {
      KeyLessChain(a.key, b.key, c.key);
    }
  }

  // ----- the engine's merge -----

  function Concat<T>(parts: seq<seq<T>>): seq<T> {
    if parts == [] then [] else Concat(parts[..|parts| - 1]) + parts[|parts| - 1]
  }

  /** Brings the k best to the front, in no particular order. */
  method NthElement(s: seq<Hit>, k: nat) returns (r: seq<Hit>)
    requires k <= |s|
    ensures multiset(r) == multiset(s)
    ensures forall i, j :: 0 <= i < k <= j < |r| ==> !Better(r[j], r[i])
  {
    BetterTotal();
    SortRanks(Better, s);
    r := Sort(Better, s);
  }

  lemma SortedSplit(a: seq<Hit>, b: seq<Hit>)
    requires forall x, y :: x in a && y in b ==> !Better(y, x)
    ensures Ranked(Better, Sort(Better, a) + Sort(Better, b))
    ensures multiset(Sort(Better, a) + Sort(Better, b)) == multiset(a) + multiset(b)
  {
    BetterTotal();
    hide TotalOrder, Better;
    SortRanks(Better, a);
    SortRanks(Better, b);
    forall x, y | x in Sort(Better, a) && y in Sort(Better, b) ensures !Better(y, x) {
      assert x in multiset(a) && y in multiset(b);
    }
  }

  lemma SelectedThenSorted(s: seq<Hit>, r: seq<Hit>, k: nat)
    requires k <= |r| && multiset(r) == multiset(s)
    requires forall i, j :: 0 <= i < k <= j < |r| ==> !Better(r[j], r[i])
    ensures Sort(Better, r[..k]) == TopK(Better, k, s)
  {
    BetterTotal();
    hide TotalOrder, Better, Sort, Ranked;
    SortedSplit(r[..k], r[k..]);
    var whole := Sort(Better, r[..k]) + Sort(Better, r[k..]);
    assert r == r[..k] + r[k..];
    SortOfRanked(Better, whole);
    SortOfPermutation(Better, whole, s);
    assert |s| == |multiset(s)| == |multiset(r)| == |r|;
    assert whole[..k] == Sort(Better, r[..k]);
  }

  /** Concatenate, select, cut, sort: the topk best of everything the shards sent. */
  method MergeShards(shardResults: seq<seq<Hit>>, topk: nat) returns (merged: seq<Hit>)
    ensures merged == TopK(Better, topk, Concat(shardResults))
  {
    merged := [];
    for i := 0 to |shardResults|
      invariant merged == Concat(shardResults[..i])
    {
      assert shardResults[..i + 1][..i] == shardResults[..i];
      merged := merged + shardResults[i];
    }
    assert shardResults[..|shardResults|] == shardResults;
    if |merged| > topk {
      ghost var all := merged;
      merged := NthElement(merged, topk);
      assert |merged| == |multiset(merged)| == |multiset(all)| == |all|;
      SelectedThenSorted(all, merged, topk);
      merged := merged[..topk];
    }
    merged := Sort(Better, merged);
  }

  // ----- truncating each shard first -----

  function Truncated(k: nat, parts: seq<seq<Hit>>): (r: seq<seq<Hit>>)
    ensures |r| == |parts| && forall i :: 0 <= i < |parts| ==> r[i] == TopK(Better, k, parts[i])
  {
    seq(|parts|, i requires 0 <= i < |parts| => TopK(Better, k, parts[i]))
  }

  lemma {:induction false} TruncateFirst(k: nat, parts: seq<seq<Hit>>)
    ensures TopK(Better, k, Concat(Truncated(k, parts))) == TopK(Better, k, Concat(parts))
  {
    if parts == [] {
    } else {
      var front, last := parts[..|parts| - 1], parts[|parts| - 1];
      BetterTotal();
      hide TotalOrder, Better, TopK;
      TruncateFirst(k, front);
      var a, b := Concat(front), TopK(Better, k, last);
      assert Truncated(k, parts)[..|parts| - 1] == Truncated(k, front);
      // (ta + b) ~ (a + b) ~ (a + last), best k throughout
      TopKAbsorbs(Better, k, Concat(Truncated(k, front)), b);
      TopKAbsorbs(Better, k, a, b);
      SwapSides(k, a, b);
      TopKAbsorbs(Better, k, last, a);
      SwapSides(k, a, last);
    }
  }

  lemma SwapSides(k: nat, a: seq<Hit>, b: seq<Hit>)
    ensures TopK(Better, k, a + b) == TopK(Better, k, b + a)
  {
    BetterTotal();
    hide TotalOrder, Better;
    assert multiset(a + b) == multiset(a) + multiset(b) == multiset(b + a);
    SortOfPermutation(Better, a + b, b + a);
  }

  /** What the engine returns when every shard sends at most min(topk, maxCandidates) items. */
  function Gathered(topk: nat, maxCandidates: nat, parts: seq<seq<Hit>>): seq<Hit> {
    TopK(Better, topk, Concat(Truncated(if topk <= maxCandidates then topk else maxCandidates, parts)))
  }

  function SameScore(n: nat): (r: seq<Hit>)
    ensures |r| == n
  {
    seq(n, i requires 0 <= i < n => Hit("", 0.0, i))
  }

  /** The sharded result is the global one, on every input, exactly when topk is within the
      per-shard bound. */
  lemma GatherExactIff(topk: nat, maxCandidates: nat)
    ensures topk <= maxCandidates <==>
            forall parts: seq<seq<Hit>> :: Gathered(topk, maxCandidates, parts) == TopK(Better, topk, Concat(parts))
  {
    if topk <= maxCandidates {
      forall parts: seq<seq<Hit>> ensures Gathered(topk, maxCandidates, parts) == TopK(Better, topk, Concat(parts)) {
        TruncateFirst(topk, parts);
      }
    } else {
      var part := SameScore(maxCandidates + 1);
      OnePart(part);
      OnePart(TopK(Better, maxCandidates, part));
      assert Truncated(maxCandidates, [part]) == [TopK(Better, maxCandidates, part)];
      assert |Gathered(topk, maxCandidates, [part])| == maxCandidates;
      assert |TopK(Better, topk, Concat([part]))| == maxCandidates + 1;
    }
  }

  lemma OnePart(s: seq<Hit>)
    ensures Concat([s]) == s
  {
    assert [s][..0] == [];
  }

  // ----- an exact index under each shard -----

  /** The flat index's order, by score and id; ids are unique in a shard. */
  predicate BetterById(a: Hit, b: Hit) {
    if a.score != b.score then a.score > b.score
    else if a.id != b.id then a.id < b.id
    else KeyLess(a.key, b.key)
  }

  lemma BetterByIdTotal()
    ensures TotalOrder(BetterById)
  {
    forall a, b ensures (BetterById(a, b) || BetterById(b, a) || a == b) && !BetterById(a, a) {
      KeyLessTotal(a.key, b.key);
    }
    forall a, b, c | BetterById(a, b) && BetterById(b, c) ensures BetterById(a, c) {
      if KeyLess(a.key, b.key) && KeyLess(b.key, c.key) {
        KeyLessChain(a.key, b.key, c.key);
      }
    }
  }

  function HitOf(keys: nat -> string, c: Candidate): Hit { Hit(keys(c.id), c.score, c.id) }

  function HitsOf(keys: nat -> string, s: seq<Candidate>): (r: seq<Hit>)
    ensures |r| == |s| && forall i :: 0 <= i < |s| ==> r[i] == HitOf(keys, s[i])
  {
    seq(|s|, i requires 0 <= i < |s| => HitOf(keys, s[i]))
  }

  lemma {:induction false} InsertOfHits(keys: nat -> string, x: Candidate, s: seq<Candidate>)
    ensures HitsOf(keys, Insert(IsBetter, x, s)) == Insert(BetterById, HitOf(keys, x), HitsOf(keys, s))
  {
    if s != [] {
      KeyLessTotal(keys(x.id), keys(x.id));
      if !IsBetter(x, s[0]) {
        InsertOfHits(keys, x, s[1..]);
        assert HitsOf(keys, s)[1..] == HitsOf(keys, s[1..]);
      }
    }
  }

  lemma {:induction false} SortOfHits(keys: nat -> string, s: seq<Candidate>)
    ensures HitsOf(keys, Sort(IsBetter, s)) == Sort(BetterById, HitsOf(keys, s))
  {
    if s == [] {
    } else {
      SortOfHits(keys, s[..|s| - 1]);
      assert HitsOf(keys, s)[..|s| - 1] == HitsOf(keys, s[..|s| - 1]);
      InsertOfHits(keys, s[|s| - 1], Sort(IsBetter, s[..|s| - 1]));
    }
  }

  /** Attaching keys to the index's best is taking the best after attaching keys. */
  lemma TopKOfHits(keys: nat -> string, k: nat, s: seq<Candidate>)
    ensures HitsOf(keys, TopK(IsBetter, k, s)) == TopK(BetterById, k, HitsOf(keys, s))
  {
    SortOfHits(keys, s);
  }

  /** How many candidates a shard asks its index for. */
  function CandidateCount(topk: nat, maxCandidates: nat, rerankFactor: nat): (c: nat)
    requires rerankFactor >= 1
    ensures topk <= maxCandidates ==> c >= topk
    ensures c <= maxCandidates && c <= topk * rerankFactor && (c == maxCandidates || c == topk * rerankFactor)
  {
    var bounded := if topk <= maxCandidates then topk else maxCandidates;
    RerankGrows(bounded, rerankFactor);
    RerankGrows(topk, rerankFactor);
    var wanted := if bounded * rerankFactor >= bounded then bounded * rerankFactor else bounded;
    if wanted <= maxCandidates then wanted else maxCandidates
  }

  lemma RerankGrows(bounded: nat, factor: nat)
    requires factor >= 1
    ensures 0 <= bounded <= bounded * factor
  {
  }

  /** What a shard sends: the index's best `count` by (score, id), then the best k of those. */
  function ShardHits(k: nat, count: nat, live: seq<Hit>): seq<Hit> {
    TopK(Better, k, TopK(BetterById, count, live))
  }

  function AllShardHits(k: nat, count: nat, lives: seq<seq<Hit>>): (r: seq<seq<Hit>>)
    ensures |r| == |lives| && forall i :: 0 <= i < |lives| ==> r[i] == ShardHits(k, count, lives[i])
  {
    seq(|lives|, i requires 0 <= i < |lives| => ShardHits(k, count, lives[i]))
  }

  ghost predicate AllAtLeast(s: seq<Hit>, v: real) {
    forall i :: 0 <= i < |s| ==> s[i].score >= v
  }

  /** A doc its shard left out is matched by k docs the shard sent. */
  lemma LeftOutByShard(k: nat, count: nat, live: seq<Hit>, y: Hit)
    requires k <= count && y in live && y !in ShardHits(k, count, live)
    ensures |ShardHits(k, count, live)| == k && AllAtLeast(ShardHits(k, count, live), y.score)
  {
    var c := TopK(BetterById, count, live);
    var r := ShardHits(k, count, live);
    BetterTotal();
    BetterByIdTotal();
    hide TotalOrder, Better, BetterById, TopK;
    if y in c {
      LeftOut(Better, k, c, y);
      forall i | 0 <= i < |r| ensures r[i].score >= y.score {
        NotBetterScore(r[i], y);
      }
    } else {
      LeftOut(BetterById, count, live, y);
      TopKIsBest(Better, k, c);
      forall i | 0 <= i < |r| ensures r[i].score >= y.score {
        assert r[i] in multiset(r);
        assert r[i] in c;
        NotBetterByIdScore(r[i], y);
      }
    }
  }

  lemma NotBetterScore(x: Hit, y: Hit)
    requires !Better(y, x)
    ensures x.score >= y.score
  {
  }

  lemma NotBetterByIdScore(x: Hit, y: Hit)
    requires !BetterById(y, x)
    ensures x.score >= y.score
  {
  }

  function CountAtLeast(s: seq<Hit>, v: real): (n: nat)
    ensures n <= |s|
  {
    if s == [] then 0 else CountAtLeast(s[..|s| - 1], v) + if s[|s| - 1].score >= v then 1 else 0
  }

  lemma {:induction false} CountConcat(a: seq<Hit>, b: seq<Hit>, v: real)
    ensures CountAtLeast(a + b, v) == CountAtLeast(a, v) + CountAtLeast(b, v)
  {
    if b == [] {
      assert a + b == a;
    } else {
      assert (a + b)[..|a + b| - 1] == a + b[..|b| - 1];
      CountConcat(a, b[..|b| - 1], v);
    }
  }

  lemma {:induction false} CountAll(s: seq<Hit>, v: real)
    requires AllAtLeast(s, v)
    ensures CountAtLeast(s, v) == |s|
  {
    if s != [] {
      assert s[|s| - 1].score >= v;
      CountAll(s[..|s| - 1], v);
    }
  }

  lemma {:induction false} CountPart(parts: seq<seq<Hit>>, n: nat, v: real)
    requires n < |parts|
    ensures CountAtLeast(Concat(parts), v) >= CountAtLeast(parts[n], v)
  {
    var front, last := parts[..|parts| - 1], parts[|parts| - 1];
    CountConcat(Concat(front), last, v);
    if n < |front| {
      CountPart(front, n, v);
    }
  }

  lemma {:induction false} CountOfInsert(x: Hit, s: seq<Hit>, v: real)
    ensures CountAtLeast(Insert(Better, x, s), v) == CountAtLeast(s, v) + if x.score >= v then 1 else 0
  {
    if s == [] || Better(x, s[0]) {
      CountConcat([x], s, v);
      assert [x][..0] == [];
    } else {
      CountOfInsert(x, s[1..], v);
      assert s == [s[0]] + s[1..];
      CountConcat([s[0]], s[1..], v);
      CountConcat([s[0]], Insert(Better, x, s[1..]), v);
    }
  }

  lemma {:induction false} CountOfSort(s: seq<Hit>, v: real)
    ensures CountAtLeast(Sort(Better, s), v) == CountAtLeast(s, v)
  {
    if s == [] {
    } else {
      CountOfSort(s[..|s| - 1], v);
      CountOfInsert(s[|s| - 1], Sort(Better, s[..|s| - 1]), v);
    }
  }

  lemma {:induction false} CountRanked(z: seq<Hit>, i: nat, v: real)
    requires Ranked(Better, z) && i < |z| && z[i].score < v
    ensures CountAtLeast(z, v) <= i
  {
    if i == |z| - 1 {
    } else {
      NotBetterScore(z[i], z[|z| - 1]);
      CountRanked(z[..|z| - 1], i, v);
    }
  }

  /** If k items score at least v, the best k all do. */
  lemma BestAtLeast(k: nat, s: seq<Hit>, v: real)
    requires CountAtLeast(s, v) >= k
    ensures |TopK(Better, k, s)| == k && AllAtLeast(TopK(Better, k, s), v)
  {
    var z := Sort(Better, s);
    BetterTotal();
    SortRanks(Better, s);
    CountOfSort(s, v);
    forall i | 0 <= i < |TopK(Better, k, s)| ensures z[i].score >= v {
      if z[i].score < v {
        CountRanked(z, i, v);
      }
    }
  }

  lemma {:induction false} InSomePart(parts: seq<seq<Hit>>, y: Hit) returns (n: nat)
    requires y in Concat(parts)
    ensures n < |parts| && y in parts[n]
  {
    n := |parts| - 1;
    if y !in parts[n] {
      n := InSomePart(parts[..n], y);
    }
  }

  lemma {:induction false} InConcat(parts: seq<seq<Hit>>, n: nat, y: Hit)
    requires n < |parts| && y in parts[n]
    ensures y in Concat(parts)
  {
    if n < |parts| - 1 {
      InConcat(parts[..|parts| - 1], n, y);
    }
  }

  lemma LeftOutByMerge(k: nat, all: seq<Hit>, y: Hit)
    requires y in all && y !in TopK(Better, k, all)
    ensures |TopK(Better, k, all)| == k && AllAtLeast(TopK(Better, k, all), y.score)
  {
    var result := TopK(Better, k, all);
    BetterTotal();
    LeftOut(Better, k, all, y);
    forall i | 0 <= i < |result| ensures result[i].score >= y.score {
      NotBetterScore(result[i], y);
    }
  }

  /** Across all shards, a live doc is left out of the answer only when k others fill it, and
      then none of those is outscored by it. */
  lemma OmittedIsMatched(k: nat, count: nat, lives: seq<seq<Hit>>, y: Hit)
    requires k <= count && y in Concat(lives)
    requires y !in TopK(Better, k, Concat(AllShardHits(k, count, lives)))
    ensures var result := TopK(Better, k, Concat(AllShardHits(k, count, lives)));
            |result| == k && AllAtLeast(result, y.score)
  {
    var sent := AllShardHits(k, count, lives);
    var n := InSomePart(lives, y);
    if y in sent[n] {
      InConcat(sent, n, y);
      LeftOutByMerge(k, Concat(sent), y);
    } else {
      LeftOutByShard(k, count, lives[n], y);
      hide TopK;
      CountAll(sent[n], y.score);
      CountPart(sent, n, y.score);
      BestAtLeast(k, Concat(sent), y.score);
    }
  }

  lemma {:induction false} SentAreLive(k: nat, count: nat, lives: seq<seq<Hit>>)
    requires k <= count
    ensures multiset(Concat(AllShardHits(k, count, lives))) <= multiset(Concat(lives))
    ensures |Concat(AllShardHits(k, count, lives))| <= |Concat(lives)|
    ensures |Concat(AllShardHits(k, count, lives))| >= (if |Concat(lives)| <= k then |Concat(lives)| else k)
  {
    if lives == [] {
    } else {
      var front, last := lives[..|lives| - 1], lives[|lives| - 1];
      SentAreLive(k, count, front);
      assert AllShardHits(k, count, lives)[..|front|] == AllShardHits(k, count, front);
      BetterTotal();
      BetterByIdTotal();
      hide TotalOrder, TopK, Better, BetterById;
      TopKIsBest(BetterById, count, last);
      TopKIsBest(Better, k, TopK(BetterById, count, last));
    }
  }

  /** What the merge returns are hits of live docs, no more of them than there are, best first, and
      as many as it was asked for if there are as many. */
  lemma MergedAreLive(k: nat, count: nat, lives: seq<seq<Hit>>)
    requires k <= count
    ensures var result := TopK(Better, k, Concat(AllShardHits(k, count, lives)));
            && Ranked(Better, result) && multiset(result) <= multiset(Concat(lives))
            && |result| == if |Concat(lives)| <= k then |Concat(lives)| else k
  {
    SentAreLive(k, count, lives);
    BetterTotal();
    hide TotalOrder, TopK, Better, Concat;
    TopKIsBest(Better, k, Concat(AllShardHits(k, count, lives)));
  }
}
