/** Reciprocal-rank fusion of the vector and the keyword candidates. */
module Fusion {
  import opened Ranking
  import opened Merge

  const RRF_K: real := 60.0

  /** Position of an id in a list, counted from 1, or `absent`. A repeated id counts where it
      occurs last. */
  function RankIn(list: seq<Hit>, id: nat, absent: nat): nat {
    if list == [] then absent
    else if list[|list| - 1].id == id then |list|
    else RankIn(list[..|list| - 1], id, absent)
  }

  function RrfScore(vectorRank: nat, keywordRank: nat): real {
    1.0 / (RRF_K + vectorRank as real) + 1.0 / (RRF_K + keywordRank as real)
  }

  // ----- the candidates of both lists -----

  function IndexOf(list: seq<Hit>, id: nat): (i: nat)
    ensures i <= |list| && (i < |list| ==> list[i].id == id)
    ensures forall j :: 0 <= j < i ==> list[j].id != id
  {
    if list == [] || list[0].id == id then 0 else 1 + IndexOf(list[1..], id)
  }

  /** A new id is appended; a keyword candidate known already only renews the key. */
  function Added(combined: seq<Hit>, c: Hit, isVector: bool): seq<Hit> {
    var i := IndexOf(combined, c.id);
    if i == |combined| then combined + [c]
    else if isVector then combined
    else combined[i := combined[i].(key := c.key)]
  }

  function AddedAll(combined: seq<Hit>, list: seq<Hit>, isVector: bool): seq<Hit> {
    if list == [] then combined
    else Added(AddedAll(combined, list[..|list| - 1], isVector), list[|list| - 1], isVector)
  }

  function Combined(vector: seq<Hit>, keyword: seq<Hit>): seq<Hit> {
    AddedAll(AddedAll([], vector, true), keyword, false)
  }

  ghost predicate DistinctIds(s: seq<Hit>) {
    forall i, j :: 0 <= i < j < |s| ==> s[i].id != s[j].id
  }

  ghost predicate HasId(s: seq<Hit>, id: nat) {
    exists i :: 0 <= i < |s| && s[i].id == id
  }

  lemma AddedIds(combined: seq<Hit>, c: Hit, isVector: bool)
    requires DistinctIds(combined)
    ensures DistinctIds(Added(combined, c, isVector))
    ensures forall id :: HasId(Added(combined, c, isVector), id) <==> HasId(combined, id) || id == c.id
  {
    var r := Added(combined, c, isVector);
    var i := IndexOf(combined, c.id);
    forall id ensures HasId(r, id) <==> HasId(combined, id) || id == c.id {
      if HasId(combined, id) {
        var j :| 0 <= j < |combined| && combined[j].id == id;
        assert r[j].id == id;
      }
      if id == c.id {
        assert r[i].id == id;
      }
    }
  }

  lemma {:induction false} AddedAllIds(combined: seq<Hit>, list: seq<Hit>, isVector: bool)
    requires DistinctIds(combined)
    ensures DistinctIds(AddedAll(combined, list, isVector))
    ensures forall id :: HasId(AddedAll(combined, list, isVector), id) <==> HasId(combined, id) || HasId(list, id)
  {
    if list != [] {
      var front, last := list[..|list| - 1], list[|list| - 1];
      AddedAllIds(combined, front, isVector);
      hide Added;
      AddedIds(AddedAll(combined, front, isVector), last, isVector);
      assert list == front + [last];
      forall id ensures HasId(list, id) <==> HasId(front, id) || id == last.id {
        if HasId(front, id) {
          var j :| 0 <= j < |front| && front[j].id == id;
          assert list[j].id == id;
        }
        assert list[|front|].id == last.id;
      }
    }
  }

  /** Every id of either list is combined exactly once. */
  lemma CombinedIds(vector: seq<Hit>, keyword: seq<Hit>)
    ensures DistinctIds(Combined(vector, keyword))
    ensures forall id :: HasId(Combined(vector, keyword), id) <==> HasId(vector, id) || HasId(keyword, id)
  {
    AddedAllIds([], vector, true);
    AddedAllIds(AddedAll([], vector, true), keyword, false);
  }

  // ----- the fused list -----

  function Absent(vector: seq<Hit>, keyword: seq<Hit>): nat {
    |Combined(vector, keyword)| + 1
  }

  function FusedScore(vector: seq<Hit>, keyword: seq<Hit>, id: nat): real {
    var absent := Absent(vector, keyword);
    RrfScore(RankIn(vector, id, absent), RankIn(keyword, id, absent))
  }

  function Rescored(vector: seq<Hit>, keyword: seq<Hit>, s: seq<Hit>): (r: seq<Hit>)
    ensures |r| == |s|
    ensures forall i :: 0 <= i < |s| ==> r[i] == s[i].(score := FusedScore(vector, keyword, s[i].id))
  {
    seq(|s|, i requires 0 <= i < |s| => s[i].(score := FusedScore(vector, keyword, s[i].id)))
  }

  /** All candidates in their final order. */
  function Fused(vector: seq<Hit>, keyword: seq<Hit>): seq<Hit> {
    Sort(Better, Rescored(vector, keyword, Combined(vector, keyword)))
  }

  method CombineList(combined: seq<Hit>, list: seq<Hit>, isVector: bool) returns (r: seq<Hit>)
    requires DistinctIds(combined)
    ensures r == AddedAll(combined, list, isVector)
  {
    r := combined;
    var idToIndex: map<nat, nat> := map[];
    for i := 0 to |r|
      invariant forall k :: 0 <= k < i ==> r[k].id in idToIndex && idToIndex[r[k].id] == k
      invariant forall id :: id in idToIndex ==> idToIndex[id] < i && r[idToIndex[id]].id == id
    {
      idToIndex := idToIndex[r[i].id := i];
    }
    for i := 0 to |list|
      invariant r == AddedAll(combined, list[..i], isVector)
      invariant forall k :: 0 <= k < |r| ==> r[k].id in idToIndex && idToIndex[r[k].id] == k
      invariant forall id :: id in idToIndex ==> idToIndex[id] < |r| && r[idToIndex[id]].id == id
    {
      assert list[..i + 1][..i] == list[..i];
      var c := list[i];
      ghost var at := IndexOf(r, c.id);
      if c.id !in idToIndex {
        assert at == |r|;
        idToIndex := idToIndex[c.id := |r|];
        r := r + [c];
      } else {
        assert at == idToIndex[c.id];
        if !isVector {
          var k := idToIndex[c.id];
          r := r[k := r[k].(key := c.key)];
        }
      }
    }
    assert list[..|list|] == list;
  }

  method Ranks(list: seq<Hit>) returns (ranks: map<nat, nat>)
    ensures forall id, absent :: (if id in ranks then ranks[id] else absent) == RankIn(list, id, absent)
  {
    ranks := map[];
    for i := 0 to |list|
      invariant forall id, absent :: (if id in ranks then ranks[id] else absent) == RankIn(list[..i], id, absent)
    {
      assert list[..i + 1][..i] == list[..i];
      ranks := ranks[list[i].id := i + 1];
    }
    assert list[..|list|] == list;
  }

  /** The fused answer: the first topk of the fused order. */
  method Fuse(vector: seq<Hit>, keyword: seq<Hit>, topk: nat) returns (results: seq<Hit>)
    requires topk > 0
    ensures results == Take(Fused(vector, keyword), topk)
    ensures IsFusion(vector, keyword, topk, results)
  {
    FusedIsFusion(vector, keyword, topk);
    results := FuseLists(vector, keyword, topk);
  }

  method FuseLists(vector: seq<Hit>, keyword: seq<Hit>, topk: nat) returns (results: seq<Hit>)
    requires topk > 0
    ensures results == Take(Fused(vector, keyword), topk)
  {
    AddedAllIds([], vector, true);
    var combined := CombineList([], vector, true);
    combined := CombineList(combined, keyword, false);
    var vectorRank := Ranks(vector);
    var keywordRank := Ranks(keyword);
    hide AddedAll, Better, RankIn, RrfScore;
    var scored: seq<Hit> := [];
    var absent := |combined| + 1;
    for i := 0 to |combined|
      invariant |scored| == i
      invariant forall k :: 0 <= k < i ==>
                  scored[k] == combined[k].(score := FusedScore(vector, keyword, combined[k].id))
    {
      var id := combined[i].id;
      var vr := if id in vectorRank then vectorRank[id] else absent;
      var kr := if id in keywordRank then keywordRank[id] else absent;
      assert vr == RankIn(vector, id, absent) && kr == RankIn(keyword, id, absent);
      scored := scored + [combined[i].(score := RrfScore(vr, kr))];
    }
    assert scored == Rescored(vector, keyword, combined);
    scored := Sort(Better, scored);
    results := [];
    for i := 0 to |scored|
      invariant results == scored[..i] && (i < |scored| ==> |results| < topk)
      invariant i <= topk
    {
      results := results + [scored[i]];
      if |results| >= topk {
        assert results == scored[..topk];
        return;
      }
    }
  }

  // ----- the fused answer, said without the code's helpers -----

  /** The ids of a list. */
  function Ids(list: seq<Hit>): set<nat> {
    set h | h in list :: h.id
  }

  /** Place r, counted from 1, is the last one at which the list names this id; r is `absent` if none does. */
  ghost predicate RankedAt(list: seq<Hit>, id: nat, absent: nat, r: nat) {
    if id in Ids(list) then
      1 <= r <= |list| && list[r - 1].id == id && forall j :: r <= j < |list| ==> list[j].id != id
    else r == absent
  }

  /** The score 1/(60 + rank) + 1/(60 + rank); an id missing from a list ranks there after all ids there are. */
  ghost predicate ScoreIs(vector: seq<Hit>, keyword: seq<Hit>, id: nat, score: real) {
    var absent := |Ids(vector) + Ids(keyword)| + 1;
    exists v, k :: RankedAt(vector, id, absent, v) && RankedAt(keyword, id, absent, k)
                && score == 1.0 / (60.0 + v as real) + 1.0 / (60.0 + k as real)
  }

  ghost predicate LastKey(list: seq<Hit>, id: nat, key: string, i: nat) {
    i < |list| && list[i].id == id && list[i].key == key && forall j :: i < j < |list| ==> list[j].id != id
  }

  ghost predicate FirstKey(list: seq<Hit>, id: nat, key: string, i: nat) {
    i < |list| && list[i].id == id && list[i].key == key && forall j :: 0 <= j < i ==> list[j].id != id
  }

  /** The key is the last one the keyword list has for the id, else the first one the vector list has. */
  ghost predicate KeyIs(vector: seq<Hit>, keyword: seq<Hit>, id: nat, key: string) {
    if id in Ids(keyword) then exists i :: LastKey(keyword, id, key, i) else exists i :: FirstKey(vector, id, key, i)
  }

  /** Ids of either list, each once, with their scores, best first; and one is missing only when the
      answer is full and nothing in it scores less. */
  ghost predicate IsFusion(vector: seq<Hit>, keyword: seq<Hit>, topk: nat, results: seq<Hit>) {
    && |results| <= topk && DistinctIds(results) && Ranked(Better, results)
    && (forall i, j :: 0 <= i < j < |results| ==> results[i].score >= results[j].score)
    && (forall x :: x in results ==>
          && x.id in Ids(vector) + Ids(keyword) && ScoreIs(vector, keyword, x.id, x.score)
          && KeyIs(vector, keyword, x.id, x.key))
    && (forall id, score :: id in Ids(vector) + Ids(keyword) && ScoreIs(vector, keyword, id, score) ==>
          id in Ids(results) || (|results| == topk && forall x :: x in results ==> x.score >= score))
  }

  lemma HasIdIff(list: seq<Hit>, id: nat)
    ensures HasId(list, id) <==> id in Ids(list)
  {
    if HasId(list, id) {
      var i :| 0 <= i < |list| && list[i].id == id;
      assert list[i] in list;
    }
  }

  lemma {:induction false} IdsCount(list: seq<Hit>)
    requires DistinctIds(list)
    ensures |Ids(list)| == |list|
  {
    if list == [] {
    } else {
      var front, last := list[..|list| - 1], list[|list| - 1];
      IdsCount(front);
      assert list == front + [last];
      assert Ids(list) == Ids(front) + {last.id};
    }
  }

  /** The rank of an absent id is one more than the number of ids there are. */
  lemma AbsentIs(vector: seq<Hit>, keyword: seq<Hit>)
    ensures Absent(vector, keyword) == |Ids(vector) + Ids(keyword)| + 1
  {
    var combined := Combined(vector, keyword);
    CombinedIds(vector, keyword);
    IdsCount(combined);
    hide Combined, HasId;
    forall id ensures id in Ids(combined) <==> id in Ids(vector) + Ids(keyword) {
      HasIdIff(combined, id);
      HasIdIff(vector, id);
      HasIdIff(keyword, id);
    }
    assert Ids(combined) == Ids(vector) + Ids(keyword);
  }

  lemma {:induction false} RankInIs(list: seq<Hit>, id: nat, absent: nat, r: nat)
    ensures RankedAt(list, id, absent, r) <==> r == RankIn(list, id, absent)
  {
    if list != [] && list[|list| - 1].id != id {
      var front := list[..|list| - 1];
      RankInIs(front, id, absent, r);
      assert id in Ids(list) <==> id in Ids(front);
    } else if list != [] {
      assert list[|list| - 1] in list;
    }
  }

  lemma ScoreIsFused(vector: seq<Hit>, keyword: seq<Hit>, id: nat, score: real)
    ensures ScoreIs(vector, keyword, id, score) <==> score == FusedScore(vector, keyword, id)
  {
    var absent := |Ids(vector) + Ids(keyword)| + 1;
    AbsentIs(vector, keyword);
    hide RankedAt, RankIn, Absent, Ids;
    var v, k := RankIn(vector, id, absent), RankIn(keyword, id, absent);
    RankInIs(vector, id, absent, v);
    RankInIs(keyword, id, absent, k);
    if ScoreIs(vector, keyword, id, score) {
      var a, b :| RankedAt(vector, id, absent, a) && RankedAt(keyword, id, absent, b)
                  && score == 1.0 / (60.0 + a as real) + 1.0 / (60.0 + b as real);
      RankInIs(vector, id, absent, a);
      RankInIs(keyword, id, absent, b);
    }
  }

  lemma FusedIds(vector: seq<Hit>, keyword: seq<Hit>)
    ensures DistinctIds(Fused(vector, keyword)) && Ids(Fused(vector, keyword)) == Ids(vector) + Ids(keyword)
  {
    var combined := Combined(vector, keyword);
    var s := Rescored(vector, keyword, combined);
    var z := Fused(vector, keyword);
    BetterTotal();
    SortRanks(Better, s);
    CombinedIds(vector, keyword);
    hide Better, TotalOrder, FusedScore, Combined, Sort;
    SamePlaces(s, z);
    forall id ensures id in Ids(z) <==> id in Ids(vector) + Ids(keyword) {
      HasIdIff(combined, id);
      HasIdIff(vector, id);
      HasIdIff(keyword, id);
      assert HasId(s, id) <==> HasId(combined, id);
      HasIdIff(s, id);
    }
  }

  lemma SamePlaces(s: seq<Hit>, z: seq<Hit>)
    requires multiset(s) == multiset(z) && DistinctIds(s)
    ensures DistinctIds(z) && Ids(z) == Ids(s)
  {
    assert forall x :: x in s <==> x in multiset(s);
    assert forall x :: x in z <==> x in multiset(z);
    assert Ids(z) == Ids(s);
    IdsCount(s);
    assert |z| == |multiset(z)| == |multiset(s)| == |s|;
    AllOnce(z);
  }

  lemma {:induction false} AllOnce(z: seq<Hit>)
    requires |Ids(z)| >= |z|
    ensures DistinctIds(z) && |Ids(z)| == |z|
  {
    if z == [] {
    } else {
      var front, last := z[..|z| - 1], z[|z| - 1];
      assert z == front + [last];
      assert Ids(z) == Ids(front) + {last.id};
      IdsFew(front);
      assert last.id in Ids(front) ==> Ids(z) == Ids(front);
      AllOnce(front);
      assert forall i :: 0 <= i < |front| ==> front[i] in front;
    }
  }

  lemma {:induction false} IdsFew(z: seq<Hit>)
    ensures |Ids(z)| <= |z|
  {
    if z != [] {
      var front, last := z[..|z| - 1], z[|z| - 1];
      assert z == front + [last];
      assert Ids(z) == Ids(front) + {last.id};
      IdsFew(front);
    }
  }

  lemma {:induction false} VectorKeys(list: seq<Hit>)
    ensures forall x :: x in AddedAll([], list, true) ==> exists i :: FirstKey(list, x.id, x.key, i)
  {
    if list != [] {
      var front, c := list[..|list| - 1], list[|list| - 1];
      var combined := AddedAll([], front, true);
      VectorKeys(front);
      AddedAllIds([], front, true);
      forall x | x in Added(combined, c, true) ensures exists i :: FirstKey(list, x.id, x.key, i) {
        if x in combined {
          var i :| FirstKey(front, x.id, x.key, i);
          assert FirstKey(list, x.id, x.key, i);
        } else {
          assert x == c && IndexOf(combined, c.id) == |combined| && !HasId(combined, c.id);
          assert !HasId(front, c.id);
          assert FirstKey(list, x.id, x.key, |front|);
        }
      }
    }
  }

  lemma {:induction false} KeywordKeys(combined: seq<Hit>, list: seq<Hit>)
    requires DistinctIds(combined)
    ensures forall x :: x in AddedAll(combined, list, false) ==>
              if x.id in Ids(list) then exists i :: LastKey(list, x.id, x.key, i) else x in combined
  {
    if list != [] {
      var front, c := list[..|list| - 1], list[|list| - 1];
      var before := AddedAll(combined, front, false);
      KeywordKeys(combined, front);
      AddedAllIds(combined, front, false);
      assert list == front + [c];
      assert Ids(list) == Ids(front) + {c.id};
      hide AddedAll, Ids;
      forall x | x in Added(before, c, false)
        ensures if x.id in Ids(list) then exists i :: LastKey(list, x.id, x.key, i) else x in combined
      {
        AddedKey(before, c, x);
        if x.id == c.id {
          assert LastKey(list, x.id, x.key, |front|);
        } else if x.id in Ids(front) {
          var i :| LastKey(front, x.id, x.key, i);
          assert LastKey(list, x.id, x.key, i);
        }
      }
    }
  }

  lemma AddedKey(before: seq<Hit>, c: Hit, x: Hit)
    requires DistinctIds(before) && x in Added(before, c, false)
    ensures if x.id == c.id then x.key == c.key else x in before
  {
  }

  lemma FusedKeys(vector: seq<Hit>, keyword: seq<Hit>)
    ensures forall x :: x in Fused(vector, keyword) ==> KeyIs(vector, keyword, x.id, x.key)
  {
    var first, combined := AddedAll([], vector, true), Combined(vector, keyword);
    VectorKeys(vector);
    AddedAllIds([], vector, true);
    KeywordKeys(first, keyword);
    var s := Rescored(vector, keyword, combined);
    BetterTotal();
    SortRanks(Better, s);
    hide Better, TotalOrder, FusedScore, AddedAll, Sort, Ids, FirstKey, LastKey;
    forall x | x in Fused(vector, keyword) ensures KeyIs(vector, keyword, x.id, x.key) {
      assert x in multiset(s);
      var i :| 0 <= i < |s| && s[i] == x;
      assert combined[i] in combined;
    }
  }

  lemma FusedIsFusion(vector: seq<Hit>, keyword: seq<Hit>, topk: nat)
    ensures IsFusion(vector, keyword, topk, Take(Fused(vector, keyword), topk))
  {
    var z, results := Fused(vector, keyword), Take(Fused(vector, keyword), topk);
    FusedHolds(vector, keyword);
    FusedIds(vector, keyword);
    hide Fused, FusedScore, ScoreIs;
    forall i, j | 0 <= i < j < |z| ensures z[i].score >= z[j].score {
      assert !Better(z[j], z[i]);
    }
    FusedKeys(vector, keyword);
    hide KeyIs;
    forall x | x in results ensures x in z && x.id in Ids(z) && ScoreIs(vector, keyword, x.id, x.score) {
      ScoreIsFused(vector, keyword, x.id, x.score);
    }
    forall id, score | id in Ids(z) && ScoreIs(vector, keyword, id, score)
      ensures id in Ids(results) || (|results| == topk && forall x :: x in results ==> x.score >= score)
    {
      ScoreIsFused(vector, keyword, id, score);
      var x :| x in z && x.id == id;
      var i :| 0 <= i < |z| && z[i] == x;
      if i < |results| {
        assert results[i] in results;
      }
    }
  }

  // ----- what the order means -----

  lemma ReciprocalFalls(x: nat, y: nat)
    requires x < y
    ensures 1.0 / (RRF_K + x as real) > 1.0 / (RRF_K + y as real)
  {
    var a, b := RRF_K + x as real, RRF_K + y as real;
    assert 0.0 < a < b;
    assert (1.0 / a) * (a * b) == b && (1.0 / b) * (a * b) == a;
    if 1.0 / a <= 1.0 / b {
      Scale(1.0 / a, 1.0 / b, a * b);
    }
  }

  lemma Scale(p: real, q: real, k: real)
    requires p <= q && k > 0.0
    ensures p * k <= q * k
  {
  }

  /** Ranked no worse in both lists and better in one is a higher fused score. */
  lemma DominanceRaises(v1: nat, k1: nat, v2: nat, k2: nat)
    requires v1 <= v2 && k1 <= k2 && (v1 < v2 || k1 < k2)
    ensures RrfScore(v1, k1) > RrfScore(v2, k2)
  {
    if v1 < v2 { ReciprocalFalls(v1, v2); }
    if k1 < k2 { ReciprocalFalls(k1, k2); }
  }

  /** A doc in a list ranks above every doc that is not in it. */
  lemma PresentBeatsAbsent(list: seq<Hit>, id: nat, absent: nat)
    requires HasId(list, id) && absent > |list|
    ensures 1 <= RankIn(list, id, absent) <= |list| < absent
  {
    RankBounds(list, id, absent);
  }

  lemma {:induction false} RankBounds(list: seq<Hit>, id: nat, absent: nat)
    ensures if HasId(list, id) then 1 <= RankIn(list, id, absent) <= |list| else RankIn(list, id, absent) == absent
  {
    if list != [] {
      RankBounds(list[..|list| - 1], id, absent);
      if HasId(list, id) && list[|list| - 1].id != id {
        var j :| 0 <= j < |list| && list[j].id == id;
        assert list[..|list| - 1][j].id == id;
      }
    }
  }

  ghost predicate Dominates(vector: seq<Hit>, keyword: seq<Hit>, a: nat, b: nat) {
    var absent := Absent(vector, keyword);
    var va, vb := RankIn(vector, a, absent), RankIn(vector, b, absent);
    var ka, kb := RankIn(keyword, a, absent), RankIn(keyword, b, absent);
    va <= vb && ka <= kb && (va < vb || ka < kb)
  }

  lemma FusedHolds(vector: seq<Hit>, keyword: seq<Hit>)
    ensures Ranked(Better, Fused(vector, keyword))
    ensures forall x :: x in Fused(vector, keyword) ==> x.score == FusedScore(vector, keyword, x.id)
    ensures forall id :: HasId(vector, id) || HasId(keyword, id) ==> HasId(Fused(vector, keyword), id)
  {
    var combined := Combined(vector, keyword);
    var s := Rescored(vector, keyword, combined);
    var z := Fused(vector, keyword);
    BetterTotal();
    SortRanks(Better, s);
    CombinedIds(vector, keyword);
    hide Better, TotalOrder, FusedScore, Combined, Sort;
    forall x | x in z ensures x.score == FusedScore(vector, keyword, x.id) {
      assert x in multiset(s);
    }
    forall id | HasId(combined, id) ensures HasId(z, id) {
      var i :| 0 <= i < |combined| && combined[i].id == id;
      assert s[i] in multiset(z);
      var j :| 0 <= j < |z| && z[j] == s[i];
      assert z[j].id == id;
    }
  }

  /** A doc ranked no worse in both lists and better in one comes first. */
  lemma DominatorFirst(vector: seq<Hit>, keyword: seq<Hit>, i: nat, j: nat)
    requires i < |Fused(vector, keyword)| && j < |Fused(vector, keyword)|
    requires Dominates(vector, keyword, Fused(vector, keyword)[i].id, Fused(vector, keyword)[j].id)
    ensures i < j
  {
    var z, absent := Fused(vector, keyword), Absent(vector, keyword);
    FusedHolds(vector, keyword);
    var a, b := z[i].id, z[j].id;
    DominanceRaises(RankIn(vector, a, absent), RankIn(keyword, a, absent), RankIn(vector, b, absent),
                    RankIn(keyword, b, absent));
    assert z[i] in z && z[j] in z;
    assert z[i].score > z[j].score;
    hide Fused, RrfScore;
  }

  /** And it is in the answer whenever the other one is. */
  lemma DominatorReturned(vector: seq<Hit>, keyword: seq<Hit>, topk: nat, a: nat, b: nat)
    requires HasId(vector, a) || HasId(keyword, a)
    requires Dominates(vector, keyword, a, b)
    requires HasId(Take(Fused(vector, keyword), topk), b)
    ensures HasId(Take(Fused(vector, keyword), topk), a)
  {
    var z := Fused(vector, keyword);
    FusedHolds(vector, keyword);
    hide Fused, Dominates;
    var i :| 0 <= i < |z| && z[i].id == a;
    var j :| 0 <= j < |Take(z, topk)| && Take(z, topk)[j].id == b;
    DominatorFirst(vector, keyword, i, j);
    assert Take(z, topk)[i].id == a;
  }
}
