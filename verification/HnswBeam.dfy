/** The loops of the beam search and of diversity pruning, over the visited tags and the two queues. */
module HnswBeam {
  import opened Graph
  import opened Sequences
  import opened Ranking
  import opened Visited

  /** A beam of width zero still keeps one node. */
  function Width(ef: nat): nat { if ef == 0 then 1 else ef }

  /** What the search loop knows about the nodes it has seen. */
  ghost predicate BeamState(reach: set<nat>, score: Scores, entry: nat, width: nat,
                            seen: set<nat>, candidates: set<nat>, results: set<nat>)
  {
    && width >= 1 && entry in seen
    && results != {} && |results| <= width
    && results <= seen <= reach && candidates <= seen
    && (forall v :: v in seen && v !in results ==> |results| == width && NoneUnder(score, results, v))
  }

  /** The loop over the links of one popped node. */
  method VisitNeighbors(visited: VisitedList, ghost reach: set<nat>, ghost entry: nat, score: Scores, ef: nat,
                        neighbors: seq<nat>, candidates0: set<nat>, results0: set<nat>)
    returns (candidates: set<nat>, results: set<nat>)
    requires visited.Valid() && BeamState(reach, score, entry, Width(ef), visited.marked, candidates0, results0)
    requires forall j :: 0 <= j < |neighbors| ==> neighbors[j] in reach && neighbors[j] < |visited.tags|
    modifies visited
    ensures visited.Valid() && |visited.tags| == old(|visited.tags|) && old(visited.marked) <= visited.marked
    ensures BeamState(reach, score, entry, Width(ef), visited.marked, candidates, results)
    ensures forall j :: 0 <= j < |neighbors| ==> neighbors[j] in visited.marked
    ensures results - candidates <= results0 - candidates0
    ensures candidates <= candidates0 + (visited.marked - old(visited.marked))
  {
    candidates, results := candidates0, results0;
    for i := 0 to |neighbors|
      invariant visited.Valid() && |visited.tags| == old(|visited.tags|) && old(visited.marked) <= visited.marked
      invariant BeamState(reach, score, entry, Width(ef), visited.marked, candidates, results)
      invariant forall j :: 0 <= j < i ==> neighbors[j] in visited.marked
      invariant results - candidates <= results0 - candidates0
      invariant candidates <= candidates0 + (visited.marked - old(visited.marked))
    {
      var neighbor := neighbors[i];
      var known := visited.IsVisited(neighbor);
      if !known {
        ghost var seen := visited.marked;
        visited.Mark(neighbor);
        var c, r := Offer(score, ef, neighbor, candidates, results);
        BeamOffer(reach, score, entry, Width(ef), seen, candidates, results, neighbor, c, r);
        candidates, results := c, r;
      }
    }
  }

  ghost predicate BeamLoop(visited: VisitedList, rows: seq<seq<nat>>, reach: set<nat>, score: Scores, entry: nat,
                           width: nat, done: set<nat>, candidates: set<nat>, results: set<nat>)
    reads visited
  {
    && visited.Valid() && |rows| <= |visited.tags|
    && reach <= Below(|rows|) && Expanded(rows, reach, reach)
    && BeamState(reach, score, entry, width, visited.marked, candidates, results)
    && Expanded(rows, visited.marked, results - candidates)
    && done <= visited.marked && candidates !! done
  }

  method ExpandNode(visited: VisitedList, ghost rows: seq<seq<nat>>, ghost reach: set<nat>, score: Scores,
                    ghost entry: nat,
                    ef: nat, ghost done: set<nat>, current: nat, neighbors: seq<nat>, candidates: set<nat>,
                    results: set<nat>)
    returns (candidates': set<nat>, results': set<nat>)
    requires BeamLoop(visited, rows, reach, score, entry, Width(ef), done, candidates, results)
    requires current in candidates && neighbors == rows[current]
    modifies visited
    ensures BeamLoop(visited, rows, reach, score, entry, Width(ef), done + {current}, candidates', results')
  {
    ghost var before := visited.marked;
    candidates', results' := VisitNeighbors(visited, reach, entry, score, ef, neighbors, candidates - {current},
                                            results);
    LinksSeen(rows, before, visited.marked, current, candidates, results, candidates', results');
    QueueStaysNew(before, visited.marked, done + {current}, current, candidates, candidates');
  }

  /** After the loop over a node's links, the kept nodes no longer queued have all their links seen. */
  lemma LinksSeen(rows: seq<seq<nat>>, seen: set<nat>, seen': set<nat>, current: nat,
                  candidates: set<nat>, results: set<nat>, candidates': set<nat>, results': set<nat>)
    requires Expanded(rows, seen, results - candidates) && seen <= seen' && current < |rows|
    requires forall j :: 0 <= j < |rows[current]| ==> rows[current][j] in seen'
    requires results' - candidates' <= results - (candidates - {current})
    ensures Expanded(rows, seen', results' - candidates')
  {
    forall v, j | v in results' - candidates' && v < |rows| && 0 <= j < |rows[v]| ensures rows[v][j] in seen' {
      assert v == current || v in results - candidates;
    }
  }

  lemma QueueStaysNew(seen: set<nat>, seen': set<nat>, done: set<nat>, current: nat,
                      candidates: set<nat>, candidates': set<nat>)
    requires current in done && done <= seen && candidates !! done - {current}
    requires candidates' <= candidates - {current} + (seen' - seen)
    ensures candidates' !! done
  {
  }

  /** One newly seen neighbour is refused, or queued and kept, pushing out a worst kept one. */
  ghost predicate Offered(score: Scores, width: nat, v: nat, candidates: set<nat>, results: set<nat>,
                          candidates': set<nat>, results': set<nat>)
  {
    || (&& candidates' == candidates && results' == results
        && |results| == width && NoneUnder(score, results, v))
    || (candidates' == candidates + {v} && |results| < width && results' == results + {v})
    || (&& candidates' == candidates + {v} && |results| == width && |results'| == width
        && exists out :: out in results + {v} && results' == results + {v} - {out} && NoneUnder(score, results', out))
  }

  method Top(score: Scores, s: set<nat>) returns (a: nat)
    requires s != {}
    ensures a in s && NoneAbove(score, s, a)
  {
    HasTop(score, s);
    a :| a in s && forall b :: b in s && b != a ==> Above(score, a, b);
  }

  method Bottom(score: Scores, s: set<nat>) returns (a: nat)
    requires s != {}
    ensures a in s && NoneUnder(score, s, a)
  {
    HasBottom(score, s);
    a :| a in s && forall b :: b in s && b != a ==> Above(score, b, a);
  }

  method Offer(score: Scores, ef: nat, v: nat, candidates: set<nat>, results: set<nat>)
    returns (candidates': set<nat>, results': set<nat>)
    requires results != {} && v !in results && |results| <= Width(ef)
    ensures Offered(score, Width(ef), v, candidates, results, candidates', results')
  {
    candidates', results' := candidates, results;
    var worst := Bottom(score, results);
    if |results| < ef || At(score, v) > At(score, worst) {
      candidates' := candidates + {v};
      results' := results + {v};
      if |results'| > ef {
        var out := Bottom(score, results');
        results' := results' - {out};
      }
    }
  }

  lemma BeamOffer(reach: set<nat>, score: Scores, entry: nat, width: nat, seen: set<nat>,
                  candidates: set<nat>, results: set<nat>, v: nat, candidates': set<nat>, results': set<nat>)
    requires BeamState(reach, score, entry, width, seen, candidates, results)
    requires v !in seen && v in reach
    requires Offered(score, width, v, candidates, results, candidates', results')
    ensures BeamState(reach, score, entry, width, seen + {v}, candidates', results')
    ensures results' - candidates' <= results - candidates
    ensures candidates <= candidates' <= candidates + {v}
  {
    if results' == results + {v} && |results| < width {
      assert forall u :: u in seen ==> u in results;
    } else if candidates' == candidates + {v} {
      var out :| out in results + {v} && results' == results + {v} - {out} && NoneUnder(score, results', out);
      forall u | u in seen + {v} && u !in results' ensures |results'| == width && NoneUnder(score, results', u) {
        if u != out {
          assert u in seen && u !in results && NoneUnder(score, results, u);
          if out != v {
            assert v in results' && out in results;
            assert At(score, u) <= At(score, out);
          }
        }
      }
    }
  }

  /** When the queue is exhausted or cannot improve the kept nodes, their links are all seen. */
  lemma BeamDone(rows: seq<seq<nat>>, reach: set<nat>, score: Scores, entry: nat, width: nat, seen: set<nat>,
                 candidates: set<nat>, results: set<nat>)
    requires BeamState(reach, score, entry, width, seen, candidates, results)
    requires Expanded(rows, seen, results - candidates)
    requires candidates !! results && reach == ReachableFrom(rows, entry)
    ensures Expanded(rows, seen, results)
    ensures |results| < width ==> results == reach
  {
    assert results - candidates == results;
    if |results| < width {
      assert forall v :: v in seen ==> v in results;
      assert seen == results;
      ReachStays(rows, entry, seen);
    }
  }

  lemma BeamSorted(rows: seq<seq<nat>>, reach: set<nat>, score: Scores, entry: nat, width: nat, seen: set<nat>,
                   results: set<nat>, res: seq<nat>)
    requires BeamState(reach, score, entry, width, seen, {}, results)
    requires Expanded(rows, seen, results)
    requires |results| < width ==> results == reach
    requires reach == ReachableFrom(rows, entry)
    requires Distinct(res) && |res| == |results| && forall v :: v in res <==> v in results
    requires forall i, j :: 0 <= i < j < |res| ==> At(score, res[i]) >= At(score, res[j])
    requires Closed(rows)
    ensures Beam(rows, score, entry, width, res)
  {
    assert |res| >= 1 by {
      var k :| k in results;
      assert k in res;
    }
    assert res[0] in results && res[|res| - 1] in results;
    assert At(score, res[0]) >= At(score, entry) by {
      if entry in results {
        assert entry in res;
      }
    }
  }

  lemma NoneYet<T>()
    ensures Distinct<T>([])
  {
  }

  lemma BestNext(score: Scores, res: seq<nat>, taken: set<nat>, left: set<nat>, best: nat)
    requires Distinct(res) && best in left && left !! taken && NoneAbove(score, left, best)
    requires forall v :: v in res <==> v in taken
    requires forall i, j :: 0 <= i < j < |res| ==> At(score, res[i]) >= At(score, res[j])
    requires forall v :: v in taken ==> NoneAbove(score, left, v)
    ensures Distinct(res + [best])
    ensures forall i, j :: 0 <= i < j < |res + [best]| ==> At(score, (res + [best])[i]) >= At(score, (res + [best])[j])
    ensures forall v :: v in taken + {best} ==> NoneAbove(score, left - {best}, v)
  {
    forall i | 0 <= i < |res| ensures At(score, res[i]) >= At(score, best) && res[i] != best {
      assert res[i] in res;
      assert NoneAbove(score, left, res[i]);
    }
  }

  /** Best score first; equal scores in any order. */
  method SortByScore(score: Scores, s: set<nat>) returns (res: seq<nat>)
    ensures Distinct(res) && |res| == |s|
    ensures forall v :: v in res <==> v in s
    ensures forall i, j :: 0 <= i < j < |res| ==> At(score, res[i]) >= At(score, res[j])
  {
    hide Distinct, NoneAbove;
    res := [];
    var left := s;
    ghost var taken: set<nat> := {};
    NoneYet<nat>();
    while left != {}
      invariant Distinct(res) && |res| == |taken| && left + taken == s && left !! taken
      invariant forall v :: v in res <==> v in taken
      invariant forall i, j :: 0 <= i < j < |res| ==> At(score, res[i]) >= At(score, res[j])
      invariant forall v :: v in taken ==> NoneAbove(score, left, v)
    {
      var best := Top(score, left);
      BestNext(score, res, taken, left, best);
      res := res + [best];
      left := left - {best};
      taken := taken + {best};
    }
  }

  ghost predicate PoolLoop(visited: VisitedList, rows: seq<seq<nat>>, done: seq<nat>, pool: seq<nat>)
    reads visited
  {
    && visited.Valid() && |rows| <= |visited.tags|
    && Distinct(pool) && SetOf(pool) == visited.marked == PoolOf(rows, done)
  }

  method ExtendByOne(visited: VisitedList, ghost rows: seq<seq<nat>>, ghost done: seq<nat>, c: nat,
                     neighbors: seq<nat>, pool0: seq<nat>) returns (pool: seq<nat>)
    requires PoolLoop(visited, rows, done, pool0) && Closed(rows) && c < |rows| && neighbors == rows[c]
    modifies visited
    ensures PoolLoop(visited, rows, done + [c], pool)
  {
    assert (done + [c])[..|done|] == done;
    assert forall j :: 0 <= j < |neighbors| ==> neighbors[j] in rows[c];
    pool := MarkNew(visited, [c], pool0);
    pool := MarkNew(visited, neighbors, pool);
  }

  /** Appends the ids that are not marked yet and marks them. */
  method MarkNew(visited: VisitedList, ids: seq<nat>, pool0: seq<nat>) returns (pool: seq<nat>)
    requires visited.Valid() && Distinct(pool0) && SetOf(pool0) == visited.marked
    requires forall j :: 0 <= j < |ids| ==> ids[j] < |visited.tags|
    modifies visited
    ensures visited.Valid() && |visited.tags| == old(|visited.tags|)
    ensures Distinct(pool) && SetOf(pool) == visited.marked == old(visited.marked) + SetOf(ids)
  {
    pool := pool0;
    for i := 0 to |ids|
      invariant visited.Valid() && |visited.tags| == old(|visited.tags|)
      invariant Distinct(pool) && SetOf(pool) == visited.marked == old(visited.marked) + SetOf(ids[..i])
    {
      var known := visited.IsVisited(ids[i]);
      assert SetOf(ids[..i + 1]) == SetOf(ids[..i]) + {ids[i]};
      if !known {
        visited.Mark(ids[i]);
        assert ids[i] !in SetOf(pool);
        assert SetOf(pool + [ids[i]]) == SetOf(pool) + {ids[i]};
        pool := pool + [ids[i]];
      }
    }
    assert ids[..|ids|] == ids;
  }

  /** The pool without the node itself, best score first and higher id first among equals. */
  method SortAbove(score: Scores, pool: seq<nat>, node: nat) returns (sorted: seq<nat>)
    requires Distinct(pool)
    ensures forall i, j :: 0 <= i < j < |sorted| ==> Above(score, sorted[i], sorted[j])
    ensures SetOf(sorted) == SetOf(pool) - {node}
  {
    var others := [];
    for i := 0 to |pool|
      invariant SetOf(others) == SetOf(pool[..i]) - {node} && Distinct(others)
    {
      assert SetOf(pool[..i + 1]) == SetOf(pool[..i]) + {pool[i]};
      if pool[i] != node {
        assert pool[i] !in SetOf(pool[..i]);
        assert SetOf(others + [pool[i]]) == SetOf(others) + {pool[i]};
        others := others + [pool[i]];
      }
    }
    assert pool[..|pool|] == pool;
    var better := (a: nat, b: nat) => Above(score, a, b);
    SortRanks(better, others);
    sorted := Sort(better, others);
    SameElements(sorted, others);
    forall i, j | 0 <= i < j < |sorted| ensures Above(score, sorted[i], sorted[j]) {
      assert !better(sorted[j], sorted[i]);
    }
  }

  lemma SameElements(a: seq<nat>, b: seq<nat>)
    requires multiset(a) == multiset(b) && Distinct(b)
    ensures SetOf(a) == SetOf(b) && Distinct(a)
  {
    forall x ensures x in a <==> x in b {
      assert x in a <==> x in multiset(a);
      assert x in b <==> x in multiset(b);
    }
    forall i, j | 0 <= i < j < |a| ensures a[i] != a[j] {
      if a[i] == a[j] {
        TwiceIn(a, i, j);
        AtMostOnceIn(b, a[i]);
      }
    }
  }

  /** The greedy loop: a candidate stays unless it is closer to one already kept. */
  method SelectDiverse(score: Scores, closer: (nat, nat) -> bool, sorted: seq<nat>, maxLinks: nat)
    returns (result: seq<nat>)
    requires forall i, j :: 0 <= i < j < |sorted| ==> Above(score, sorted[i], sorted[j])
    ensures Diverse(score, closer, SetOf(sorted), maxLinks, result)
  {
    result := [];
    for i := 0 to |sorted|
      invariant Diverse(score, closer, SetOf(sorted[..i]), maxLinks, result)
    {
      var cand := sorted[i];
      assert SetOf(sorted[..i + 1]) == SetOf(sorted[..i]) + {cand};
      assert forall v :: v in SetOf(sorted[..i]) ==> Above(score, v, cand);
      if |result| >= maxLinks {
        FullSelection(score, closer, sorted, i, maxLinks, result);
        return;
      }
      var good := true;
      for j := 0 to |result|
        invariant good <==> forall h :: 0 <= h < j ==> !closer(cand, result[h])
      {
        if closer(cand, result[j]) {
          good := false;
          break;
        }
      }
      if good {
        KeepOne(score, closer, SetOf(sorted[..i]), maxLinks, result, cand);
        result := result + [cand];
      } else {
        assert Skipped(score, closer, maxLinks, result, cand);
      }
    }
    assert sorted[..|sorted|] == sorted;
  }

  lemma KeepOne(score: Scores, closer: (nat, nat) -> bool, pool: set<nat>, k: nat, res: seq<nat>, c: nat)
    requires Diverse(score, closer, pool, k, res) && |res| < k && c !in pool
    requires forall v :: v in pool ==> Above(score, v, c)
    requires forall h :: 0 <= h < |res| ==> !closer(c, res[h])
    ensures Diverse(score, closer, pool + {c}, k, res + [c])
  {
    forall d | d in pool + {c} && d !in res + [c] ensures Skipped(score, closer, k, res + [c], d) {
      assert Skipped(score, closer, k, res, d);
      var i :| 0 <= i < |res| && Above(score, res[i], d) && closer(d, res[i]);
      assert (res + [c])[i] == res[i];
    }
  }

  lemma FullSelection(score: Scores, closer: (nat, nat) -> bool, sorted: seq<nat>, i: nat, k: nat, res: seq<nat>)
    requires forall i, j :: 0 <= i < j < |sorted| ==> Above(score, sorted[i], sorted[j])
    requires i <= |sorted| && Diverse(score, closer, SetOf(sorted[..i]), k, res) && |res| == k
    ensures Diverse(score, closer, SetOf(sorted), k, res)
  {
    forall c | c in SetOf(sorted) && c !in res ensures Skipped(score, closer, k, res, c) {
      if c !in SetOf(sorted[..i]) {
        var h :| 0 <= h < |sorted| && sorted[h] == c;
        assert h >= i;
        forall r | r in res ensures Above(score, r, c) {
          assert r in SetOf(sorted[..i]);
        }
      }
    }
  }
}
