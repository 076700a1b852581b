/** Assignment of a vector to its best centroid. */
module Centroids {
  import opened Candidates

  /** Largest finite float; its negation is where the running best starts. */
  const FLT_MAX: real := 340282346638528859811704183484516925440.0

  /** Index of the best centroid, or -1. */
  function Assign(dot: (Vec, Vec) -> real, centroids: seq<Vec>, v: Vec): (c: int)
    ensures -1 <= c < |centroids|
  {
    if centroids == [] then -1
    else
      var c, d := Assign(dot, centroids[..|centroids| - 1], v), dot(v, centroids[|centroids| - 1]);
      if d > BestScore(dot, centroids, v, c) then |centroids| - 1 else c
  }

  function BestScore(dot: (Vec, Vec) -> real, centroids: seq<Vec>, v: Vec, c: int): real
    requires -1 <= c < |centroids|
  {
    if c == -1 then -FLT_MAX else dot(v, centroids[c])
  }

  /** The first centroid with the highest score; none only if no score exceeds -FLT_MAX. */
  lemma {:induction false} AssignIsFirstBest(dot: (Vec, Vec) -> real, centroids: seq<Vec>, v: Vec)
    ensures var c := Assign(dot, centroids, v);
      && (c == -1 <==> forall i :: 0 <= i < |centroids| ==> dot(v, centroids[i]) <= -FLT_MAX)
      && (c >= 0 ==>
            && (forall i :: 0 <= i < |centroids| ==> dot(v, centroids[i]) <= dot(v, centroids[c]))
            && (forall i :: 0 <= i < c ==> dot(v, centroids[i]) < dot(v, centroids[c])))
  {
    if centroids == [] {
    } else {
      var n := |centroids| - 1;
      var front := centroids[..n];
      AssignIsFirstBest(dot, front, v);
      assert forall i :: 0 <= i < n ==> front[i] == centroids[i];
      var b := Assign(dot, front, v);
      assert dot(v, centroids[n]) > BestScore(dot, centroids, v, b) <==> Assign(dot, centroids, v) == n;
    }
  }

  method AssignOne(dot: (Vec, Vec) -> real, centroids: seq<Vec>, v: Vec) returns (best: int)
    ensures best == Assign(dot, centroids, v)
  {
    best := -1;
    var bestDist := -FLT_MAX;
    for c := 0 to |centroids|
      invariant best == Assign(dot, centroids[..c], v)
      invariant bestDist == BestScore(dot, centroids, v, best)
    {
      assert centroids[..c + 1][..c] == centroids[..c];
      var d := dot(v, centroids[c]);
      if d > bestDist {
        bestDist, best := d, c;
      }
    }
    assert centroids[..|centroids|] == centroids;
  }
}
