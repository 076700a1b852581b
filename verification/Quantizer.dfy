/** The 8-bit scalar quantizer: per-dimension range, rounding to one of 256
    codes, and the dot product taken on the decoded codes. */
module Quantizer {
  import opened Candidates
  import opened Centroids

  type Code = c: int | 0 <= c <= 255

  const MIN_DIFF: real := 0.000001

  // ----- dot product -----

  function Component(v: Vec, d: nat): real {
    if d < |v| then v[d] else 0.0
  }

  /** Sum of the first n products. */
  function DotUpTo(q: Vec, v: Vec, n: nat): real {
    if n == 0 then 0.0 else DotUpTo(q, v, n - 1) + Component(q, n - 1) * Component(v, n - 1)
  }

  function Dot(q: Vec, v: Vec): real {
    DotUpTo(q, v, |q|)
  }

  /** The sum over two stretches of dimensions is the sum over both. With one dimension it is the product. */
  lemma DotSplits(q1: Vec, q2: Vec, v1: Vec, v2: Vec)
    requires |q1| == |v1|
    ensures Dot(q1 + q2, v1 + v2) == Dot(q1, v1) + Dot(q2, v2)
    ensures Dot([], []) == 0.0 && forall a: real, b: real :: Dot([a], [b]) == a * b
  {
    DotUpToSplits(q1, q2, v1, v2, |q2|);
    forall a: real, b: real ensures Dot([a], [b]) == a * b {
      assert DotUpTo([a], [b], 1) == DotUpTo([a], [b], 0) + a * b;
    }
  }

  lemma {:induction false} DotUpToSplits(q1: Vec, q2: Vec, v1: Vec, v2: Vec, n: nat)
    requires |q1| == |v1|
    ensures DotUpTo(q1 + q2, v1 + v2, |q1| + n) == DotUpTo(q1, v1, |q1|) + DotUpTo(q2, v2, n)
  {
    if n == 0 {
      DotUpToFirst(q1, q2, v1, v2, |q1|);
    } else {
      DotUpToSplits(q1, q2, v1, v2, n - 1);
    }
  }

  lemma {:induction false} DotUpToFirst(q1: Vec, q2: Vec, v1: Vec, v2: Vec, n: nat)
    requires n <= |q1| == |v1|
    ensures DotUpTo(q1 + q2, v1 + v2, n) == DotUpTo(q1, v1, n)
  {
    if n > 0 {
      DotUpToFirst(q1, q2, v1, v2, n - 1);
    }
  }

  function Abs(x: real): real {
    if x < 0.0 then -x else x
  }

  // ----- codes -----

  datatype Params = Params(min: seq<real>, step: seq<real>)

  /** Clamped to [0, 255] and rounded half up, as round does on non-negative values. */
  function CodeOf(min: real, step: real, x: real): Code
    requires step > 0.0
  {
    var v := (x - min) / step;
    var w := if v < 0.0 then 0.0 else if v > 255.0 then 255.0 else v;
    (w + 0.5).Floor
  }

  predicate ParamsOk(p: Params, dim: nat) {
    |p.min| == |p.step| == dim && forall d :: 0 <= d < dim ==> p.step[d] > 0.0
  }

  function EncodeVec(p: Params, dim: nat, v: Vec): (codes: seq<Code>)
    requires ParamsOk(p, dim) && |v| == dim
    ensures |codes| == dim && forall d :: 0 <= d < dim ==> codes[d] == CodeOf(p.min[d], p.step[d], v[d])
  {
    seq(dim, d requires 0 <= d < dim => CodeOf(p.min[d], p.step[d], v[d]))
  }

  function DecodeVec(p: Params, dim: nat, codes: seq<Code>): (v: Vec)
    requires ParamsOk(p, dim) && |codes| == dim
    ensures |v| == dim && forall d :: 0 <= d < dim ==> v[d] == p.min[d] + codes[d] as real * p.step[d]
  {
    seq(dim, d requires 0 <= d < dim => p.min[d] + codes[d] as real * p.step[d])
  }

  /** Inside the trained range of every dimension. */
  ghost predicate InRange(p: Params, dim: nat, v: Vec)
    requires ParamsOk(p, dim)
  {
    |v| == dim && forall d :: 0 <= d < dim ==> p.min[d] <= v[d] <= p.min[d] + 255.0 * p.step[d]
  }

  lemma ProductNotNegative(a: real, b: real)
    requires a >= 0.0 && b >= 0.0
    ensures a * b >= 0.0
  {
  }

  lemma ScaledHalf(code: real, v: real, step: real)
    requires step > 0.0 && -0.5 <= code - v <= 0.5
    ensures -(step / 2.0) <= code * step - v * step <= step / 2.0
  {
    var e := code - v;
    ProductNotNegative(0.5 - e, step);
    ProductNotNegative(e + 0.5, step);
    assert code * step - v * step == e * step;
    assert (0.5 - e) * step == 0.5 * step - e * step;
    assert (e + 0.5) * step == e * step + 0.5 * step;
  }

  lemma ScaledBound(v: real, step: real, bound: real)
    requires step > 0.0 && 0.0 <= v * step <= bound * step
    ensures 0.0 <= v <= bound
  {
    if v < 0.0 { ProductPositive(-v, step); }
    if v > bound { ProductPositive(v - bound, step); }
  }

  lemma ProductPositive(a: real, b: real)
    requires a > 0.0 && b > 0.0
    ensures a * b > 0.0
  {
  }

  /** Decoding an encoded value of the range misses it by at most half a step. */
  lemma RoundTripError(min: real, step: real, x: real)
    requires step > 0.0 && min <= x <= min + 255.0 * step
    ensures Abs(min + CodeOf(min, step, x) as real * step - x) <= step / 2.0
  {
    var v := (x - min) / step;
    assert v * step == x - min;
    ScaledBound(v, step, 255.0);
    var c := CodeOf(min, step, x);
    assert c == (v + 0.5).Floor;
    ScaledHalf(c as real, v, step);
  }

  /** A value outside the range gets the code at the nearer end. */
  lemma ClampedCode(min: real, step: real, x: real)
    requires step > 0.0
    ensures x <= min ==> CodeOf(min, step, x) == 0
    ensures x >= min + 255.0 * step ==> CodeOf(min, step, x) == 255
  {
    var v := (x - min) / step;
    assert v * step == x - min;
    if x <= min && v > 0.0 { ProductPositive(v, step); }
    if x >= min + 255.0 * step && v < 255.0 {
      assert (255.0 - v) * step == 255.0 * step - v * step;
      ProductPositive(255.0 - v, step);
    }
  }

  lemma VectorError(p: Params, dim: nat, v: Vec)
    requires ParamsOk(p, dim) && InRange(p, dim, v)
    ensures var w := DecodeVec(p, dim, EncodeVec(p, dim, v));
            forall d :: 0 <= d < dim ==> Abs(w[d] - v[d]) <= p.step[d] / 2.0
  {
    forall d | 0 <= d < dim
      ensures Abs(DecodeVec(p, dim, EncodeVec(p, dim, v))[d] - v[d]) <= p.step[d] / 2.0
    {
      RoundTripError(p.min[d], p.step[d], v[d]);
    }
  }

  // ----- score error -----

  /** Sum of |q_d| * step_d over the first n dimensions. */
  function SlackUpTo(p: Params, q: Vec, n: nat): real
    requires n <= |p.step|
  {
    if n == 0 then 0.0 else SlackUpTo(p, q, n - 1) + Abs(Component(q, n - 1)) * p.step[n - 1]
  }

  /** The score the quantized scan gives a code block. */
  function ApproxScore(p: Params, dim: nat, q: Vec, codes: seq<Code>): real
    requires ParamsOk(p, dim) && |codes| == dim
  {
    Dot(q, DecodeVec(p, dim, codes))
  }

  lemma TermError(q: real, w: real, v: real, step: real)
    requires Abs(w - v) <= step / 2.0
    ensures Abs(q * w - q * v) <= Abs(q) * step / 2.0
  {
    assert q * w - q * v == q * (w - v);
    var e, h := w - v, step / 2.0;
    assert Abs(q * e) == Abs(q) * Abs(e);
    assert Abs(q) * Abs(e) <= Abs(q) * h;
  }

  lemma {:induction false} DotError(p: Params, dim: nat, q: Vec, w: Vec, v: Vec, n: nat)
    requires ParamsOk(p, dim) && |w| == |v| == dim && n <= dim
    requires forall d :: 0 <= d < dim ==> Abs(w[d] - v[d]) <= p.step[d] / 2.0
    ensures Abs(DotUpTo(q, w, n) - DotUpTo(q, v, n)) <= SlackUpTo(p, q, n) / 2.0
  {
    if n == 0 {
    } else {
      DotError(p, dim, q, w, v, n - 1);
      TermError(Component(q, n - 1), w[n - 1], v[n - 1], p.step[n - 1]);
    }
  }

  /** The quantized score of an in-range vector misses its exact score by at most half the slack. */
  lemma ScoreError(p: Params, dim: nat, q: Vec, v: Vec)
    requires ParamsOk(p, dim) && InRange(p, dim, v) && |q| == dim
    ensures Abs(ApproxScore(p, dim, q, EncodeVec(p, dim, v)) - Dot(q, v)) <= SlackUpTo(p, q, dim) / 2.0
  {
    VectorError(p, dim, v);
    DotError(p, dim, q, DecodeVec(p, dim, EncodeVec(p, dim, v)), v, dim);
  }

  // ----- code blobs -----

  /** The encodings of the vectors, one block after the other. */
  function EncodeAll(p: Params, dim: nat, vs: seq<Vec>): (blob: seq<Code>)
    requires ParamsOk(p, dim) && forall i :: 0 <= i < |vs| ==> |vs[i]| == dim
    ensures |blob| == |vs| * dim
  {
    if vs == [] then []
    else
      assert |vs| * dim == (|vs| - 1) * dim + dim;
      EncodeAll(p, dim, vs[..|vs| - 1]) + EncodeVec(p, dim, vs[|vs| - 1])
  }

  lemma BlockFits(i: nat, n: nat, dim: nat)
    requires i < n
    ensures i * dim + dim <= n * dim
  {
    assert (n - i - 1) * dim >= 0;
    assert n * dim == i * dim + dim + (n - i - 1) * dim;
  }

  lemma {:induction false} BlockOf(p: Params, dim: nat, vs: seq<Vec>, i: nat)
    requires ParamsOk(p, dim) && i < |vs| && forall i :: 0 <= i < |vs| ==> |vs[i]| == dim
    ensures i * dim + dim <= |vs| * dim
    ensures EncodeAll(p, dim, vs)[i * dim..i * dim + dim] == EncodeVec(p, dim, vs[i])
  {
    BlockFits(i, |vs|, dim);
    var front := vs[..|vs| - 1];
    var a, b := EncodeAll(p, dim, front), EncodeVec(p, dim, vs[|vs| - 1]);
    if i == |vs| - 1 {
      assert (a + b)[|a|..|a| + dim] == b;
    } else {
      BlockOf(p, dim, front, i);
      BlockFits(i, |front|, dim);
      assert (a + b)[i * dim..i * dim + dim] == a[i * dim..i * dim + dim];
    }
  }

  // ----- the trained object -----

  /** lo and hi are the least and greatest d-th component of the vectors. */
  ghost predicate RangeOf(vs: seq<Vec>, d: nat, lo: real, hi: real) {
    && (forall i :: 0 <= i < |vs| ==> lo <= Component(vs[i], d) <= hi)
    && (exists i :: 0 <= i < |vs| && Component(vs[i], d) == lo)
    && (exists i :: 0 <= i < |vs| && Component(vs[i], d) == hi)
  }

  function WidthOf(lo: real, hi: real): real {
    if hi - lo < MIN_DIFF then MIN_DIFF else hi - lo
  }

  /** Components are finite floats. */
  ghost predicate Finite(v: Vec) {
    forall d :: 0 <= d < |v| ==> -FLT_MAX <= v[d] <= FLT_MAX
  }

  class ScalarQuantizer {
    const dim: nat
    var min: seq<real>
    var diff: seq<real>
    var step: seq<real>

    constructor (dim: nat)
      ensures this.dim == dim && min == [] && step == []
    {
      this.dim, min, diff, step := dim, [], [], [];
    }

    function P(): Params
      reads this
    {
      Params(min, step)
    }

    ghost predicate Trained()
      reads this
    {
      ParamsOk(P(), dim)
    }

    /** Learns the range of every dimension; a flat dimension gets a tiny positive width. */
    method Train(vs: seq<Vec>)
      requires forall i :: 0 <= i < |vs| ==> |vs[i]| == dim && Finite(vs[i])
      modifies this
      ensures vs == [] ==> unchanged(this)
      ensures vs != [] ==>
                && Trained() && |diff| == dim
                && (forall d :: 0 <= d < dim ==>
                      && step[d] == diff[d] / 255.0
                      && (forall i :: 0 <= i < |vs| ==> min[d] <= vs[i][d])
                      && (exists i :: 0 <= i < |vs| && vs[i][d] == min[d])
                      && exists h :: 0 <= h < |vs| && (forall i :: 0 <= i < |vs| ==> vs[i][d] <= vs[h][d])
                           && diff[d] == if vs[h][d] - min[d] < 0.000001 then 0.000001 else vs[h][d] - min[d])
                && (forall i :: 0 <= i < |vs| ==> InRange(P(), dim, vs[i]))
    {
      if vs == [] {
        return;
      }
      var lo, hi := seq(dim, _ => FLT_MAX), seq(dim, _ => -FLT_MAX);
      for i := 0 to |vs|
        invariant |lo| == |hi| == dim
        invariant forall d :: 0 <= d < dim ==> Extremes(vs[..i], d, lo[d], hi[d])
      {
        lo, hi := Widen(vs, i, dim, lo, hi);
      }
      assert vs[..|vs|] == vs;
      var df, st := [], [];
      for d := 0 to dim
        invariant |df| == |st| == d
        invariant forall e :: 0 <= e < d ==> df[e] == WidthOf(lo[e], hi[e])
        invariant forall e :: 0 <= e < d ==> st[e] == df[e] / 255.0 && st[e] > 0.0 && 255.0 * st[e] == df[e]
      {
        var w := hi[d] - lo[d];
        if w < MIN_DIFF {
          w := MIN_DIFF;
        }
        df, st := df + [w], st + [w / 255.0];
      }
      min, diff, step := lo, df, st;
      forall d | 0 <= d < dim
        ensures RangeOf(vs, d, lo[d], hi[d])
        ensures forall i :: 0 <= i < |vs| ==> lo[d] <= vs[i][d]
        ensures exists i :: 0 <= i < |vs| && vs[i][d] == lo[d]
        ensures exists h :: 0 <= h < |vs| && (forall i :: 0 <= i < |vs| ==> vs[i][d] <= vs[h][d]) && vs[h][d] == hi[d]
      {
        assert Extremes(vs, d, lo[d], hi[d]);
        assert forall i :: 0 <= i < |vs| ==> vs[i][d] == Component(vs[i], d);
      }
      forall i | 0 <= i < |vs| ensures InRange(P(), dim, vs[i]) {
        forall d | 0 <= d < dim ensures min[d] <= vs[i][d] <= min[d] + 255.0 * step[d] {
          assert RangeOf(vs, d, lo[d], hi[d]) && Component(vs[i], d) == vs[i][d];
          assert df[d] == WidthOf(lo[d], hi[d]) && 255.0 * st[d] == df[d];
        }
      }
    }

    /** Writes one code per dimension; an untrained quantizer leaves the zeroed block alone. */
    method Encode(v: Vec) returns (codes: seq<Code>)
      requires |v| == dim && (min != [] ==> Trained())
      ensures |codes| == dim
      ensures min != [] ==> codes == EncodeVec(P(), dim, v)
      ensures min == [] ==> forall d :: 0 <= d < dim ==> codes[d] == 0
    {
      codes := seq(dim, _ => 0);
      if min == [] {
        return;
      }
      for d := 0 to dim
        invariant |codes| == dim && forall e :: 0 <= e < d ==> codes[e] == CodeOf(min[e], step[e], v[e])
      {
        var x := (v[d] - min[d]) / step[d];
        if x < 0.0 { x := 0.0; }
        if x > 255.0 { x := 255.0; }
        codes := codes[d := (x + 0.5).Floor];
      }
    }

    /** Scores n code blocks against the query. */
    method ComputeDotProducts(q: Vec, blob: seq<Code>, n: nat) returns (scores: seq<real>)
      requires Trained() && |q| == dim && |blob| == n * dim
      ensures |scores| == n
      ensures forall i :: 0 <= i < n ==>
                i * dim + dim <= |blob| && scores[i] == ApproxScore(P(), dim, q, blob[i * dim..i * dim + dim])
    {
      scores := [];
      for i := 0 to n
        invariant |scores| == i
        invariant forall k :: 0 <= k < i ==>
                    k * dim + dim <= |blob| && scores[k] == ApproxScore(P(), dim, q, blob[k * dim..k * dim + dim])
      {
        BlockFits(i, n, dim);
        var s := DotBlock(q, blob[i * dim..i * dim + dim]);
        scores := scores + [s];
      }
    }

    method DotBlock(q: Vec, block: seq<Code>) returns (dot: real)
      requires Trained() && |q| == dim && |block| == dim
      ensures dot == ApproxScore(P(), dim, q, block)
    {
      ghost var w := DecodeVec(P(), dim, block);
      dot := 0.0;
      for d := 0 to dim
        invariant dot == DotUpTo(q, w, d)
      {
        var reconstructed := min[d] + block[d] as real * step[d];
        dot := dot + q[d] * reconstructed;
      }
    }
  }

  /** lo and hi bound the d-th components met so far, and are attained once there is one. */
  ghost predicate Extremes(vs: seq<Vec>, d: nat, lo: real, hi: real) {
    if vs == [] then lo == FLT_MAX && hi == -FLT_MAX else RangeOf(vs, d, lo, hi)
  }

  /** The inner loop over the dimensions of one training vector. */
  method Widen(vs: seq<Vec>, i: nat, dim: nat, lo0: seq<real>, hi0: seq<real>) returns (lo: seq<real>, hi: seq<real>)
    requires i < |vs| && |vs[i]| == dim && Finite(vs[i]) && |lo0| == |hi0| == dim
    requires forall d :: 0 <= d < dim ==> Extremes(vs[..i], d, lo0[d], hi0[d])
    ensures |lo| == |hi| == dim && forall d :: 0 <= d < dim ==> Extremes(vs[..i + 1], d, lo[d], hi[d])
  {
    lo, hi := lo0, hi0;
    for d := 0 to dim
      invariant |lo| == |hi| == dim
      invariant forall e :: 0 <= e < d ==> Extremes(vs[..i + 1], e, lo[e], hi[e])
      invariant forall e :: d <= e < dim ==> lo[e] == lo0[e] && hi[e] == hi0[e]
    {
      var x := vs[i][d];
      WidenOne(vs, i, d, lo[d], hi[d]);
      if x < lo[d] { lo := lo[d := x]; }
      if x > hi[d] { hi := hi[d := x]; }
    }
  }

  lemma WidenOne(vs: seq<Vec>, i: nat, d: nat, lo: real, hi: real)
    requires i < |vs| && d < |vs[i]| && Finite(vs[i]) && Extremes(vs[..i], d, lo, hi)
    ensures var x := vs[i][d];
            Extremes(vs[..i + 1], d, if x < lo then x else lo, if x > hi then x else hi)
  {
    var x, all := vs[i][d], vs[..i + 1];
    assert all == vs[..i] + [vs[i]];
    assert all[i] == vs[i] && Component(all[i], d) == x;
    var lo', hi' := if x < lo then x else lo, if x > hi then x else hi;
    if i > 0 {
      var a :| 0 <= a < i && Component(vs[..i][a], d) == lo;
      var b :| 0 <= b < i && Component(vs[..i][b], d) == hi;
      assert all[a] == vs[..i][a] && all[b] == vs[..i][b];
    }
    assert forall k :: 0 <= k < i ==> all[k] == vs[..i][k];
    assert RangeOf(all, d, lo', hi');
  }
}
