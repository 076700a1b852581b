/** What inserting a node does to the links, layer by layer, and what it keeps. */
module HnswInsertion {
  import opened Graph
  import opened Sequences
  import opened Candidates
  import opened HnswBeam
  import opened HnswRows

  /** Similarity of q to node i, divided by the node's norm for cosine. */
  function ScoreWith(dot: (Vec, Vec) -> real, cosine: bool, offsets: seq<nat>, norms: seq<real>,
                     store: nat -> Vec, q: Vec, i: nat): real
  {
    if i < |offsets| && i < |norms| then
      var s := dot(q, store(offsets[i]));
      if cosine && norms[i] > 0.0 then s / norms[i] else s
    else 0.0
  }

  /** What scores depend on: the nodes' vectors and norms. */
  datatype Space = Space(dot: (Vec, Vec) -> real, cosine: bool, offsets: seq<nat>, norms: seq<real>, store: nat -> Vec)

  function ScoresIn(sp: Space, q: Vec): (score: Scores)
    ensures |score| == |sp.offsets|
  {
    seq(|sp.offsets|, i requires 0 <= i < |sp.offsets| =>
      ScoreWith(sp.dot, sp.cosine, sp.offsets, sp.norms, sp.store, q, i))
  }

  /** Candidate c scores node r above the target. */
  function CloserIn(sp: Space, target: Vec): (nat, nat) -> bool {
    (c: nat, r: nat) => c < |sp.offsets| &&
      ScoreWith(sp.dot, sp.cosine, sp.offsets, sp.norms, sp.store, sp.store(sp.offsets[c]), r)
        > ScoreWith(sp.dot, sp.cosine, sp.offsets, sp.norms, sp.store, target, c)
  }

  // ----- what one insertion does to the links -----

  /** What pruning keeps for a node: all candidates if they fit, otherwise the greedy diverse
      selection from the candidates and their links. */
  ghost predicate Chosen(sp: Space, rows: seq<seq<nat>>, node: nat, candidates: seq<nat>, k: nat, kept: seq<nat>) {
    && node < |sp.offsets|
    && (|candidates| <= k ==> kept == candidates)
    && (|candidates| > k ==>
          var target := sp.store(sp.offsets[node]);
          Diverse(ScoresIn(sp, target), CloserIn(sp, target), PoolOf(rows, candidates) - {node}, k, kept))
  }

  /** The dot product of v with node i's vector, over the node's norm for cosine if it has one. */
  ghost function Similarity(sp: Space, v: Vec, i: nat): real {
    if i < |sp.offsets| && i < |sp.norms| then
      var s := sp.dot(v, sp.store(sp.offsets[i]));
      if sp.cosine && sp.norms[i] > 0.0 then s / sp.norms[i] else s
    else 0.0
  }

  lemma ScoresAreSimilarities(sp: Space, target: Vec, c: nat, r: nat)
    requires c < |sp.offsets| == |sp.norms| && r < |sp.offsets|
    ensures At(ScoresIn(sp, target), c) == Similarity(sp, target, c)
    ensures CloserIn(sp, target)(c, r) <==> Similarity(sp, sp.store(sp.offsets[c]), r) > Similarity(sp, target, c)
  {
  }

  /** A candidate, or a node that one links to. */
  ghost predicate Nearby(rows: seq<seq<nat>>, candidates: seq<nat>, c: nat) {
    c in candidates || exists p :: p in candidates && p < |rows| && c in rows[p]
  }

  lemma {:induction false} PoolIs(rows: seq<seq<nat>>, candidates: seq<nat>)
    ensures forall c :: c in PoolOf(rows, candidates) <==> Nearby(rows, candidates, c)
  {
    if candidates != [] {
      var front, last := candidates[..|candidates| - 1], candidates[|candidates| - 1];
      assert candidates == front + [last];
      PoolIs(rows, front);
      forall c: nat ensures c in PoolOf(rows, candidates) <==> Nearby(rows, candidates, c) {
        if c in PoolOf(rows, front) {
          assert Nearby(rows, front, c);
        }
      }
    }
  }

  /** What pruning keeps of too many candidates: at most k, best first, none more similar to an earlier
      kept one than to the node itself; and a candidate is dropped only when k are kept that are no
      less similar to the node, or when it is more similar to a kept one than to the node. */
  lemma ChosenIsDiverse(sp: Space, rows: seq<seq<nat>>, node: nat, candidates: seq<nat>, k: nat, kept: seq<nat>)
    requires Chosen(sp, rows, node, candidates, k, kept) && |candidates| > k && |sp.offsets| == |sp.norms|
    requires forall v: nat :: Nearby(rows, candidates, v) ==> v < |sp.offsets|
    ensures |kept| <= k && Distinct(kept) && node !in kept
    ensures forall i :: 0 <= i < |kept| ==> kept[i] < |sp.offsets| && Nearby(rows, candidates, kept[i])
    ensures var target := sp.store(sp.offsets[node]);
      && (forall i, j :: 0 <= i < j < |kept| ==>
            && Similarity(sp, target, kept[i]) >= Similarity(sp, target, kept[j])
            && Similarity(sp, sp.store(sp.offsets[kept[j]]), kept[i]) <= Similarity(sp, target, kept[j]))
      && (forall c: nat :: Nearby(rows, candidates, c) && c < |sp.offsets| && c != node && c !in kept ==>
            || (|kept| == k && forall r :: r in kept ==> Similarity(sp, target, r) >= Similarity(sp, target, c))
            || exists i :: 0 <= i < |kept|
                 && Similarity(sp, sp.store(sp.offsets[c]), kept[i]) > Similarity(sp, target, c))
  {
    var target := sp.store(sp.offsets[node]);
    var score, closer, pool := ScoresIn(sp, target), CloserIn(sp, target), PoolOf(rows, candidates) - {node};
    assert Diverse(score, closer, pool, k, kept);
    PoolIs(rows, candidates);
    hide PoolOf, CloserIn, ScoresIn, Similarity, Chosen, Nearby;
    forall i | 0 <= i < |kept|
      ensures kept[i] < |sp.offsets| && Nearby(rows, candidates, kept[i]) && kept[i] != node
    {
      assert kept[i] in kept;
    }
    forall i, j | 0 <= i < j < |kept|
      ensures kept[i] != kept[j] && Similarity(sp, target, kept[i]) >= Similarity(sp, target, kept[j])
      ensures Similarity(sp, sp.store(sp.offsets[kept[j]]), kept[i]) <= Similarity(sp, target, kept[j])
    {
      ScoresAreSimilarities(sp, target, kept[i], kept[j]);
      ScoresAreSimilarities(sp, target, kept[j], kept[i]);
      assert Above(score, kept[i], kept[j]) && !closer(kept[j], kept[i]);
    }
    forall c: nat | Nearby(rows, candidates, c) && c < |sp.offsets| && c != node && c !in kept
      ensures || (|kept| == k && forall r :: r in kept ==> Similarity(sp, target, r) >= Similarity(sp, target, c))
              || exists i :: 0 <= i < |kept|
                   && Similarity(sp, sp.store(sp.offsets[c]), kept[i]) > Similarity(sp, target, c)
    {
      SkippedMeans(sp, target, k, kept, c);
    }
  }

  lemma SkippedMeans(sp: Space, target: Vec, k: nat, kept: seq<nat>, c: nat)
    requires Skipped(ScoresIn(sp, target), CloserIn(sp, target), k, kept, c)
    requires c < |sp.offsets| == |sp.norms| && forall i :: 0 <= i < |kept| ==> kept[i] < |sp.offsets|
    ensures || (|kept| == k && forall r :: r in kept ==> Similarity(sp, target, r) >= Similarity(sp, target, c))
            || exists i :: 0 <= i < |kept|
                 && Similarity(sp, sp.store(sp.offsets[c]), kept[i]) > Similarity(sp, target, c)
  {
    hide ScoresIn, CloserIn, Similarity;
    forall i | 0 <= i < |kept|
      ensures Above(ScoresIn(sp, target), kept[i], c) ==> Similarity(sp, target, kept[i]) >= Similarity(sp, target, c)
      ensures CloserIn(sp, target)(c, kept[i]) ==>
                Similarity(sp, sp.store(sp.offsets[c]), kept[i]) > Similarity(sp, target, c)
    {
      ScoresAreSimilarities(sp, target, c, kept[i]);
      ScoresAreSimilarities(sp, target, kept[i], c);
    }
  }

  /** The row of n after linking it back to x: x twice while there is room; otherwise what pruning
      keeps of the grown row. */
  ghost predicate BackLink(sp: Space, m: nat, g: LayeredGraph, n: nat, l: nat, x: nat, row': seq<nat>) {
    && n < |g| && l < |g[n]|
    && var row := g[n][l];
       var grown := if l == 0 && |row| >= 2 * m then row else row + [x];
       if |grown| >= Cap(m, l) then Chosen(sp, LayerOf(SetLinks(g, n, l, grown), l), n, grown + [x], Cap(m, l), row')
       else row' == row + [x, x]
  }

  /** The graphs between the back links to the nodes in `to`, one after the other. */
  ghost predicate BackLinks(sp: Space, m: nat, gs: seq<LayeredGraph>, to: seq<nat>, l: nat, x: nat) {
    && |gs| == |to| + 1
    && forall k :: 0 <= k < |to| ==> StepsBack(sp, m, gs[k], gs[k + 1], to[k], l, x)
  }

  ghost predicate StepsBack(sp: Space, m: nat, g: LayeredGraph, h: LayeredGraph, n: nat, l: nat, x: nat) {
    && n < |g| && l < |g[n]| && n < |h| && l < |h[n]|
    && h == SetLinks(g, n, l, h[n][l]) && BackLink(sp, m, g, n, l, x, h[n][l])
  }

  /** Node x linked on layer l: a beam from the entry, the chosen ones linked from x, then x linked
      back from each of them in turn; the best chosen one is the next entry. */
  ghost predicate LayerLinked(sp: Space, m: nat, ef: nat, g: LayeredGraph, h: LayeredGraph, x: nat, l: nat, entry: nat,
                              next: nat) {
    exists candidates, selected, gs :: LinkedVia(sp, m, ef, g, h, x, l, entry, next, candidates, selected, gs)
  }

  ghost predicate LinkedVia(sp: Space, m: nat, ef: nat, g: LayeredGraph, h: LayeredGraph, x: nat, l: nat, entry: nat,
                            next: nat,
                            candidates: seq<nat>, selected: seq<nat>, gs: seq<LayeredGraph>)
  {
    && x < |sp.offsets| && x < |g| && l < |g[x]|
    && Beam(LayerOf(g, l), ScoresIn(sp, sp.store(sp.offsets[x])), entry, Width(ef), candidates)
    && Chosen(sp, LayerOf(g, l), x, candidates, Cap(m, l), selected)
    && BackLinks(sp, m, gs, selected, l, x)
    && gs[0] == SetLinks(g, x, l, selected) && gs[|selected|] == h
    && next == if selected != [] then selected[0] else entry
  }

  /** The row of a node n that x has been linked back to: x twice while there is room, otherwise what
      pruning keeps of the row with x. */
  ghost predicate RowTakes(sp: Space, m: nat, row: seq<nat>, n: nat, l: nat, x: nat, row': seq<nat>) {
    var limit := if l == 0 then 2 * m else m;
    if |row| + 1 < limit then row' == row + [x, x]
    else Pruned(sp, n, (if l == 0 && |row| >= 2 * m then row else row + [x]) + [x], limit, row')
  }

  ghost predicate Pruned(sp: Space, n: nat, candidates: seq<nat>, k: nat, kept: seq<nat>) {
    exists rows :: Chosen(sp, rows, n, candidates, k, kept)
  }

  /** Node x linked on layer l, entered at `entry`: its row is what pruning keeps of a beam over the layer
      as it was, and not empty; each node of that row is linked back; no other row of the layer changes. */
  ghost predicate RowChosen(sp: Space, m: nat, ef: nat, before: LayeredGraph, g: LayeredGraph, x: nat, l: nat,
                            entry: nat) {
    && x < |sp.offsets| && x < |g| && l < |g[x]| && g[x][l] != []
    && (exists beam ::
          && Beam(LayerOf(before, l), ScoresIn(sp, sp.store(sp.offsets[x])), entry, Width(ef), beam)
          && Chosen(sp, LayerOf(before, l), x, beam, Cap(m, l), g[x][l]))
    && (forall n :: 0 <= n < |g| && n != x && l < |g[n]| ==>
          && n < |before| && l < |before[n]|
          && if n in g[x][l] then RowTakes(sp, m, before[n][l], n, l, x, g[n][l]) else g[n][l] == before[n][l])
  }

  /** A greedy selection from a pool that is not empty keeps something. */
  lemma SomethingKept(score: Scores, closer: (nat, nat) -> bool, pool: set<nat>, k: nat, res: seq<nat>)
    requires Diverse(score, closer, pool, k, res) && pool != {} && k > 0
    ensures res != []
  {
    var c :| c in pool;
    assert c in res || Skipped(score, closer, k, res, c);
  }

  lemma InPool(rows: seq<seq<nat>>, candidates: seq<nat>)
    requires candidates != []
    ensures candidates[|candidates| - 1] in PoolOf(rows, candidates)
  {
  }

  lemma SelectionNotEmpty(sp: Space, rows: seq<seq<nat>>, x: nat, candidates: seq<nat>, k: nat, kept: seq<nat>)
    requires Chosen(sp, rows, x, candidates, k, kept) && k > 0
    requires candidates != [] && forall j :: 0 <= j < |candidates| ==> candidates[j] != x
    ensures kept != []
  {
    if |candidates| > k {
      var target := sp.store(sp.offsets[x]);
      InPool(rows, candidates);
      hide PoolOf, Diverse, CloserIn, ScoresIn;
      assert candidates[|candidates| - 1] in PoolOf(rows, candidates) - {x};
      SomethingKept(ScoresIn(sp, target), CloserIn(sp, target), PoolOf(rows, candidates) - {x}, k, kept);
    }
  }

  /** The rows of the done nodes have taken x. */
  ghost predicate RowsTook(sp: Space, m: nat, g1: LayeredGraph, g: LayeredGraph, x: nat, l: nat, done: seq<nat>) {
    forall n :: n in done && n < |g1| && l < |g1[n]| ==>
      n < |g| && l < |g[n]| && RowTakes(sp, m, g1[n][l], n, l, x, g[n][l])
  }

  lemma RowTook(sp: Space, m: nat, g: LayeredGraph, n: nat, l: nat, x: nat, row': seq<nat>)
    requires BackLink(sp, m, g, n, l, x, row')
    ensures RowTakes(sp, m, g[n][l], n, l, x, row')
  {
    hide Chosen;
  }

  lemma OneMoreTook(sp: Space, m: nat, g1: LayeredGraph, g: LayeredGraph, h: LayeredGraph, x: nat, l: nat,
                    selected: seq<nat>, k: nat)
    requires k < |selected| && Distinct(selected) && BackLinked(g1, g, m, x, l, selected[..k])
    requires RowsTook(sp, m, g1, g, x, l, selected[..k]) && StepsBack(sp, m, g, h, selected[k], l, x)
    ensures RowsTook(sp, m, g1, h, x, l, selected[..k + 1])
  {
    var n := selected[k];
    RowTook(sp, m, g, n, l, x, h[n][l]);
    TakeOneMore(selected, k);
    assert n !in selected[..k];
    hide RowTakes, BackLink;
    forall i | i in selected[..k + 1] && i < |g1| && l < |g1[i]|
      ensures i < |h| && l < |h[i]| && RowTakes(sp, m, g1[i][l], i, l, x, h[i][l])
    {
      assert i == n || i in selected[..k];
    }
  }

  lemma RowIsChosen(sp: Space, m: nat, ef: nat, before: LayeredGraph, g: LayeredGraph, x: nat, l: nat, entry: nat,
                    beam: seq<nat>, selected: seq<nat>)
    requires x < |sp.offsets| && x < |before| && l < |before[x]| && m >= 1
    requires Beam(LayerOf(before, l), ScoresIn(sp, sp.store(sp.offsets[x])), entry, Width(ef), beam)
    requires Chosen(sp, LayerOf(before, l), x, beam, Cap(m, l), selected)
    requires forall j :: 0 <= j < |beam| ==> beam[j] < x
    requires BackLinked(SetLinks(before, x, l, selected), g, m, x, l, selected) && Selection(before, m, x, l, selected)
    requires RowsTook(sp, m, SetLinks(before, x, l, selected), g, x, l, selected)
    ensures RowChosen(sp, m, ef, before, g, x, l, entry) && selected != [] && g[x][l] == selected
  {
    assert beam != [];
    assert x !in selected;
    var g1 := SetLinks(before, x, l, selected);
    assert g[x][l] == g1[x][l] == selected;
    hide Beam, Chosen, Selection, RowTakes;
    assert forall j :: 0 <= j < |beam| ==> beam[j] != x;
    assert Cap(m, l) > 0;
    SelectionNotEmpty(sp, LayerOf(before, l), x, beam, Cap(m, l), selected);
    forall n | 0 <= n < |g| && n != x && l < |g[n]|
      ensures n < |before| && l < |before[n]|
      ensures if n in g[x][l] then RowTakes(sp, m, before[n][l], n, l, x, g[n][l]) else g[n][l] == before[n][l]
    {
      assert g1[n][l] == before[n][l];
    }
  }

  lemma SameLayer(g: LayeredGraph, h: LayeredGraph, l: nat)
    requires UntouchedBelow(g, h, l + 1)
    ensures LayerOf(h, l) == LayerOf(g, l)
  {
  }

  /** Where layer k is entered: the top one at `start`, the others at the best node linked one layer up. */
  ghost predicate EntersAt(g: LayeredGraph, x: nat, k: nat, top: nat, start: nat, entry: nat) {
    if k >= top then entry == start
    else x < |g| && k + 1 < |g[x]| && g[x][k + 1] != [] && entry == g[x][k + 1][0]
  }

  ghost predicate LinkedOn(sp: Space, m: nat, ef: nat, g0: LayeredGraph, g: LayeredGraph, x: nat, k: nat, top: nat,
                           start: nat) {
    exists entry :: EntersAt(g, x, k, top, start, entry) && RowChosen(sp, m, ef, g0, g, x, k, entry)
  }

  /** Node x is linked on layers l to top, each over the layer as it was in g0. */
  ghost predicate RowsChosen(sp: Space, m: nat, ef: nat, g0: LayeredGraph, g: LayeredGraph, x: nat, l: nat, top: nat,
                             start: nat) {
    forall k: nat :: l <= k <= top ==> LinkedOn(sp, m, ef, g0, g, x, k, top, start)
  }

  lemma OneMoreRow(sp: Space, m: nat, ef: nat, g0: LayeredGraph, g: LayeredGraph, h: LayeredGraph, x: nat, l: nat,
                   top: nat, start: nat, entry: nat)
    requires RowsChosen(sp, m, ef, g0, g, x, l + 1, top, start) && RowChosen(sp, m, ef, g, h, x, l, entry)
    requires l <= top && EntersAt(g, x, l, top, start, entry) && x < |h| && l < |h[x]|
    requires UntouchedBelow(g0, g, l + 1) && SameExceptLayer(g, h, l)
    ensures RowsChosen(sp, m, ef, g0, h, x, l, top, start) && (l > 0 ==> EntersAt(h, x, l - 1, top, start, h[x][l][0]))
  {
    RowAsBefore(sp, m, ef, g0, g, h, x, l, entry);
    RowIsLinked(sp, m, ef, g0, h, x, l, entry);
    hide RowChosen;
    assert EntersAt(h, x, l, top, start, entry);
    assert LinkedOn(sp, m, ef, g0, h, x, l, top, start);
    hide LinkedOn, SameExceptLayer, UntouchedBelow;
    forall k: nat | l < k <= top ensures LinkedOn(sp, m, ef, g0, h, x, k, top, start) {
      LinkedStays(sp, m, ef, g0, g, h, x, k, l, top, start);
    }
  }

  lemma LinkedStays(sp: Space, m: nat, ef: nat, g0: LayeredGraph, g: LayeredGraph, h: LayeredGraph, x: nat, k: nat,
                    l: nat, top: nat, start: nat)
    requires LinkedOn(sp, m, ef, g0, g, x, k, top, start) && SameExceptLayer(g, h, l) && k > l
    ensures LinkedOn(sp, m, ef, g0, h, x, k, top, start)
  {
    hide RowChosen;
    var e :| EntersAt(g, x, k, top, start, e) && RowChosen(sp, m, ef, g0, g, x, k, e);
    RowStays(sp, m, ef, g0, g, h, x, k, l, e);
    assert EntersAt(h, x, k, top, start, e);
  }

  lemma RowAsBefore(sp: Space, m: nat, ef: nat, g0: LayeredGraph, g: LayeredGraph, h: LayeredGraph, x: nat, l: nat,
                    entry: nat)
    requires RowChosen(sp, m, ef, g, h, x, l, entry) && UntouchedBelow(g0, g, l + 1)
    ensures RowChosen(sp, m, ef, g0, h, x, l, entry)
  {
    SameLayer(g0, g, l);
    hide Beam, Chosen, RowTakes, LayerOf;
  }

  lemma RowStays(sp: Space, m: nat, ef: nat, g0: LayeredGraph, g: LayeredGraph, h: LayeredGraph, x: nat, k: nat,
                 l: nat, entry: nat)
    requires RowChosen(sp, m, ef, g0, g, x, k, entry) && SameExceptLayer(g, h, l) && k != l
    ensures RowChosen(sp, m, ef, g0, h, x, k, entry)
  {
    hide Beam, Chosen, RowTakes, LayerOf;
    assert forall n: nat :: n < |g| && k < |g[n]| ==> h[n][k] == g[n][k];
  }

  lemma RowIsLinked(sp: Space, m: nat, ef: nat, g0: LayeredGraph, g: LayeredGraph, x: nat, l: nat, entry: nat)
    requires RowChosen(sp, m, ef, g0, g, x, l, entry)
    ensures x < |g| && l < |g[x]| && g[x][l] != []
  {
    hide Beam, Chosen;
  }

  /** On layer k the descent moves from c to a node it reaches that scores no less, and no less than any
      node it links to. */
  ghost predicate Settles(g: LayeredGraph, score: Scores, k: nat, c: nat, curr: nat) {
    && c < |g| && curr < |g| && Reachable(LayerOf(g, k), c, curr) && At(score, curr) >= At(score, c)
    && forall t :: t in LinksIn(g, curr, k) ==> At(score, t) <= At(score, curr)
  }

  /** The stops of a descent: the entry point on the top layer, then where each layer down to l + 1 settles. */
  ghost predicate Descent(g: LayeredGraph, score: Scores, entryId: nat, from: nat, l: nat, stops: seq<nat>) {
    && |stops| == from + 1 && stops[from] == entryId
    && forall k :: l <= k < from ==> Settles(g, score, k + 1, stops[k + 1], stops[k])
  }

  lemma StepSettles(g: LayeredGraph, score: Scores, l: nat, c: nat, curr: nat)
    requires StepsDown(g, score, l, c, curr)
    ensures Settles(g, score, l + 1, c, curr)
  {
    var rows := LayerOf(g, l + 1);
    var best :| Beam(rows, score, c, 1, best) && curr == best[0];
    assert best == [curr];
    hide Reachable;
    forall t | t in LinksIn(g, curr, l + 1) ensures At(score, t) <= At(score, curr) {
      assert curr in best && t in rows[curr];
    }
  }

  lemma {:induction false} DescentStops(g: LayeredGraph, score: Scores, entryId: nat, from: nat, l: nat, curr: nat)
    returns (stops: seq<nat>)
    requires DescendedTo(g, score, entryId, from, l, curr) && l <= from
    ensures Descent(g, score, entryId, from, l, stops) && stops[l] == curr
    decreases from - l
  {
    if l == from {
      stops := seq(from + 1, _ => entryId);
    } else {
      var c :| DescendedTo(g, score, entryId, from, l + 1, c) && StepsDown(g, score, l, c, curr);
      stops := DescentStops(g, score, entryId, from, l + 1, c);
      StepSettles(g, score, l, c, curr);
      stops := stops[l := curr];
      hide Settles, DescendedTo, StepsDown;
    }
  }

  /** The new node x is linked on every layer up to its own level and the top one there was: the topmost of
      them is entered where the descent towards x ends, each other one at the best node linked one layer up. */
  ghost predicate LinkedOnAll(sp: Space, m: nat, ef: nat, g0: LayeredGraph, g: LayeredGraph, x: nat, level: nat,
                              entryId: nat, maxLevel: int) {
    maxLevel >= 0 ==> exists stops :: LinkedAfter(sp, m, ef, g0, g, x, level, entryId, maxLevel, stops)
  }

  ghost predicate LinkedAfter(sp: Space, m: nat, ef: nat, g0: LayeredGraph, g: LayeredGraph, x: nat, level: nat,
                              entryId: nat, maxLevel: nat, stops: seq<nat>) {
    var top := if level <= maxLevel then level else maxLevel;
    && x < |sp.offsets| && Descent(g0, ScoresIn(sp, sp.store(sp.offsets[x])), entryId, maxLevel, top, stops)
    && forall l: nat :: l <= level && l <= maxLevel ==> LinkedOn(sp, m, ef, g0, g, x, l, top, stops[top])
  }

  /** Greedy descent from layer `from` to layer l: a beam of one on every layer in between. */
  ghost predicate DescendedTo(g: LayeredGraph, score: Scores, entry: nat, from: nat, l: nat, curr: nat)
    decreases from - l
  {
    if l >= from then curr == entry
    else exists c :: DescendedTo(g, score, entry, from, l + 1, c) && StepsDown(g, score, l, c, curr)
  }

  /** The step from layer l + 1 into layer l: the best node a beam of one finds there. */
  ghost predicate StepsDown(g: LayeredGraph, score: Scores, l: nat, c: nat, curr: nat) {
    NearestIs(LayerOf(g, l + 1), score, c, curr)
  }

  ghost predicate NearestIs(rows: seq<seq<nat>>, score: Scores, c: nat, curr: nat) {
    exists best :: Beam(rows, score, c, 1, best) && curr == best[0]
  }

  /** Layers top down to l linked, each entered where the one above left off. */
  ghost predicate LinkedDownTo(sp: Space, m: nat, ef: nat, g: LayeredGraph, h: LayeredGraph, x: nat, top: nat, l: nat,
                               entry: nat, curr: nat)
    decreases top + 1 - l
  {
    if l > top then h == g && curr == entry
    else exists mid, c ::
      LinkedDownTo(sp, m, ef, g, mid, x, top, l + 1, entry, c) && LayerLinked(sp, m, ef, mid, h, x, l, c, curr)
  }

  /** Where a search enters layer 0. */
  ghost predicate Entered(g: LayeredGraph, score: Scores, entryId: nat, maxLevel: int, curr: nat) {
    maxLevel >= 0 && DescendedTo(g, score, entryId, maxLevel, 0, curr)
  }

  lemma EnteredAfter(g: LayeredGraph, score: Scores, entryId: nat, maxLevel: int, curr: nat) returns (stops: seq<nat>)
    requires Entered(g, score, entryId, maxLevel, curr)
    ensures maxLevel >= 0 && Descent(g, score, entryId, maxLevel, 0, stops) && |stops| > 0 && stops[0] == curr
  {
    stops := DescentStops(g, score, entryId, maxLevel, 0, curr);
  }

  /** The links after inserting node x: descend to its top layer, then link it layer by layer. */
  ghost predicate NodeLinked(sp: Space, m: nat, ef: nat, g: LayeredGraph, h: LayeredGraph, x: nat, level: nat,
                             entryId: nat, maxLevel: int) {
    if maxLevel < 0 then h == g
    else exists start, last :: LinkedFrom(sp, m, ef, g, h, x, level, entryId, maxLevel, start, last)
  }

  /** The topmost layer on which a new node is linked. */
  function TopLayer(level: nat, maxLevel: nat): nat {
    if level < maxLevel then level else maxLevel
  }

  ghost predicate LinkedFrom(sp: Space, m: nat, ef: nat, g: LayeredGraph, h: LayeredGraph, x: nat, level: nat,
                             entryId: nat, maxLevel: nat,
                             start: nat, last: nat)
  {
    && x < |sp.offsets|
    && DescendedTo(g, ScoresIn(sp, sp.store(sp.offsets[x])), entryId, maxLevel, TopLayer(level, maxLevel), start)
    && LinkedDownTo(sp, m, ef, g, h, x, TopLayer(level, maxLevel), 0, start, last)
  }

  lemma EveryLayer(sp: Space, m: nat, ef: nat, g0: LayeredGraph, g: LayeredGraph, x: nat, level: nat, entryId: nat,
                   maxLevel: nat, start: nat)
    requires x < |sp.offsets| && RowsChosen(sp, m, ef, g0, g, x, 0, TopLayer(level, maxLevel), start)
    requires DescendedTo(g0, ScoresIn(sp, sp.store(sp.offsets[x])), entryId, maxLevel, TopLayer(level, maxLevel), start)
    ensures LinkedOnAll(sp, m, ef, g0, g, x, level, entryId, maxLevel)
  {
    var stops := DescentStops(g0, ScoresIn(sp, sp.store(sp.offsets[x])), entryId, maxLevel, TopLayer(level, maxLevel),
                              start);
    hide LinkedOn, Settles, DescendedTo;
    assert LinkedAfter(sp, m, ef, g0, g, x, level, entryId, maxLevel, stops);
  }

  lemma LinkedByLayer(sp: Space, m: nat, ef: nat, g: LayeredGraph, h: LayeredGraph, x: nat, l: nat, entry: nat,
                      next: nat,
                      candidates: seq<nat>, selected: seq<nat>, gs: seq<LayeredGraph>)
    requires x < |sp.offsets| && x < |g| && l < |g[x]| && |gs| == |selected| + 1
    requires Beam(LayerOf(g, l), ScoresIn(sp, sp.store(sp.offsets[x])), entry, Width(ef), candidates)
    requires Chosen(sp, LayerOf(g, l), x, candidates, Cap(m, l), selected)
    requires BackLinks(sp, m, gs, selected, l, x)
    requires gs[0] == SetLinks(g, x, l, selected) && gs[|selected|] == h
    requires next == if selected != [] then selected[0] else entry
    ensures LayerLinked(sp, m, ef, g, h, x, l, entry, next)
  {
    hide Beam, Chosen, BackLinks;
    assert LinkedVia(sp, m, ef, g, h, x, l, entry, next, candidates, selected, gs);
  }

  lemma OverflowKept(sp: Space, rows: seq<seq<nat>>, node: nat, candidates: seq<nat>, k: nat, kept: seq<nat>)
    requires Chosen(sp, rows, node, candidates, k, kept) && |candidates| > k
    ensures |kept| <= k && forall v :: v in kept ==> v in PoolOf(rows, candidates) - {node}
  {
  }

  lemma NodeIsLinked(sp: Space, m: nat, ef: nat, g: LayeredGraph, h: LayeredGraph, x: nat, level: nat, entryId: nat,
                     maxLevel: nat,
                     start: nat, last: nat)
    requires x < |sp.offsets|
    requires DescendedTo(g, ScoresIn(sp, sp.store(sp.offsets[x])), entryId, maxLevel, TopLayer(level, maxLevel), start)
    requires LinkedDownTo(sp, m, ef, g, h, x, TopLayer(level, maxLevel), 0, start, last)
    ensures NodeLinked(sp, m, ef, g, h, x, level, entryId, maxLevel)
  {
    hide DescendedTo, LinkedDownTo, ScoresIn, TopLayer;
    assert LinkedFrom(sp, m, ef, g, h, x, level, entryId, maxLevel, start, last);
  }

  lemma SetSame(g: LayeredGraph, i: nat, l: nat)
    requires i < |g| && l < |g[i]|
    ensures SetLinks(g, i, l, g[i][l]) == g
  {
    assert g[i][l := g[i][l]] == g[i];
  }

  lemma DescendOneMore(g: LayeredGraph, score: Scores, entry: nat, from: nat, l: nat, c: nat, best: seq<nat>)
    requires l < from && DescendedTo(g, score, entry, from, l + 1, c) && Beam(LayerOf(g, l + 1), score, c, 1, best)
             && best != []
    ensures DescendedTo(g, score, entry, from, l, best[0])
  {
    hide Beam;
    assert NearestIs(LayerOf(g, l + 1), score, c, best[0]);
    assert StepsDown(g, score, l, c, best[0]);
  }

  lemma NothingLinked(sp: Space, m: nat, ef: nat, g: LayeredGraph, x: nat, top: nat, entry: nat)
    ensures LinkedDownTo(sp, m, ef, g, g, x, top, top + 1, entry, entry)
  {
  }

  lemma LinkOneMore(sp: Space, m: nat, ef: nat, g: LayeredGraph, mid: LayeredGraph, h: LayeredGraph, x: nat, top: nat,
                    l: nat,
                    entry: nat, c: nat, curr: nat)
    requires l <= top && LinkedDownTo(sp, m, ef, g, mid, x, top, l + 1, entry, c)
    requires LayerLinked(sp, m, ef, mid, h, x, l, c, curr)
    ensures LinkedDownTo(sp, m, ef, g, h, x, top, l, entry, curr)
  {
    hide LayerLinked;
  }

  // ----- the node table -----

  datatype NodeTable = NodeTable(idToInternal: map<nat, nat>, internalToExternal: seq<nat>, offsets: seq<nat>,
                                 norms: seq<real>, levels: seq<nat>, deleted: seq<bool>, entryId: nat, maxLevel: int)

  ghost predicate TableOk(t: NodeTable) {
    && |t.internalToExternal| == |t.offsets| == |t.norms| == |t.levels| == |t.deleted|
    && IdsMatch(t.idToInternal, t.internalToExternal)
    && EntryOk(t.levels, t.entryId, t.maxLevel)
  }

  /** External and internal ids map to each other. */
  ghost predicate IdsMatch(idToInternal: map<nat, nat>, internalToExternal: seq<nat>) {
    && (forall i :: 0 <= i < |internalToExternal| ==>
          internalToExternal[i] in idToInternal && idToInternal[internalToExternal[i]] == i)
    && (forall id :: id in idToInternal ==>
          idToInternal[id] < |internalToExternal| && internalToExternal[idToInternal[id]] == id)
  }

  /** The entry node has the maximum level. */
  ghost predicate EntryOk(levels: seq<nat>, entryId: nat, maxLevel: int) {
    && -1 <= maxLevel && (maxLevel == -1 <==> levels == [])
    && (forall i :: 0 <= i < |levels| ==> levels[i] <= maxLevel)
    && (levels != [] ==> entryId < |levels| && levels[entryId] == maxLevel)
  }

  function Overwritten(t: NodeTable, i: nat, offset: nat, norm: real): NodeTable
    requires i < |t.offsets| && i < |t.norms| && i < |t.deleted|
  {
    t.(offsets := t.offsets[i := offset], norms := t.norms[i := norm], deleted := t.deleted[i := false])
  }

  /** A new node with the next internal id; it becomes the entry only if it is on a higher level than all others. */
  function Appended(t: NodeTable, id: nat, offset: nat, norm: real, level: nat): NodeTable {
    NodeTable(t.idToInternal[id := |t.offsets|], t.internalToExternal + [id], t.offsets + [offset], t.norms + [norm],
              t.levels + [level], t.deleted + [false],
              if level > t.maxLevel then |t.offsets| else t.entryId, if level > t.maxLevel then level else t.maxLevel)
  }

  lemma OverwrittenTable(t: NodeTable, i: nat, offset: nat, norm: real)
    requires TableOk(t) && i < |t.offsets|
    ensures TableOk(Overwritten(t, i, offset, norm))
  {
  }

  lemma AppendedTable(t: NodeTable, id: nat, offset: nat, norm: real, level: nat)
    requires TableOk(t) && id !in t.idToInternal
    ensures TableOk(Appended(t, id, offset, norm, level))
  {
  }

  /** What an accepted upsert leaves in the table: the id names a live node with this offset and norm,
      the old one or the next new one, and no other node has changed. */
  ghost predicate NodeEntered(t0: NodeTable, t: NodeTable, id: nat, offset: nat, norm: real, level: nat) {
    && TableOk(t0) && TableOk(t) && id in t.idToInternal
    && var i, n := t.idToInternal[id], |t0.offsets|;
       && i == (if id in t0.idToInternal then t0.idToInternal[id] else n)
       && |t.offsets| == (if id in t0.idToInternal then n else n + 1)
       && t.offsets[i] == offset && t.norms[i] == norm && !t.deleted[i] && t.internalToExternal[i] == id
       && (id !in t0.idToInternal ==> t.levels[i] == level)
       && forall j :: 0 <= j < n ==>
            && t.levels[j] == t0.levels[j] && t.internalToExternal[j] == t0.internalToExternal[j]
            && (j != i ==> t.offsets[j] == t0.offsets[j] && t.norms[j] == t0.norms[j] && t.deleted[j] == t0.deleted[j])
  }

  lemma OverwrittenEntered(t: NodeTable, id: nat, offset: nat, norm: real, level: nat)
    requires TableOk(t) && id in t.idToInternal
    ensures t.idToInternal[id] < |t.offsets|
    ensures NodeEntered(t, Overwritten(t, t.idToInternal[id], offset, norm), id, offset, norm, level)
  {
    OverwrittenTable(t, t.idToInternal[id], offset, norm);
  }

  lemma AppendedEntered(t: NodeTable, id: nat, offset: nat, norm: real, level: nat)
    requires TableOk(t) && id !in t.idToInternal
    ensures NodeEntered(t, Appended(t, id, offset, norm, level), id, offset, norm, level)
  {
    AppendedTable(t, id, offset, norm, level);
  }

  // ----- linking back and pruning -----

  lemma TakeOneMore<T>(s: seq<T>, i: nat)
    requires i < |s|
    ensures s[..i + 1] == s[..i] + [s[i]]
  {
  }

  lemma AppendKeeps(g: LayeredGraph, m: nat, n: nat, l: nat, x: nat)
    requires n < |g| && l < |g[n]| && WellLinked(g) && WithinLimits(g, m) && GoodTarget(g, n, l, x)
    ensures WellLinked(SetLinks(g, n, l, g[n][l] + [x]))
    ensures WellLinked(SetLinks(g, n, l, g[n][l] + [x, x]))
    ensures |g[n][l]| + 2 <= Cap(m, l) ==> WithinLimits(SetLinks(g, n, l, g[n][l] + [x, x]), m)
    ensures SetLinks(SetLinks(g, n, l, g[n][l] + [x]), n, l, g[n][l] + [x] + [x]) == SetLinks(g, n, l, g[n][l] + [x, x])
  {
    SetLinksKeeps(g, m, n, l, g[n][l] + [x]);
    SetLinksKeeps(g, m, n, l, g[n][l] + [x, x]);
    SetTwice(g, n, l, g[n][l] + [x], g[n][l] + [x, x]);
    assert g[n][l] + [x] + [x] == g[n][l] + [x, x];
  }

  /** What pruning keeps for node n are nodes of the layer other than n. */
  lemma PrunedTargets(g: LayeredGraph, n: nat, l: nat, neighbors: seq<nat>, kept: seq<nat>)
    requires WellLinked(g) && n < |g|
    requires forall j :: 0 <= j < |neighbors| ==> neighbors[j] in OnLayer(g, |g|, l)
    requires forall v :: v in kept ==> v in PoolOf(LayerOf(g, l), neighbors) - {n}
    ensures forall j :: 0 <= j < |kept| ==> GoodTarget(g, n, l, kept[j])
  {
    var s := OnLayer(g, |g|, l);
    AllLinksStay(g, l);
    PoolStays(LayerOf(g, l), neighbors, s);
    forall j | 0 <= j < |kept| ensures GoodTarget(g, n, l, kept[j]) {
      assert kept[j] in kept;
      assert kept[j] in s;
    }
  }

  lemma RowOnLayer(g: LayeredGraph, n: nat, l: nat, x: nat)
    requires WellLinked(g) && n < |g| && l < |g[n]| && GoodTarget(g, n, l, x)
    ensures forall j :: 0 <= j < |g[n][l] + [x]| ==> (g[n][l] + [x])[j] in OnLayer(g, |g|, l)
    ensures forall j :: 0 <= j < |g[n][l] + [x]| ==> (g[n][l] + [x])[j] < |g|
  {
    forall j | 0 <= j < |g[n][l] + [x]| ensures (g[n][l] + [x])[j] in OnLayer(g, |g|, l) {
      if j < |g[n][l]| {
        assert GoodTarget(g, n, l, g[n][l][j]);
      }
    }
  }

  /** Rewriting the grown row with what pruning kept. */
  lemma PruneKeeps(g0: LayeredGraph, g1: LayeredGraph, m: nat, n: nat, l: nat, x: nat, kept: seq<nat>)
    requires n < |g0| && l < |g0[n]| && WellLinked(g0) && WithinLimits(g0, m) && GoodTarget(g0, n, l, x)
    requires g1 == g0 || g1 == SetLinks(g0, n, l, g0[n][l] + [x])
    requires |kept| <= Cap(m, l)
    requires forall v :: v in kept ==> v in PoolOf(LayerOf(g1, l), g1[n][l] + [x]) - {n}
    ensures SetLinks(g1, n, l, kept) == SetLinks(g0, n, l, kept)
    ensures WellLinked(SetLinks(g0, n, l, kept)) && WithinLimits(SetLinks(g0, n, l, kept), m)
  {
    AppendKeeps(g0, m, n, l, x);
    assert WellLinked(g1) && GoodTarget(g1, n, l, x);
    RowOnLayer(g1, n, l, x);
    PrunedTargets(g1, n, l, g1[n][l] + [x], kept);
    forall j | 0 <= j < |kept| ensures GoodTarget(g0, n, l, kept[j]) {
      assert GoodTarget(g1, n, l, kept[j]);
    }
    SetLinksKeeps(g0, m, n, l, kept);
    SetTwice(g0, n, l, g0[n][l] + [x], kept);
  }

  // ----- linking one new node on one layer -----

  /** What is linked from the new node: distinct earlier nodes of the layer. */
  ghost predicate Selection(g: LayeredGraph, m: nat, x: nat, l: nat, selected: seq<nat>) {
    && Distinct(selected) && |selected| <= Cap(m, l)
    && forall j :: 0 <= j < |selected| ==> selected[j] in OnLayer(g, x, l)
  }

  lemma BeamCandidates(g: LayeredGraph, x: nat, l: nat, score: Scores, entry: nat, width: nat, res: seq<nat>)
    requires WellLinked(g) && |g| == x + 1 && NoLinkTo(g, x, l) && entry in OnLayer(g, x, l)
    requires Beam(LayerOf(g, l), score, entry, width, res)
    ensures Distinct(res) && res != []
    ensures forall j :: 0 <= j < |res| ==> res[j] in OnLayer(g, x, l) && res[j] < |g|
    ensures l == 0 && x <= width && CompleteAmong(g, x) ==> |res| == x && SetOf(res) == Below(x)
  {
    BeamStaysOnLayer(g, x, l, score, entry, width, res);
    forall j | 0 <= j < |res| ensures res[j] in OnLayer(g, x, l) && res[j] < |g| {
      assert res[j] in SetOf(res);
    }
    if l == 0 && x <= width && CompleteAmong(g, x) {
      BeamOnCompleteNodes(LayerOf(g, 0), x, score, entry, width, res);
    }
  }

  lemma PrunedSelection(g: LayeredGraph, m: nat, x: nat, l: nat, score: Scores, closer: (nat, nat) -> bool,
                        candidates: seq<nat>, selected: seq<nat>)
    requires WellLinked(g) && |g| == x + 1 && NoLinkTo(g, x, l)
    requires Distinct(candidates) && forall j :: 0 <= j < |candidates| ==> candidates[j] in OnLayer(g, x, l)
    requires |candidates| <= Cap(m, l) ==> selected == candidates
    requires |candidates| > Cap(m, l) ==>
               Diverse(score, closer, PoolOf(LayerOf(g, l), candidates) - {x}, Cap(m, l), selected)
    ensures Selection(g, m, x, l, selected)
  {
    if |candidates| > Cap(m, l) {
      var s := OnLayer(g, x, l);
      LayerLinksStay(g, x, l);
      PoolStays(LayerOf(g, l), candidates, s);
      forall j | 0 <= j < |selected| ensures selected[j] in s {
        assert selected[j] in selected;
      }
      forall i, j | 0 <= i < j < |selected| ensures selected[i] != selected[j] {
        assert Above(score, selected[i], selected[j]);
      }
    }
  }

  /** The rows of the done nodes gained x twice where there was room; no other row changed. */
  ghost predicate BackLinked(g1: LayeredGraph, g: LayeredGraph, m: nat, x: nat, l: nat, done: seq<nat>) {
    && SameExceptLayer(g1, g, l)
    && (forall i: nat :: i < |g1| && l < |g1[i]| && i !in done ==> g[i][l] == g1[i][l])
    && (forall i: nat :: i < |g1| && l < |g1[i]| && i in done && |g1[i][l]| + 1 < Cap(m, l) ==>
          g[i][l] == g1[i][l] + [x, x])
  }

  lemma BackLinkedOneMore(g1: LayeredGraph, g: LayeredGraph, h: LayeredGraph, m: nat, x: nat, l: nat,
                          selected: seq<nat>, k: nat)
    requires k < |selected| && Distinct(selected) && BackLinked(g1, g, m, x, l, selected[..k])
    requires var n := selected[k];
             && n < |g1| && l < |g1[n]| && n < |h| && l < |h[n]|
             && h == SetLinks(g, n, l, h[n][l])
             && (|g[n][l]| + 1 < Cap(m, l) ==> h[n][l] == g[n][l] + [x, x])
    ensures BackLinked(g1, h, m, x, l, selected[..k + 1])
  {
    var n := selected[k];
    TakeOneMore(selected, k);
    assert n !in selected[..k];
    forall i: nat | i < |g1| && l < |g1[i]| && i !in selected[..k + 1] ensures h[i][l] == g1[i][l] {
      assert i != n && i !in selected[..k];
    }
  }

  lemma ConnectedFrame(g0: LayeredGraph, g: LayeredGraph, m: nat, x: nat, l: nat, selected: seq<nat>)
    requires x < |g0| && l < |g0[x]| && BackLinked(SetLinks(g0, x, l, selected), g, m, x, l, selected)
    ensures SameExceptLayer(g0, g, l) && OnLayer(g, x, l) == OnLayer(g0, x, l)
  {
    var g1 := SetLinks(g0, x, l, selected);
    forall i: nat, k: nat | i < |g0| && k < |g0[i]| && k != l ensures g[i][k] == g0[i][k] {
      assert g[i][k] == g1[i][k];
    }
    assert forall i: nat :: i < |g0| ==> |g[i]| == |g1[i]|;
  }

  /** Linking a new node to all earlier ones and back keeps layer 0 complete. */
  lemma StaysComplete(g0: LayeredGraph, g: LayeredGraph, m: nat, x: nat, selected: seq<nat>)
    requires |g0| == x + 1 && x <= m && (forall i: nat :: i <= x ==> |g0[i]| > 0) && CompleteAmong(g0, x)
    requires |selected| == x && SetOf(selected) == Below(x)
    requires BackLinked(SetLinks(g0, x, 0, selected), g, m, x, 0, selected)
    ensures CompleteAmong(g, x + 1)
  {
    var g1 := SetLinks(g0, x, 0, selected);
    forall i: nat | i < x + 1
      ensures |LinksIn(g, i, 0)| == 2 * (x + 1) - 2 - i
      ensures forall j: nat :: j < x + 1 && j != i ==> j in LinksIn(g, i, 0)
    {
      if i == x {
        assert x !in SetOf(selected);
        assert g[x][0] == selected;
        forall j: nat | j < x ensures j in selected {
          assert j in SetOf(selected);
        }
      } else {
        assert i in SetOf(selected);
        assert g1[i][0] == LinksIn(g0, i, 0);
        assert g[i][0] == g1[i][0] + [x, x];
      }
    }
  }

  // ----- adding one node -----

  /** A node without links on layers 0 to level. */
  function Unlinked(level: nat): seq<seq<nat>> {
    NoLinks(level + 1)
  }

  function NoLinks(layers: nat): (rows: seq<seq<nat>>)
    ensures |rows| == layers && forall k :: 0 <= k < layers ==> rows[k] == []
  {
    seq(layers, _ => [])
  }

  function Sentinels(n: nat): (cells: seq<Cell>)
    ensures |cells| == n && forall k :: 0 <= k < n ==> cells[k] == NO_LINK
  {
    seq(n, _ => NO_LINK)
  }

  /** The last node has no links yet and nothing links to it; entryId is a node of the top layer of the others. */
  ghost predicate NewNodeReady(g: LayeredGraph, x: nat, level: nat, entryId: nat, maxLevel: int) {
    && |g| == x + 1 && |g[x]| == level + 1 && g[x][0] == [] && (forall l :: NoLinkTo(g, x, l))
    && (if x == 0 then maxLevel < 0 else entryId < x && 0 <= maxLevel && |g[entryId]| == maxLevel + 1)
  }

  lemma ReadyToLink(levels: seq<nat>, entryId: nat, maxLevel: int, g: LayeredGraph, m: nat, level: nat)
    requires EntryOk(levels, entryId, maxLevel) && LevelsStored(levels, g) && GraphOk(g, m)
    ensures NewNodeReady(g + [Unlinked(level)], |g|, level, entryId, maxLevel) && GraphOk(g + [Unlinked(level)], m)
    ensures CompleteAmong(g, |g|) == CompleteAmong(g + [Unlinked(level)], |g|)
  {
    AppendedNode(g, m, level);
  }

  lemma AppendedNode(g: LayeredGraph, m: nat, level: nat)
    requires GraphOk(g, m)
    ensures var h := g + [Unlinked(level)];
            GraphOk(h, m) && (forall l :: NoLinkTo(h, |g|, l)) && CompleteAmong(g, |g|) == CompleteAmong(h, |g|)
  {
    var h := g + [Unlinked(level)];
    forall i: nat, l: nat, j: nat | i < |h| && l < |h[i]| && j < |h[i][l]|
      ensures GoodTarget(h, i, l, h[i][l][j]) && h[i][l][j] != |g|
    {
      assert GoodTarget(g, i, l, g[i][l][j]);
    }
    assert forall i: nat :: i < |g| ==> LinksIn(h, i, 0) == LinksIn(g, i, 0);
  }

  lemma AppendUpper(upper: map<nat, seq<seq<nat>>>, g: LayeredGraph, level: nat)
    requires UpperStored(upper, g)
    ensures UpperStored(if level > 0 then upper[|g| := NoLinks(level)] else upper, g + [Unlinked(level)])
  {
    if level > 0 {
      assert NoLinks(level) == Unlinked(level)[1..];
    }
  }

  lemma AppendRows(cells: seq<Cell>, cells': seq<Cell>, width: nat, g: LayeredGraph, level: nat)
    requires RowsStored(cells, width, g)
    requires forall i: nat :: RowOf(cells', width, i) == RowOf(cells, width, i)
    ensures RowsStored(cells', width, g + [Unlinked(level)])
  {
    hide RowOf;
    var h := g + [Unlinked(level)];
    forall i: nat | i < |h| ensures |h[i]| > 0 && h[i][0] == RowOf(cells', width, i) {
      assert i < |g| ==> h[i] == g[i];
    }
  }

  lemma AppendStored(levels: seq<nat>, cells: seq<Cell>, cells': seq<Cell>, width: nat,
                     upper: map<nat, seq<seq<nat>>>, g: LayeredGraph, level: nat)
    requires LevelsStored(levels, g) && RowsStored(cells, width, g) && UpperStored(upper, g)
    requires forall i: nat :: RowOf(cells', width, i) == RowOf(cells, width, i)
    ensures LevelsStored(levels + [level], g + [Unlinked(level)])
    ensures RowsStored(cells', width, g + [Unlinked(level)])
    ensures UpperStored(if level > 0 then upper[|g| := NoLinks(level)] else upper, g + [Unlinked(level)])
  {
    AppendUpper(upper, g, level);
    AppendRows(cells, cells', width, g, level);
    hide RowsStored, UpperStored, RowOf;
  }

  /** Sentinels behind the rows in use add empty rows. */
  lemma GrownRows(cells: seq<Cell>, n: nat, width: nat, more: seq<Cell>)
    requires |cells| == Start(n, width) && |more| == width && width > 0
    requires forall j :: 0 <= j < width ==> more[j] == NO_LINK
    ensures |cells + more| == Start(n + 1, width)
    ensures forall i: nat :: RowOf(cells + more, width, i) == RowOf(cells, width, i)
  {
    forall i: nat ensures RowOf(cells + more, width, i) == RowOf(cells, width, i) {
      GrownRow(cells, n, width, more, i);
    }
  }

  lemma GrownRow(cells: seq<Cell>, n: nat, width: nat, more: seq<Cell>, i: nat)
    requires |cells| == Start(n, width) && |more| == width && width > 0
    requires forall j :: 0 <= j < width ==> more[j] == NO_LINK
    ensures RowOf(cells + more, width, i) == RowOf(cells, width, i)
  {
    var lo := Start(i, width);
    if i < n {
      RowsApart(i, n, width);
      assert (cells + more)[lo..lo + width] == cells[lo..lo + width];
    } else if i == n {
      RowIs((cells + more)[lo..lo + width], []);
    } else {
      RowsApart(n, i, width);
    }
  }

  /** The same nodes and levels, and layers below l as they were. */
  ghost predicate UntouchedBelow(g0: LayeredGraph, g: LayeredGraph, l: nat) {
    && |g| == |g0|
    && (forall i: nat :: i < |g0| ==> |g[i]| == |g0[i]|)
    && (forall i: nat, k: nat :: i < |g0| && k < |g0[i]| && k < l ==> g[i][k] == g0[i][k])
  }

  ghost predicate UntouchedAbove(g0: LayeredGraph, g: LayeredGraph, l: nat) {
    && |g| == |g0|
    && (forall i: nat :: i < |g0| ==> |g[i]| == |g0[i]|)
    && (forall i: nat, k: nat :: i < |g0| && k < |g0[i]| && k > l ==> g[i][k] == g0[i][k])
  }

  lemma NextLayerDown(g0: LayeredGraph, g: LayeredGraph, h: LayeredGraph, top: nat, l: nat)
    requires l <= top && UntouchedBelow(g0, g, l + 1) && UntouchedAbove(g0, g, top) && SameExceptLayer(g, h, l)
    ensures UntouchedBelow(g0, h, l) && UntouchedAbove(g0, h, top)
  {
    forall i: nat, k: nat | i < |g0| && k < |g0[i]| && k != l ensures h[i][k] == g[i][k] {
      assert k < |g[i]|;
    }
  }

  lemma StillNoLinkTo(g0: LayeredGraph, g: LayeredGraph, x: nat, l: nat)
    requires UntouchedBelow(g0, g, l + 1) && NoLinkTo(g0, x, l)
    ensures NoLinkTo(g, x, l) && OnLayer(g, x, l) == OnLayer(g0, x, l)
  {
    forall i: nat, j: nat | i < |g| && l < |g[i]| && j < |g[i][l]| ensures g[i][l][j] != x {
      assert g[i][l] == g0[i][l];
    }
  }

  lemma GrownComplete(g0: LayeredGraph, g: LayeredGraph, m: nat)
    requires |g| == |g0| + 1 && CompleteWhileSmall(g0, m)
    requires |g0| <= m && CompleteAmong(g0, |g0|) ==> CompleteAmong(g, |g0| + 1)
    ensures CompleteWhileSmall(g, m)
  {
  }

  lemma LayerZeroKept(g0: LayeredGraph, g: LayeredGraph, x: nat, l: nat)
    requires UntouchedBelow(g0, g, l + 1) && x <= |g0|
    ensures CompleteAmong(g0, x) ==> CompleteAmong(g, x)
  {
    assert forall i: nat :: i < x ==> LinksIn(g, i, 0) == LinksIn(g0, i, 0);
  }

  lemma OnLayerKept(g0: LayeredGraph, g: LayeredGraph, x: nat, l: nat)
    requires UntouchedBelow(g0, g, l)
    ensures OnLayer(g, x, l) == OnLayer(g0, x, l)
    ensures l > 0 ==> OnLayer(g, x, l) <= OnLayer(g, x, l - 1)
  {
  }

  lemma BestOnLayer(g: LayeredGraph, x: nat, k: nat, score: Scores, entry: nat, best: seq<nat>)
    requires WellLinked(g) && x + 1 >= |g| && entry in OnLayer(g, x, k) && k > 0
    requires |g| == x + 1 ==> NoLinkTo(g, x, k)
    requires Beam(LayerOf(g, k), score, entry, 1, best)
    ensures best != [] && best[0] in OnLayer(g, x, k) && best[0] in OnLayer(g, x, k - 1)
  {
    var s := OnLayer(g, x, k);
    if |g| == x + 1 {
      LayerLinksStay(g, x, k);
    } else {
      AllLinksStay(g, k);
      assert s == OnLayer(g, |g|, k);
    }
    ReachStays(LayerOf(g, k), entry, s);
    assert best[0] in best;
    assert best[0] in ReachableFrom(LayerOf(g, k), entry);
  }
}
