/** One layer of the proximity graph as rows of links, and what a beam search
    over it and a diversity selection from it are meant to return. */
module Graph {
  import opened Sequences


  /** graph[i][l]: the links of node i on layer l, for every layer up to its level. */
  type LayeredGraph = seq<seq<seq<nat>>>

  function LinksIn(g: LayeredGraph, i: nat, l: nat): seq<nat> {
    if i < |g| && l < |g[i]| then g[i][l] else []
  }

  function LayerOf(g: LayeredGraph, l: nat): (rows: seq<seq<nat>>)
    ensures |rows| == |g|
    ensures forall i :: 0 <= i < |g| ==> rows[i] == LinksIn(g, i, l)
  {
    seq(|g|, i requires 0 <= i => LinksIn(g, i, l))
  }

  ghost predicate GoodTarget(g: LayeredGraph, i: nat, l: nat, t: nat) {
    t < |g| && l < |g[t]| && t != i
  }

  /** Every link of layer l joins two nodes of that layer, and no node links to itself. */
  ghost predicate WellLinked(g: LayeredGraph) {
    forall i: nat, l: nat, j: nat :: i < |g| && l < |g[i]| && j < |g[i][l]| ==> GoodTarget(g, i, l, g[i][l][j])
  }


  lemma LayerClosed(g: LayeredGraph, l: nat)
    requires WellLinked(g)
    ensures Closed(LayerOf(g, l))
  {
    var rows := LayerOf(g, l);
    forall i, t | 0 <= i < |rows| && t in rows[i] ensures t < |rows| {
      var j :| 0 <= j < |rows[i]| && rows[i][j] == t;
      assert GoodTarget(g, i, l, g[i][l][j]);
    }
  }

  /** No layer holds more links than a node may have there: 2m on layer 0, m above. */
  ghost predicate WithinLimits(g: LayeredGraph, m: nat) {
    forall i: nat, l: nat :: i < |g| && l < |g[i]| ==> |g[i][l]| <= Cap(m, l)
  }

  function Cap(m: nat, l: nat): nat { if l == 0 then 2 * m else m }

  ghost predicate GraphOk(g: LayeredGraph, m: nat) {
    WellLinked(g) && WithinLimits(g, m)
  }

  /** The first n nodes all link to each other on layer 0, later ones twice. */
  ghost predicate CompleteAmong(g: LayeredGraph, n: nat) {
    forall i: nat :: i < n ==>
      && |LinksIn(g, i, 0)| == 2 * n - 2 - i
      && forall j: nat :: j < n && j != i ==> j in LinksIn(g, i, 0)
  }

  /** While there are at most m + 1 nodes, layer 0 links every node to every other. */
  ghost predicate CompleteWhileSmall(g: LayeredGraph, m: nat) {
    |g| <= m + 1 ==> CompleteAmong(g, |g|)
  }

  function SetLinks(g: LayeredGraph, i: nat, l: nat, links: seq<nat>): LayeredGraph
    requires i < |g| && l < |g[i]|
  {
    g[i := g[i][l := links]]
  }

  lemma SetLinksKeeps(g: LayeredGraph, m: nat, i: nat, l: nat, links: seq<nat>)
    requires i < |g| && l < |g[i]| && WellLinked(g)
    requires forall j :: 0 <= j < |links| ==> GoodTarget(g, i, l, links[j])
    ensures WellLinked(SetLinks(g, i, l, links))
    ensures WithinLimits(g, m) && |links| <= Cap(m, l) ==> WithinLimits(SetLinks(g, i, l, links), m)
  {
    var h := SetLinks(g, i, l, links);
    forall i': nat, l': nat, j: nat | i' < |h| && l' < |h[i']| && j < |h[i'][l']|
      ensures GoodTarget(h, i', l', h[i'][l'][j])
    {
      assert (i' == i && l' == l) || h[i'][l'] == g[i'][l'];
      assert GoodTarget(g, i', l', h[i'][l'][j]);
    }
  }

  lemma SetTwice(g: LayeredGraph, i: nat, l: nat, a: seq<nat>, b: seq<nat>)
    requires i < |g| && l < |g[i]|
    ensures SetLinks(SetLinks(g, i, l, a), i, l, b) == SetLinks(g, i, l, b)
    ensures LinksIn(SetLinks(g, i, l, a), i, l) == a
  {
    assert g[i][l := a][l := b] == g[i][l := b];
  }

  /** Same nodes and levels, and the same links on every layer but l. */
  ghost predicate SameExceptLayer(g: LayeredGraph, h: LayeredGraph, l: nat) {
    && |h| == |g|
    && (forall i: nat :: i < |g| ==> |h[i]| == |g[i]|)
    && (forall i: nat, k: nat :: i < |g| && k < |g[i]| && k != l ==> h[i][k] == g[i][k])
  }

  ghost predicate NoLinkTo(g: LayeredGraph, x: nat, l: nat) {
    forall i: nat, j: nat :: i < |g| && l < |g[i]| && j < |g[i][l]| ==> g[i][l][j] != x
  }

  /** The nodes before x that are on layer l. */
  function OnLayer(g: LayeredGraph, x: nat, l: nat): set<nat> {
    set v | v in Below(x) && v < |g| && l < |g[v]|
  }

  ghost predicate Path(rows: seq<seq<nat>>, p: seq<nat>) {
    && |p| > 0
    && (forall i :: 0 <= i < |p| ==> p[i] < |rows|)
    && (forall i :: 0 <= i < |p| - 1 ==> p[i + 1] in rows[p[i]])
  }

  ghost predicate Reachable(rows: seq<seq<nat>>, from: nat, to: nat) {
    exists p :: Path(rows, p) && p[0] == from && p[|p| - 1] == to
  }

  predicate Closed(rows: seq<seq<nat>>) {
    forall i :: 0 <= i < |rows| ==> forall t :: t in rows[i] ==> t < |rows|
  }

  lemma ReachSelf(rows: seq<seq<nat>>, v: nat)
    requires v < |rows|
    ensures Reachable(rows, v, v)
  {
    assert Path(rows, [v]);
  }

  lemma ReachStep(rows: seq<seq<nat>>, from: nat, v: nat, t: nat)
    requires Reachable(rows, from, v) && v < |rows| && t in rows[v] && t < |rows|
    ensures Reachable(rows, from, t)
  {
    var p :| Path(rows, p) && p[0] == from && p[|p| - 1] == v;
    assert Path(rows, p + [t]);
  }

  /** Every link of the given nodes leads into s. */
  ghost predicate Expanded(rows: seq<seq<nat>>, s: set<nat>, nodes: set<nat>) {
    forall v, j :: v in nodes && v < |rows| && 0 <= j < |rows[v]| ==> rows[v][j] in s
  }

  ghost function ReachableFrom(rows: seq<seq<nat>>, from: nat): set<nat> {
    set v | v in Below(|rows|) && Reachable(rows, from, v)
  }

  lemma ReachableClosed(rows: seq<seq<nat>>, from: nat)
    requires from < |rows| && Closed(rows)
    ensures from in ReachableFrom(rows, from)
    ensures Expanded(rows, ReachableFrom(rows, from), ReachableFrom(rows, from))
  {
    var reach := ReachableFrom(rows, from);
    ReachSelf(rows, from);
    forall v, j | v in reach && 0 <= j < |rows[v]| ensures rows[v][j] in reach {
      assert rows[v][j] in rows[v];
      ReachStep(rows, from, v, rows[v][j]);
    }
  }

  /** A set that holds the start and every link of its members holds all that is reachable. */
  lemma ReachStays(rows: seq<seq<nat>>, from: nat, s: set<nat>)
    requires from in s && Expanded(rows, s, s)
    ensures ReachableFrom(rows, from) <= s
  {
    forall v | v in ReachableFrom(rows, from) ensures v in s {
      var p :| Path(rows, p) && p[0] == from && p[|p| - 1] == v;
      PathStays(rows, p, s, |p| - 1);
    }
  }

  lemma {:induction false} PathStays(rows: seq<seq<nat>>, p: seq<nat>, s: set<nat>, i: nat)
    requires Path(rows, p) && i < |p| && p[0] in s && Expanded(rows, s, s)
    ensures p[i] in s
  {
    if i == 0 {
    } else {
      PathStays(rows, p, s, i - 1);
      assert p[i - 1 + 1] in rows[p[i - 1]];
    }
  }

  // ----- queue order -----

  /** The score of every node against one query. */
  type Scores = seq<real>

  function At(score: Scores, v: nat): real {
    if v < |score| then score[v] else 0.0
  }

  ghost predicate NoneAbove(score: Scores, s: set<nat>, v: nat) {
    forall u :: u in s ==> At(score, u) <= At(score, v)
  }

  ghost predicate NoneUnder(score: Scores, s: set<nat>, v: nat) {
    forall u :: u in s ==> At(score, v) <= At(score, u)
  }

  /** Order of (score, id) pairs in the queues: higher score first, then higher id. */
  predicate Above(score: Scores, a: nat, b: nat) {
    At(score, a) > At(score, b) || (At(score, a) == At(score, b) && a > b)
  }

  lemma AboveTransitive(score: Scores, a: nat, b: nat, c: nat)
    requires Above(score, a, b) && Above(score, b, c)
    ensures Above(score, a, c)
  {
  }

  lemma {:induction false} HasTop(score: Scores, s: set<nat>)
    requires s != {}
    ensures exists a :: a in s && forall b :: b in s && b != a ==> Above(score, a, b)
  {
    var x :| x in s;
    var rest := s - {x};
    var top := x;
    assert s == rest + {x};
    if rest != {} {
      HasTop(score, rest);
      var a :| a in rest && forall b :: b in rest && b != a ==> Above(score, a, b);
      top := if Above(score, x, a) then x else a;
      forall b | b in s && b != top ensures Above(score, top, b) {
        if top == x && b != a { AboveTransitive(score, x, a, b); }
      }
    }
    assert forall b :: b in s && b != top ==> Above(score, top, b);
  }

  lemma {:induction false} HasBottom(score: Scores, s: set<nat>)
    requires s != {}
    ensures exists a :: a in s && forall b :: b in s && b != a ==> Above(score, b, a)
  {
    var x :| x in s;
    var rest := s - {x};
    var bottom := x;
    assert s == rest + {x};
    if rest != {} {
      HasBottom(score, rest);
      var a :| a in rest && forall b :: b in rest && b != a ==> Above(score, b, a);
      bottom := if Above(score, a, x) then x else a;
      forall b | b in s && b != bottom ensures Above(score, b, bottom) {
        if bottom == x && b != a { AboveTransitive(score, b, a, x); }
      }
    }
    assert forall b :: b in s && b != bottom ==> Above(score, b, bottom);
  }

  // ----- beam search -----

  /** The result of a beam search of the given width from entry. */
  ghost predicate Beam(rows: seq<seq<nat>>, score: Scores, entry: nat, width: nat, res: seq<nat>)
  {
    && 1 <= |res| <= width && Distinct(res)
    && (forall v :: v in res ==> v < |rows| && Reachable(rows, entry, v))
    && (forall i, j :: 0 <= i < j < |res| ==> At(score, res[i]) >= At(score, res[j]))
    && entry < |rows| && At(score, res[0]) >= At(score, entry)
    && (forall v, t :: v in res && t in rows[v] && t !in res ==>
          |res| == width && t < |rows| && At(score, t) <= At(score, res[|res| - 1]))
    && (|res| < width ==> forall v :: Reachable(rows, entry, v) ==> v in res)
  }

  /** Links never lead from the nodes before x on a layer to anything else, while nothing links to x. */
  lemma BeamStaysOnLayer(g: LayeredGraph, x: nat, l: nat, score: Scores, entry: nat, width: nat, res: seq<nat>)
    requires WellLinked(g) && |g| == x + 1 && NoLinkTo(g, x, l) && entry in OnLayer(g, x, l)
    requires Beam(LayerOf(g, l), score, entry, width, res)
    ensures SetOf(res) <= OnLayer(g, x, l)
  {
    var rows, s := LayerOf(g, l), OnLayer(g, x, l);
    LayerLinksStay(g, x, l);
    ReachStays(rows, entry, s);
    forall v | v in res ensures v in s {
      assert v in ReachableFrom(rows, entry);
    }
  }

  lemma AllLinksStay(g: LayeredGraph, l: nat)
    requires WellLinked(g)
    ensures Expanded(LayerOf(g, l), OnLayer(g, |g|, l), OnLayer(g, |g|, l))
  {
    var rows, s := LayerOf(g, l), OnLayer(g, |g|, l);
    forall v, j | v in s && v < |rows| && 0 <= j < |rows[v]| ensures rows[v][j] in s {
      assert GoodTarget(g, v, l, g[v][l][j]);
    }
  }

  lemma LayerLinksStay(g: LayeredGraph, x: nat, l: nat)
    requires WellLinked(g) && |g| == x + 1 && NoLinkTo(g, x, l)
    ensures Expanded(LayerOf(g, l), OnLayer(g, x, l), OnLayer(g, x, l))
  {
    var rows, s := LayerOf(g, l), OnLayer(g, x, l);
    forall v, j | v in s && v < |rows| && 0 <= j < |rows[v]| ensures rows[v][j] in s {
      assert GoodTarget(g, v, l, g[v][l][j]) && g[v][l][j] != x;
    }
  }

  /** Where the first n nodes all link to each other, a beam at least n wide that
      stays among them returns all of them. */
  lemma BeamOnCompleteNodes(rows: seq<seq<nat>>, n: nat, score: Scores, entry: nat, width: nat, res: seq<nat>)
    requires n <= |rows| && n <= width && Beam(rows, score, entry, width, res)
    requires entry < n && SetOf(res) <= Below(n)
    requires forall i, j :: 0 <= i < n && 0 <= j < n && i != j ==> j in rows[i]
    ensures |res| == n && SetOf(res) == Below(n)
  {
    DistinctCount(res);
    if |res| < width {
      forall v | v in Below(n) ensures v in SetOf(res) {
        OneStepReach(rows, n, entry, v);
      }
      assert Below(n) <= SetOf(res);
      assert SetOf(res) == Below(n);
    } else {
      SubsetOfSameSize(SetOf(res), Below(n));
    }
  }

  lemma OneStepReach(rows: seq<seq<nat>>, n: nat, entry: nat, v: nat)
    requires n <= |rows| && entry < n && v < n
    requires forall i, j :: 0 <= i < n && 0 <= j < n && i != j ==> j in rows[i]
    ensures Reachable(rows, entry, v)
  {
    ReachSelf(rows, entry);
    if v != entry {
      ReachStep(rows, entry, entry, v);
    }
  }

  // ----- diversity selection -----

  /** The candidates together with their links. */
  ghost function PoolOf(rows: seq<seq<nat>>, candidates: seq<nat>): set<nat> {
    if candidates == [] then {}
    else
      var front, c := candidates[..|candidates| - 1], candidates[|candidates| - 1];
      PoolOf(rows, front) + {c} + (if c < |rows| then SetOf(rows[c]) else {})
  }

  lemma {:induction false} PoolStays(rows: seq<seq<nat>>, candidates: seq<nat>, s: set<nat>)
    requires Expanded(rows, s, s) && forall j :: 0 <= j < |candidates| ==> candidates[j] in s
    ensures PoolOf(rows, candidates) <= s
  {
    if candidates == [] {
    } else {
      PoolStays(rows, candidates[..|candidates| - 1], s);
      var c := candidates[|candidates| - 1];
      if c < |rows| {
        forall t | t in SetOf(rows[c]) ensures t in s {
          var j :| 0 <= j < |rows[c]| && rows[c][j] == t;
        }
      }
    }
  }

  /** closer(c, r): candidate c is closer to the kept node r than to the target. */
  ghost predicate Diverse(score: Scores, closer: (nat, nat) -> bool, pool: set<nat>, k: nat, res: seq<nat>)
  {
    && |res| <= k
    && (forall v :: v in res ==> v in pool)
    && (forall i, j :: 0 <= i < j < |res| ==> Above(score, res[i], res[j]))
    && (forall i, j :: 0 <= i < j < |res| ==> !closer(res[j], res[i]))
    && (forall c :: c in pool && c !in res ==> Skipped(score, closer, k, res, c))
  }

  ghost predicate Skipped(score: Scores, closer: (nat, nat) -> bool, k: nat, res: seq<nat>, c: nat)
  {
    || (|res| == k && forall r :: r in res ==> Above(score, r, c))
    || (exists i :: 0 <= i < |res| && Above(score, res[i], c) && closer(c, res[i]))
  }

  /** There is only one greedy diverse selection. */
  lemma DiverseUnique(score: Scores, closer: (nat, nat) -> bool, pool: set<nat>, k: nat,
                      a: seq<nat>, b: seq<nat>)
    requires Diverse(score, closer, pool, k, a) && Diverse(score, closer, pool, k, b)
    ensures a == b
  {
    CommonPrefix(score, closer, pool, k, a, b, 0);
  }

  lemma {:induction false} CommonPrefix(score: Scores, closer: (nat, nat) -> bool, pool: set<nat>, k: nat,
                                        a: seq<nat>, b: seq<nat>, n: nat)
    requires Diverse(score, closer, pool, k, a) && Diverse(score, closer, pool, k, b)
    requires n <= |a| && n <= |b| && a[..n] == b[..n]
    ensures a == b
    decreases |a| - n
  {
    if n < |a| {
      NextIsKept(score, closer, pool, k, a, b, n);
    }
    if n < |b| {
      NextIsKept(score, closer, pool, k, b, a, n);
    }
    if n < |a| {
      assert a[..n + 1] == a[..n] + [a[n]] && b[..n + 1] == b[..n] + [b[n]];
      CommonPrefix(score, closer, pool, k, a, b, n + 1);
    }
  }

  /** If two selections agree so far, the next member of one is matched or beaten in the other. */
  lemma NextIsKept(score: Scores, closer: (nat, nat) -> bool, pool: set<nat>, k: nat,
                   a: seq<nat>, b: seq<nat>, n: nat)
    requires Diverse(score, closer, pool, k, a) && Diverse(score, closer, pool, k, b)
    requires n < |a| && n <= |b| && a[..n] == b[..n]
    ensures n < |b| && (b[n] == a[n] || Above(score, b[n], a[n]))
  {
    var c := a[n];
    assert forall i :: 0 <= i < n ==> a[i] == a[..n][i] == b[..n][i] == b[i];
    if c in b {
      var j :| 0 <= j < |b| && b[j] == c;
      assert j >= n;
    } else {
      assert c in pool && Skipped(score, closer, k, b, c);
      if i :| 0 <= i < |b| && Above(score, b[i], c) && closer(c, b[i]) {
        assert i >= n;
        assert i == n || Above(score, b[n], b[i]);
      } else {
        assert n < |b| && b[n] in b;
      }
    }
  }
}
