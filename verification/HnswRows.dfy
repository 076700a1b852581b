/** The flat sentinel-terminated level-0 link array, and how the link storage stands for a graph. */
module HnswRows {
  import opened Graph

  /** A cell of the level-0 array: a node, or the all-ones sentinel written here as -1. */
  type Cell = x: int | -1 <= x witness -1
  const NO_LINK: Cell := -1

  /** The links of one row: the cells before the first sentinel. */
  function Row(cells: seq<Cell>): (r: seq<nat>)
    ensures |r| <= |cells|
    ensures forall j :: 0 <= j < |r| ==> cells[j] == r[j]
    ensures |r| < |cells| ==> cells[|r|] == NO_LINK
  {
    if cells == [] || cells[0] == NO_LINK then [] else [cells[0]] + Row(cells[1..])
  }

  lemma {:induction false} RowIs(cells: seq<Cell>, r: seq<nat>)
    requires |r| <= |cells| && (forall j :: 0 <= j < |r| ==> cells[j] == r[j])
    requires |r| < |cells| ==> cells[|r|] == NO_LINK
    ensures Row(cells) == r
  {
    if r == [] {
    } else {
      RowIs(cells[1..], r[1..]);
    }
  }

  /** Where the row of node i starts in the flat array. */
  function Start(i: nat, width: nat): nat { i * width }

  /** The links of node i in the flat array. */
  function RowOf(cells: seq<Cell>, width: nat, i: nat): (r: seq<nat>)
    ensures |r| <= width
  {
    if Start(i, width) + width <= |cells| then Row(cells[Start(i, width)..Start(i, width) + width]) else []
  }

  lemma RowsApart(i: nat, j: nat, width: nat)
    requires i < j
    ensures Start(i, width) + width <= Start(j, width)
  {
    assert (j - i - 1) * width >= 0;
    assert j * width == i * width + width + (j - i - 1) * width;
  }

  /** Changing one cell leaves every slice that does not hold it alone. */
  lemma SliceAvoids(s: seq<Cell>, k: nat, c: Cell, lo: nat, hi: nat)
    requires k < |s| && lo <= hi <= |s| && (k < lo || hi <= k)
    ensures s[k := c][lo..hi] == s[lo..hi]
  {
  }

  /** Writing a target over the first sentinel of a row and a sentinel behind it, if there is room. */
  function Filled(cells: seq<Cell>, start: nat, width: nat, target: nat): (r: seq<Cell>)
    requires start + width <= |cells|
    ensures |r| == |cells|
  {
    var k := |Row(cells[start..start + width])|;
    if k + 1 < width then cells[start + k := target][start + k + 1 := NO_LINK]
    else if k < width then cells[start + k := target]
    else cells
  }

  /** ... appends the target to the links of that row ... */
  lemma FilledRow(cells: seq<Cell>, start: nat, width: nat, target: nat)
    requires start + width <= |cells|
    ensures var r := Row(cells[start..start + width]);
            Row(Filled(cells, start, width, target)[start..start + width]) == if |r| < width then r + [target] else r
  {
    var was, now := cells[start..start + width], Filled(cells, start, width, target)[start..start + width];
    var r := Row(was);
    if |r| < width {
      assert forall j :: 0 <= j < |r| ==> now[j] == was[j];
      RowIs(now, r + [target]);
    }
  }

  /** ... and changes no other row. */
  lemma FilledElsewhere(cells: seq<Cell>, start: nat, width: nat, target: nat, lo: nat)
    requires start + width <= |cells|
    requires lo + width <= |cells| && (lo + width <= start || start + width <= lo)
    ensures Filled(cells, start, width, target)[lo..lo + width] == cells[lo..lo + width]
  {
    var k := |Row(cells[start..start + width])|;
    if k < width {
      SliceAvoids(cells, start + k, target, lo, lo + width);
      if k + 1 < width {
        SliceAvoids(cells[start + k := target], start + k + 1, NO_LINK, lo, lo + width);
      }
    }
  }

  lemma Apart(i: nat, j: nat, width: nat)
    requires i != j
    ensures Start(i, width) + width <= Start(j, width) || Start(j, width) + width <= Start(i, width)
  {
    if i < j { RowsApart(i, j, width); } else { RowsApart(j, i, width); }
  }

  lemma FilledOther(node: nat, width: nat, target: nat, before: seq<Cell>, n: nat)
    requires Start(node, width) + width <= |before| && n != node
    ensures RowOf(Filled(before, Start(node, width), width, target), width, n) == RowOf(before, width, n)
  {
    hide Row, Filled, Start;
    var lo := Start(n, width);
    if lo + width <= |before| {
      Apart(node, n, width);
      FilledElsewhere(before, Start(node, width), width, target, lo);
    }
  }

  lemma FilledRows(node: nat, width: nat, target: nat, before: seq<Cell>, after: seq<Cell>)
    requires Start(node, width) + width <= |before|
    requires after == Filled(before, Start(node, width), width, target)
    ensures |after| == |before|
    ensures RowOf(after, width, node) ==
            var r := RowOf(before, width, node); if |r| < width then r + [target] else r
    ensures forall n: nat :: n != node ==> RowOf(after, width, n) == RowOf(before, width, n)
  {
    hide Row, Filled, Start;
    FilledRow(before, Start(node, width), width, target);
    forall n: nat | n != node ensures RowOf(after, width, n) == RowOf(before, width, n) {
      FilledOther(node, width, target, before, n);
    }
  }

  /** A sentinel in the first cell of a row empties that row only. */
  lemma ClearedRows(node: nat, width: nat, before: seq<Cell>, after: seq<Cell>)
    requires width > 0 && Start(node, width) + width <= |before|
    requires after == before[Start(node, width) := NO_LINK]
    ensures RowOf(after, width, node) == []
    ensures forall n: nat :: n != node ==> RowOf(after, width, n) == RowOf(before, width, n)
  {
    hide Row;
    var start := Start(node, width);
    RowIs(after[start..start + width], []);
    forall n: nat | n != node ensures RowOf(after, width, n) == RowOf(before, width, n) {
      var lo := Start(n, width);
      if lo + width <= |before| {
        Apart(node, n, width);
        SliceAvoids(before, start, NO_LINK, lo, lo + width);
      }
    }
  }

  lemma EmptyRows(cells: seq<Cell>, width: nat)
    requires forall j :: 0 <= j < |cells| ==> cells[j] == NO_LINK
    ensures forall n: nat :: RowOf(cells, width, n) == []
  {
    forall n: nat ensures RowOf(cells, width, n) == [] {
      var lo := Start(n, width);
      if lo + width <= |cells| {
        RowIs(cells[lo..lo + width], []);
      }
    }
  }

  // ----- how the fields store the graph -----

  ghost predicate LevelsStored(levels: seq<nat>, g: LayeredGraph) {
    |levels| == |g| && forall i :: 0 <= i < |g| ==> |g[i]| == levels[i] + 1
  }

  ghost predicate RowsStored(cells: seq<Cell>, width: nat, g: LayeredGraph) {
    && (forall i: nat :: i < |g| ==> |g[i]| > 0 && g[i][0] == RowOf(cells, width, i))
    && (forall i: nat :: i >= |g| ==> RowOf(cells, width, i) == [])
  }

  ghost predicate UpperStored(upper: map<nat, seq<seq<nat>>>, g: LayeredGraph) {
    && (forall i: nat :: i in upper <==> i < |g| && |g[i]| > 1)
    && (forall i: nat :: i in upper ==> upper[i] == g[i][1..])
  }

  /** One row of the flat array was rewritten. */
  lemma RowRewritten(before: seq<Cell>, after: seq<Cell>, width: nat, g: LayeredGraph, node: nat, row: seq<nat>)
    requires RowsStored(before, width, g) && node < |g| && |g[node]| > 0
    requires RowOf(after, width, node) == row
    requires forall n: nat :: n != node ==> RowOf(after, width, n) == RowOf(before, width, n)
    ensures RowsStored(after, width, SetLinks(g, node, 0, row))
  {
    hide RowOf;
  }

  lemma LowestLayerApart(levels: seq<nat>, upper: map<nat, seq<seq<nat>>>, g: LayeredGraph, node: nat, row: seq<nat>)
    requires LevelsStored(levels, g) && UpperStored(upper, g) && node < |g| && |g[node]| > 0
    ensures LevelsStored(levels, SetLinks(g, node, 0, row)) && UpperStored(upper, SetLinks(g, node, 0, row))
  {
    assert forall i: nat :: i < |g| ==> SetLinks(g, node, 0, row)[i][1..] == g[i][1..];
  }

  /** One cell of a node's lowest row was filled, if it had room: one more link, or the same links. */
  lemma LowestFilled(levels: seq<nat>, before: seq<Cell>, after: seq<Cell>, width: nat, upper: map<nat, seq<seq<nat>>>,
                     g: LayeredGraph, node: nat, target: nat)
    requires LevelsStored(levels, g) && RowsStored(before, width, g) && UpperStored(upper, g)
    requires node < |g| && |g[node]| > 0 && Start(node, width) + width <= |before|
    requires after == Filled(before, Start(node, width), width, target)
    ensures |after| == |before|
    ensures var h := if |g[node][0]| < width then SetLinks(g, node, 0, g[node][0] + [target]) else g;
            LevelsStored(levels, h) && RowsStored(after, width, h) && UpperStored(upper, h)
  {
    var row := g[node][0];
    assert row == RowOf(before, width, node);
    FilledRows(node, width, target, before, after);
    hide RowOf, Filled, LevelsStored, UpperStored, RowsStored;
    if |row| < width {
      RowRewritten(before, after, width, g, node, row + [target]);
      LowestLayerApart(levels, upper, g, node, row + [target]);
    } else {
      RowRewritten(before, after, width, g, node, row);
      assert SetLinks(g, node, 0, row) == g by { assert g[node][0 := row] == g[node]; }
    }
  }

  /** One upper layer of one node was rewritten. */
  lemma UpperRewritten(levels: seq<nat>, cells: seq<Cell>, width: nat, upper: map<nat, seq<seq<nat>>>, g: LayeredGraph,
                       node: nat, level: nat, row: seq<nat>)
    requires LevelsStored(levels, g) && RowsStored(cells, width, g) && UpperStored(upper, g)
    requires node < |g| && 0 < level < |g[node]|
    ensures node in upper && level - 1 < |upper[node]| && upper[node][level - 1] == g[node][level]
    ensures LevelsStored(levels, SetLinks(g, node, level, row))
            && RowsStored(cells, width, SetLinks(g, node, level, row))
    ensures UpperStored(upper[node := upper[node][level - 1 := row]], SetLinks(g, node, level, row))
  {
    hide RowOf;
    assert g[node][level := row][1..] == g[node][1..][level - 1 := row];
  }
}
