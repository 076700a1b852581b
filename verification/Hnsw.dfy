/** The HNSW graph index: link storage, beam search, diversity pruning and incremental insertion. */
module Hnsw {
  import opened Graph
  import opened Sequences
  import opened Ranking
  import opened Candidates
  import opened Visited
  import opened HnswRows
  import opened HnswBeam
  import opened HnswInsertion

  class HnswIndex {
    const dot: (Vec, Vec) -> real
    const cosine: bool
    const maxPoints: nat
    const m: nat
    const m0: nat
    const efConstruction: nat
    const efSearch: nat
    const visited: VisitedList

    var idToInternal: map<nat, nat>
    var internalToExternal: seq<nat>
    var offsets: seq<nat>
    var norms: seq<real>
    var levels: seq<nat>
    var deleted: seq<bool>
    var level0Links: seq<Cell>
    var upperLinks: map<nat, seq<seq<nat>>>
    var entryId: nat
    var maxLevel: int
    ghost var graph: LayeredGraph  // the links that level0Links and upperLinks store

    // ----- invariants -----

    /** The link storage has room for n nodes and stores the graph on them. */
    ghost predicate StoredFor(n: nat)
      reads this
    {
      && m >= 1 && m0 == 2 * m && |graph| == n
      && |level0Links| == Start(if maxPoints > 0 then maxPoints else n, m0)
      && (maxPoints > 0 ==> n <= maxPoints)
      && LevelsStored(levels, graph) && RowsStored(level0Links, m0, graph) && UpperStored(upperLinks, graph)
    }

    ghost predicate Stored()
      reads this
    {
      |norms| == |offsets| && StoredFor(|offsets|)
    }

    ghost function Table(): NodeTable
      reads this
    {
      NodeTable(idToInternal, internalToExternal, offsets, norms, levels, deleted, entryId, maxLevel)
    }

    /** The link invariants: targets, limits, and completeness while the graph is small. */
    ghost predicate LinksOk()
      reads this
    {
      Stored() && GraphOk(graph, m) && (efConstruction >= m ==> CompleteWhileSmall(graph, m))
    }

    ghost predicate Valid()
      reads this, visited
    {
      visited.Valid() && LinksOk() && TableOk(Table())
    }

    /** What every history keeps: at most 2m links on layer 0 and m above, all to other nodes that are
        on the layer; a new id per node; and an entry node on the highest layer. */
    lemma LinksKept(i: nat, l: nat)
      requires Valid() && i < |graph| && l < |graph[i]|
      ensures |graph| == |offsets| == |levels| && |graph[i]| == levels[i] + 1
      ensures |graph[i][l]| <= (if l == 0 then 2 * m else m)
      ensures forall j :: 0 <= j < |graph[i][l]| ==>
                graph[i][l][j] < |graph| && graph[i][l][j] != i && l <= levels[graph[i][l][j]]
      ensures entryId < |levels| && levels[entryId] == maxLevel && levels[i] <= maxLevel
    {
      assert |graph[i][l]| <= Cap(m, l) by { assert WithinLimits(graph, m); }
      hide RowsStored, UpperStored, CompleteWhileSmall, IdsMatch;
      forall j | 0 <= j < |graph[i][l]|
        ensures graph[i][l][j] < |graph| && graph[i][l][j] != i && l < |graph[graph[i][l][j]]|
      {
        assert GoodTarget(graph, i, l, graph[i][l][j]);
      }
    }

    constructor (dot: (Vec, Vec) -> real, cosine: bool, maxPoints: nat, m: nat, efConstruction: nat, efSearch: nat)
      requires m >= 1
      ensures Valid() && fresh(visited) && offsets == [] && idToInternal == map[]
      ensures this.dot == dot && this.cosine == cosine && this.maxPoints == maxPoints && this.m == m
      ensures this.efConstruction == efConstruction && this.efSearch == efSearch
    {
      this.dot, this.cosine, this.maxPoints, this.m, this.m0 := dot, cosine, maxPoints, m, 2 * m;
      this.efConstruction, this.efSearch := efConstruction, efSearch;
      visited := new VisitedList();
      idToInternal, internalToExternal, offsets, norms, levels, deleted := map[], [], [], [], [], [];
      level0Links := Sentinels(Start(maxPoints, 2 * m));
      upperLinks, entryId, maxLevel, graph := map[], 0, -1, [];
      new;
      EmptyRows(level0Links, m0);
    }

    // ----- scores -----

    function SpaceOf(store: nat -> Vec): Space
      reads this
    {
      Space(dot, cosine, offsets, norms, store)
    }

    function ScoresOf(store: nat -> Vec, q: Vec): (score: Scores)
      reads this
      ensures |score| == |offsets|
    {
      ScoresIn(SpaceOf(store), q)
    }

    // ----- link storage -----

    lemma RowFits(node: nat)
      requires Stored() && node < |offsets|
      ensures Start(node, m0) + m0 <= |level0Links|
    {
      RowsApart(node, if maxPoints > 0 then maxPoints else |offsets|, m0);
    }

    method GetLinks(node: nat, level: nat) returns (res: seq<nat>)
      requires Stored() && node < |offsets|
      ensures res == LinksIn(graph, node, level)
    {
      hide Start, Row;
      if level == 0 {
        hide LevelsStored, UpperStored;
        RowFits(node);
        res := ReadRow(Start(node, m0));
      } else {
        hide RowsStored;
        if node in upperLinks && level - 1 < |upperLinks[node]| {
          res := upperLinks[node][level - 1];
        } else {
          res := [];
        }
      }
    }

    /** The cells of a row up to the first sentinel. */
    method ReadRow(start: nat) returns (res: seq<nat>)
      requires start + m0 <= |level0Links|
      ensures res == Row(level0Links[start..start + m0])
    {
      res := [];
      for i := 0 to m0
        invariant |res| == i
        invariant forall j :: 0 <= j < i ==> level0Links[start + j] == res[j]
      {
        var val := level0Links[start + i];
        if val == NO_LINK {
          RowIs(level0Links[start..start + m0], res);
          return;
        }
        res := res + [val];
      }
      RowIs(level0Links[start..start + m0], res);
    }

    method ClearLinks(node: nat, level: nat)
      requires Stored() && node < |offsets| && level <= levels[node]
      modifies `level0Links, `upperLinks, `graph
      ensures Stored() && graph == SetLinks(old(graph), node, level, [])
    {
      hide Start, Row;
      assert level < |graph[node]|;
      if level == 0 {
        RowFits(node);
        ClearedRows(node, m0, level0Links, level0Links[Start(node, m0) := NO_LINK]);
        level0Links := level0Links[Start(node, m0) := NO_LINK];
        RowRewritten(old(level0Links), level0Links, m0, graph, node, []);
        LowestLayerApart(levels, upperLinks, graph, node, []);
      } else {
        UpperRewritten(levels, level0Links, m0, upperLinks, graph, node, level, []);
        if node in upperLinks && level - 1 < |upperLinks[node]| {
          upperLinks := upperLinks[node := upperLinks[node][level - 1 := []]];
        }
      }
      hide LevelsStored, RowsStored, UpperStored;
      graph := SetLinks(graph, node, level, []);
    }

    method AddLink(node: nat, level: nat, target: nat)
      requires Stored() && node < |offsets| && level <= levels[node]
      modifies `level0Links, `upperLinks, `graph
      ensures Stored()
      ensures graph == (var row := LinksIn(old(graph), node, level);
                        if level == 0 && |row| >= m0 then old(graph)
                        else SetLinks(old(graph), node, level, row + [target]))
    {
      if level == 0 {
        AddLevel0Link(node, target);
      } else {
        AddUpperLink(node, level, target);
      }
    }

    method AddLevel0Link(node: nat, target: nat)
      requires Stored() && node < |offsets|
      modifies `level0Links, `graph
      ensures Stored()
      ensures graph == (var row := LinksIn(old(graph), node, 0);
                        if |row| >= m0 then old(graph) else SetLinks(old(graph), node, 0, row + [target]))
    {
      hide Start;
      assert 0 < |graph[node]|;
      hide LevelsStored, RowsStored, UpperStored, Filled;
      ghost var row := graph[node][0];
      FillCell(node, target);
      LowestFilled(levels, old(level0Links), level0Links, m0, upperLinks, graph, node, target);
      graph := if |row| < m0 then SetLinks(graph, node, 0, row + [target]) else graph;
    }

    method AddUpperLink(node: nat, level: nat, target: nat)
      requires Stored() && node < |offsets| && 0 < level <= levels[node]
      modifies `upperLinks, `graph
      ensures Stored() && graph == SetLinks(old(graph), node, level, LinksIn(old(graph), node, level) + [target])
    {
      assert level < |graph[node]|;
      ghost var row := LinksIn(graph, node, level);
      UpperRewritten(levels, level0Links, m0, upperLinks, graph, node, level, row + [target]);
      hide LevelsStored, RowsStored, UpperStored;
      upperLinks := upperLinks[node := upperLinks[node][level - 1 := upperLinks[node][level - 1] + [target]]];
      graph := SetLinks(graph, node, level, row + [target]);
    }

    /** The loop over one level-0 row: the first empty cell takes the target. */
    method FillCell(node: nat, target: nat)
      requires Stored() && node < |offsets|
      modifies `level0Links
      ensures Start(node, m0) + m0 <= |old(level0Links)|
      ensures level0Links == Filled(old(level0Links), Start(node, m0), m0, target)
    {
      hide Start, LevelsStored, RowsStored, UpperStored;
      RowFits(node);
      var start := Start(node, m0);
      ghost var was := level0Links[start..start + m0];
      for i := 0 to m0
        invariant level0Links == old(level0Links)
        invariant forall j :: 0 <= j < i ==> was[j] != NO_LINK
      {
        if level0Links[start + i] == NO_LINK {
          assert was[i] == NO_LINK && |Row(was)| == i;
          level0Links := level0Links[start + i := target];
          if i + 1 < m0 {
            level0Links := level0Links[start + i + 1 := NO_LINK];
          }
          return;
        }
      }
      assert |Row(was)| == m0;
    }

    // ----- beam search -----

    method SearchLayer(store: nat -> Vec, q: Vec, entry: nat, level: nat, ef: nat) returns (res: seq<nat>)
      requires visited.Valid() && Stored() && WellLinked(graph) && entry < |offsets|
      modifies visited
      ensures visited.Valid()
      ensures Beam(LayerOf(graph, level), ScoresOf(store, q), entry, Width(ef), res)
    {
      hide LevelsStored, RowsStored, UpperStored;
      ghost var rows := LayerOf(graph, level);
      var score := ScoresOf(store, q);
      visited.Resize(|offsets|);
      visited.Advance();
      visited.Mark(entry);
      LayerClosed(graph, level);
      var results := RunBeam(rows, score, entry, level, ef);
      res := SortByScore(score, results);
      BeamSorted(rows, ReachableFrom(rows, entry), score, entry, Width(ef), visited.marked, results, res);
    }

    /** The best-first loop over the two queues. */
    method RunBeam(ghost rows: seq<seq<nat>>, score: Scores, entry: nat, level: nat, ef: nat)
      returns (results: set<nat>)
      requires Stored() && rows == LayerOf(graph, level) && Closed(rows) && entry < |rows|
      requires visited.Valid() && visited.marked == {entry} && |rows| <= |visited.tags|
      modifies visited
      ensures visited.Valid() && BeamState(ReachableFrom(rows, entry), score, entry, Width(ef), visited.marked, {},
                                           results)
      ensures Expanded(rows, visited.marked, results)
      ensures |results| < Width(ef) ==> results == ReachableFrom(rows, entry)
    {
      hide LevelsStored, RowsStored, UpperStored;
      var candidates := {entry};
      results := {entry};
      ghost var done: set<nat> := {};
      ghost var reach := ReachableFrom(rows, entry);
      ReachableClosed(rows, entry);
      while candidates != {}
        invariant BeamLoop(visited, rows, reach, score, entry, Width(ef), done, candidates, results)
        decreases Below(|rows|) - done
      {
        var current := Top(score, candidates);
        var worst := Bottom(score, results);
        if At(score, current) < At(score, worst) && |results| >= ef {
          assert candidates !! results;
          break;
        }
        assert current in Below(|rows|) && current !in done;
        var neighbors := GetLinks(current, level);
        candidates, results := ExpandNode(visited, rows, reach, score, entry, ef, done, current, neighbors, candidates,
                                          results);
        done := done + {current};
      }
      BeamDone(rows, reach, score, entry, Width(ef), visited.marked, candidates, results);
    }

    // ----- diversity pruning -----

    method PruneNeighbors(store: nat -> Vec, node: nat, candidates: seq<nat>, maxLinks: nat, level: nat)
      returns (result: seq<nat>)
      requires visited.Valid() && Stored() && WellLinked(graph) && node < |offsets|
      requires forall j :: 0 <= j < |candidates| ==> candidates[j] < |offsets|
      modifies visited
      ensures visited.Valid()
      ensures Chosen(SpaceOf(store), LayerOf(graph, level), node, candidates, maxLinks, result)
    {
      hide LevelsStored, RowsStored, UpperStored;
      if |candidates| <= maxLinks {
        return candidates;
      }
      var pool := ExtendPool(candidates, level);
      var target := store(offsets[node]);
      var score := ScoresOf(store, target);
      var sorted := SortAbove(score, pool, node);
      result := SelectDiverse(score, CloserIn(SpaceOf(store), target), sorted, maxLinks);
    }

    /** The candidates and their links on the layer, each once. */
    method ExtendPool(candidates: seq<nat>, level: nat) returns (pool: seq<nat>)
      requires visited.Valid() && Stored() && WellLinked(graph)
      requires forall j :: 0 <= j < |candidates| ==> candidates[j] < |offsets|
      modifies visited
      ensures visited.Valid() && Distinct(pool)
      ensures SetOf(pool) == PoolOf(LayerOf(graph, level), candidates)
    {
      hide LevelsStored, RowsStored, UpperStored;
      ghost var rows := LayerOf(graph, level);
      LayerClosed(graph, level);
      visited.Resize(|offsets|);
      visited.Advance();
      pool := [];
      for i := 0 to |candidates|
        invariant PoolLoop(visited, rows, candidates[..i], pool)
      {
        var neighbors := GetLinks(candidates[i], level);
        assert candidates[..i + 1] == candidates[..i] + [candidates[i]];
        pool := ExtendByOne(visited, rows, candidates[..i], candidates[i], neighbors, pool);
      }
      assert candidates[..|candidates|] == candidates;
    }

    // ----- insertion -----

    /** The clear-then-add loop that rewrites one node's links. */
    method ReplaceLinks(node: nat, level: nat, links: seq<nat>)
      requires Stored() && node < |offsets| && level <= levels[node] && |links| <= Cap(m, level)
      modifies `level0Links, `upperLinks, `graph
      ensures Stored() && graph == SetLinks(old(graph), node, level, links)
    {
      hide RowsStored, UpperStored;
      ClearLinks(node, level);
      for i := 0 to |links|
        invariant Stored() && graph == SetLinks(old(graph), node, level, links[..i])
      {
        TakeOneMore(links, i);
        SetTwice(old(graph), node, level, links[..i], links[..i + 1]);
        AddLink(node, level, links[i]);
      }
      assert links[..|links|] == links;
    }

    /** Links n back to the new node x: twice while there is room, by pruning otherwise. */
    method AddBackLink(store: nat -> Vec, n: nat, level: nat, x: nat)
      requires visited.Valid() && Stored() && WellLinked(graph) && WithinLimits(graph, m)
      requires n < |graph| && level < |graph[n]| && GoodTarget(graph, n, level, x)
      modifies visited, `level0Links, `upperLinks, `graph
      ensures visited.Valid() && Stored() && WellLinked(graph) && WithinLimits(graph, m)
      ensures n < |graph| && level < |graph[n]|
      ensures graph == SetLinks(old(graph), n, level, graph[n][level])
      ensures |old(graph)[n][level]| + 1 < Cap(m, level) ==> graph[n][level] == old(graph)[n][level] + [x, x]
      ensures StepsBack(SpaceOf(store), m, old(graph), graph, n, level, x)
    {
      hide RowsStored, UpperStored, Chosen;
      ghost var g0 := graph;
      AppendKeeps(g0, m, n, level, x);
      AddLink(n, level, x);
      ghost var g1 := graph;
      var neighbors := GetLinks(n, level);
      if |neighbors| >= Cap(m, level) {
        RowOnLayer(g1, n, level, x);
        neighbors := neighbors + [x];
        var newLinks := PruneNeighbors(store, n, neighbors, Cap(m, level), level);
        assert Chosen(SpaceOf(store), LayerOf(g1, level), n, neighbors, Cap(m, level), newLinks);
        SetSame(g0, n, level);
        OverflowKept(SpaceOf(store), LayerOf(g1, level), n, neighbors, Cap(m, level), newLinks);
        PruneKeeps(g0, g1, m, n, level, x, newLinks);
        ReplaceLinks(n, level, newLinks);
      } else {
        AddLink(n, level, x);
      }
    }

    /** Links the new node x on one layer, both ways, and returns where to enter the layer below. */
    method ConnectLayer(store: nat -> Vec, x: nat, l: nat, curr: nat) returns (next: nat)
      requires visited.Valid() && Stored() && GraphOk(graph, m)
      requires |graph| == x + 1 && l < |graph[x]| && curr in OnLayer(graph, x, l)
      requires NoLinkTo(graph, x, l)
      modifies visited, `level0Links, `upperLinks, `graph
      ensures visited.Valid() && Stored() && GraphOk(graph, m)
      ensures SameExceptLayer(old(graph), graph, l) && next in OnLayer(graph, x, l)
      ensures l == 0 && efConstruction >= m && x <= m && CompleteAmong(old(graph), x) ==> CompleteAmong(graph, x + 1)
      ensures LayerLinked(SpaceOf(store), m, efConstruction, old(graph), graph, x, l, curr, next)
      ensures RowChosen(SpaceOf(store), m, efConstruction, old(graph), graph, x, l, curr)
      ensures x < |graph| && l < |graph[x]| && graph[x][l] != [] && next == graph[x][l][0]
    {
      hide RowsStored, UpperStored, Chosen, Beam, LayerLinked, ScoresIn, StepsBack, RowChosen;
      ghost var g0, sp := graph, SpaceOf(store);
      var selected;
      ghost var found;
      selected, found := SelectNeighbors(store, x, l, curr);
      assert Beam(LayerOf(g0, l), ScoresIn(sp, sp.store(sp.offsets[x])), curr, Width(efConstruction), found);
      assert Chosen(sp, LayerOf(g0, l), x, found, Cap(m, l), selected);
      ghost var gs := LinkBothWays(store, x, l, selected);
      assert BackLinks(SpaceOf(store), m, gs, selected, l, x);
      assert |gs| == |selected| + 1;
      ConnectedFrame(g0, graph, m, x, l, selected);
      next := if selected != [] then selected[0] else curr;
      assert SpaceOf(store) == sp;
      LinkedByLayer(sp, m, efConstruction, g0, graph, x, l, curr, next, found, selected, gs);
      RowIsChosen(sp, m, efConstruction, g0, graph, x, l, curr, found, selected);
      if l == 0 && efConstruction >= m && x <= m && CompleteAmong(g0, x) {
        StaysComplete(g0, graph, m, x, selected);
      }
    }

    method SelectNeighbors(store: nat -> Vec, x: nat, l: nat, curr: nat)
      returns (selected: seq<nat>, ghost found: seq<nat>)
      requires visited.Valid() && Stored() && WellLinked(graph)
      requires |graph| == x + 1 && curr in OnLayer(graph, x, l) && NoLinkTo(graph, x, l)
      modifies visited
      ensures visited.Valid() && Selection(graph, m, x, l, selected)
      ensures Beam(LayerOf(graph, l), ScoresOf(store, store(offsets[x])), curr, Width(efConstruction), found)
      ensures Chosen(SpaceOf(store), LayerOf(graph, l), x, found, Cap(m, l), selected)
      ensures forall j :: 0 <= j < |found| ==> found[j] < x
      ensures l == 0 && efConstruction >= m && x <= m && CompleteAmong(graph, x) ==>
                |selected| == x && SetOf(selected) == Below(x)
    {
      hide LevelsStored, RowsStored, UpperStored;
      var v := store(offsets[x]);
      var candidates := SearchLayer(store, v, curr, l, efConstruction);
      BeamCandidates(graph, x, l, ScoresOf(store, v), curr, Width(efConstruction), candidates);
      selected := PruneNeighbors(store, x, candidates, Cap(m, l), l);
      found := candidates;
      PrunedSelection(graph, m, x, l, ScoresOf(store, v), CloserIn(SpaceOf(store), v), candidates, selected);
    }

    method LinkBothWays(store: nat -> Vec, x: nat, l: nat, selected: seq<nat>) returns (ghost gs: seq<LayeredGraph>)
      requires visited.Valid() && Stored() && GraphOk(graph, m)
      requires |graph| == x + 1 && l < |graph[x]| && Selection(graph, m, x, l, selected)
      modifies visited, `level0Links, `upperLinks, `graph
      ensures visited.Valid() && Stored() && GraphOk(graph, m)
      ensures x < |old(graph)| && l < |old(graph)[x]|
      ensures BackLinked(SetLinks(old(graph), x, l, selected), graph, m, x, l, selected)
      ensures RowsTook(SpaceOf(store), m, SetLinks(old(graph), x, l, selected), graph, x, l, selected)
      ensures BackLinks(SpaceOf(store), m, gs, selected, l, x)
      ensures gs[0] == SetLinks(old(graph), x, l, selected) && gs[|selected|] == graph
    {
      hide RowsStored, UpperStored, StepsBack, RowTakes;
      SetLinksKeeps(graph, m, x, l, selected);
      ReplaceLinks(x, l, selected);
      ghost var g1 := graph;
      gs := [graph];
      for i := 0 to |selected|
        invariant visited.Valid() && Stored() && GraphOk(graph, m)
        invariant BackLinked(g1, graph, m, x, l, selected[..i])
        invariant RowsTook(SpaceOf(store), m, g1, graph, x, l, selected[..i])
        invariant |gs| == i + 1 && gs[0] == g1 && gs[i] == graph
        invariant forall k :: 0 <= k < i ==> StepsBack(SpaceOf(store), m, gs[k], gs[k + 1], selected[k], l, x)
      {
        ghost var g := graph;
        AddBackLink(store, selected[i], l, x);
        OneMoreTook(SpaceOf(store), m, g1, g, graph, x, l, selected, i);
        BackLinkedOneMore(g1, g, graph, m, x, l, selected, i);
        gs := gs + [graph];
      }
      assert selected[..|selected|] == selected;
    }

    /** The bookkeeping of a new node, before any link is written. */
    method AppendNode(id: nat, offset: nat, norm: real, level: nat)
      requires Stored() && |internalToExternal| == |deleted| == |offsets| && (maxPoints > 0 ==> |offsets| < maxPoints)
      modifies `idToInternal, `internalToExternal, `offsets, `norms, `levels, `deleted,
               `level0Links, `upperLinks, `graph
      ensures Stored() && graph == old(graph) + [Unlinked(level)]
      ensures Table() == Appended(old(Table()), id, offset, norm, level).(entryId := entryId, maxLevel := maxLevel)
    {
      AppendRow(level);
      idToInternal := idToInternal[id := |offsets|];
      internalToExternal := internalToExternal + [id];
      offsets, norms, deleted := offsets + [offset], norms + [norm], deleted + [false];
    }

    method AppendRow(level: nat)
      requires StoredFor(|graph|) && (maxPoints > 0 ==> |graph| < maxPoints)
      modifies `levels, `level0Links, `upperLinks, `graph
      ensures StoredFor(|old(graph)| + 1)
      ensures graph == old(graph) + [Unlinked(level)] && levels == old(levels) + [level]
    {
      var x := |levels|;
      levels := levels + [level];
      if maxPoints == 0 {
        GrownRows(level0Links, x, m0, Sentinels(m0));
        level0Links := level0Links + Sentinels(m0);
      }
      if level > 0 {
        upperLinks := upperLinks[x := NoLinks(level)];
      }
      AppendStored(old(levels), old(level0Links), level0Links, m0, old(upperLinks), graph, level);
      graph := graph + [Unlinked(level)];
    }

    /** Greedy descent through the layers above l, one best node at a time. */
    method Descend(store: nat -> Vec, q: Vec, entry: nat, from: nat, l: nat, ghost x: nat) returns (curr: nat)
      requires visited.Valid() && Stored() && WellLinked(graph) && l <= from
      requires x + 1 >= |graph| && entry in OnLayer(graph, x, from)
      requires |graph| == x + 1 ==> forall k: nat :: NoLinkTo(graph, x, k)
      modifies visited
      ensures visited.Valid() && curr in OnLayer(graph, x, l)
      ensures DescendedTo(graph, ScoresOf(store, q), entry, from, l, curr)
    {
      hide LevelsStored, RowsStored, UpperStored;
      curr := entry;
      var k := from;
      hide Beam;
      while k > l
        invariant l <= k <= from && visited.Valid() && curr in OnLayer(graph, x, k)
        invariant DescendedTo(graph, ScoresOf(store, q), entry, from, k, curr)
      {
        var best := SearchLayer(store, q, curr, k, 1);
        BestOnLayer(graph, x, k, ScoresOf(store, q), curr, best);
        DescendOneMore(graph, ScoresOf(store, q), entry, from, k - 1, curr, best);
        curr := best[0];
        k := k - 1;
      }
    }

    method Upsert(store: nat -> Vec, id: nat, offset: nat, norm: real, level: nat) returns (ok: bool)
      requires Valid()
      modifies this, visited
      ensures Valid()
      ensures ok <==> (id in old(idToInternal) || maxPoints == 0 || |old(offsets)| < maxPoints)
      ensures Table() == (if id in old(idToInternal) then Overwritten(old(Table()), old(idToInternal)[id], offset, norm)
                          else if ok then Appended(old(Table()), id, offset, norm, level) else old(Table()))
      ensures if ok && id !in old(idToInternal)
              then && UntouchedAbove(old(graph) + [Unlinked(level)], graph, level)
                   && NodeLinked(SpaceOf(store), m, efConstruction, old(graph) + [Unlinked(level)], graph,
                                 |old(offsets)|, level,
                                 old(entryId), old(maxLevel))
              else graph == old(graph)
      ensures ok ==> NodeEntered(old(Table()), Table(), id, offset, norm, level)
      ensures ok && id !in old(idToInternal) ==>
                LinkedOnAll(SpaceOf(store), m, efConstruction, old(graph) + [Unlinked(level)], graph, |old(offsets)|,
                            level, old(entryId), old(maxLevel))
    {
      if id in idToInternal {
        OverwrittenEntered(Table(), id, offset, norm, level);
        Overwrite(idToInternal[id], offset, norm);
        return true;
      }
      if maxPoints > 0 && |offsets| >= maxPoints {
        return false;
      }
      hide NodeLinked, UntouchedAbove, LinkedOnAll, NodeEntered;
      AppendedTable(Table(), id, offset, norm, level);
      AppendedEntered(Table(), id, offset, norm, level);
      InsertNew(store, id, offset, norm, level);
      ok := true;
    }

    method Overwrite(i: nat, offset: nat, norm: real)
      requires Stored() && i < |offsets| && |deleted| == |offsets|
      modifies `offsets, `norms, `deleted
      ensures Stored() && i < |old(offsets)| && Table() == Overwritten(old(Table()), i, offset, norm)
    {
      offsets, norms, deleted := offsets[i := offset], norms[i := norm], deleted[i := false];
    }

    method InsertNew(store: nat -> Vec, id: nat, offset: nat, norm: real, level: nat)
      requires visited.Valid() && LinksOk() && EntryOk(levels, entryId, maxLevel)
      requires |internalToExternal| == |deleted| == |offsets| && (maxPoints > 0 ==> |offsets| < maxPoints)
      modifies this, visited
      ensures visited.Valid() && LinksOk() && Table() == Appended(old(Table()), id, offset, norm, level)
      ensures UntouchedAbove(old(graph) + [Unlinked(level)], graph, level)
      ensures NodeLinked(SpaceOf(store), m, efConstruction, old(graph) + [Unlinked(level)], graph, |old(offsets)|,
                         level,
                         old(entryId), old(maxLevel))
      ensures LinkedOnAll(SpaceOf(store), m, efConstruction, old(graph) + [Unlinked(level)], graph, |old(offsets)|,
                          level, old(entryId), old(maxLevel))
    {
      hide NodeLinked, LinkedOnAll;
      AppendAndLink(store, id, offset, norm, level);
      if level > maxLevel {
        Promote(|offsets| - 1, level);
      }
    }

    method Promote(x: nat, level: nat)
      requires LinksOk()
      modifies `entryId, `maxLevel
      ensures LinksOk() && Table() == old(Table()).(entryId := x, maxLevel := level)
      ensures graph == old(graph)
    {
      entryId, maxLevel := x, level;
    }

    method AppendAndLink(store: nat -> Vec, id: nat, offset: nat, norm: real, level: nat)
      requires visited.Valid() && LinksOk() && EntryOk(levels, entryId, maxLevel)
      requires |internalToExternal| == |deleted| == |offsets| && (maxPoints > 0 ==> |offsets| < maxPoints)
      modifies this, visited
      ensures visited.Valid() && LinksOk() && UntouchedAbove(old(graph) + [Unlinked(level)], graph, level)
      ensures Table() ==
              Appended(old(Table()), id, offset, norm, level).(entryId := old(entryId), maxLevel := old(maxLevel))
      ensures NodeLinked(SpaceOf(store), m, efConstruction, old(graph) + [Unlinked(level)], graph, |old(offsets)|,
                         level,
                         old(entryId), old(maxLevel))
      ensures LinkedOnAll(SpaceOf(store), m, efConstruction, old(graph) + [Unlinked(level)], graph, |old(offsets)|,
                          level, old(entryId), old(maxLevel))
    {
      hide GraphOk, CompleteAmong, NewNodeReady, LevelsStored, RowsStored, UpperStored, UntouchedAbove, NodeLinked,
        LinkedOnAll;
      ghost var g0 := graph;
      AddUnlinked(id, offset, norm, level);
      LinkNewNode(store, |offsets| - 1, level);
      if efConstruction >= m {
        GrownComplete(g0, graph, m);
      }
    }

    method AddUnlinked(id: nat, offset: nat, norm: real, level: nat)
      requires Stored() && GraphOk(graph, m) && EntryOk(levels, entryId, maxLevel)
      requires |internalToExternal| == |deleted| == |offsets| && (maxPoints > 0 ==> |offsets| < maxPoints)
      modifies this
      ensures Stored() && graph == old(graph) + [Unlinked(level)] && GraphOk(graph, m)
      ensures NewNodeReady(graph, |old(graph)|, level, entryId, maxLevel)
      ensures CompleteAmong(graph, |old(graph)|) == CompleteAmong(old(graph), |old(graph)|)
      ensures Table() ==
              Appended(old(Table()), id, offset, norm, level).(entryId := old(entryId), maxLevel := old(maxLevel))
    {
      ReadyToLink(levels, entryId, maxLevel, graph, m, level);
      AppendNode(id, offset, norm, level);
    }

    /** An insertion's search from the top and linking downwards; the very first node has nothing
        to link to. */
    method LinkNewNode(store: nat -> Vec, x: nat, level: nat)
      requires visited.Valid() && Stored() && GraphOk(graph, m)
      requires NewNodeReady(graph, x, level, entryId, maxLevel)
      modifies visited, `level0Links, `upperLinks, `graph
      ensures visited.Valid() && Stored() && GraphOk(graph, m) && UntouchedAbove(old(graph), graph, level)
      ensures efConstruction >= m && x <= m && CompleteAmong(old(graph), x) ==> CompleteAmong(graph, x + 1)
      ensures Table() == old(Table())
      ensures NodeLinked(SpaceOf(store), m, efConstruction, old(graph), graph, x, level, entryId, maxLevel)
      ensures LinkedOnAll(SpaceOf(store), m, efConstruction, old(graph), graph, x, level, entryId, maxLevel)
    {
      hide WellLinked, WithinLimits, LevelsStored, RowsStored, UpperStored, EntryOk, LinkedDownTo, DescendedTo,
        RowChosen, RowsChosen;
      if maxLevel < 0 {
        return;
      }
      hide NodeLinked, CompleteAmong, LinkedOnAll;
      ghost var g0, sp := graph, SpaceOf(store);
      var top := TopLayer(level, maxLevel);
      var start := Descend(store, store(offsets[x]), entryId, maxLevel, top, x);
      var last := LinkLayers(store, x, top, start);
      NodeIsLinked(sp, m, efConstruction, g0, graph, x, level, entryId, maxLevel, start, last);
      EveryLayer(sp, m, efConstruction, g0, graph, x, level, entryId, maxLevel, start);
    }

    /** The layer loop, from the top layer down to layer 0. */
    method LinkLayers(store: nat -> Vec, x: nat, top: nat, start: nat) returns (curr: nat)
      requires visited.Valid() && Stored() && GraphOk(graph, m)
      requires |graph| == x + 1 && top < |graph[x]| && (forall k :: NoLinkTo(graph, x, k))
               && start in OnLayer(graph, x, top)
      modifies visited, `level0Links, `upperLinks, `graph
      ensures visited.Valid() && Stored() && GraphOk(graph, m) && UntouchedAbove(old(graph), graph, top)
      ensures efConstruction >= m && x <= m && CompleteAmong(old(graph), x) ==> CompleteAmong(graph, x + 1)
      ensures LinkedDownTo(SpaceOf(store), m, efConstruction, old(graph), graph, x, top, 0, start, curr)
      ensures RowsChosen(SpaceOf(store), m, efConstruction, old(graph), graph, x, 0, top, start)
    {
      hide WellLinked, WithinLimits, LevelsStored, RowsStored, UpperStored, LayerLinked, LinkedDownTo, CompleteAmong,
        RowChosen;
      ghost var g0, sp := graph, SpaceOf(store);
      curr := start;
      NothingLinked(sp, m, efConstruction, g0, x, top, curr);
      var l := top + 1;
      while l > 0
        invariant 0 <= l <= top + 1
        invariant visited.Valid() && Stored() && GraphOk(graph, m)
        invariant UntouchedBelow(g0, graph, l) && UntouchedAbove(g0, graph, top)
        invariant curr in OnLayer(g0, x, if l == 0 then 0 else l - 1)
        invariant l == 0 && efConstruction >= m && x <= m && CompleteAmong(g0, x) ==> CompleteAmong(graph, x + 1)
        invariant SpaceOf(store) == sp && LinkedDownTo(sp, m, efConstruction, g0, graph, x, top, l, start, curr)
        invariant RowsChosen(sp, m, efConstruction, g0, graph, x, l, top, start)
        invariant l > 0 ==> EntersAt(graph, x, l - 1, top, start, curr)
      {
        l := l - 1;
        ghost var g, c := graph, curr;
        StillNoLinkTo(g0, g, x, l);
        LayerZeroKept(g0, g, x, l);
        curr := ConnectLayer(store, x, l, curr);
        LinkOneMore(sp, m, efConstruction, g0, g, graph, x, top, l, start, c, curr);
        OneMoreRow(sp, m, efConstruction, g0, g, graph, x, l, top, start, c);
        NextLayerDown(g0, g, graph, top, l);
        OnLayerKept(g0, graph, x, l);
      }
    }

    method Delete(id: nat) returns (ok: bool)
      requires Valid()
      modifies `deleted
      ensures Valid() && ok == (id in idToInternal)
      ensures deleted == if id in idToInternal then old(deleted)[idToInternal[id] := true] else old(deleted)
    {
      if id !in idToInternal {
        return false;
      }
      deleted := deleted[idToInternal[id] := true];
      ok := true;
    }

    // ----- search -----

    method Search(store: nat -> Vec, q: Vec, topk: nat) returns (res: seq<Candidate>)
      requires Valid()
      modifies visited
      ensures Valid()
      ensures offsets == [] ==> res == []
      ensures offsets != [] ==>
                exists stops, beam ::
                  && maxLevel >= 0 && Descent(graph, ScoresOf(store, q), entryId, maxLevel, 0, stops)
                  && Beam(LayerOf(graph, 0), ScoresOf(store, q), stops[0], Width(efSearch), beam)
                  && res == TopK(IsBetter, topk, LiveAmong(beam, deleted, internalToExternal, ScoresOf(store, q)))
      ensures efConstruction >= m && efSearch >= m + 1 && |offsets| <= m + 1 ==>
                res == TopK(IsBetter, topk, LiveAmong(UpTo(|offsets|), deleted, internalToExternal, ScoresOf(store, q)))
      ensures |res| <= topk && DistinctIds(res)
      ensures forall j, k :: 0 <= j < k < |res| ==>
                res[j].score > res[k].score || (res[j].score == res[k].score && res[j].id < res[k].id)
      ensures forall c :: c in res ==> exists i: nat :: LiveHit(SpaceOf(store), internalToExternal, deleted, q, i, c)
      ensures efConstruction >= m && efSearch >= m + 1 && |offsets| <= m + 1 ==>
                forall i: nat, c :: LiveHit(SpaceOf(store), internalToExternal, deleted, q, i, c) ==>
                  c in res || (|res| == topk && forall d :: d in res ==>
                                                  d.score > c.score || (d.score == c.score && d.id < c.id))
    {
      assert |internalToExternal| == |norms| == |deleted| == |offsets| == |graph|;
      assert IdsMatch(idToInternal, internalToExternal) && (efConstruction >= m ==> CompleteWhileSmall(graph, m));
      hide StoredFor, TableOk, GraphOk, Beam, LiveAmong, CompleteWhileSmall, Entered, Descent, LiveHit, IdsMatch,
        ScoresIn,
        DistinctIds, TopK, Distinct;
      if offsets == [] {
        NothingFound(topk, deleted, internalToExternal, ScoresOf(store, q));
        DistinctUpTo(|offsets|);
        SearchHolds(SpaceOf(store), idToInternal, internalToExternal, deleted, q, topk, UpTo(|offsets|), []);
        return [];
      }
      ghost var entry, beam;
      res, entry, beam := FindBest(store, q, topk);
      ghost var stops := EnteredAfter(graph, ScoresOf(store, q), entryId, maxLevel, entry);
      SearchHolds(SpaceOf(store), idToInternal, internalToExternal, deleted, q, topk, beam, res);
      if efConstruction >= m && efSearch >= m + 1 && |offsets| <= m + 1 {
        SmallSearch(graph, m, SpaceOf(store), idToInternal, internalToExternal, deleted, q, topk, entry,
                    Width(efSearch), beam, res);
      }
    }

    /** Finds the live members of the beam, sorts and cuts them. */
    method FindBest(store: nat -> Vec, q: Vec, topk: nat)
      returns (res: seq<Candidate>, ghost entry: nat, ghost beam: seq<nat>)
      requires Valid() && offsets != []
      modifies visited
      ensures Valid() && |graph| == |offsets|
      ensures Entered(graph, ScoresOf(store, q), entryId, maxLevel, entry)
      ensures Beam(LayerOf(graph, 0), ScoresOf(store, q), entry, Width(efSearch), beam)
      ensures res == TopK(IsBetter, topk, LiveAmong(beam, deleted, internalToExternal, ScoresOf(store, q)))
      ensures Distinct(beam) && forall j :: 0 <= j < |beam| ==> beam[j] < |offsets|
    {
      hide StoredFor, TableOk, GraphOk, Beam, LiveAmong, CompleteWhileSmall, Sort, Entered;
      res, entry, beam := Gather(store, q);
      res := Sort(IsBetter, res);
      if |res| > topk {
        res := res[..topk];
      }
    }

    /** The beam over layer 0 and its members that are not deleted. */
    method Gather(store: nat -> Vec, q: Vec) returns (live: seq<Candidate>, ghost entry: nat, ghost beam: seq<nat>)
      requires Valid() && offsets != []
      modifies visited
      ensures Valid() && |graph| == |offsets|
      ensures Entered(graph, ScoresOf(store, q), entryId, maxLevel, entry)
      ensures Beam(LayerOf(graph, 0), ScoresOf(store, q), entry, Width(efSearch), beam)
      ensures live == LiveAmong(beam, deleted, internalToExternal, ScoresOf(store, q))
      ensures Distinct(beam) && forall j :: 0 <= j < |beam| ==> beam[j] < |offsets|
    {
      assert |deleted| == |internalToExternal| == |norms| == |graph| == |offsets|;
      hide TableOk, WithinLimits, LevelsStored, RowsStored, UpperStored, CompleteAmong, Entered;
      var curr := DescendFromEntry(store, q);
      entry := curr;
      var found := SearchLayer(store, q, curr, 0, efSearch);
      beam := found;
      BeamInRange(graph, ScoresOf(store, q), entry, Width(efSearch), found);
      live := CollectLive(found, deleted, internalToExternal, ScoresOf(store, q));
    }

    method DescendFromEntry(store: nat -> Vec, q: Vec) returns (curr: nat)
      requires Valid() && offsets != []
      modifies visited
      ensures Valid() && curr < |offsets|
      ensures Entered(graph, ScoresOf(store, q), entryId, maxLevel, curr)
    {
      hide IdsMatch, WithinLimits, RowsStored, UpperStored, DescendedTo;
      curr := Descend(store, q, entryId, maxLevel, 0, |graph|);
    }
  }

  // ----- what a search returns -----

  /** The candidates for the given nodes that are not deleted, in the given order. */
  function LiveAmong(ids: seq<nat>, deleted: seq<bool>, external: seq<nat>, score: Scores): seq<Candidate> {
    if ids == [] then []
    else
      var front, i := LiveAmong(ids[..|ids| - 1], deleted, external, score), ids[|ids| - 1];
      if i < |deleted| && i < |external| && i < |score| && !deleted[i] then front + [Candidate(external[i], score[i])]
      else front
  }

  function UpTo(n: nat): (s: seq<nat>)
    ensures |s| == n && forall i :: 0 <= i < n ==> s[i] == i
  {
    seq(n, i => i)
  }

  lemma {:induction false} LiveSplit(a: seq<nat>, b: seq<nat>, deleted: seq<bool>, external: seq<nat>, score: Scores)
    ensures LiveAmong(a + b, deleted, external, score)
         == LiveAmong(a, deleted, external, score) + LiveAmong(b, deleted, external, score)
  {
    if b == [] {
      assert a + b == a;
    } else {
      assert (a + b)[..|a + b| - 1] == a + b[..|b| - 1];
      LiveSplit(a, b[..|b| - 1], deleted, external, score);
    }
  }

  /** Candidate c stands for node i, which is not deleted: its id, and the dot product of the query
      with its vector, over its norm for cosine if it has one. */
  ghost predicate LiveHit(sp: Space, external: seq<nat>, deleted: seq<bool>, q: Vec, i: nat, c: Candidate) {
    && i < |sp.offsets| && i < |sp.norms| && i < |external| && i < |deleted| && !deleted[i]
    && c.id == external[i]
    && var s := sp.dot(q, sp.store(sp.offsets[i]));
       c.score == if sp.cosine && sp.norms[i] > 0.0 then s / sp.norms[i] else s
  }

  lemma LiveAmongMore(ids: seq<nat>, i: nat, deleted: seq<bool>, external: seq<nat>, score: Scores)
    requires i < |deleted| && i < |external| && i < |score|
    ensures LiveAmong(ids + [i], deleted, external, score) ==
            LiveAmong(ids, deleted, external, score) + if deleted[i] then [] else [Candidate(external[i], score[i])]
  {
    assert (ids + [i])[..|ids|] == ids;
  }

  lemma {:induction false} LiveAmongHas(sp: Space, external: seq<nat>, deleted: seq<bool>, q: Vec, ids: seq<nat>)
    requires |external| == |deleted| == |sp.norms| == |sp.offsets|
    requires forall j :: 0 <= j < |ids| ==> ids[j] < |sp.offsets|
    ensures forall c :: c in LiveAmong(ids, deleted, external, ScoresIn(sp, q)) ==>
                        exists i: nat :: i in ids && LiveHit(sp, external, deleted, q, i, c)
    ensures forall i: nat, c :: i in ids && LiveHit(sp, external, deleted, q, i, c) ==>
                           c in LiveAmong(ids, deleted, external, ScoresIn(sp, q))
  {
    if ids == [] {
      assert LiveAmong(ids, deleted, external, ScoresIn(sp, q)) == [];
    } else {
      var front, i := ids[..|ids| - 1], ids[|ids| - 1];
      assert ids == front + [i];
      LiveAmongHas(sp, external, deleted, q, front);
      LiveAmongMore(front, i, deleted, external, ScoresIn(sp, q));
      var mine := Candidate(external[i], ScoresIn(sp, q)[i]);
      assert forall c :: LiveHit(sp, external, deleted, q, i, c) <==> !deleted[i] && c == mine;
      hide LiveHit, LiveAmong, ScoresIn;
      forall c | c in LiveAmong(ids, deleted, external, ScoresIn(sp, q))
        ensures exists i: nat :: i in ids && LiveHit(sp, external, deleted, q, i, c)
      {
        if c in LiveAmong(front, deleted, external, ScoresIn(sp, q)) {
          var k: nat :| k in front && LiveHit(sp, external, deleted, q, k, c);
          assert k in ids;
        } else {
          assert LiveHit(sp, external, deleted, q, i, c);
        }
      }
    }
  }

  lemma {:induction false} LiveAmongDistinct(sp: Space, external: seq<nat>, deleted: seq<bool>, q: Vec, ids: seq<nat>)
    requires |external| == |deleted| == |sp.norms| == |sp.offsets|
    requires Distinct(ids) && forall j :: 0 <= j < |ids| ==> ids[j] < |sp.offsets|
    requires forall i, j :: 0 <= i < j < |external| ==> external[i] != external[j]
    ensures DistinctIds(LiveAmong(ids, deleted, external, ScoresIn(sp, q)))
  {
    if ids != [] {
      var front, i := ids[..|ids| - 1], ids[|ids| - 1];
      assert ids == front + [i];
      LiveAmongDistinct(sp, external, deleted, q, front);
      LiveAmongHas(sp, external, deleted, q, front);
      LiveAmongMore(front, i, deleted, external, ScoresIn(sp, q));
      var live := LiveAmong(front, deleted, external, ScoresIn(sp, q));
      hide LiveAmong, ScoresIn;
      forall j | 0 <= j < |live| ensures live[j].id != external[i] {
        assert live[j] in live;
        var k :| k in front && LiveHit(sp, external, deleted, q, k, live[j]);
        assert k != i;
      }
    }
  }

  /** What a search returns from the nodes it has found: live ones with their own scores, each once,
      best first; and one that was found is missing only when topk better ones are there. */
  lemma SearchHolds(sp: Space, idToInternal: map<nat, nat>, external: seq<nat>, deleted: seq<bool>, q: Vec, topk: nat,
                    ids: seq<nat>, res: seq<Candidate>)
    requires |external| == |deleted| == |sp.norms| == |sp.offsets| && IdsMatch(idToInternal, external)
    requires Distinct(ids) && forall j :: 0 <= j < |ids| ==> ids[j] < |sp.offsets|
    requires res == TopK(IsBetter, topk, LiveAmong(ids, deleted, external, ScoresIn(sp, q)))
    ensures |res| <= topk && DistinctIds(res)
    ensures forall j, k :: 0 <= j < k < |res| ==>
              res[j].score > res[k].score || (res[j].score == res[k].score && res[j].id < res[k].id)
    ensures forall c :: c in res ==> exists i: nat :: LiveHit(sp, external, deleted, q, i, c)
    ensures forall i: nat, c :: i in ids && LiveHit(sp, external, deleted, q, i, c) ==>
              c in res || (|res| == topk && forall d :: d in res ==>
                                              d.score > c.score || (d.score == c.score && d.id < c.id))
  {
    forall i, j | 0 <= i < j < |external| ensures external[i] != external[j] {
      assert idToInternal[external[i]] == i && idToInternal[external[j]] == j;
    }
    hide LiveHit, LiveAmong, TopK, IsBetter, ScoresIn, Distinct;
    LiveAmongHas(sp, external, deleted, q, ids);
    LiveAmongDistinct(sp, external, deleted, q, ids);
    BestAre(topk, LiveAmong(ids, deleted, external, ScoresIn(sp, q)));
  }

  lemma DistinctUpTo(n: nat)
    ensures Distinct(UpTo(n))
  {
  }

  /** While the graph is small every live node is among the found ones. */
  lemma SmallSearch(g: LayeredGraph, m: nat, sp: Space, idToInternal: map<nat, nat>, external: seq<nat>,
                    deleted: seq<bool>, q: Vec, topk: nat, entry: nat, width: nat, beam: seq<nat>, res: seq<Candidate>)
    requires |external| == |deleted| == |sp.norms| == |sp.offsets| == |g| && IdsMatch(idToInternal, external)
    requires CompleteWhileSmall(g, m) && |g| <= m + 1 <= width
             && Beam(LayerOf(g, 0), ScoresIn(sp, q), entry, width, beam)
    requires res == TopK(IsBetter, topk, LiveAmong(beam, deleted, external, ScoresIn(sp, q)))
    ensures res == TopK(IsBetter, topk, LiveAmong(UpTo(|sp.offsets|), deleted, external, ScoresIn(sp, q)))
    ensures forall i: nat, c :: LiveHit(sp, external, deleted, q, i, c) ==>
              c in res || (|res| == topk && forall d :: d in res ==>
                                              d.score > c.score || (d.score == c.score && d.id < c.id))
  {
    hide Sort, LiveAmong, LiveHit, Beam, CompleteWhileSmall, IdsMatch, ScoresIn, Distinct;
    ExactWhenSmall(g, m, ScoresIn(sp, q), entry, width, beam, deleted, external);
    DistinctUpTo(|g|);
    SearchHolds(sp, idToInternal, external, deleted, q, topk, UpTo(|g|), res);
    forall i: nat, c | LiveHit(sp, external, deleted, q, i, c) ensures i in UpTo(|g|) {
      assert i < |g| by { LiveHitInRange(sp, external, deleted, q, i, c); }
      assert UpTo(|g|)[i] == i;
    }
  }

  lemma LiveHitInRange(sp: Space, external: seq<nat>, deleted: seq<bool>, q: Vec, i: nat, c: Candidate)
    requires LiveHit(sp, external, deleted, q, i, c)
    ensures i < |sp.offsets|
  {
  }

  lemma NothingFound(topk: nat, deleted: seq<bool>, external: seq<nat>, score: Scores)
    ensures TopK(IsBetter, topk, LiveAmong(UpTo(0), deleted, external, score)) == []
  {
  }

  /** The order in which nodes are found does not change which candidates there are. */
  lemma {:induction false} LiveOfPermutation(a: seq<nat>, b: seq<nat>, deleted: seq<bool>, external: seq<nat>,
                                             score: Scores)
    requires multiset(a) == multiset(b)
    ensures multiset(LiveAmong(a, deleted, external, score)) == multiset(LiveAmong(b, deleted, external, score))
    decreases |a|
  {
    if a == [] {
      assert |b| == |multiset(b)| == 0;
    } else {
      hide LiveAmong;
      var front, x := a[..|a| - 1], a[|a| - 1];
      assert a == front + [x];
      var k := TakeOutOne(front, x, b);
      var l, r := b[..k], b[k + 1..];
      LiveOfPermutation(front, l + r, deleted, external, score);
      LiveSplit(l, [x] + r, deleted, external, score);
      LiveSplit([x], r, deleted, external, score);
      LiveSplit(l, r, deleted, external, score);
      LiveSplit(front, [x], deleted, external, score);
    }
  }

  lemma BeamInRange(g: LayeredGraph, score: Scores, entry: nat, width: nat, beam: seq<nat>)
    requires Beam(LayerOf(g, 0), score, entry, width, beam)
    ensures forall i :: 0 <= i < |beam| ==> beam[i] < |g|
  {
    forall i | 0 <= i < |beam| ensures beam[i] < |g| {
      assert beam[i] in beam;
    }
  }

  /** A wide enough beam over a small graph holds every node once. */
  lemma WholeBeam(g: LayeredGraph, m: nat, score: Scores, entry: nat, width: nat, beam: seq<nat>)
    requires CompleteWhileSmall(g, m) && |g| <= m + 1 <= width
    requires Beam(LayerOf(g, 0), score, entry, width, beam)
    ensures multiset(beam) == multiset(UpTo(|g|))
  {
    BeamInRange(g, score, entry, width, beam);
    assert SetOf(beam) <= Below(|g|);
    BeamOnCompleteNodes(LayerOf(g, 0), |g|, score, entry, width, beam);
    WholeRange(beam, |g|);
  }

  lemma WholeRange(beam: seq<nat>, n: nat)
    requires Distinct(beam) && SetOf(beam) == Below(n)
    ensures multiset(beam) == multiset(UpTo(n))
  {
    forall x: nat ensures x in beam <==> x in UpTo(n) {
      assert x in beam <==> x in SetOf(beam);
      assert x < n ==> UpTo(n)[x] == x;
    }
    SameMembers(beam, UpTo(n));
  }

  lemma ExactWhenSmall(g: LayeredGraph, m: nat, score: Scores, entry: nat, width: nat, beam: seq<nat>,
                       deleted: seq<bool>, external: seq<nat>)
    requires CompleteWhileSmall(g, m) && |g| <= m + 1 <= width
    requires Beam(LayerOf(g, 0), score, entry, width, beam)
    ensures Sort(IsBetter, LiveAmong(beam, deleted, external, score))
         == Sort(IsBetter, LiveAmong(UpTo(|g|), deleted, external, score))
  {
    WholeBeam(g, m, score, entry, width, beam);
    LiveOfPermutation(beam, UpTo(|g|), deleted, external, score);
    IsBetterTotal();
    SortOfPermutation(IsBetter, LiveAmong(beam, deleted, external, score),
                      LiveAmong(UpTo(|g|), deleted, external, score));
  }

  method CollectLive(beam: seq<nat>, deleted: seq<bool>, external: seq<nat>,
                     score: Scores) returns (live: seq<Candidate>)
    requires |deleted| == |external| == |score| && forall i :: 0 <= i < |beam| ==> beam[i] < |score|
    ensures live == LiveAmong(beam, deleted, external, score)
  {
    live := [];
    for i := 0 to |beam|
      invariant live == LiveAmong(beam[..i], deleted, external, score)
    {
      TakeOneMore(beam, i);
      if !deleted[beam[i]] {
        live := live + [Candidate(external[beam[i]], score[beam[i]])];
      }
    }
    assert beam[..|beam|] == beam;
  }

  lemma SameMembers(a: seq<nat>, b: seq<nat>)
    requires Distinct(a) && Distinct(b) && forall x :: x in a <==> x in b
    ensures multiset(a) == multiset(b)
  {
    forall x ensures multiset(a)[x] == multiset(b)[x] {
      AtMostOnceIn(a, x);
      AtMostOnceIn(b, x);
      assert x in a <==> x in multiset(a);
      assert x in b <==> x in multiset(b);
    }
  }
}
