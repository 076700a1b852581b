/** Generation-stamped posting lists: which postings are live, and where. */
module Postings {
  import opened Candidates
  import opened Centroids

  datatype DocState = DocState(offset: nat, gen: nat, deleted: bool)
  datatype Posting = Posting(id: nat, gen: nat)
  type Docs = map<nat, DocState>

  predicate EntryIsLive(docs: Docs, p: Posting) {
    p.id in docs && !docs[p.id].deleted && docs[p.id].gen == p.gen
  }

  predicate IsLive(docs: Docs, id: nat) {
    id in docs && !docs[id].deleted
  }

  /** The doc table entry after an upsert; a new entry starts from generation 0. */
  function Bumped(docs: Docs, id: nat, offset: nat): Docs {
    docs[id := DocState(offset, (if id in docs then docs[id].gen else 0) + 1, false)]
  }

  function Dropped(docs: Docs, id: nat): Docs
    requires id in docs
  {
    docs[id := docs[id].(gen := docs[id].gen + 1, deleted := true)]
  }

  /** The entry of id after an upsert at this offset: live, under the next generation; and no other
      entry changes. */
  ghost predicate Renewed(before: Docs, after: Docs, id: nat, offset: nat) {
    && id in after && after[id].offset == offset && !after[id].deleted
    && after[id].gen == (if id in before then before[id].gen else 0) + 1
    && forall d :: d != id ==> (d in after <==> d in before) && (d in after ==> after[d] == before[d])
  }

  /** The entry of id after a delete: deleted, under the next generation; and no other entry changes. */
  ghost predicate Retired(before: Docs, after: Docs, id: nat) {
    && id in before && id in after && after[id].deleted && after[id].offset == before[id].offset
    && after[id].gen == before[id].gen + 1
    && forall d :: d != id ==> (d in after <==> d in before) && (d in after ==> after[d] == before[d])
  }

  // ----- generations only grow -----

  /** How the doc table may move on: no doc goes away, and a doc that changes gets a higher generation. */
  ghost predicate DocsAdvance(before: Docs, after: Docs) {
    forall id :: id in before ==> id in after && (after[id] == before[id] || after[id].gen > before[id].gen)
  }

  lemma AdvanceTransitive(a: Docs, b: Docs, c: Docs)
    requires DocsAdvance(a, b) && DocsAdvance(b, c)
    ensures DocsAdvance(a, c)
  {
  }

  /** A stale posting stays stale however the table moves on. */
  lemma StaleStaysStale(before: Docs, after: Docs, p: Posting)
    requires DocsAdvance(before, after) && p.id in before && p.gen <= before[p.id].gen
    requires !EntryIsLive(before, p)
    ensures !EntryIsLive(after, p)
  {
  }

  /** The tables of a whole run, one after the other: every upsert, delete, training and compaction
      moves the table on. */
  ghost predicate Advancing(tables: seq<Docs>) {
    forall k :: 0 < k < |tables| ==> DocsAdvance(tables[k - 1], tables[k])
  }

  lemma {:induction false} AdvancesOver(tables: seq<Docs>, i: nat, j: nat)
    requires Advancing(tables) && i <= j < |tables|
    ensures DocsAdvance(tables[i], tables[j])
  {
    if i < j {
      AdvancesOver(tables, i, j - 1);
      AdvanceTransitive(tables[i], tables[j - 1], tables[j]);
    }
  }

  /** Over a whole run a posting is live at a later point only if it was live at every earlier one
      since it was made: once stale it never comes back, however often its doc is stored again. */
  lemma StaleForever(tables: seq<Docs>, i: nat, j: nat, k: nat, p: Posting)
    requires Advancing(tables) && i <= j <= k < |tables|
    requires p.id in tables[i] && p.gen <= tables[i][p.id].gen
    ensures EntryIsLive(tables[k], p) ==> EntryIsLive(tables[j], p)
  {
    AdvancesOver(tables, i, j);
    AdvancesOver(tables, j, k);
    if !EntryIsLive(tables[j], p) {
      StaleStaysStale(tables[j], tables[k], p);
    }
  }

  // ----- placement -----

  /** The vector each doc has in the store. */
  function VectorsOf(docs: Docs, store: nat -> Vec): map<nat, Vec> {
    map id | id in docs :: store(docs[id].offset)
  }

  /** The list each vector is assigned to. */
  function HomesOf(dot: (Vec, Vec) -> real, centroids: seq<Vec>, vectors: map<nat, Vec>): map<nat, int> {
    map id | id in vectors :: Assign(dot, centroids, vectors[id])
  }

  lemma HomeMoved(dot: (Vec, Vec) -> real, centroids: seq<Vec>, vectors: map<nat, Vec>, id: nat, v: Vec)
    ensures HomesOf(dot, centroids, vectors[id := v]) ==
              HomesOf(dot, centroids, vectors)[id := Assign(dot, centroids, v)]
  {
  }

  /** What a trained index keeps: home(id) is the list its current vector is assigned to. */
  ghost predicate Placed(docs: Docs, lists: seq<seq<Posting>>, home: map<nat, int>) {
    && (forall c, j :: 0 <= c < |lists| && 0 <= j < |lists[c]| ==> PostingOk(docs, home, c, lists[c][j]))
    && (forall id :: IsLive(docs, id) ==> id in home && -1 <= home[id] < |lists|)
    && (forall id :: IsLive(docs, id) && home[id] >= 0 ==> Posting(id, docs[id].gen) in lists[home[id]])
  }

  ghost predicate PostingOk(docs: Docs, home: map<nat, int>, c: int, p: Posting) {
    && p.id in docs && p.gen <= docs[p.id].gen
    && (EntryIsLive(docs, p) ==> p.id in home && home[p.id] == c)
  }

  /** No list holds two live postings of one doc. */
  ghost predicate Once(docs: Docs, lists: seq<seq<Posting>>) {
    forall c :: 0 <= c < |lists| ==> OnceIn(docs, lists[c])
  }

  ghost predicate OnceIn(docs: Docs, list: seq<Posting>) {
    forall i, j :: 0 <= i < j < |list| && EntryIsLive(docs, list[i]) ==> list[i] != list[j]
  }

  function Pushed(lists: seq<seq<Posting>>, c: int, p: Posting): seq<seq<Posting>> {
    if 0 <= c < |lists| then lists[c := lists[c] + [p]] else lists
  }

  lemma UpsertKeeps(docs: Docs, lists: seq<seq<Posting>>, home: map<nat, int>, id: nat, offset: nat, c: int)
    requires Placed(docs, lists, home) && -1 <= c < |lists|
    ensures var docs' := Bumped(docs, id, offset);
            var lists' := Pushed(lists, c, Posting(id, docs'[id].gen));
            DocsAdvance(docs, docs') && Placed(docs', lists', home[id := c])
              && (Once(docs, lists) ==> Once(docs', lists'))
  {
    var docs' := Bumped(docs, id, offset);
    var p := Posting(id, docs'[id].gen);
    var lists', home' := Pushed(lists, c, p), home[id := c];
    forall b, j | 0 <= b < |lists'| && 0 <= j < |lists'[b]| ensures PostingOk(docs', home', b, lists'[b][j]) {
      if b == c && j == |lists'[c]| - 1 {
      } else {
        assert lists'[b][j] == lists[b][j] && PostingOk(docs, home, b, lists[b][j]);
      }
    }
    forall d | IsLive(docs', d) && home'[d] >= 0 ensures Posting(d, docs'[d].gen) in lists'[home'[d]] {
      if d != id {
        assert IsLive(docs, d) && Posting(d, docs[d].gen) in lists[home[d]];
      }
    }
    if Once(docs, lists) {
      forall b | 0 <= b < |lists'| ensures OnceIn(docs', lists'[b]) {
        assert OnceIn(docs, lists[b]);
        forall i, j | 0 <= i < j < |lists'[b]| && EntryIsLive(docs',
                                                              lists'[b][i]) ensures lists'[b][i] != lists'[b][j] {
          assert i < |lists[b]| && PostingOk(docs, home, b, lists[b][i]);
        }
      }
    }
  }

  lemma DeleteKeeps(docs: Docs, lists: seq<seq<Posting>>, home: map<nat, int>, id: nat)
    requires Placed(docs, lists, home) && id in docs
    ensures var docs' := Dropped(docs, id);
            DocsAdvance(docs, docs') && Placed(docs', lists, home) && (Once(docs, lists) ==> Once(docs', lists))
  {
    var docs' := Dropped(docs, id);
    forall c, j | 0 <= c < |lists| && 0 <= j < |lists[c]| ensures PostingOk(docs', home, c, lists[c][j]) {
      assert PostingOk(docs, home, c, lists[c][j]);
    }
    forall d | IsLive(docs', d) && home[d] >= 0 ensures Posting(d, docs'[d].gen) in lists[home[d]] {
      assert IsLive(docs, d) && d != id;
    }
    if Once(docs, lists) {
      forall b | 0 <= b < |lists| ensures OnceIn(docs', lists[b]) {
        assert OnceIn(docs, lists[b]);
        forall i, j | 0 <= i < j < |lists[b]| && EntryIsLive(docs', lists[b][i]) ensures lists[b][i] != lists[b][j] {
          assert PostingOk(docs, home, b, lists[b][i]);
        }
      }
    }
  }

  // ----- compaction -----

  function Compacted(docs: Docs, list: seq<Posting>): seq<Posting> {
    if list == [] then []
    else
      var front, p := Compacted(docs, list[..|list| - 1]), list[|list| - 1];
      if EntryIsLive(docs, p) then front + [p] else front
  }

  lemma {:induction false} CompactedHas(docs: Docs, list: seq<Posting>)
    ensures forall p :: p in Compacted(docs, list) <==> p in list && EntryIsLive(docs, p)
    ensures OnceIn(docs, list) ==> OnceIn(docs, Compacted(docs, list))
  {
    if list == [] {
    } else {
      var front, p := list[..|list| - 1], list[|list| - 1];
      CompactedHas(docs, front);
      assert list == front + [p];
      if OnceIn(docs, list) {
        assert forall i, j :: 0 <= i < j < |front| ==> front[i] == list[i] && front[j] == list[j];
        assert OnceIn(docs, front);
        assert EntryIsLive(docs, p) ==> p !in front;
      }
    }
  }

  lemma CompactKeeps(docs: Docs, lists: seq<seq<Posting>>, home: map<nat, int>, c: nat)
    requires Placed(docs, lists, home) && c < |lists|
    ensures var lists' := lists[c := Compacted(docs, lists[c])];
            Placed(docs, lists', home) && (Once(docs, lists) ==> Once(docs, lists'))
  {
    CompactedHas(docs, lists[c]);
    var lists' := lists[c := Compacted(docs, lists[c])];
    forall b, j | 0 <= b < |lists'| && 0 <= j < |lists'[b]| ensures PostingOk(docs, home, b, lists'[b][j]) {
      if b == c {
        assert lists'[c][j] in lists[c];
        var i :| 0 <= i < |lists[c]| && lists[c][i] == lists'[c][j];
        assert PostingOk(docs, home, c, lists[c][i]);
      } else {
        assert PostingOk(docs, home, b, lists[b][j]);
      }
    }
  }

  // ----- training -----

  /** Placement of the docs met so far while the buffer is distributed. */
  ghost predicate PlacedSoFar(docs: Docs, lists: seq<seq<Posting>>, home: map<nat, int>, done: seq<nat>) {
    && (forall c, j :: 0 <= c < |lists| && 0 <= j < |lists[c]| ==>
          PostingOk(docs, home, c, lists[c][j]) && EntryIsLive(docs, lists[c][j]) && lists[c][j].id in done)
    && (forall id :: id in done && IsLive(docs, id) ==> id in home && -1 <= home[id] < |lists|)
    && (forall id :: id in done && IsLive(docs, id) && home[id] >= 0 ==> Posting(id, docs[id].gen) in lists[home[id]])
  }

  lemma TrainStep(docs: Docs, lists: seq<seq<Posting>>, home: map<nat, int>, done: seq<nat>, id: nat)
    requires PlacedSoFar(docs, lists, home, done)
    requires IsLive(docs, id) ==> id in home && -1 <= home[id] < |lists|
    ensures var lists' := if IsLive(docs, id) then Pushed(lists, home[id], Posting(id, docs[id].gen)) else lists;
            PlacedSoFar(docs, lists', home, done + [id]) && (id !in done && Once(docs, lists) ==> Once(docs, lists'))
  {
    if IsLive(docs, id) {
      var c, p := home[id], Posting(id, docs[id].gen);
      var lists' := Pushed(lists, c, p);
      forall b, j | 0 <= b < |lists'| && 0 <= j < |lists'[b]|
        ensures PostingOk(docs, home, b, lists'[b][j]) && EntryIsLive(docs, lists'[b][j])
                && lists'[b][j].id in done + [id]
      {
        if b == c && j == |lists'[c]| - 1 {
        } else {
          assert lists'[b][j] == lists[b][j];
        }
      }
      if id !in done && Once(docs, lists) {
        forall b | 0 <= b < |lists'| ensures OnceIn(docs, lists'[b]) {
          assert OnceIn(docs, lists[b]);
        }
      }
    }
  }

  /** The lists training builds from a buffer. */
  function Distributed(docs: Docs, home: map<nat, int>, n: nat, buffer: seq<nat>): (lists: seq<seq<Posting>>)
    ensures |lists| == n
  {
    if buffer == [] then seq(n, _ => [])
    else
      var lists, id := Distributed(docs, home, n, buffer[..|buffer| - 1]), buffer[|buffer| - 1];
      if IsLive(docs, id) && id in home then Pushed(lists, home[id], Posting(id, docs[id].gen)) else lists
  }

  /** Live postings come out single exactly when no live, assigned doc was buffered twice. */
  ghost predicate BufferedOnce(docs: Docs, home: map<nat, int>, buffer: seq<nat>)
    requires forall d :: IsLive(docs, d) ==> d in home
  {
    forall i, j :: 0 <= i < j < |buffer| && IsLive(docs, buffer[i]) && home[buffer[i]] >= 0 ==> buffer[i] != buffer[j]
  }

  lemma {:induction false} DistributedPlaces(docs: Docs, home: map<nat, int>, n: nat, buffer: seq<nat>)
    requires forall id :: IsLive(docs, id) ==> id in home && -1 <= home[id] < n
    ensures PlacedSoFar(docs, Distributed(docs, home, n, buffer), home, buffer)
    ensures Once(docs, Distributed(docs, home, n, buffer)) <==> BufferedOnce(docs, home, buffer)
  {
    if buffer == [] {
    } else {
      var front, id := buffer[..|buffer| - 1], buffer[|buffer| - 1];
      assert buffer == front + [id];
      var lists := Distributed(docs, home, n, front);
      DistributedPlaces(docs, home, n, front);
      TrainStep(docs, lists, home, front, id);
      if IsLive(docs, id) && home[id] >= 0 {
        var p := Posting(id, docs[id].gen);
        assert p in lists[home[id]] <==> id in front;
        PushOnce(docs, lists, home[id], p);
      }
      BufferedOneMore(docs, home, front, id);
    }
  }

  lemma PushOnce(docs: Docs, lists: seq<seq<Posting>>, c: nat, p: Posting)
    requires c < |lists| && EntryIsLive(docs, p)
    ensures Once(docs, Pushed(lists, c, p)) <==> Once(docs, lists) && p !in lists[c]
  {
    var lists' := Pushed(lists, c, p);
    if Once(docs, lists') {
      forall b | 0 <= b < |lists| ensures OnceIn(docs, lists[b]) {
        assert OnceIn(docs, lists'[b]);
        assert forall i :: 0 <= i < |lists[b]| ==> lists'[b][i] == lists[b][i];
      }
      assert OnceIn(docs, lists'[c]);
      forall i | 0 <= i < |lists[c]| ensures lists[c][i] != p {
        assert lists'[c][i] == lists[c][i] && lists'[c][|lists[c]|] == p;
      }
    }
    if Once(docs, lists) && p !in lists[c] {
      forall b | 0 <= b < |lists'| ensures OnceIn(docs, lists'[b]) {
        assert OnceIn(docs, lists[b]);
      }
    }
  }

  lemma BufferedOneMore(docs: Docs, home: map<nat, int>, front: seq<nat>, id: nat)
    requires forall d :: IsLive(docs, d) ==> d in home
    ensures BufferedOnce(docs, home, front + [id]) <==>
            BufferedOnce(docs, home, front) && (IsLive(docs, id) && home[id] >= 0 ==> id !in front)
  {
    var all := front + [id];
    if BufferedOnce(docs, home, all) {
      assert forall i :: 0 <= i < |front| ==> all[i] == front[i];
      if IsLive(docs, id) && home[id] >= 0 {
        forall i | 0 <= i < |front| ensures front[i] != id {
          assert all[i] == front[i] && all[|front|] == id;
        }
      }
    }
  }

  /** Training a buffer that names every doc places every live doc; single postings need single buffering. */
  lemma BufferPlaced(docs: Docs, dot: (Vec, Vec) -> real, centroids: seq<Vec>, vectors: map<nat, Vec>, buffer: seq<nat>,
                     lists: seq<seq<Posting>>)
    requires vectors.Keys == docs.Keys && forall id :: id in docs <==> id in buffer
    requires lists == Distributed(docs, HomesOf(dot, centroids, vectors), |centroids|, buffer)
    ensures Placed(docs, lists, HomesOf(dot, centroids, vectors))
    ensures Once(docs, lists) <==> BufferedOnce(docs, HomesOf(dot, centroids, vectors), buffer)
    ensures (forall i, j :: 0 <= i < j < |buffer| ==> buffer[i] != buffer[j]) ==> Once(docs, lists)
  {
    DistributedPlaces(docs, HomesOf(dot, centroids, vectors), |centroids|, buffer);
  }
}
