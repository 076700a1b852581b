/** The engine's search: every shard is asked in turn, and their answers are merged. */
module Engine {
  import opened Ranking
  import opened Candidates
  import opened VectorStore
  import opened FlatIndex
  import opened KeywordIndex
  import opened Merge
  import opened ShardState
  import opened ShardSearch
  import opened Status
  import Shards = Shard

  /** What all shards are built with. */
  datatype Config = Config(dim: nat, maxCandidates: nat, rerankFactor: nat, dot: (Vec, Vec) -> real,
                           value: Float32 -> real)

  /** A valid shard of this configuration. */
  ghost predicate Configured(s: Shards.Shard, cfg: Config)
    reads s, s.store, s.index, s.keywords
  {
    && s.Valid() && s.dim == cfg.dim && s.maxCandidates == cfg.maxCandidates && s.rerankFactor == cfg.rerankFactor
    && s.index.dot == cfg.dot && s.value == cfg.value
  }

  /** The live docs of every shard, with their exact scores. */
  function Lives(views: seq<View>, score: Vector -> real): (lives: seq<seq<Hit>>)
    ensures |lives| == |views| && forall n :: 0 <= n < |views| ==> lives[n] == ShardLive(views[n], score)
  {
    seq(|views|, n requires 0 <= n < |views| => ShardLive(views[n], score))
  }

  /** How many items a shard sends at most. */
  function Bound(cfg: Config, topk: nat): nat {
    if topk <= cfg.maxCandidates then topk else cfg.maxCandidates
  }

  /** What the engine returns over shards in these states: the best topk of what they send. */
  function Answered(cfg: Config, views: seq<View>, q: Vec, topk: nat): seq<Hit>
    requires cfg.rerankFactor >= 1
  {
    TopK(Better, topk, Concat(AllShardHits(Bound(cfg, topk), CandidateCount(topk, cfg.maxCandidates, cfg.rerankFactor),
                                           Lives(views, QueryScore(cfg.dot, cfg.value, q)))))
  }

  /** The parts of every shard agree, and no live doc expires while its shard looks at candidates. */
  ghost predicate Steady(views: seq<View>, early: nat -> Clock, late: nat -> Clock) {
    forall n :: 0 <= n < |views| ==>
      Coherent(views[n]) && NoneExpires(views[n].docs, early(n)) && NoneExpires(views[n].docs, late(n))
  }

  /** What one shard sends, if its parts agree and no live doc of it expires meanwhile. */
  ghost predicate Sends(cfg: Config, s: View, q: Vec, topk: int, early: Clock, late: Clock, hits: seq<Hit>)
    requires cfg.rerankFactor >= 1
  {
    topk > 0 && Coherent(s) && NoneExpires(s.docs, early) && NoneExpires(s.docs, late) ==>
      hits == ShardHits(Bound(cfg, topk), CandidateCount(topk, cfg.maxCandidates, cfg.rerankFactor),
                        ShardLive(s, QueryScore(cfg.dot, cfg.value, q)))
  }

  /** Items a shard may send: for its docs, live and unexpired at a reading of each clock, with their keys and
      exact scores. */
  ghost predicate Genuine(cfg: Config, s: View, q: Vec, early: Clock, late: Clock, hits: seq<Hit>) {
    Coherent(s) ==> ItemsAreLive(s, cfg.dot, cfg.value, q, early, late, hits)
  }

  /** The item is one that some shard may send. */
  ghost predicate FromSome(cfg: Config, views: seq<View>, q: Vec, early: nat -> Clock, late: nat -> Clock, h: Hit) {
    exists n :: 0 <= n < |views| && Genuine(cfg, views[n], q, early(n), late(n), [h])
  }

  lemma MergedAreGenuine(cfg: Config, views: seq<View>, q: Vec, topk: nat, early: nat -> Clock, late: nat -> Clock,
                         sent: seq<seq<Hit>>)
    requires |sent| == |views|
    requires forall n :: 0 <= n < |views| ==> Genuine(cfg, views[n], q, early(n), late(n), sent[n])
    ensures var results := TopK(Better, topk, Concat(sent));
      && |results| <= topk && Ranked(Better, results)
      && forall h :: h in results ==> FromSome(cfg, views, q, early, late, h)
  {
    var results := TopK(Better, topk, Concat(sent));
    BetterTotal();
    hide TotalOrder, Better, TopK, Coherent, ScoredFrom, Concat;
    TopKIsBest(Better, topk, Concat(sent));
    forall h | h in results ensures FromSome(cfg, views, q, early, late, h) {
      assert h in multiset(results) && h in multiset(Concat(sent));
      var n := InSomePart(sent, h);
      assert Genuine(cfg, views[n], q, early(n), late(n), sent[n]);
      assert Genuine(cfg, views[n], q, early(n), late(n), [h]);
    }
  }

  method AskOne(shard: Shards.Shard, ghost cfg: Config, q: Vec, topk: int, early: Clock, late: Clock)
    returns (status: Status, hits: seq<Hit>)
    requires Configured(shard, cfg) && cfg.rerankFactor >= 1
    ensures status == if topk <= 0 || |q| != cfg.dim then InvalidArgument else Ok
    ensures status == Ok ==> Sends(cfg, shard.State(), q, topk, early, late, hits)
    ensures status == Ok ==> Genuine(cfg, shard.State(), q, early, late, hits)
  {
    hide Coherent, ItemsAreLive, NoneExpires, ShardHits, ShardLive, Better, FlatIndex.Valid, VectorStore.Valid, KeywordIndex.Valid;
    status, hits := shard.Search(q, topk, early, late);
  }

  method AskAll(shards: seq<Shards.Shard>, ghost cfg: Config, ghost views: seq<View>, q: Vec, topk: int,
                early: nat -> Clock, late: nat -> Clock) returns (status: Status, sent: seq<seq<Hit>>)
    requires shards != [] && cfg.rerankFactor >= 1 && |views| == |shards|
    requires forall n :: 0 <= n < |shards| ==> Configured(shards[n], cfg) && views[n] == shards[n].State()
    ensures status == if topk <= 0 || |q| != cfg.dim then InvalidArgument else Ok
    ensures status == Ok ==> |sent| == |views|
    ensures status == Ok ==> forall n :: 0 <= n < |views| ==> Sends(cfg, views[n], q, topk, early(n), late(n), sent[n])
    ensures status == Ok ==> forall n :: 0 <= n < |views| ==> Genuine(cfg, views[n], q, early(n), late(n), sent[n])
  {
    hide Sends, Genuine, Shards.Shard.Valid, Shards.Shard.State;
    sent := [];
    for i := 0 to |shards|
      invariant |sent| == i && (i > 0 ==> topk > 0 && |q| == cfg.dim)
      invariant forall n :: 0 <= n < i ==> Sends(cfg, views[n], q, topk, early(n), late(n), sent[n])
      invariant forall n :: 0 <= n < i ==> Genuine(cfg, views[n], q, early(n), late(n), sent[n])
    {
      var hits;
      status, hits := AskOne(shards[i], cfg, q, topk, early(i), late(i));
      if status != Ok {
        return;
      }
      sent := sent + [hits];
    }
    status := Ok;
  }

  lemma AllSent(cfg: Config, views: seq<View>, q: Vec, topk: nat, early: nat -> Clock, late: nat -> Clock,
                sent: seq<seq<Hit>>)
    requires cfg.rerankFactor >= 1 && topk > 0 && |sent| == |views|
    requires forall n :: 0 <= n < |views| ==> Sends(cfg, views[n], q, topk, early(n), late(n), sent[n])
    requires Steady(views, early, late)
    ensures TopK(Better, topk, Concat(sent)) == Answered(cfg, views, q, topk)
  {
    hide Coherent, NoneExpires, ShardHits, ShardLive, TopK;
    forall n | 0 <= n < |views|
      ensures sent[n] == ShardHits(Bound(cfg, topk), CandidateCount(topk, cfg.maxCandidates, cfg.rerankFactor),
                                   ShardLive(views[n], QueryScore(cfg.dot, cfg.value, q)))
    {
      assert Sends(cfg, views[n], q, topk, early(n), late(n), sent[n]);
    }
    assert sent == AllShardHits(Bound(cfg, topk), CandidateCount(topk, cfg.maxCandidates, cfg.rerankFactor),
                                Lives(views, QueryScore(cfg.dot, cfg.value, q)));
  }

  /** Asks every shard and merges. `views` are the states the shards are in. */
  method Search(shards: seq<Shards.Shard>, ghost cfg: Config, ghost views: seq<View>, q: Vec, wanted: int,
                topkDefault: int, early: nat -> Clock, late: nat -> Clock) returns (status: Status, results: seq<Hit>)
    requires shards != [] && cfg.rerankFactor >= 1 && |views| == |shards|
    requires forall n :: 0 <= n < |shards| ==> Configured(shards[n], cfg) && views[n] == shards[n].State()
    ensures var topk := if wanted > 0 then wanted else topkDefault;
            && status == (if topk <= 0 || |q| != cfg.dim then InvalidArgument else Ok)
            && (status != Ok ==> results == [])
            && |results| <= (if topk > 0 then topk else 0) && Ranked(Better, results)
            && (forall h :: h in results ==> FromSome(cfg, views, q, early, late, h))
            && (status == Ok && Steady(views, early, late) ==> results == Answered(cfg, views, q, topk))
  {
    hide Sends, Genuine, FromSome, Steady, Answered, Configured, Better, TopK;
    var topk := if wanted > 0 then wanted else topkDefault;
    var sent;
    status, sent := AskAll(shards, cfg, views, q, topk, early, late);
    if status != Ok {
      return status, [];
    }
    MergedAreGenuine(cfg, views, q, topk, early, late, sent);
    results := MergeShards(sent, topk);
    if Steady(views, early, late) {
      AllSent(cfg, views, q, topk, early, late, sent);
    }
  }

  /** The item for doc i of shard n: its key, and the query's dot product with the numbers that the floats
      in its slot stand for. */
  function DocHit(cfg: Config, views: seq<View>, q: Vec, n: nat, i: nat): Hit
    requires n < |views| && i < |views[n].docs|
  {
    var doc, vecs := views[n].docs[i], views[n].slots.vecs;
    if doc.offset < |vecs| then
      var vec := vecs[doc.offset];
      Hit(doc.key, cfg.dot(q, seq(|vec|, k requires 0 <= k < |vec| => cfg.value(vec[k]))), i)
    else Hit(doc.key, 0.0, i)
  }

  ghost predicate IsLive(views: seq<View>, n: nat, i: nat) {
    n < |views| && i < |views[n].docs| && !views[n].docs[i].deleted
  }

  lemma DocHitScore(cfg: Config, views: seq<View>, q: Vec, n: nat, i: nat)
    requires IsLive(views, n, i)
    ensures DocHit(cfg, views, q, n, i).score ==
              SlotScore(views[n].slots, QueryScore(cfg.dot, cfg.value, q))(views[n].docs[i].offset)
  {
    var slot, vecs := views[n].docs[i].offset, views[n].slots.vecs;
    if slot < |vecs| {
      var vec := vecs[slot];
      assert Decoded(cfg.value, vec) == seq(|vec|, k requires 0 <= k < |vec| => cfg.value(vec[k]));
    }
  }

  lemma DocIsLive(cfg: Config, views: seq<View>, q: Vec, n: nat, i: nat)
    requires IsLive(views, n, i)
    ensures DocHit(cfg, views, q, n, i) in Concat(Lives(views, QueryScore(cfg.dot, cfg.value, q)))
  {
    var score := QueryScore(cfg.dot, cfg.value, q);
    LiveHitsAre(views[n].docs, SlotScore(views[n].slots, score));
    DocHitScore(cfg, views, q, n, i);
    InConcat(Lives(views, score), n, DocHit(cfg, views, q, n, i));
  }

  lemma LiveIsDoc(cfg: Config, views: seq<View>, q: Vec, h: Hit)
    requires h in Concat(Lives(views, QueryScore(cfg.dot, cfg.value, q)))
    ensures exists n :: IsLive(views, n, h.id) && h == DocHit(cfg, views, q, n, h.id)
  {
    var score := QueryScore(cfg.dot, cfg.value, q);
    var n := InSomePart(Lives(views, score), h);
    LiveHitsAre(views[n].docs, SlotScore(views[n].slots, score));
    DocHitScore(cfg, views, q, n, h.id);
    assert IsLive(views, n, h.id) && h == DocHit(cfg, views, q, n, h.id);
  }

  /** With topk within the per-shard bound: what is returned are live docs with their exact scores,
      best first and as many as asked for or as there are; and a live doc of any shard is missing
      only when the answer is full, and then it outscores none of the returned ones. */
  lemma NoneOmittedOutscores(cfg: Config, views: seq<View>, q: Vec, topk: nat)
    requires cfg.rerankFactor >= 1 && topk <= cfg.maxCandidates
    ensures var all, results := Concat(Lives(views, QueryScore(cfg.dot, cfg.value, q))), Answered(cfg, views, q, topk);
            && Ranked(Better, results) && multiset(results) <= multiset(all)
            && |results| == (if |all| <= topk then |all| else topk)
            && (forall h :: h in results ==> exists n :: IsLive(views, n, h.id) && h == DocHit(cfg, views, q, n, h.id))
            && (forall n, i :: IsLive(views, n, i) ==>
                  var y := DocHit(cfg, views, q, n, i);
                  y in results || (|results| == topk && forall h :: h in results ==> h.score >= y.score))
  {
    var score := QueryScore(cfg.dot, cfg.value, q);
    var lives, count := Lives(views, score), CandidateCount(topk, cfg.maxCandidates, cfg.rerankFactor);
    var results := Answered(cfg, views, q, topk);
    hide TopK, Better, Concat, ShardHits, Lives, DocHit;
    MergedAreLive(topk, count, lives);
    forall h | h in results ensures exists n :: IsLive(views, n, h.id) && h == DocHit(cfg, views, q, n, h.id) {
      assert h in multiset(results);
      LiveIsDoc(cfg, views, q, h);
    }
    forall n, i | IsLive(views, n, i)
      ensures var y := DocHit(cfg, views, q, n, i);
              y in results || (|results| == topk && forall h :: h in results ==> h.score >= y.score)
    {
      DocIsLive(cfg, views, q, n, i);
      if DocHit(cfg, views, q, n, i) !in results {
        OmittedIsMatched(topk, count, lives, DocHit(cfg, views, q, n, i));
      }
    }
  }
}
