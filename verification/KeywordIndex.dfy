/** The keyword index: per-document term counts, their transpose, and TF-IDF search. */
module KeywordIndex {
  import opened Options
  import opened Ranking
  import opened Candidates
  import opened Sequences
  import opened Tokens

  type Counts = map<string, nat>
  type DocTokens = map<nat, Counts>
  type Postings = map<string, map<nat, nat>>

  // ----- the transpose -----

  predicate Has(d: DocTokens, id: nat, t: string) {
    id in d && t in d[id]
  }

  predicate Posts(p: Postings, id: nat, t: string) {
    t in p && id in p[t]
  }

  /** The postings list what the documents contain, term by term, and no term without documents. */
  ghost predicate Transpose(d: DocTokens, p: Postings) {
    && (forall id, t :: Has(d, id, t) <==> Posts(p, id, t))
    && (forall id, t :: Has(d, id, t) ==> Posts(p, id, t) && p[t][id] == d[id][t])
    && (forall t :: t in p ==> p[t] != map[])
  }

  ghost predicate FreqsOf(p: Postings, f: map<string, nat>) {
    f.Keys == p.Keys && forall t :: t in p ==> f[t] == |p[t]|
  }

  /** The transpose is a function of the documents. */
  lemma TransposeUnique(d: DocTokens, p: Postings, q: Postings)
    requires Transpose(d, p) && Transpose(d, q)
    ensures p == q
  {
    forall t | t in p ensures t in q && p[t] == q[t] {
      SamePosting(d, p, q, t);
    }
    forall t | t in q ensures t in p {
      SamePosting(d, q, p, t);
    }
  }

  lemma SamePosting(d: DocTokens, p: Postings, q: Postings, t: string)
    requires Transpose(d, p) && Transpose(d, q) && t in p
    ensures t in q && p[t] == q[t]
  {
    var id :| id in p[t];
    assert Posts(p, id, t) && Has(d, id, t) && Posts(q, id, t);
    assert forall id :: id in p[t] <==> Posts(p, id, t);
    assert forall id :: id in q[t] <==> Posts(q, id, t);
    assert forall id :: id in p[t] ==> Has(d, id, t);
  }

  // ----- term counts -----

  function CountsOf(tokens: seq<string>): (c: Counts)
    ensures forall t :: t in c <==> t in tokens
    ensures forall t :: t in c ==> c[t] == multiset(tokens)[t] > 0
  {
    if tokens == [] then map[]
    else
      var front, t := tokens[..|tokens| - 1], tokens[|tokens| - 1];
      assert tokens == front + [t];
      var c := CountsOf(front);
      c[t := (if t in c then c[t] else 0) + 1]
  }

  // ----- scoring -----

  /** The number of documents containing a term. */
  ghost function DocsWith(d: DocTokens, t: string): set<nat> {
    set id | id in d && t in d[id]
  }

  /** Weight of a term: log(1 + documents / documents with the term). */
  ghost function Idf(log: real -> real, d: DocTokens, t: string): real
    requires DocsWith(d, t) != {}
  {
    log(1.0 + |d| as real / |DocsWith(d, t)| as real)
  }

  /** What one query term adds to a document's score. */
  ghost function TermScore(log: real -> real, d: DocTokens, t: string, id: nat): real {
    if Has(d, id, t) then (assert id in DocsWith(d, t); d[id][t] as real * Idf(log, d, t)) else 0.0
  }

  /** The score of one document, computed from its own counts, term after term of the query. */
  ghost function BruteScore(log: real -> real, d: DocTokens, query: seq<string>, id: nat): real {
    if query == [] then 0.0
    else BruteScore(log, d, query[..|query| - 1], id) + TermScore(log, d, query[|query| - 1], id)
  }

  ghost predicate Matches(d: DocTokens, query: seq<string>, id: nat) {
    exists t :: t in query && Has(d, id, t)
  }

  /** What a search over all documents would score. */
  ghost function Scored(log: real -> real, d: DocTokens, query: seq<string>): set<Candidate> {
    set id | id in d && Matches(d, query, id) :: Candidate(id, BruteScore(log, d, query, id))
  }

  /** The k best of a set, best first. */
  ghost predicate BestOf(r: seq<Candidate>, all: set<Candidate>, k: nat) {
    && Ranked(IsBetter, r) && |r| == (if |all| <= k then |all| else k)
    && multiset(r) <= multiset(all)
    && (forall x, y :: x in r && y in all && y !in r ==> IsBetter(x, y))
  }

  // ----- the same said term by term -----

  /** What term w adds to the score of a document: its count there times log(1 + documents / documents with w). */
  ghost predicate Adds(log: real -> real, d: DocTokens, w: string, id: nat, step: real) {
    if id in d && w in d[id] then
      var n := |set i | i in d && w in d[i]|;
      n > 0 && step == d[id][w] as real * log(1.0 + |d| as real / n as real)
    else step == 0.0
  }

  /** The running sums over the query's terms, from 0. */
  ghost predicate IsSum(log: real -> real, d: DocTokens, query: seq<string>, id: nat, sums: seq<real>) {
    && |sums| == |query| + 1 && sums[0] == 0.0
    && forall k :: 0 <= k < |query| ==> Adds(log, d, query[k], id, sums[k + 1] - sums[k])
  }

  ghost predicate SumsTo(log: real -> real, d: DocTokens, query: seq<string>, id: nat, score: real) {
    exists sums :: IsSum(log, d, query, id, sums) && sums[|query|] == score
  }

  lemma AddsIff(log: real -> real, d: DocTokens, w: string, id: nat, step: real)
    ensures Adds(log, d, w, id, step) <==> step == TermScore(log, d, w, id)
  {
    if Has(d, id, w) {
      assert id in DocsWith(d, w);
      assert DocsWith(d, w) == set i | i in d && w in d[i];
    }
  }

  lemma {:induction false} SumsIff(log: real -> real, d: DocTokens, query: seq<string>, id: nat, score: real)
    ensures SumsTo(log, d, query, id, score) <==> score == BruteScore(log, d, query, id)
  {
    hide Adds, TermScore;
    if query == [] {
      assert IsSum(log, d, query, id, [0.0]);
    } else {
      var n := |query| - 1;
      var front := query[..n];
      SumsIff(log, d, front, id, BruteScore(log, d, front, id));
      var before :| IsSum(log, d, front, id, before) && before[n] == BruteScore(log, d, front, id);
      var total := BruteScore(log, d, query, id);
      AddsIff(log, d, query[n], id, total - before[n]);
      assert IsSum(log, d, query, id, before + [total]);
      if SumsTo(log, d, query, id, score) {
        var sums :| IsSum(log, d, query, id, sums) && sums[|query|] == score;
        assert forall k :: 0 <= k < n ==> front[k] == query[k];
        assert IsSum(log, d, front, id, sums[..|query|]);
        SumsIff(log, d, front, id, sums[n]);
        AddsIff(log, d, query[n], id, score - sums[n]);
      }
    }
  }

  /** Documents with a word of the query, each once, with their TF-IDF sums, best first; and one is
      missing only when topk better ones are there. */
  ghost predicate FindsBest(log: real -> real, d: DocTokens, query: seq<string>, topk: nat, r: seq<Candidate>) {
    && |r| <= topk && DistinctIds(r)
    && (forall i, j :: 0 <= i < j < |r| ==>
          r[i].score > r[j].score || (r[i].score == r[j].score && r[i].id < r[j].id))
    && (forall c :: c in r ==>
          c.id in d && (exists w :: w in query && w in d[c.id]) && SumsTo(log, d, query, c.id, c.score))
    && (forall id, w, score :: id in d && w in query && w in d[id] && SumsTo(log, d, query, id, score) ==>
          || Candidate(id, score) in r
          || (|r| == topk && forall c :: c in r ==> c.score > score || (c.score == score && c.id < id)))
  }

  lemma BestIsFound(log: real -> real, d: DocTokens, query: seq<string>, topk: nat, r: seq<Candidate>)
    requires BestOf(r, Scored(log, d, query), topk)
    ensures FindsBest(log, d, query, topk, r)
  {
    var all := Scored(log, d, query);
    hide BruteScore, SumsTo;
    forall c | c in r
      ensures c in all && c.id in d && (exists w :: w in query && w in d[c.id]) && SumsTo(log, d, query, c.id, c.score)
    {
      assert c in multiset(r) && c in multiset(all);
      SumsIff(log, d, query, c.id, c.score);
      var w :| w in query && Has(d, c.id, w);
    }
    forall i, j | 0 <= i < j < |r|
      ensures r[i].score > r[j].score || (r[i].score == r[j].score && r[i].id < r[j].id)
    {
      OncePerDoc(log, d, query, r, i, j);
    }
    forall id, w, score | id in d && w in query && w in d[id] && SumsTo(log, d, query, id, score)
      ensures || Candidate(id, score) in r
              || (|r| == topk && forall c :: c in r ==> c.score > score || (c.score == score && c.id < id))
    {
      SumsIff(log, d, query, id, score);
      assert Has(d, id, w) && Candidate(id, score) in all;
      if Candidate(id, score) !in r { MissingIsFull(r, all, topk, Candidate(id, score)); }
    }
  }

  lemma OncePerDoc(log: real -> real, d: DocTokens, query: seq<string>, r: seq<Candidate>, i: nat, j: nat)
    requires multiset(r) <= multiset(Scored(log, d, query)) && Ranked(IsBetter, r) && i < j < |r|
    ensures r[i].score > r[j].score || (r[i].score == r[j].score && r[i].id < r[j].id)
    ensures r[i].id != r[j].id
  {
    var all := Scored(log, d, query);
    hide BruteScore, Matches;
    assert r[i] in multiset(r) && r[i] in multiset(all) && r[j] in multiset(r) && r[j] in multiset(all);
    if r[i].id == r[j].id {
      TwiceIn(r, i, j);
    }
    assert !IsBetter(r[j], r[i]);
  }

  lemma MissingIsFull(r: seq<Candidate>, all: set<Candidate>, topk: nat, y: Candidate)
    requires BestOf(r, all, topk) && y in all && y !in r
    ensures |r| == topk && forall c :: c in r ==> c.score > y.score || (c.score == y.score && c.id < y.id)
  {
    assert y in multiset(all) - multiset(r);
    assert |multiset(all) - multiset(r)| == |multiset(all)| - |multiset(r)|;
  }

  // ----- one posting more, one posting less -----

  function Posted(p: Postings, id: nat, t: string, n: nat): Postings {
    p[t := (if t in p then p[t] else map[])[id := n]]
  }

  function Unposted(p: Postings, id: nat, t: string): Postings
    requires t in p
  {
    var rest := p[t] - {id};
    if rest == map[] then p - {t} else p[t := rest]
  }

  function Counted(c: Counts, t: string, n: nat): Counts {
    c[t := n]
  }

  lemma PostOne(d: DocTokens, p: Postings, id: nat, t: string, n: nat)
    requires Transpose(d, p) && id in d && t !in d[id]
    ensures Transpose(d[id := Counted(d[id], t, n)], Posted(p, id, t, n))
  {
    var e, q := d[id := Counted(d[id], t, n)], Posted(p, id, t, n);
    forall i, u ensures Has(e, i, u) <==> Posts(q, i, u) {
      assert Has(d, i, u) <==> Posts(p, i, u);
    }
    forall i, u | Has(e, i, u) ensures q[u][i] == e[i][u] {
      assert Has(d, i, u) || (i == id && u == t);
      assert Has(d, i, u) ==> Posts(p, i, u) && p[u][i] == d[i][u];
    }
    forall u | u in q ensures q[u] != map[] {
      if u == t { assert id in q[u]; }
    }
  }

  lemma UnpostOne(d: DocTokens, p: Postings, id: nat, t: string)
    requires Transpose(d, p) && Has(d, id, t)
    ensures Posts(p, id, t) && Transpose(d[id := d[id] - {t}], Unposted(p, id, t))
  {
    assert Posts(p, id, t);
    var e, q := d[id := d[id] - {t}], Unposted(p, id, t);
    forall i, u ensures Has(e, i, u) <==> Posts(q, i, u) {
      assert Has(d, i, u) <==> Posts(p, i, u);
      if u == t && i != id && i in p[t] {
        assert i in p[t] - {id};
      }
    }
    forall i, u | Has(e, i, u) ensures Posts(q, i, u) && q[u][i] == e[i][u] {
      assert Has(d, i, u) && Posts(p, i, u) && p[u][i] == d[i][u];
      assert Posts(q, i, u);
    }
  }

  lemma DropEmpty(d: DocTokens, p: Postings, id: nat)
    requires Transpose(d, p) && id in d && d[id] == map[]
    ensures Transpose(d - {id}, p)
  {
    forall i, t ensures Has(d - {id}, i, t) <==> Has(d, i, t) {
    }
  }

  lemma AddEmpty(d: DocTokens, p: Postings, id: nat)
    requires Transpose(d, p) && id !in d
    ensures Transpose(d[id := map[]], p)
  {
    forall i, t ensures Has(d[id := map[]], i, t) <==> Has(d, i, t) {
    }
  }

  function FreqsLess(f: map<string, nat>, t: string, left: nat): map<string, nat> {
    if left == 0 then f - {t} else f[t := left]
  }

  lemma FreqsAfterUnpost(p: Postings, f: map<string, nat>, id: nat, t: string)
    requires FreqsOf(p, f) && Posts(p, id, t)
    ensures FreqsOf(Unposted(p, id, t), FreqsLess(f, t, |p[t] - {id}|))
  {
  }

  /** While document id is being removed: `todo` are its terms still posted. */
  ghost predicate Removing(d: DocTokens, id: nat, todo: Counts, p: Postings, f: map<string, nat>) {
    Transpose(d[id := todo], p) && FreqsOf(p, f)
  }

  lemma RemoveBegins(d: DocTokens, id: nat, p: Postings, f: map<string, nat>)
    requires id in d && Transpose(d, p) && FreqsOf(p, f)
    ensures Removing(d, id, d[id], p, f)
  {
    assert d[id := d[id]] == d;
  }

  lemma RemoveStep(d: DocTokens, id: nat, todo: Counts, p: Postings, f: map<string, nat>, t: string)
    requires Removing(d, id, todo, p, f) && t in todo
    ensures t in p && Removing(d, id, todo - {t}, Unposted(p, id, t), FreqsLess(f, t, |p[t] - {id}|))
  {
    var e := d[id := todo];
    assert Has(e, id, t);
    UnpostOne(e, p, id, t);
    FreqsAfterUnpost(p, f, id, t);
    assert e[id := e[id] - {t}] == d[id := todo - {t}];
  }

  lemma RemoveEnds(d: DocTokens, id: nat, p: Postings, f: map<string, nat>)
    requires Removing(d, id, map[], p, f) && id in d
    ensures Transpose(d - {id}, p) && FreqsOf(p, f) && |d| == |d - {id}| + 1
  {
    DropEmpty(d[id := map[]], p, id);
    assert d[id := map[]] - {id} == d - {id};
    assert d.Keys == (d - {id}).Keys + {id};
  }

  /** While document id is being added: `done` are its terms already posted. */
  ghost predicate Adding(d: DocTokens, id: nat, done: Counts, p0: Postings, p: Postings) {
    && Transpose(d[id := done], p)
    && p.Keys == p0.Keys + done.Keys
    && (forall t :: t in p0 && t !in done ==> p[t] == p0[t])
  }

  lemma AddBegins(d: DocTokens, id: nat, p: Postings)
    requires id !in d && Transpose(d, p)
    ensures Adding(d, id, map[], p, p)
  {
    AddEmpty(d, p, id);
  }

  lemma AddEnds(d: DocTokens, id: nat, all: Counts, p0: Postings, p: Postings)
    requires Adding(d, id, all, p0, p)
    ensures Transpose(d[id := all], p)
  {
  }

  lemma AddStep(d: DocTokens, id: nat, done: Counts, p0: Postings, p: Postings, t: string, n: nat)
    requires Adding(d, id, done, p0, p) && t !in done
    ensures Adding(d, id, Counted(done, t, n), p0, Posted(p, id, t, n))
  {
    var e := d[id := done];
    PostOne(e, p, id, t, n);
    assert e[id := Counted(e[id], t, n)] == d[id := Counted(done, t, n)];
  }

  /** The terms of `all` outside `todo`. */
  ghost function DoneOf(all: Counts, todo: set<string>): Counts {
    all - todo
  }

  lemma DoneGrows(all: Counts, todo: set<string>, t: string)
    requires t in todo && t in all
    ensures t !in DoneOf(all, todo) && DoneOf(all, todo - {t}) == Counted(DoneOf(all, todo), t, all[t])
  {
  }

  /** Frequencies right except for the terms in `stale`. */
  ghost predicate FreqsExcept(p: Postings, f: map<string, nat>, stale: set<string>) {
    f.Keys + stale == p.Keys && forall t :: t in f && t !in stale ==> f[t] == |p[t]|
  }

  lemma FreqsGoStale(d: DocTokens, id: nat, all: Counts, p0: Postings, p: Postings, f: map<string, nat>)
    requires FreqsOf(p0, f) && Adding(d, id, all, p0, p)
    ensures FreqsExcept(p, f, all.Keys)
  {
  }

  lemma AllFresh(p: Postings, f: map<string, nat>)
    requires FreqsExcept(p, f, {})
    ensures FreqsOf(p, f)
  {
  }

  lemma FreqsRefreshed(p: Postings, f: map<string, nat>, stale: set<string>, t: string)
    requires FreqsExcept(p, f, stale) && t in stale
    ensures t in p && FreqsExcept(p, f[t := |p[t]|], stale - {t})
  {
  }

  // ----- the index as a whole -----

  /** The postings are the exact transpose, every frequency is its posting's size, the count is
      the number of documents, and no document is without terms. */
  ghost predicate Exact(d: DocTokens, p: Postings, f: map<string, nat>, count: nat) {
    Transpose(d, p) && FreqsOf(p, f) && count == |d| && NoneEmpty(d)
  }

  ghost predicate NoneEmpty(d: DocTokens) {
    forall id :: id in d ==> d[id] != map[]
  }

  function WithDoc(d: DocTokens, id: nat, c: Counts): DocTokens { d[id := c] }

  function WithoutDoc(d: DocTokens, id: nat): DocTokens { d - {id} }

  /** The documents after an upsert: a text without words removes the document. */
  function AfterUpsert(d: DocTokens, id: nat, text: Option<string>): DocTokens {
    if text.Some? && Words(text.value) != [] then WithDoc(d, id, CountsOf(Words(text.value))) else WithoutDoc(d, id)
  }

  /** After an upsert: the document counts the words of its text, or is gone if there are none; no
      other document changes. */
  ghost predicate Retold(before: DocTokens, after: DocTokens, id: nat, text: Option<string>) {
    && (id in after <==> text.Some? && Words(text.value) != [])
    && (id in after ==> forall w :: w in after[id] <==> w in Words(text.value))
    && (id in after ==> forall w :: w in after[id] ==> after[id][w] == multiset(Words(text.value))[w])
    && forall i :: i != id ==> (i in after <==> i in before) && (i in after ==> after[i] == before[i])
  }

  lemma AfterUpsertRetells(d: DocTokens, id: nat, text: Option<string>)
    ensures Retold(d, AfterUpsert(d, id, text), id, text)
  {
    hide Words;
  }

  lemma RemoveFinished(d: DocTokens, id: nat, p0: Postings, f0: map<string, nat>, p: Postings, f: map<string, nat>,
                       count: nat)
    requires Exact(d, p0, f0, count) && id in d && Removing(d, id, map[], p, f)
    ensures count > 0 && Exact(WithoutDoc(d, id), p, f, count - 1) && id !in WithoutDoc(d, id)
  {
    RemoveEnds(d, id, p, f);
  }

  lemma NothingToRemove(d: DocTokens, id: nat)
    requires id !in d
    ensures WithoutDoc(d, id) == d
  {
  }

  lemma OneMore(d: DocTokens, id: nat, c: Counts)
    requires id !in d && c != map[] && NoneEmpty(d)
    ensures |WithDoc(d, id, c)| == |d| + 1 && NoneEmpty(WithDoc(d, id, c))
  {
    assert WithDoc(d, id, c).Keys == d.Keys + {id};
  }

  lemma AddFinished(d: DocTokens, id: nat, c: Counts, p0: Postings, p: Postings, f0: map<string, nat>, f: map<string,
                    nat>, count: nat)
    requires Exact(d, p0, f0, count) && id !in d && c != map[] && Adding(d, id, c, p0, p) && FreqsOf(p, f)
    ensures Exact(WithDoc(d, id, c), p, f, count + 1)
  {
    hide Transpose, FreqsOf, NoneEmpty;
    AddEnds(d, id, c, p0, p);
    OneMore(d, id, c);
  }

  lemma AddStarts(d: DocTokens, id: nat, p: Postings, f: map<string, nat>, count: nat)
    requires Exact(d, p, f, count) && id !in d
    ensures Adding(d, id, map[], p, p) && FreqsOf(p, f)
  {
    AddBegins(d, id, p);
  }

  lemma ReplacedDoc(d: DocTokens, id: nat, c: Counts)
    ensures WithDoc(WithoutDoc(d, id), id, c) == WithDoc(d, id, c)
  {
  }

  // ----- scores accumulated posting by posting -----

  type Scores = map<nat, real>

  ghost predicate ScoresAre(log: real -> real, d: DocTokens, query: seq<string>, scores: Scores) {
    && (forall id: nat :: id in scores <==> Matches(d, query, id))
    && (forall id: nat :: id in scores ==> scores[id] == BruteScore(log, d, query, id))
  }

  lemma MatchesMore(d: DocTokens, query: seq<string>, t: string, id: nat)
    ensures Matches(d, query + [t], id) <==> Matches(d, query, id) || Has(d, id, t)
  {
    if Matches(d, query, id) {
      var u :| u in query && Has(d, id, u);
      assert u in query + [t];
    }
    if Has(d, id, t) {
      assert t in query + [t];
    }
  }

  lemma {:induction false} NoMatchNoScore(log: real -> real, d: DocTokens, query: seq<string>, id: nat)
    requires !Matches(d, query, id)
    ensures BruteScore(log, d, query, id) == 0.0
  {
    if query == [] {
    } else {
      var front, t := query[..|query| - 1], query[|query| - 1];
      assert query == front + [t];
      MatchesMore(d, front, t, id);
      NoMatchNoScore(log, d, front, id);
    }
  }

  function ScoreIn(scores: Scores, id: nat): real {
    if id in scores then scores[id] else 0.0
  }

  function Share(posting: map<nat, nat>, id: nat, idf: real): real {
    if id in posting then posting[id] as real * idf else 0.0
  }

  /** The scores after one more query term with this posting. */
  ghost predicate Accumulated(scores: Scores, posting: map<nat, nat>, idf: real, r: Scores) {
    && r.Keys == scores.Keys + posting.Keys
    && forall id :: id in r ==> r[id] == ScoreIn(scores, id) + Share(posting, id, idf)
  }

  /** The scores when the posting entries in `todo` are still to be added. */
  ghost predicate PartlyAdded(scores: Scores, posting: map<nat, nat>, idf: real, todo: set<nat>, r: Scores) {
    forall id: nat ::
      if id in todo then (id in r <==> id in scores) && ScoreIn(r, id) == ScoreIn(scores, id)
      else (id in r <==> id in scores || id in posting)
           && (id in r ==> r[id] == ScoreIn(scores, id) + Share(posting, id, idf))
  }

  lemma NoneAdded(scores: Scores, posting: map<nat, nat>, idf: real)
    ensures PartlyAdded(scores, posting, idf, posting.Keys, scores)
  {
  }

  lemma OneAdded(scores: Scores, posting: map<nat, nat>, idf: real, todo: set<nat>, r: Scores, id: nat)
    requires PartlyAdded(scores, posting, idf, todo, r) && id in todo && id in posting
    ensures PartlyAdded(scores, posting, idf, todo - {id}, r[id := ScoreIn(r, id) + Share(posting, id, idf)])
  {
    hide Share;
  }

  lemma AllAdded(scores: Scores, posting: map<nat, nat>, idf: real, r: Scores)
    requires PartlyAdded(scores, posting, idf, {}, r)
    ensures Accumulated(scores, posting, idf, r)
  {
    hide Share;
  }

  lemma BruteStep(log: real -> real, d: DocTokens, query: seq<string>, t: string, id: nat)
    ensures BruteScore(log, d, query + [t], id) == BruteScore(log, d, query, id) + TermScore(log, d, t, id)
  {
    assert (query + [t])[..|query|] == query;
  }

  lemma ShareIsTermScore(log: real -> real, d: DocTokens, p: Postings, t: string, id: nat)
    requires Transpose(d, p) && t in p && DocsWith(d, t) != {}
    ensures Share(p[t], id, Idf(log, d, t)) == TermScore(log, d, t, id)
    ensures id in p[t] <==> Has(d, id, t)
  {
    assert Has(d, id, t) <==> Posts(p, id, t);
    assert Has(d, id, t) ==> p[t][id] == d[id][t];
  }

  lemma TermScoredAt(log: real -> real, d: DocTokens, p: Postings, query: seq<string>, t: string, scores: Scores,
                     r: Scores, id: nat)
    requires Transpose(d, p) && t in p && DocsWith(d, t) != {}
    requires ScoresAre(log, d, query, scores) && Accumulated(scores, p[t], Idf(log, d, t), r)
    ensures (id in r <==> Matches(d, query + [t], id)) && (id in r ==> r[id] == BruteScore(log, d, query + [t], id))
  {
    MatchesMore(d, query, t, id);
    BruteStep(log, d, query, t, id);
    ShareIsTermScore(log, d, p, t, id);
    if id !in scores {
      NoMatchNoScore(log, d, query, id);
    }
    hide Transpose, Idf, BruteScore, Matches, Share, TermScore, Has, DocsWith;
  }

  lemma TermScored(log: real -> real, d: DocTokens, p: Postings, query: seq<string>, t: string, scores: Scores,
                   r: Scores)
    requires Transpose(d, p) && t in p && DocsWith(d, t) != {}
    requires ScoresAre(log, d, query, scores) && Accumulated(scores, p[t], Idf(log, d, t), r)
    ensures ScoresAre(log, d, query + [t], r)
  {
    hide Transpose, Idf, BruteScore, Matches, Accumulated;
    forall id: nat ensures (id in r <==> Matches(d, query + [t], id))
                        && (id in r ==> r[id] == BruteScore(log, d, query + [t], id)) {
      TermScoredAt(log, d, p, query, t, scores, r, id);
    }
  }

  lemma TermUnknown(log: real -> real, d: DocTokens, p: Postings, query: seq<string>, t: string, scores: Scores)
    requires Transpose(d, p) && t !in p && ScoresAre(log, d, query, scores)
    ensures ScoresAre(log, d, query + [t], scores)
  {
    forall id: nat ensures (id in scores <==> Matches(d, query + [t], id))
                        && (id in scores ==> scores[id] == BruteScore(log, d, query + [t], id)) {
      MatchesMore(d, query, t, id);
      BruteStep(log, d, query, t, id);
      assert Has(d, id, t) <==> Posts(p, id, t);
    }
  }

  /** The size of a posting is the number of documents with the term. */
  lemma PostingSize(d: DocTokens, p: Postings, t: string)
    requires Transpose(d, p) && t in p
    ensures |p[t]| == |DocsWith(d, t)| > 0
  {
    forall id ensures id in p[t] <==> id in DocsWith(d, t) {
      assert Has(d, id, t) <==> Posts(p, id, t);
    }
    assert p[t].Keys == DocsWith(d, t);
    var id :| id in p[t];
    assert id in DocsWith(d, t);
  }

  function CandidatesOf(scores: Scores): set<Candidate> {
    set id | id in scores :: Candidate(id, scores[id])
  }

  lemma AllScored(log: real -> real, d: DocTokens, query: seq<string>, scores: Scores)
    requires ScoresAre(log, d, query, scores)
    ensures CandidatesOf(scores) == Scored(log, d, query)
  {
    forall c ensures c in CandidatesOf(scores) <==> c in Scored(log, d, query) {
      if c in CandidatesOf(scores) {
        var id :| id in scores && c == Candidate(id, scores[id]);
        assert Matches(d, query, id);
        var t :| t in query && Has(d, id, t);
        assert id in d;
      }
      if c in Scored(log, d, query) {
        var id :| id in d && Matches(d, query, id) && c == Candidate(id, BruteScore(log, d, query, id));
        assert id in scores;
      }
    }
  }

  /** Sorting a list without repeats and cutting it gives the best of its elements. */
  lemma SortedIsBest(s: seq<Candidate>, all: set<Candidate>, k: nat)
    requires multiset(s) == multiset(all)
    ensures BestOf(TopK(IsBetter, k, s), all, k)
  {
    IsBetterTotal();
    TopKIsBest(IsBetter, k, s);
    var r := TopK(IsBetter, k, s);
    assert |s| == |multiset(s)| == |all|;
    forall x, y | x in r && y in all && y !in r ensures IsBetter(x, y) {
      assert y in multiset(all) && y in multiset(s) - multiset(r);
      Compare(IsBetter, x, y);
    }
  }

  class KeywordIndex {
    const log: real -> real
    var docCount: nat
    var docTokens: DocTokens
    var postings: Postings
    var docFreq: map<string, nat>

    ghost predicate Valid()
      reads this
    {
      Exact(docTokens, postings, docFreq, docCount)
    }

    constructor (log: real -> real)
      ensures Valid() && docTokens == map[] && this.log == log
    {
      this.log := log;
      docCount, docTokens, postings, docFreq := 0, map[], map[], map[];
    }

    method DeleteInternal(id: nat)
      requires Valid()
      modifies this
      ensures Valid() && docTokens == WithoutDoc(old(docTokens), id) && id !in docTokens
    {
      if id !in docTokens {
        NothingToRemove(docTokens, id);
        return;
      }
      ghost var d, p0, f0 := docTokens, postings, docFreq;
      var todo := docTokens[id];
      RemoveBegins(d, id, postings, docFreq);
      hide Exact, Removing, Unposted, FreqsLess, WithoutDoc;
      while todo != map[]
        invariant Removing(d, id, todo, postings, docFreq)
        invariant docTokens == d && docCount == old(docCount)
        decreases |todo|
      {
        var t :| t in todo;
        RemoveStep(d, id, todo, postings, docFreq, t);
        if t in postings {
          docFreq := FreqsLess(docFreq, t, |postings[t] - {id}|);
          postings := Unposted(postings, id, t);
        }
        assert (todo - {t}).Keys == todo.Keys - {t};
        todo := todo - {t};
      }
      RemoveFinished(d, id, p0, f0, postings, docFreq, docCount);
      docTokens := WithoutDoc(docTokens, id);
      if docCount > 0 {
        docCount := docCount - 1;
      }
    }

    method Delete(id: nat)
      requires Valid()
      modifies this
      ensures Valid() && docTokens == WithoutDoc(old(docTokens), id)
      ensures id !in docTokens && forall i :: i != id ==>
                (i in docTokens <==> i in old(docTokens)) && (i in docTokens ==> docTokens[i] == old(docTokens)[i])
    {
      DeleteInternal(id);
    }

    method Upsert(id: nat, text: Option<string>)
      requires Valid()
      modifies this
      ensures Valid() && docTokens == AfterUpsert(old(docTokens), id, text)
      ensures Retold(old(docTokens), docTokens, id, text)
    {
      AfterUpsertRetells(docTokens, id, text);
      hide Exact, WithDoc, WithoutDoc, CountsOf, Retold;
      DeleteInternal(id);
      if text.None? || text.value == "" {
        return;
      }
      var tokens := Tokenize(text.value);
      if tokens == [] {
        return;
      }
      var termFreq := CountTerms(tokens);
      assert tokens[0] in termFreq;
      ReplacedDoc(old(docTokens), id, termFreq);
      AddDoc(id, termFreq);
    }

    static method CountTerms(tokens: seq<string>) returns (termFreq: Counts)
      ensures termFreq == CountsOf(tokens)
    {
      termFreq := map[];
      for i := 0 to |tokens|
        invariant termFreq == CountsOf(tokens[..i])
      {
        var t := tokens[i];
        assert tokens[..i + 1][..i] == tokens[..i];
        termFreq := termFreq[t := (if t in termFreq then termFreq[t] else 0) + 1];
      }
      assert tokens[..|tokens|] == tokens;
    }

    method AddDoc(id: nat, termFreq: Counts)
      requires Valid() && id !in docTokens && termFreq != map[]
      modifies this
      ensures Valid() && docTokens == WithDoc(old(docTokens), id, termFreq)
    {
      ghost var d, p0, f0 := docTokens, postings, docFreq;
      AddStarts(d, id, p0, f0, docCount);
      hide Exact, WithDoc, FreqsExcept, FreqsOf, Adding;
      EnterTerms(id, termFreq);
      AddFinished(d, id, termFreq, p0, postings, f0, docFreq, docCount);
      docTokens := WithDoc(docTokens, id, termFreq);
      docCount := docCount + 1;
    }

    /** Enters the terms of a new document into the postings and counts each of them again. */
    method EnterTerms(id: nat, termFreq: Counts)
      requires Adding(docTokens, id, map[], postings, postings) && FreqsOf(postings, docFreq)
      modifies this`postings, this`docFreq
      ensures Adding(docTokens, id, termFreq, old(postings), postings) && FreqsOf(postings, docFreq)
    {
      hide FreqsExcept, FreqsOf, Adding;
      PostTerms(id, termFreq, docTokens);
      FreqsGoStale(docTokens, id, termFreq, old(postings), postings, docFreq);
      RefreshFreqs(termFreq);
    }

    /** Enters a document's terms into the postings. */
    method PostTerms(id: nat, termFreq: Counts, ghost d: DocTokens)
      requires Adding(d, id, map[], postings, postings)
      modifies this`postings
      ensures Adding(d, id, termFreq, old(postings), postings)
    {
      hide Posted, Adding;
      ghost var p0 := postings;
      var todo := termFreq.Keys;
      assert DoneOf(termFreq, todo) == map[];
      while todo != {}
        invariant todo <= termFreq.Keys
        invariant Adding(d, id, DoneOf(termFreq, todo), p0, postings)
        decreases |todo|
      {
        var t :| t in todo;
        DoneGrows(termFreq, todo, t);
        AddStep(d, id, DoneOf(termFreq, todo), p0, postings, t, termFreq[t]);
        postings := Posted(postings, id, t, termFreq[t]);
        todo := todo - {t};
      }
      assert DoneOf(termFreq, {}) == termFreq;
    }

    method RefreshFreqs(termFreq: Counts)
      requires FreqsExcept(postings, docFreq, termFreq.Keys)
      modifies this`docFreq
      ensures FreqsOf(postings, docFreq)
    {
      hide FreqsExcept, FreqsOf;
      var todo := termFreq.Keys;
      while todo != {}
        invariant FreqsExcept(postings, docFreq, todo)
        decreases |todo|
      {
        var t :| t in todo;
        FreqsRefreshed(postings, docFreq, todo, t);
        docFreq := docFreq[t := |postings[t]|];
        todo := todo - {t};
      }
      AllFresh(postings, docFreq);
    }

    static method Accumulate(scores: Scores, posting: map<nat, nat>, idf: real) returns (r: Scores)
      ensures Accumulated(scores, posting, idf, r)
    {
      r := scores;
      var todo := posting.Keys;
      hide PartlyAdded, Share, ScoreIn;
      NoneAdded(scores, posting, idf);
      while todo != {}
        invariant todo <= posting.Keys && PartlyAdded(scores, posting, idf, todo, r)
        decreases |todo|
      {
        var id :| id in todo;
        OneAdded(scores, posting, idf, todo, r, id);
        r := r[id := ScoreIn(r, id) + Share(posting, id, idf)];
        todo := todo - {id};
      }
      AllAdded(scores, posting, idf, r);
    }

    static method Listed(scores: Scores) returns (results: seq<Candidate>)
      ensures multiset(results) == multiset(CandidatesOf(scores))
    {
      results := [];
      var rest := scores;
      ghost var done: set<Candidate> := {};
      while rest != map[]
        invariant forall id :: id in rest ==> id in scores && rest[id] == scores[id]
        invariant multiset(results) == multiset(done) && done !! CandidatesOf(rest)
        invariant done + CandidatesOf(rest) == CandidatesOf(scores)
        decreases |rest|
      {
        var id :| id in rest;
        var c := Candidate(id, rest[id]);
        OneListed(rest, id);
        results := results + [c];
        done := done + {c};
        assert (rest - {id}).Keys == rest.Keys - {id};
        rest := rest - {id};
      }
      assert done == CandidatesOf(scores);
    }

    static lemma OneListed(rest: Scores, id: nat)
      requires id in rest
      ensures CandidatesOf(rest) == CandidatesOf(rest - {id}) + {Candidate(id, rest[id])}
      ensures Candidate(id, rest[id]) !in CandidatesOf(rest - {id})
    {
      forall c | c in CandidatesOf(rest) ensures c in CandidatesOf(rest - {id}) || c == Candidate(id, rest[id]) {
        var i :| i in rest && c == Candidate(i, rest[i]);
        assert i == id || i in rest - {id};
      }
    }

    method Weight(t: string) returns (idf: real)
      requires Valid() && t in postings
      ensures DocsWith(docTokens, t) != {} && idf == Idf(log, docTokens, t)
    {
      PostingSize(docTokens, postings, t);
      FreqOf(postings, docFreq, t);
      hide Transpose, FreqsOf, NoneEmpty, DocsWith;
      var df := 1;
      if t in docFreq {
        df := if docFreq[t] > 1 then docFreq[t] else 1;
      }
      idf := log(1.0 + docCount as real / df as real);
    }

    method ScoreAll(tokens: seq<string>) returns (scores: Scores)
      requires Valid()
      ensures ScoresAre(log, docTokens, tokens, scores)
    {
      scores := map[];
      hide ScoresAre, Transpose, FreqsOf, Accumulated, NoneEmpty, DocsWith;
      NothingScored(log, docTokens);
      for i := 0 to |tokens|
        invariant ScoresAre(log, docTokens, tokens[..i], scores)
      {
        var t := tokens[i];
        assert tokens[..i + 1] == tokens[..i] + [t];
        if t in postings {
          var idf := Weight(t);
          var more := Accumulate(scores, postings[t], idf);
          TermScored(log, docTokens, postings, tokens[..i], t, scores, more);
          scores := more;
        } else {
          TermUnknown(log, docTokens, postings, tokens[..i], t, scores);
        }
      }
      assert tokens[..|tokens|] == tokens;
    }

    static lemma NothingScored(log: real -> real, d: DocTokens)
      ensures ScoresAre(log, d, [], map[])
    {
    }

    static lemma FreqOf(p: Postings, f: map<string, nat>, t: string)
      requires FreqsOf(p, f) && t in p
      ensures t in f && f[t] == |p[t]|
    {
    }

    /** The search returns the best documents by their brute-force TF-IDF scores. */
    method Search(query: string, topk: nat) returns (results: seq<Candidate>)
      requires Valid()
      ensures BestOf(results, Scored(log, docTokens, Words(query)), topk)
      ensures FindsBest(log, docTokens, Words(query), topk, results)
    {
      var tokens := Tokenize(query);
      if tokens == [] || docCount == 0 {
        NoneMatch(log, docTokens, tokens, topk);
        BestIsFound(log, docTokens, tokens, topk, []);
        return [];
      }
      var scores := ScoreAll(tokens);
      hide ScoresAre, Exact, BestOf, Scored, FindsBest;
      AllScored(log, docTokens, tokens, scores);
      results := Listed(scores);
      SortedIsBest(results, CandidatesOf(scores), topk);
      results := Sort(IsBetter, results);
      if |results| > topk {
        results := results[..topk];
      }
      BestIsFound(log, docTokens, tokens, topk, results);
    }

    static lemma NoneMatch(log: real -> real, d: DocTokens, query: seq<string>, topk: nat)
      requires query == [] || |d| == 0
      ensures BestOf([], Scored(log, d, query), topk) && Scored(log, d, query) == {}
    {
      assert forall id :: !(id in d && Matches(d, query, id));
    }
  }
}
