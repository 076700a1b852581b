/** The shard's optimistic reader against its writers, one lock-protected step at a time.
    A reader copies (id, gen, key, meta, offset) of each candidate under the shared doc lock,
    takes the store's read guard, scores from the store, and keeps an item only if the doc's
    generation is still the one it copied. Writers hold the doc lock exclusively; slots are
    released in a later step, after the doc lock is gone. */
module ShardProtocol {
  import opened Sequences
  import opened Slots
  import opened Options
  import opened Candidates

  type Key = string
  type Meta = map<string, string>
  type Score = (Vec, Vec) -> real

  datatype Doc = Doc(key: Key, meta: Meta, offset: nat, deleted: bool, gen: nat, expiry: Option<int>)

  /** An upsert between taking the doc lock and giving it back. */
  datatype Pending = Pending(key: Key, vec: Vec, meta: Meta, expiry: Option<int>, id: nat, known: bool,
                             wrote: bool, offset: nat)

  datatype Snap = Snap(id: nat, gen: nat, key: Key, meta: Meta, offset: nat)

  datatype Reader = Reader(query: Vec, snaps: seq<Snap>, next: nat, guarded: bool, read: Option<Vec>)

  /** A returned item, with the doc, its vector and the clock as they were when it was validated. */
  datatype Emission = Emission(query: Vec, key: Key, meta: Meta, score: real, doc: Doc, vec: Vec, now: int)

  /** `content[i]` is the vector of the last completed upsert of doc i; `pending` the slots of
      docs marked deleted whose release is still to come. */
  datatype State = State(docs: seq<Doc>, ids: map<Key, nat>, content: seq<Vec>, store: Table<Vec>,
                         writer: Option<Pending>, pending: seq<nat>, readers: map<nat, Reader>,
                         now: int, emitted: seq<Emission>)

  datatype Action =
    | UpsertBegin(key: Key, vec: Vec, meta: Meta, expiry: Option<int>)
    | UpsertWrite
    | UpsertFail
    | UpsertCommit
    | DeleteMark(key: Key)
    | PurgeMark(id: nat)
    | ReleaseSlot(at: nat)
    | ReaderStart(r: nat, query: Vec)
    | ReaderCopy(r: nat, id: nat)
    | ReaderGuard(r: nat)
    | ReaderScore(r: nat)
    | ReaderValidate(r: nat)
    | ReaderEnd(r: nat)
    | Tick(elapsed: nat)

  const INIT := State([], map[], [], Table([], [], []), None, [], map[], 0, [])

  predicate IsExpired(doc: Doc, now: int) {
    doc.expiry.Some? && now >= doc.expiry.value
  }

  /** No reader holds the store's read guard, so a writer can take the write guard. */
  ghost predicate StoreFree(s: State) {
    forall r :: r in s.readers ==> !s.readers[r].guarded
  }

  ghost predicate Enabled(s: State, a: Action) {
    match a
    case UpsertBegin(_, _, _, _) => s.writer.None?
    case UpsertWrite => s.writer.Some? && !s.writer.value.wrote && StoreFree(s)
    case UpsertFail => s.writer.Some? && s.writer.value.wrote && (s.writer.value.known || StoreFree(s))
    case UpsertCommit => s.writer.Some? && s.writer.value.wrote
    case DeleteMark(key) => s.writer.None? && key in s.ids
    case PurgeMark(id) => s.writer.None? && id < |s.docs| && !s.docs[id].deleted && IsExpired(s.docs[id], s.now)
    case ReleaseSlot(at) => at < |s.pending| && StoreFree(s)
    case ReaderStart(r, _) => r !in s.readers
    case ReaderCopy(r, id) =>
      && r in s.readers && !s.readers[r].guarded && s.writer.None?
      && id < |s.docs| && !s.docs[id].deleted && !IsExpired(s.docs[id], s.now)
    case ReaderGuard(r) => r in s.readers && !s.readers[r].guarded
    case ReaderScore(r) => r in s.readers && s.readers[r].guarded && s.readers[r].next < |s.readers[r].snaps|
      && s.readers[r].read.None?
    case ReaderValidate(r) => r in s.readers && s.readers[r].read.Some? && s.writer.None?
    case ReaderEnd(r) => r in s.readers && s.readers[r].guarded && s.readers[r].next == |s.readers[r].snaps|
    case Tick(_) => true
  }

  /** The key is one that was deleted or purged before. */
  ghost predicate Reuses(s: State, a: Action) {
    && (a.UpsertBegin? || a.DeleteMark?)
    && a.key in s.ids && s.ids[a.key] < |s.docs| && s.docs[s.ids[a.key]].deleted
  }

  /** The index refuses an upsert of a known doc whose new vector is not the one the slot held. */
  ghost predicate Spoils(s: State, a: Action) {
    && a.UpsertFail? && s.writer.Some? && s.writer.value.known && s.writer.value.id < |s.content|
    && s.writer.value.vec != s.content[s.writer.value.id]
  }

  // ----- what the steps do -----

  function Marked(s: State, id: nat): State
    requires id < |s.docs|
  {
    var doc := s.docs[id];
    s.(docs := s.docs[id := doc.(deleted := true, gen := doc.gen + 1)], pending := s.pending + [doc.offset])
  }

  function Written(s: State, p: Pending): State
    requires |s.store.vecs| == |s.store.live| && NextSlot(s.store) <= |s.store.live|
    requires p.known ==> p.id < |s.docs|
  {
    if p.known then
      var offset := s.docs[p.id].offset;
      s.(store := Updated(s.store, [], offset, p.vec), writer := Some(p.(wrote := true, offset := offset)))
    else
      s.(store := Inserted(s.store, p.vec), writer := Some(p.(wrote := true, offset := NextSlot(s.store))))
  }

  function Committed(s: State, p: Pending): State
    requires p.known ==> p.id < |s.docs| && p.id < |s.content|
  {
    if p.known then
      var doc := s.docs[p.id];
      s.(docs := s.docs[p.id := Doc(doc.key, p.meta, p.offset, false, doc.gen + 1, p.expiry)],
         content := s.content[p.id := p.vec], writer := None)
    else
      s.(docs := s.docs + [Doc(p.key, p.meta, p.offset, false, 1, p.expiry)], content := s.content + [p.vec],
         ids := s.ids[p.key := p.id], writer := None)
  }

  /** The index refused: a new doc's slot is given back, a known doc's slot stays as written. */
  function Refused(s: State, p: Pending): State {
    s.(store := if p.known then s.store else Released(s.store, p.offset), writer := None)
  }

  function Without(p: seq<nat>, at: nat): seq<nat>
    requires at < |p|
  {
    p[..at] + p[at + 1..]
  }

  /** Whether the copied doc is still the current one. */
  predicate StillLive(s: State, c: Snap) {
    c.id < |s.docs| && !s.docs[c.id].deleted && !IsExpired(s.docs[c.id], s.now) && s.docs[c.id].gen == c.gen
  }

  function Validated(score: Score, s: State, r: nat): State
    requires r in s.readers && s.readers[r].read.Some? && s.readers[r].next < |s.readers[r].snaps|
    requires |s.docs| == |s.content|
  {
    var reader := s.readers[r];
    var c := reader.snaps[reader.next];
    var moved := s.(readers := s.readers[r := reader.(next := reader.next + 1, read := None)]);
    if StillLive(s, c) then
      moved.(emitted := s.emitted +
        [Emission(reader.query, c.key, c.meta, score(reader.query, reader.read.value), s.docs[c.id], s.content[c.id],
                  s.now)])
    else moved
  }

  /** What makes every step well defined, even in runs that reuse deleted keys. */
  ghost predicate ShapeOk(s: State) {
    && |s.content| == |s.docs| && |s.store.vecs| == |s.store.live|
    && (forall i :: 0 <= i < |s.store.free| ==> s.store.free[i] < |s.store.live|)
    && (forall k :: k in s.ids ==> s.ids[k] < |s.docs|)
    && (s.writer.Some? ==> if s.writer.value.known then s.writer.value.id < |s.docs| else s.writer.value.id == |s.docs|)
    && (forall i :: 0 <= i < |s.docs| ==> s.docs[i].offset < |s.store.live|)
    && (s.writer.Some? && s.writer.value.wrote ==> s.writer.value.offset < |s.store.live|)
    && (forall r :: r in s.readers ==> ReaderShapeOk(s, s.readers[r]))
  }

  ghost predicate ReaderShapeOk(s: State, r: Reader) {
    && r.next <= |r.snaps| && (r.read.Some? ==> r.next < |r.snaps|)
    && (forall k :: 0 <= k < |r.snaps| ==> r.snaps[k].offset < |s.store.vecs|)
  }

  ghost function Apply(score: Score, s: State, a: Action): State
    requires ShapeOk(s) && Enabled(s, a)
  {
    match a
    case UpsertBegin(key, vec, meta, expiry) =>
      s.(writer := Some(Pending(key, vec, meta, expiry, if key in s.ids then s.ids[key] else |s.docs|, key in s.ids,
                                false, 0)))
    case UpsertWrite => Written(s, s.writer.value)
    case UpsertFail => Refused(s, s.writer.value)
    case UpsertCommit => Committed(s, s.writer.value)
    case DeleteMark(key) => Marked(s, s.ids[key])
    case PurgeMark(id) => Marked(s, id)
    case ReleaseSlot(at) => s.(store := Released(s.store, s.pending[at]), pending := Without(s.pending, at))
    case ReaderStart(r, query) => s.(readers := s.readers[r := Reader(query, [], 0, false, None)])
    case ReaderCopy(r, id) =>
      var doc, reader := s.docs[id], s.readers[r];
      s.(readers := s.readers[r := reader.(snaps := reader.snaps + [Snap(id, doc.gen, doc.key, doc.meta, doc.offset)])])
    case ReaderGuard(r) => s.(readers := s.readers[r := s.readers[r].(guarded := true)])
    case ReaderScore(r) =>
      var reader := s.readers[r];
      s.(readers := s.readers[r := reader.(read := Some(s.store.vecs[reader.snaps[reader.next].offset]))])
    case ReaderValidate(r) => Validated(score, s, r)
    case ReaderEnd(r) => s.(readers := s.readers - {r})
    case Tick(elapsed) => s.(now := s.now + elapsed)
  }

  lemma ShapeOfWrite(s: State, p: Pending)
    requires ShapeOk(s) && s.writer == Some(p) && !p.wrote
    ensures ShapeOk(Written(s, p))
  {
  }

  lemma ShapeOfCommit(s: State, p: Pending)
    requires ShapeOk(s) && s.writer == Some(p) && p.wrote
    ensures ShapeOk(Committed(s, p))
  {
  }

  lemma ShapeOfStore(s: State, slot: nat)
    requires ShapeOk(s)
    ensures ShapeOk(s.(store := Released(s.store, slot)))
  {
  }

  lemma ShapeOfRefusal(s: State, a: Action)
    requires ShapeOk(s)
    ensures a.UpsertFail? && s.writer.Some? ==> ShapeOk(Refused(s, s.writer.value))
  {
  }

  lemma ShapeOfReader(s: State, r: nat, reader: Reader)
    requires ShapeOk(s) && ReaderShapeOk(s, reader)
    ensures ShapeOk(s.(readers := s.readers[r := reader]))
  {
  }

  lemma ShapeOfMark(s: State, id: nat)
    requires ShapeOk(s) && id < |s.docs|
    ensures ShapeOk(Marked(s, id))
  {
  }

  lemma ShapeKept(score: Score, s: State, a: Action)
    requires ShapeOk(s) && Enabled(s, a)
    ensures ShapeOk(Apply(score, s, a))
  {
    ShapeOfRefusal(s, a);
    hide Written, Committed, Marked, Released, Refused;
    match a
    case UpsertBegin(_, _, _, _) =>
    case UpsertWrite => ShapeOfWrite(s, s.writer.value);
    case UpsertFail =>
    case UpsertCommit => ShapeOfCommit(s, s.writer.value);
    case DeleteMark(key) => ShapeOfMark(s, s.ids[key]);
    case PurgeMark(id) => ShapeOfMark(s, id);
    case ReleaseSlot(at) => ShapeOfStore(s, s.pending[at]);
    case ReaderStart(r, query) => ShapeOfReader(s, r, Reader(query, [], 0, false, None));
    case ReaderCopy(r, _) => ShapeOfReader(s, r, Apply(score, s, a).readers[r]);
    case ReaderGuard(r) => ShapeOfReader(s, r, Apply(score, s, a).readers[r]);
    case ReaderScore(r) => ShapeOfReader(s, r, Apply(score, s, a).readers[r]);
    case ReaderValidate(r) => ShapeOfReader(s, r, Apply(score, s, a).readers[r]);
    case ReaderEnd(_) =>
    case Tick(_) =>
  }

  // ----- what every run keeps -----

  /** Keys and ids name each other, and the open upsert knows which doc it is about. */
  ghost predicate TablesOk(s: State) {
    && |s.content| == |s.docs|
    && (forall k :: k in s.ids ==> s.ids[k] < |s.docs| && s.docs[s.ids[k]].key == k)
    && (forall i :: 0 <= i < |s.docs| ==> s.docs[i].key in s.ids && s.ids[s.docs[i].key] == i)
    && (s.writer.Some? ==>
          var p := s.writer.value;
          if p.known then p.id < |s.docs| && s.docs[p.id].key == p.key && (p.wrote ==> p.offset == s.docs[p.id].offset)
          else p.id == |s.docs| && p.key !in s.ids)
  }

  /** The open upsert has taken a new slot that no doc names yet. */
  ghost predicate Claimed(s: State, slot: nat) {
    s.writer.Some? && s.writer.value.wrote && !s.writer.value.known && s.writer.value.offset == slot
  }

  ghost predicate Named(s: State, slot: nat) {
    exists i :: 0 <= i < |s.docs| && !s.docs[i].deleted && s.docs[i].offset == slot
  }

  /** Every live slot has exactly one owner: a live doc, a release to come, or the open upsert. */
  ghost predicate OwnersOk(s: State) {
    && Consistent(s.store)
    && (forall i :: 0 <= i < |s.docs| ==> s.docs[i].offset < |s.store.live|)
    && (forall slot: nat :: IsLiveSlot(s.store, slot) <==> Named(s, slot) || slot in s.pending || Claimed(s, slot))
    && (forall i, j :: 0 <= i < j < |s.docs| && !s.docs[i].deleted && !s.docs[j].deleted ==>
        s.docs[i].offset != s.docs[j].offset)
    && Distinct(s.pending)
    && (forall slot: nat :: slot in s.pending ==> !Named(s, slot))
    && (forall slot: nat :: Claimed(s, slot) ==> !Named(s, slot) && slot !in s.pending)
    && (s.writer.Some? && s.writer.value.known ==> s.writer.value.id < |s.docs| && !s.docs[s.writer.value.id].deleted)
  }

  /** The store holds each live doc's vector, or the open upsert's if it has written already. */
  ghost predicate StoreOk(s: State) {
    && |s.content| == |s.docs| && |s.store.vecs| == |s.store.live|
    && (forall i :: 0 <= i < |s.docs| && !s.docs[i].deleted ==>
          && s.docs[i].offset < |s.store.vecs|
          && s.store.vecs[s.docs[i].offset] == VectorOf(s, i))
    && (s.writer.Some? && s.writer.value.wrote && !s.writer.value.known ==>
          && s.writer.value.offset < |s.store.vecs|
          && s.store.vecs[s.writer.value.offset] == s.writer.value.vec)
  }

  ghost function VectorOf(s: State, i: nat): Vec
    requires i < |s.content|
  {
    if s.writer.Some? && s.writer.value.wrote && s.writer.value.known && s.writer.value.id == i
    then s.writer.value.vec else s.content[i]
  }

  /** A copy is of an earlier generation, or of the doc as it is now. */
  ghost predicate CopyOk(s: State, c: Snap) {
    && c.id < |s.docs| && c.gen <= s.docs[c.id].gen && c.offset < |s.store.vecs|
    && (c.gen == s.docs[c.id].gen ==>
          && c.key == s.docs[c.id].key && c.meta == s.docs[c.id].meta && c.offset == s.docs[c.id].offset
          && !s.docs[c.id].deleted)
  }

  ghost predicate ReaderOk(s: State, r: Reader) {
    && r.next <= |r.snaps|
    && (forall k :: 0 <= k < |r.snaps| ==> CopyOk(s, r.snaps[k]))
    && (r.read.Some? ==> r.guarded && r.next < |r.snaps| && r.read.value == s.store.vecs[r.snaps[r.next].offset])
  }

  ghost predicate ReadersOk(s: State) {
    forall r :: r in s.readers ==> ReaderOk(s, s.readers[r])
  }

  /** The item is the doc as it was at the validation step: its key, its metadata, the score of
      its own vector, and it was live then. */
  ghost predicate Untorn(score: Score, e: Emission) {
    && e.key == e.doc.key && e.meta == e.doc.meta && e.score == score(e.query, e.vec)
    && !e.doc.deleted && (e.doc.expiry == None || e.now < e.doc.expiry.value)
  }

  ghost predicate EmissionsOk(score: Score, s: State) {
    forall k :: 0 <= k < |s.emitted| ==> Untorn(score, s.emitted[k])
  }

  ghost predicate Invariant(score: Score, s: State) {
    TablesOk(s) && OwnersOk(s) && StoreOk(s) && ReadersOk(s) && EmissionsOk(score, s)
  }

  // ----- each step keeps it -----

  lemma CommitKeepsTables(s: State, p: Pending)
    requires ShapeOk(s) && TablesOk(s) && s.writer == Some(p) && p.wrote
    ensures TablesOk(Committed(s, p))
  {
  }

  lemma TablesKept(score: Score, s: State, a: Action)
    requires ShapeOk(s) && Enabled(s, a) && TablesOk(s)
    ensures TablesOk(Apply(score, s, a))
  {
    if a.UpsertCommit? {
      hide Committed;
      CommitKeepsTables(s, s.writer.value);
    } else {
      hide Committed, Updated, Inserted, Released, StoreFree, Without;
    }
  }

  lemma CommitKeepsStore(s: State, p: Pending)
    requires ShapeOk(s) && TablesOk(s) && StoreOk(s) && s.writer == Some(p) && p.wrote
    requires p.known ==> !s.docs[p.id].deleted
    ensures StoreOk(Committed(s, p))
  {
  }

  lemma MarkKeepsStore(s: State, id: nat)
    requires StoreOk(s) && id < |s.docs|
    ensures StoreOk(Marked(s, id))
  {
  }

  /** Steps that touch neither docs nor vectors and at most open an upsert. */
  lemma UntouchedStore(s: State, t: State)
    requires StoreOk(s) && t.docs == s.docs && t.content == s.content && t.store.vecs == s.store.vecs
    requires |t.store.live| == |s.store.live|
    requires t.writer == s.writer || (t.writer.Some? && !t.writer.value.wrote && s.writer.None?)
    ensures StoreOk(t)
  {
  }

  /** A refused upsert leaves the store right if and only if its doc is new, or its vector is the
      one the doc had: nobody puts the old vector back. */
  lemma RefusalKeepsStoreIff(s: State, p: Pending)
    requires ShapeOk(s) && TablesOk(s) && OwnersOk(s) && StoreOk(s) && s.writer == Some(p) && p.wrote
    ensures StoreOk(Refused(s, p)) <==> !p.known || p.vec == s.content[p.id]
  {
    var t := Refused(s, p);
    if p.known {
      assert !s.docs[p.id].deleted && s.store.vecs[s.docs[p.id].offset] == VectorOf(s, p.id) == p.vec;
      assert VectorOf(t, p.id) == s.content[p.id];
    }
  }

  /** The store keeps each live doc's vector, unless a deleted key is used again or a known doc is
      refused. */
  lemma StoreKept(score: Score, s: State, a: Action)
    requires ShapeOk(s) && Enabled(s, a) && TablesOk(s) && OwnersOk(s) && StoreOk(s)
    requires !Reuses(s, a) && !Spoils(s, a)
    ensures StoreOk(Apply(score, s, a))
  {
    assert s.writer.Some? && s.writer.value.known ==>
             s.writer.value.id < |s.docs| == |s.content| && !s.docs[s.writer.value.id].deleted;
    hide StoreOk, OwnersOk, TablesOk, Written, Committed, Marked, Refused;
    match a
    case UpsertWrite => WriteKeepsStore(s, s.writer.value);
    case UpsertFail => RefusalKeepsStoreIff(s, s.writer.value);
    case UpsertCommit => CommitKeepsStore(s, s.writer.value);
    case DeleteMark(key) => MarkKeepsStore(s, s.ids[key]);
    case PurgeMark(id) => MarkKeepsStore(s, id);
    case _ => UntouchedStore(s, Apply(score, s, a));
  }

  lemma WriteKeepsStore(s: State, p: Pending)
    requires ShapeOk(s) && TablesOk(s) && OwnersOk(s) && StoreOk(s)
    requires s.writer == Some(p) && !p.wrote
    ensures StoreOk(Written(s, p))
  {
    var t := Written(s, p);
    if p.known {
      var offset := s.docs[p.id].offset;
      assert Named(s, offset);
      UpdateKeeps(s.store, [], offset, p.vec);
    } else {
      InsertKeeps(s.store, p.vec);
      forall i | 0 <= i < |s.docs| && !s.docs[i].deleted ensures s.docs[i].offset != NextSlot(s.store) {
        assert Named(s, s.docs[i].offset);
      }
    }
  }

  /** Docs are replaced only under a larger generation, and slots never disappear. */
  ghost predicate DocsAdvance(s: State, t: State) {
    && |s.docs| <= |t.docs| && |s.store.vecs| <= |t.store.vecs|
    && forall i :: 0 <= i < |s.docs| ==> t.docs[i] == s.docs[i] || t.docs[i].gen > s.docs[i].gen
  }

  lemma DocsOnlyAdvance(score: Score, s: State, a: Action)
    requires ShapeOk(s) && Enabled(s, a)
    ensures DocsAdvance(s, Apply(score, s, a))
  {
  }

  lemma CopiesCarry(s: State, t: State, r: Reader)
    requires DocsAdvance(s, t) && forall k :: 0 <= k < |r.snaps| ==> CopyOk(s, r.snaps[k])
    ensures forall k :: 0 <= k < |r.snaps| ==> CopyOk(t, r.snaps[k])
  {
  }

  /** While a reader is inside the read guard no step writes the store. */
  lemma GuardFreezesStore(score: Score, s: State, a: Action, r: nat)
    requires ShapeOk(s) && Enabled(s, a) && r in s.readers && s.readers[r].guarded
    ensures Apply(score, s, a).store == s.store
  {
  }

  lemma ReadersKept(score: Score, s: State, a: Action)
    requires ShapeOk(s) && Enabled(s, a) && ReadersOk(s)
    ensures ReadersOk(Apply(score, s, a))
  {
    var t := Apply(score, s, a);
    DocsOnlyAdvance(score, s, a);
    forall r | r in t.readers ensures ReaderOk(t, t.readers[r]) {
      if r in s.readers {
        CopiesCarry(s, t, s.readers[r]);
        if s.readers[r].guarded {
          GuardFreezesStore(score, s, a, r);
        }
        ReaderKept(score, s, a, r);
      }
    }
  }

  /** The reader a step acts on, if any. */
  ghost predicate ActsOn(a: Action, r: nat) {
    match a
    case ReaderStart(x, _) => x == r
    case ReaderCopy(x, _) => x == r
    case ReaderGuard(x) => x == r
    case ReaderScore(x) => x == r
    case ReaderValidate(x) => x == r
    case ReaderEnd(x) => x == r
    case _ => false
  }

  lemma OtherReadersStay(score: Score, s: State, a: Action, r: nat)
    requires ShapeOk(s) && Enabled(s, a) && !ActsOn(a, r)
    ensures r in Apply(score, s, a).readers <==> r in s.readers
    ensures r in s.readers ==> Apply(score, s, a).readers[r] == s.readers[r]
  {
  }

  lemma ReaderKept(score: Score, s: State, a: Action, r: nat)
    requires ShapeOk(s) && Enabled(s, a) && r in s.readers && ReaderOk(s, s.readers[r])
    requires DocsAdvance(s, Apply(score, s, a))
    requires s.readers[r].guarded ==> Apply(score, s, a).store == s.store
    requires forall k :: 0 <= k < |s.readers[r].snaps| ==> CopyOk(Apply(score, s, a), s.readers[r].snaps[k])
    ensures r in Apply(score, s, a).readers ==> ReaderOk(Apply(score, s, a), Apply(score, s, a).readers[r])
  {
    if ActsOn(a, r) {
      hide Written, Committed, Marked, Released;
    } else {
      OtherReadersStay(score, s, a, r);
      hide Apply, CopyOk;
    }
  }

  lemma EmissionsKept(score: Score, s: State, a: Action)
    requires ShapeOk(s) && Enabled(s, a) && Invariant(score, s)
    ensures EmissionsOk(score, Apply(score, s, a))
  {
    if a.ReaderValidate? {
      var reader := s.readers[a.r];
      var c := reader.snaps[reader.next];
      assert CopyOk(s, c);
    }
  }

  lemma MarkedNames(s: State, id: nat, slot: nat)
    requires ShapeOk(s) && OwnersOk(s) && id < |s.docs| && !s.docs[id].deleted
    ensures Named(Marked(s, id), slot) <==> Named(s, slot) && slot != s.docs[id].offset
  {
    var t := Marked(s, id);
    if Named(s, slot) && slot != s.docs[id].offset {
      var i :| 0 <= i < |s.docs| && !s.docs[i].deleted && s.docs[i].offset == slot;
      assert t.docs[i] == s.docs[i];
    }
    if Named(t, slot) {
      var i :| 0 <= i < |t.docs| && !t.docs[i].deleted && t.docs[i].offset == slot;
      assert t.docs[i] == s.docs[i] && i != id;
    }
  }

  lemma MarkKeepsOwners(s: State, id: nat)
    requires ShapeOk(s) && TablesOk(s) && OwnersOk(s) && s.writer.None?
    requires id < |s.docs| && !s.docs[id].deleted
    ensures OwnersOk(Marked(s, id))
  {
    assert Named(s, s.docs[id].offset);
    forall slot: nat ensures Named(Marked(s, id), slot) <==> Named(s, slot) && slot != s.docs[id].offset {
      MarkedNames(s, id, slot);
    }
    hide Named;
  }

  lemma WriteKnown(s: State, p: Pending)
    requires ShapeOk(s) && TablesOk(s) && OwnersOk(s) && s.writer == Some(p) && !p.wrote && p.known
    ensures OwnersOk(Written(s, p))
  {
    var t := Written(s, p);
    assert forall slot: nat :: Named(t, slot) <==> Named(s, slot);
    assert Named(s, s.docs[p.id].offset);
    UpdateKeeps(s.store, [], s.docs[p.id].offset, p.vec);
    assert forall slot: nat :: IsLiveSlot(t.store, slot) <==> IsLiveSlot(s.store, slot);
    hide Named, IsLiveSlot, Updated;
  }

  lemma WriteNew(s: State, p: Pending)
    requires ShapeOk(s) && TablesOk(s) && OwnersOk(s) && s.writer == Some(p) && !p.wrote && !p.known
    ensures OwnersOk(Written(s, p))
  {
    var t := Written(s, p);
    assert forall slot: nat :: Named(t, slot) <==> Named(s, slot);
    InsertKeeps(s.store, p.vec);
    assert forall slot: nat :: IsLiveSlot(t.store, slot) <==> IsLiveSlot(s.store, slot) || slot == NextSlot(s.store);
    assert |t.store.live| >= |s.store.live|;
    hide Named, IsLiveSlot, Inserted, NextSlot;
  }

  lemma WriteKeepsOwners(s: State, p: Pending)
    requires ShapeOk(s) && TablesOk(s) && OwnersOk(s) && s.writer == Some(p) && !p.wrote
    ensures OwnersOk(Written(s, p))
  {
    if p.known { WriteKnown(s, p); } else { WriteNew(s, p); }
  }

  lemma RefusalKeepsOwners(s: State, p: Pending)
    requires ShapeOk(s) && TablesOk(s) && OwnersOk(s) && s.writer == Some(p) && p.wrote
    ensures OwnersOk(Refused(s, p))
  {
    if p.known {
      UntouchedOwners(s, Refused(s, p));
    } else {
      RefusedNew(s, p);
    }
  }

  lemma RefusedNew(s: State, p: Pending)
    requires ShapeOk(s) && TablesOk(s) && OwnersOk(s) && s.writer == Some(p) && p.wrote && !p.known
    ensures OwnersOk(Refused(s, p))
  {
    var t := Refused(s, p);
    assert Claimed(s, p.offset);
    ReleaseKeeps(s.store, p.offset);
    assert forall slot: nat :: Named(t, slot) <==> Named(s, slot);
    assert forall slot: nat :: IsLiveSlot(t.store, slot) <==> IsLiveSlot(s.store, slot) && slot != p.offset;
  }

  lemma CommitKnown(s: State, p: Pending)
    requires ShapeOk(s) && TablesOk(s) && OwnersOk(s) && s.writer == Some(p) && p.wrote && p.known
    ensures OwnersOk(Committed(s, p))
  {
    var t := Committed(s, p);
    assert forall i :: 0 <= i < |s.docs| ==>
      t.docs[i].deleted == s.docs[i].deleted && t.docs[i].offset == s.docs[i].offset;
    assert forall slot: nat :: Named(t, slot) <==> Named(s, slot);
    hide Named;
  }

  lemma CommitNewNames(s: State, p: Pending, slot: nat)
    requires ShapeOk(s) && s.writer == Some(p) && !p.known
    ensures Named(Committed(s, p), slot) <==> Named(s, slot) || slot == p.offset
  {
    var t := Committed(s, p);
    assert t.docs[|s.docs|].offset == p.offset;
    if Named(s, slot) {
      var i :| 0 <= i < |s.docs| && !s.docs[i].deleted && s.docs[i].offset == slot;
      assert t.docs[i] == s.docs[i];
    }
  }

  lemma CommitNew(s: State, p: Pending)
    requires ShapeOk(s) && TablesOk(s) && OwnersOk(s) && s.writer == Some(p) && p.wrote && !p.known
    ensures OwnersOk(Committed(s, p))
  {
    var t := Committed(s, p);
    assert Claimed(s, p.offset);
    forall i | 0 <= i < |s.docs| && !s.docs[i].deleted ensures t.docs[i].offset != p.offset {
      assert Named(s, s.docs[i].offset);
    }
    forall slot: nat ensures Named(t, slot) <==> Named(s, slot) || slot == p.offset {
      CommitNewNames(s, p, slot);
    }
    hide Named;
  }

  lemma CommitKeepsOwners(s: State, p: Pending)
    requires ShapeOk(s) && TablesOk(s) && OwnersOk(s) && s.writer == Some(p) && p.wrote
    ensures OwnersOk(Committed(s, p))
  {
    if p.known { CommitKnown(s, p); } else { CommitNew(s, p); }
  }

  lemma ReleaseKeepsOwners(s: State, at: nat)
    requires ShapeOk(s) && TablesOk(s) && OwnersOk(s) && at < |s.pending|
    ensures OwnersOk(s.(store := Released(s.store, s.pending[at]), pending := Without(s.pending, at)))
  {
    var slot := s.pending[at];
    var t := s.(store := Released(s.store, slot), pending := Without(s.pending, at));
    assert slot in s.pending;
    ReleaseKeeps(s.store, slot);
    assert forall x: nat :: Named(t, x) <==> Named(s, x);
    assert forall x: nat :: IsLiveSlot(t.store, x) <==> IsLiveSlot(s.store, x) && x != slot;
    WithoutOne(s.pending, at);
  }

  lemma WithoutOne(p: seq<nat>, at: nat)
    requires Distinct(p) && at < |p|
    ensures Distinct(Without(p, at))
    ensures forall x: nat :: x in Without(p, at) <==> x in p && x != p[at]
  {
    var r := Without(p, at);
    forall x: nat | x in p && x != p[at] ensures x in r {
      var i :| 0 <= i < |p| && p[i] == x;
      assert if i < at then r[i] == x else r[i - 1] == x;
    }
  }

  lemma UntouchedOwners(s: State, t: State)
    requires OwnersOk(s) && t.docs == s.docs && t.store == s.store && t.pending == s.pending
    requires forall slot: nat :: Claimed(t, slot) <==> Claimed(s, slot)
    requires t.writer.Some? && t.writer.value.known ==>
               t.writer.value.id < |t.docs| && !t.docs[t.writer.value.id].deleted
    ensures OwnersOk(t)
  {
    assert forall slot: nat :: Named(t, slot) <==> Named(s, slot);
    hide Named, Claimed;
  }

  /** Unless a deleted key is used again, every slot keeps exactly one owner. */
  lemma OwnersKept(score: Score, s: State, a: Action)
    requires ShapeOk(s) && Enabled(s, a) && TablesOk(s) && OwnersOk(s)
    requires !Reuses(s, a)
    ensures OwnersOk(Apply(score, s, a))
  {
    assert s.writer.Some? && s.writer.value.known ==>
      s.writer.value.id < |s.docs| && !s.docs[s.writer.value.id].deleted;
    hide OwnersOk, Written, Committed, Marked, Released, Refused, Named;
    match a
    case UpsertWrite => WriteKeepsOwners(s, s.writer.value);
    case UpsertFail => RefusalKeepsOwners(s, s.writer.value);
    case UpsertCommit => CommitKeepsOwners(s, s.writer.value);
    case DeleteMark(key) => MarkKeepsOwners(s, s.ids[key]);
    case PurgeMark(id) => MarkKeepsOwners(s, id);
    case ReleaseSlot(at) => ReleaseKeepsOwners(s, at);
    case _ => UntouchedOwners(s, Apply(score, s, a));
  }

  // ----- every run -----

  ghost predicate Runnable(score: Score, acts: seq<Action>)
    decreases |acts|, 0
  {
    acts == [] ||
    (Runnable(score, acts[..|acts| - 1]) && Enabled(Run(score, acts[..|acts| - 1]), acts[|acts| - 1]))
  }

  /** The state after a run, in any interleaving of the steps. */
  ghost function Run(score: Score, acts: seq<Action>): (s: State)
    requires Runnable(score, acts)
    ensures ShapeOk(s)
    decreases |acts|, 1
  {
    if acts == [] then INIT
    else
      var s := Run(score, acts[..|acts| - 1]);
      ShapeKept(score, s, acts[|acts| - 1]);
      Apply(score, s, acts[|acts| - 1])
  }

  /** No step of the run uses a key that was deleted or purged before. */
  ghost predicate NeverReuses(score: Score, acts: seq<Action>)
    requires Runnable(score, acts)
  {
    acts == [] ||
    (NeverReuses(score, acts[..|acts| - 1]) && !Reuses(Run(score, acts[..|acts| - 1]), acts[|acts| - 1]))
  }

  /** No step of the run is a refusal of a known doc that was given another vector. Every refusal
      is one of a new doc where the index accepts every id it knows, as FlatIndex and Hnsw do. */
  ghost predicate NeverSpoils(score: Score, acts: seq<Action>)
    requires Runnable(score, acts)
  {
    acts == [] ||
    (NeverSpoils(score, acts[..|acts| - 1]) && !Spoils(Run(score, acts[..|acts| - 1]), acts[|acts| - 1]))
  }

  lemma {:induction false} InvariantHolds(score: Score, acts: seq<Action>)
    requires Runnable(score, acts) && NeverReuses(score, acts) && NeverSpoils(score, acts)
    ensures Invariant(score, Run(score, acts))
  {
    if acts == [] {
    } else {
      var front, a := acts[..|acts| - 1], acts[|acts| - 1];
      InvariantHolds(score, front);
      var s := Run(score, front);
      hide TablesOk, OwnersOk, StoreOk, ReadersOk, EmissionsOk;
      TablesKept(score, s, a);
      OwnersKept(score, s, a);
      StoreKept(score, s, a);
      ReadersKept(score, s, a);
      EmissionsKept(score, s, a);
    }
  }

  /** No torn reads: whatever the interleaving, every returned item has the key, the metadata and
      the score that its doc had at one instant, at which the doc was live. */
  lemma NoTornReads(score: Score, acts: seq<Action>, k: nat)
    requires Runnable(score, acts) && NeverReuses(score, acts) && NeverSpoils(score, acts)
    requires k < |Run(score, acts).emitted|
    ensures Untorn(score, Run(score, acts).emitted[k])
  {
    InvariantHolds(score, acts);
  }

  // ----- using a deleted key again -----

  ghost predicate IsDeletedKey(s: State, key: Key) {
    key in s.ids && s.ids[key] < |s.docs| && s.docs[s.ids[key]].deleted
  }

  /** The state after an upsert that runs without interruption. */
  ghost function Upserted(score: Score, s: State, key: Key, vec: Vec, meta: Meta, expiry: Option<int>): State
    requires ShapeOk(s) && s.writer.None? && StoreFree(s)
  {
    var begun := Apply(score, s, UpsertBegin(key, vec, meta, expiry));
    ShapeKept(score, s, UpsertBegin(key, vec, meta, expiry));
    var written := Apply(score, begun, UpsertWrite);
    ShapeKept(score, begun, UpsertWrite);
    Apply(score, written, UpsertCommit)
  }

  /** It leaves its key's doc live with just these contents, under the next generation, its vector in the
      doc's slot; and no other doc, nor the vector of any other slot, changes. */
  lemma UpsertStores(score: Score, s: State, key: Key, vec: Vec, meta: Meta, expiry: Option<int>)
    requires ShapeOk(s) && TablesOk(s) && s.writer.None? && StoreFree(s)
    ensures var t := Upserted(score, s, key, vec, meta, expiry);
            && t.writer.None? && key in t.ids && t.ids[key] < |t.docs|
            && var id, doc := t.ids[key], t.docs[t.ids[key]];
            && !doc.deleted && doc.key == key && doc.meta == meta && doc.expiry == expiry
            && doc.gen == (if key in s.ids then s.docs[s.ids[key]].gen else 0) + 1
            && id < |t.content| && t.content[id] == vec
            && doc.offset < |t.store.vecs| && t.store.vecs[doc.offset] == vec
            && (if key in s.ids then id == s.ids[key] && doc.offset == s.docs[id].offset && |t.docs| == |s.docs|
                else id == |s.docs| && |t.docs| == |s.docs| + 1)
            && (forall i :: 0 <= i < |s.docs| && i != id ==> t.docs[i] == s.docs[i])
            && (forall slot :: 0 <= slot < |s.store.vecs| && slot != doc.offset ==>
                  t.store.vecs[slot] == s.store.vecs[slot])
            && t.pending == s.pending && t.emitted == s.emitted && t.readers == s.readers
  {
    var begun := Apply(score, s, UpsertBegin(key, vec, meta, expiry));
    ShapeKept(score, s, UpsertBegin(key, vec, meta, expiry));
    var p := begun.writer.value;
    ShapeKept(score, begun, UpsertWrite);
    var written := Written(begun, p);
    WriteFills(begun, p);
    hide Written, ShapeOk, StoreFree, NextSlot;
  }

  lemma WriteFills(s: State, p: Pending)
    requires ShapeOk(s) && s.writer == Some(p) && !p.wrote
    ensures var t := Written(s, p);
            && t == s.(store := t.store, writer := t.writer) && t.writer.Some?
            && var q := t.writer.value;
            && q == p.(wrote := true, offset := q.offset) && (p.known ==> q.offset == s.docs[p.id].offset)
            && q.offset < |t.store.vecs| && t.store.vecs[q.offset] == p.vec
            && |t.store.vecs| >= |s.store.vecs|
            && (forall slot :: 0 <= slot < |s.store.vecs| && slot != q.offset ==>
                t.store.vecs[slot] == s.store.vecs[slot])
  {
  }

  /** An upsert leaves every slot with exactly one owner if and only if its key is not that of a
      deleted doc. */
  lemma UpsertKeepsOwnersIff(score: Score, s: State, key: Key, vec: Vec, meta: Meta, expiry: Option<int>)
    requires ShapeOk(s) && TablesOk(s) && OwnersOk(s) && s.writer.None? && StoreFree(s)
    ensures OwnersOk(Upserted(score, s, key, vec, meta, expiry)) <==> !IsDeletedKey(s, key)
  {
    var begin := UpsertBegin(key, vec, meta, expiry);
    var begun := Apply(score, s, begin);
    ShapeKept(score, s, begin);
    var written := Apply(score, begun, UpsertWrite);
    ShapeKept(score, begun, UpsertWrite);
    var t := Apply(score, written, UpsertCommit);
    if IsDeletedKey(s, key) {
      RevivedSlotShared(s, s.ids[key], written, t, vec);
    } else {
      hide TablesOk, OwnersOk, ShapeOk;
      TablesKept(score, s, begin);
      OwnersKept(score, s, begin);
      TablesKept(score, begun, UpsertWrite);
      OwnersKept(score, begun, UpsertWrite);
      OwnersKept(score, written, UpsertCommit);
    }
  }

  lemma RevivedSlotShared(s: State, id: nat, written: State, t: State, vec: Vec)
    requires ShapeOk(s) && OwnersOk(s) && s.writer.None? && id < |s.docs| && s.docs[id].deleted
    requires t.store == Updated(s.store, [], s.docs[id].offset, vec) && t.pending == s.pending
    requires |t.docs| == |s.docs| && !t.docs[id].deleted && t.docs[id].offset == s.docs[id].offset
    requires forall j :: 0 <= j < |s.docs| && j != id ==> t.docs[j] == s.docs[j]
    ensures !OwnersOk(t)
  {
    var slot := s.docs[id].offset;
    assert Named(t, slot);
    if !IsLiveSlot(s.store, slot) {
      UpdateKeepsIff(s.store, [], slot, vec);
    } else if Named(s, slot) {
      var j :| 0 <= j < |s.docs| && !s.docs[j].deleted && s.docs[j].offset == slot;
      assert t.docs[j] == s.docs[j];
    }
  }

  /** A delete keeps the owners if and only if the doc was not deleted already. */
  lemma DeleteKeepsOwnersIff(s: State, id: nat)
    requires ShapeOk(s) && TablesOk(s) && OwnersOk(s) && s.writer.None? && id < |s.docs|
    ensures OwnersOk(Marked(s, id)) <==> !s.docs[id].deleted
  {
    var t := Marked(s, id);
    if s.docs[id].deleted {
      DoubleDeleteShares(s, id);
    } else {
      MarkKeepsOwners(s, id);
    }
  }

  lemma DoubleDeleteShares(s: State, id: nat)
    requires ShapeOk(s) && TablesOk(s) && OwnersOk(s) && s.writer.None? && id < |s.docs| && s.docs[id].deleted
    ensures !OwnersOk(Marked(s, id))
  {
    var t := Marked(s, id);
    var slot := s.docs[id].offset;
    assert t.pending[|s.pending|] == slot;
    if slot in s.pending {
      var k :| 0 <= k < |s.pending| && s.pending[k] == slot;
      assert t.pending[k] == slot;
    } else if IsLiveSlot(s.store, slot) {
      var j :| 0 <= j < |s.docs| && !s.docs[j].deleted && s.docs[j].offset == slot;
      assert t.docs[j] == s.docs[j];
      assert Named(t, slot);
    } else {
      assert slot in t.pending && !IsLiveSlot(t.store, slot);
    }
  }

  /** One enabled step, with its outcome. */
  ghost predicate Leads(score: Score, s: State, a: Action, t: State) {
    ShapeOk(s) && Enabled(s, a) && Apply(score, s, a) == t
  }

  lemma Extend(score: Score, acts: seq<Action>, s: State, a: Action, t: State) returns (longer: seq<Action>)
    requires Runnable(score, acts) && Run(score, acts) == s && Leads(score, s, a, t)
    ensures Runnable(score, longer) && Run(score, longer) == t
    ensures NeverReuses(score, acts) && !Reuses(s, a) ==> NeverReuses(score, longer)
    ensures NeverSpoils(score, acts) && !Spoils(s, a) ==> NeverSpoils(score, longer)
  {
    longer := acts + [a];
    assert longer[..|acts|] == acts;
  }

  function Holding(docs: seq<Doc>, ids: map<Key, nat>, content: seq<Vec>, store: Table<Vec>): State {
    State(docs, ids, content, store, None, [], map[], 0, [])
  }

  function Opened(s: State, key: Key, x: real, id: nat, known: bool): State {
    s.(writer := Some(Pending(key, [x], map[], None, id, known, false, 0)))
  }

  function Stored(s: State, key: Key, x: real, id: nat, known: bool, free: seq<nat>): State {
    s.(writer := Some(Pending(key, [x], map[], None, id, known, true, 0)), store := Table([[x]], [true], free))
  }

  function ReadBy(s: State, query: Vec, snaps: seq<Snap>, guarded: bool, read: Option<Vec>): State {
    s.(readers := map[0 := Reader(query, snaps, 0, guarded, read)])
  }

  const A1 := Doc("a", map[], 0, false, 1, None)
  const A2 := Doc("a", map[], 0, true, 2, None)
  const A3 := Doc("a", map[], 0, false, 3, None)
  const B1 := Doc("b", map[], 0, false, 1, None)
  const STORED_A := Holding([A1], map["a" := 0], [[1.0]], Table([[1.0]], [true], []))
  const MARKED_A := STORED_A.(docs := [A2], pending := [0])
  const DELETED_A := Holding([A2], map["a" := 0], [[1.0]], Table([[1.0]], [false], [0]))
  const REVIVED_A := Holding([A3], map["a" := 0], [[2.0]], Table([[2.0]], [true], [0]))
  const SHARED := Holding([A3, B1], map["a" := 0, "b" := 1], [[2.0], [3.0]], Table([[3.0]], [true], []))

  lemma FirstUpsert(score: Score)
    ensures var s1 := Opened(INIT, "a", 1.0, 0, false);
            var s2 := Stored(s1, "a", 1.0, 0, false, []);
            && Leads(score, INIT, UpsertBegin("a", [1.0], map[], None), s1) && Leads(score, s1, UpsertWrite, s2)
            && Leads(score, s2, UpsertCommit, STORED_A)
  {
  }

  lemma FirstDelete(score: Score)
    ensures Leads(score, STORED_A, DeleteMark("a"), MARKED_A) && Leads(score, MARKED_A, ReleaseSlot(0), DELETED_A)
  {
  }

  lemma SecondUpsert(score: Score)
    ensures var s1 := Opened(DELETED_A, "a", 2.0, 0, true);
            var s2 := Stored(s1, "a", 2.0, 0, true, [0]);
            && Leads(score, DELETED_A, UpsertBegin("a", [2.0], map[], None), s1) && Leads(score, s1, UpsertWrite, s2)
            && Leads(score, s2, UpsertCommit, REVIVED_A)
  {
  }

  lemma OtherUpsert(score: Score)
    ensures var s1 := Opened(REVIVED_A, "b", 3.0, 1, false);
            var s2 := Stored(s1, "b", 3.0, 1, false, []);
            && Leads(score, REVIVED_A, UpsertBegin("b", [3.0], map[], None), s1) && Leads(score, s1, UpsertWrite, s2)
            && Leads(score, s2, UpsertCommit, SHARED)
  {
  }

  /** Deleting "a", storing it again and then storing "b" leaves both with one slot. */
  lemma ShareSlot(score: Score) returns (acts: seq<Action>)
    ensures Runnable(score, acts) && Run(score, acts) == SHARED
  {
    FirstUpsert(score);
    FirstDelete(score);
    SecondUpsert(score);
    OtherUpsert(score);
    acts := [];
    assert Run(score, acts) == INIT;
    hide Leads, Run, Runnable;
    var s1, s6, s9 := Opened(INIT, "a", 1.0, 0, false), Opened(DELETED_A, "a", 2.0, 0, true),
      Opened(REVIVED_A, "b", 3.0, 1, false);
    var s2, s7, s10 := Stored(s1, "a", 1.0, 0, false, []), Stored(s6, "a", 2.0, 0, true, [0]),
      Stored(s9, "b", 3.0, 1, false, []);
    acts := Extend(score, acts, INIT, UpsertBegin("a", [1.0], map[], None), s1);
    acts := Extend(score, acts, s1, UpsertWrite, s2);
    acts := Extend(score, acts, s2, UpsertCommit, STORED_A);
    acts := Extend(score, acts, STORED_A, DeleteMark("a"), MARKED_A);
    acts := Extend(score, acts, MARKED_A, ReleaseSlot(0), DELETED_A);
    acts := Extend(score, acts, DELETED_A, UpsertBegin("a", [2.0], map[], None), s6);
    acts := Extend(score, acts, s6, UpsertWrite, s7);
    acts := Extend(score, acts, s7, UpsertCommit, REVIVED_A);
    acts := Extend(score, acts, REVIVED_A, UpsertBegin("b", [3.0], map[], None), s9);
    acts := Extend(score, acts, s9, UpsertWrite, s10);
    acts := Extend(score, acts, s10, UpsertCommit, SHARED);
  }

  lemma CopyShared(score: Score, query: Vec)
    ensures var r1 := ReadBy(SHARED, query, [], false, None);
            var r2 := ReadBy(SHARED, query, [Snap(0, 3, "a", map[], 0)], false, None);
            Leads(score, SHARED, ReaderStart(0, query), r1) && Leads(score, r1, ReaderCopy(0, 0), r2)
  {
    var r1 := ReadBy(SHARED, query, [], false, None);
    assert Leads(score, SHARED, ReaderStart(0, query), r1);
    var copied := Reader(query, [Snap(0, 3, "a", map[], 0)], 0, false, None);
    assert ShapeOk(r1);
    assert Enabled(r1, ReaderCopy(0, 0));
    assert r1.readers[0] == Reader(query, [], 0, false, None);
    assert [] + copied.snaps == copied.snaps;
    assert r1.readers[0 := copied] == map[0 := copied];
    assert Apply(score, r1, ReaderCopy(0, 0)) == r1.(readers := r1.readers[0 := copied]);
  }

  lemma GuardShared(score: Score, query: Vec)
    ensures var r2 := ReadBy(SHARED, query, [Snap(0, 3, "a", map[], 0)], false, None);
            var r3 := ReadBy(SHARED, query, [Snap(0, 3, "a", map[], 0)], true, None);
            Leads(score, r2, ReaderGuard(0), r3)
  {
  }

  lemma ScoreShared(score: Score, query: Vec)
    ensures var r3 := ReadBy(SHARED, query, [Snap(0, 3, "a", map[], 0)], true, None);
            var r4 := ReadBy(SHARED, query, [Snap(0, 3, "a", map[], 0)], true, Some([3.0]));
            Leads(score, r3, ReaderScore(0), r4)
  {
  }

  lemma ValidateShared(score: Score, query: Vec)
    ensures var r4 := ReadBy(SHARED, query, [Snap(0, 3, "a", map[], 0)], true, Some([3.0]));
            && ShapeOk(r4) && Enabled(r4, ReaderValidate(0))
            && Apply(score, r4, ReaderValidate(0)).emitted ==
                [Emission(query, "a", map[], score(query, [3.0]), A3, [2.0], 0)]
  {
  }

  /** Without the condition the claim is false: after a deleted key is stored again, a search can
      return "a" with the score of "b". */
  lemma ReuseTears(score: Score, query: Vec) returns (acts: seq<Action>)
    requires score(query, [2.0]) != score(query, [3.0])
    ensures Runnable(score, acts) && |Run(score, acts).emitted| == 1
    ensures !Untorn(score, Run(score, acts).emitted[0])
  {
    acts := ShareSlot(score);
    CopyShared(score, query);
    GuardShared(score, query);
    ScoreShared(score, query);
    ValidateShared(score, query);
    var copies := [Snap(0, 3, "a", map[], 0)];
    var r1, r2 := ReadBy(SHARED, query, [], false, None), ReadBy(SHARED, query, copies, false, None);
    var r3, r4 := ReadBy(SHARED, query, copies, true, None), ReadBy(SHARED, query, copies, true, Some([3.0]));
    var done := Apply(score, r4, ReaderValidate(0));
    assert Leads(score, r4, ReaderValidate(0), done);
    hide Leads, Run, Runnable, Apply, Enabled, ShapeOk;
    acts := Extend(score, acts, SHARED, ReaderStart(0, query), r1);
    acts := Extend(score, acts, r1, ReaderCopy(0, 0), r2);
    acts := Extend(score, acts, r2, ReaderGuard(0), r3);
    acts := Extend(score, acts, r3, ReaderScore(0), r4);
    acts := Extend(score, acts, r4, ReaderValidate(0), done);
  }

  // ----- refusing a known doc -----

  /** One search on its own, up to the validation of its only candidate. */
  ghost function Searching(s: State, r: nat, query: Vec, id: nat, guarded: bool, read: Option<Vec>): State
    requires id < |s.docs|
  {
    var doc := s.docs[id];
    s.(readers := s.readers[r := Reader(query, [Snap(id, doc.gen, doc.key, doc.meta, doc.offset)], 0, guarded, read)])
  }

  lemma SearchStarts(score: Score, s: State, r: nat, query: Vec)
    requires ShapeOk(s) && r !in s.readers
    ensures Leads(score, s, ReaderStart(r, query), s.(readers := s.readers[r := Reader(query, [], 0, false, None)]))
  {
  }

  lemma SearchCopies(score: Score, s: State, r: nat, query: Vec, id: nat)
    requires ShapeOk(s) && s.writer.None?
    requires id < |s.docs| && !s.docs[id].deleted && !IsExpired(s.docs[id], s.now)
    ensures var started := s.(readers := s.readers[r := Reader(query, [], 0, false, None)]);
            Leads(score, started, ReaderCopy(r, id), Searching(s, r, query, id, false, None))
  {
    var started, copied := s.(readers := s.readers[r := Reader(query, [], 0, false, None)]),
      Searching(s, r, query, id, false, None);
    assert [] + copied.readers[r].snaps == copied.readers[r].snaps;
    assert started.readers[r := copied.readers[r]] == copied.readers;
  }

  lemma SearchGuards(score: Score, s: State, r: nat, query: Vec, id: nat)
    requires ShapeOk(s) && id < |s.docs| && s.docs[id].offset < |s.store.vecs|
    ensures Leads(score, Searching(s, r, query, id, false, None), ReaderGuard(r),
                  Searching(s, r, query, id, true, None))
  {
    var copied, guarded := Searching(s, r, query, id, false, None), Searching(s, r, query, id, true, None);
    assert copied.readers[r := guarded.readers[r]] == guarded.readers;
  }

  lemma SearchScores(score: Score, s: State, r: nat, query: Vec, id: nat)
    requires ShapeOk(s) && id < |s.docs| && s.docs[id].offset < |s.store.vecs|
    ensures Leads(score, Searching(s, r, query, id, true, None), ReaderScore(r),
                  Searching(s, r, query, id, true, Some(s.store.vecs[s.docs[id].offset])))
  {
    var guarded := Searching(s, r, query, id, true, None);
    var scored := Searching(s, r, query, id, true, Some(s.store.vecs[s.docs[id].offset]));
    assert guarded.readers[r := scored.readers[r]] == scored.readers;
  }

  lemma SearchEmits(score: Score, s: State, r: nat, query: Vec, id: nat, read: Vec)
    requires ShapeOk(s) && s.writer.None? && id < |s.docs| && !s.docs[id].deleted && !IsExpired(s.docs[id], s.now)
    requires s.docs[id].offset < |s.store.vecs|
    ensures var t := Searching(s, r, query, id, true, Some(read));
            && ShapeOk(t) && Enabled(t, ReaderValidate(r))
            && Apply(score, t, ReaderValidate(r)).emitted == s.emitted +
                [Emission(query, s.docs[id].key, s.docs[id].meta, score(query, read), s.docs[id], s.content[id], s.now)]
  {
  }

  /** Any run that ends in such a refusal of a doc that has not expired can be continued, with one
      search and no reuse of a key, to a torn item: the old doc with the score of the refused vector. */
  lemma RefusalTears(score: Score, acts: seq<Action>, query: Vec, r: nat) returns (longer: seq<Action>)
    requires Runnable(score, acts) && NeverReuses(score, acts) && NeverSpoils(score, acts)
    requires var s := Run(score, acts);
             && Enabled(s, UpsertFail) && Spoils(s, UpsertFail) && r !in s.readers
             && var p := s.writer.value;
                !IsExpired(s.docs[p.id], s.now) && score(query, p.vec) != score(query, s.content[p.id])
    ensures Runnable(score, longer) && NeverReuses(score, longer)
    ensures var e := Run(score, longer).emitted;
            |e| == |Run(score, acts).emitted| + 1 && !Untorn(score, e[|e| - 1])
  {
    var s := Run(score, acts);
    InvariantHolds(score, acts);
    var p := s.writer.value;
    var id := p.id;
    assert !s.docs[id].deleted && s.store.vecs[s.docs[id].offset] == VectorOf(s, id) == p.vec;
    var t := Refused(s, p);
    ShapeKept(score, s, UpsertFail);
    assert Leads(score, s, UpsertFail, t);
    SearchStarts(score, t, r, query);
    SearchCopies(score, t, r, query, id);
    SearchGuards(score, t, r, query, id);
    SearchScores(score, t, r, query, id);
    SearchEmits(score, t, r, query, id, p.vec);
    var started := t.(readers := t.readers[r := Reader(query, [], 0, false, None)]);
    var copied, guarded := Searching(t, r, query, id, false, None), Searching(t, r, query, id, true, None);
    var scored := Searching(t, r, query, id, true, Some(p.vec));
    var done := Apply(score, scored, ReaderValidate(r));
    assert Leads(score, scored, ReaderValidate(r), done);
    hide Leads, Run, Runnable, Apply, Enabled, ShapeOk, NeverReuses, NeverSpoils, Invariant, Searching;
    longer := Extend(score, acts, s, UpsertFail, t);
    longer := Extend(score, longer, t, ReaderStart(r, query), started);
    longer := Extend(score, longer, started, ReaderCopy(r, id), copied);
    longer := Extend(score, longer, copied, ReaderGuard(r), guarded);
    longer := Extend(score, longer, guarded, ReaderScore(r), scored);
    longer := Extend(score, longer, scored, ReaderValidate(r), done);
  }

  const REFUSING_A := Stored(Opened(STORED_A, "a", 2.0, 0, true), "a", 2.0, 0, true, [])

  lemma FirstIsSafe()
    ensures !Reuses(INIT, UpsertBegin("a", [1.0], map[], None)) && forall s :: !Reuses(s, UpsertWrite)
    ensures forall s, key, vec, meta, expiry :: !Spoils(s, UpsertBegin(key, vec, meta, expiry))
    ensures forall s :: !Reuses(s, UpsertCommit) && !Spoils(s, UpsertWrite) && !Spoils(s, UpsertCommit)
  {
  }

  lemma RefusalReached(score: Score)
    ensures var s1 := Opened(STORED_A, "a", 2.0, 0, true);
            && !Reuses(STORED_A, UpsertBegin("a", [2.0], map[], None))
            && Leads(score, STORED_A, UpsertBegin("a", [2.0], map[], None), s1)
            && Leads(score, s1, UpsertWrite, REFUSING_A)
  {
  }

  lemma RefusalSpoils()
    ensures Enabled(REFUSING_A, UpsertFail) && Spoils(REFUSING_A, UpsertFail) && 0 !in REFUSING_A.readers
    ensures |REFUSING_A.docs| == |REFUSING_A.content| == 1 && REFUSING_A.writer.Some?
    ensures REFUSING_A.writer.value.id == 0 && !IsExpired(REFUSING_A.docs[0], REFUSING_A.now)
    ensures REFUSING_A.content[0] == [1.0] && REFUSING_A.writer.value.vec == [2.0] && REFUSING_A.emitted == []
  {
  }

  lemma RefusalRun(score: Score) returns (acts: seq<Action>)
    ensures Runnable(score, acts) && NeverReuses(score, acts) && NeverSpoils(score, acts)
    ensures Run(score, acts) == REFUSING_A
  {
    FirstUpsert(score);
    FirstIsSafe();
    RefusalReached(score);
    acts := [];
    assert Run(score, acts) == INIT && NeverReuses(score, acts) && NeverSpoils(score, acts);
    hide Leads, Run, Runnable, NeverReuses, NeverSpoils, Reuses, Spoils;
    var s1, s3 := Opened(INIT, "a", 1.0, 0, false), Opened(STORED_A, "a", 2.0, 0, true);
    var s2 := Stored(s1, "a", 1.0, 0, false, []);
    acts := Extend(score, acts, INIT, UpsertBegin("a", [1.0], map[], None), s1);
    acts := Extend(score, acts, s1, UpsertWrite, s2);
    acts := Extend(score, acts, s2, UpsertCommit, STORED_A);
    acts := Extend(score, acts, STORED_A, UpsertBegin("a", [2.0], map[], None), s3);
    acts := Extend(score, acts, s3, UpsertWrite, REFUSING_A);
  }

  /** Such a run exists: "a" is stored, and stored again with another vector that the index
      refuses; a search returns the old "a" with the score of the refused vector. */
  lemma RefusedRunTears(score: Score, query: Vec) returns (acts: seq<Action>)
    requires score(query, [1.0]) != score(query, [2.0])
    ensures Runnable(score, acts) && NeverReuses(score, acts) && |Run(score, acts).emitted| == 1
    ensures !Untorn(score, Run(score, acts).emitted[0])
  {
    RefusalSpoils();
    acts := RefusalRun(score);
    hide Run, Runnable, NeverReuses, NeverSpoils, Enabled, Spoils, Untorn;
    acts := RefusalTears(score, acts, query, 0);
  }
}
