/** The keyword index on a stream: its maps are written in whatever order they are iterated, and
    read back the same. */
module KeywordImage {
  import opened Codec
  import opened Streams
  import opened KeywordIndex
  import opened Status

  type TermCount = (string, nat)
  type DocEntry = (nat, seq<TermCount>)
  type Posting = (string, seq<(nat, nat)>)

  /** One iteration of every map of the index. */
  datatype Listing = Listing(count: nat, docs: seq<DocEntry>, postings: seq<Posting>, freqs: seq<TermCount>)

  datatype Image = Image(count: nat, docs: DocTokens, postings: Postings, freqs: map<string, nat>)

  // ----- writing -----

  function PutTermCount(p: TermCount): Bytes { PutString(p.0) + PutNat(4, p.1) }

  function PutIdCount(p: (nat, nat)): Bytes { PutNat(4, p.0) + PutNat(4, p.1) }

  function PutDoc(p: DocEntry): Bytes { PutNat(4, p.0) + PutList(PutTermCount, p.1) }

  function PutPosting(p: Posting): Bytes { PutString(p.0) + PutList(PutIdCount, p.1) }

  function PutListing(l: Listing): Bytes {
    PutNat(8, l.count) + PutList(PutDoc, l.docs) + PutList(PutPosting, l.postings) + PutList(PutTermCount, l.freqs)
  }

  // ----- reading -----

  function TakeTermCount(b: Bytes): Read<TermCount> {
    match TakeString(b)
    case Short => Short
    case Got(s, rest) => match TakeNat(4, rest) case Short => Short case Got(n, rest') => Got((s, n), rest')
  }

  function TakeIdCount(b: Bytes): Read<(nat, nat)> {
    match TakeNat(4, b)
    case Short => Short
    case Got(id, rest) => match TakeNat(4, rest) case Short => Short case Got(n, rest') => Got((id, n), rest')
  }

  function TakeDoc(b: Bytes): Read<DocEntry> {
    match TakeNat(4, b)
    case Short => Short
    case Got(id, rest) =>
      match TakeList(TakeTermCount, rest) case Short => Short case Got(c, rest') => Got((id, c), rest')
  }

  function TakePosting(b: Bytes): Read<Posting> {
    match TakeString(b)
    case Short => Short
    case Got(t, rest) => match TakeList(TakeIdCount, rest) case Short => Short case Got(c, rest') => Got((t, c), rest')
  }

  function TakeListing(b: Bytes): Read<Listing> {
    match TakeNat(8, b)
    case Short => Short
    case Got(count, r1) =>
      match TakeList(TakeDoc, r1)
      case Short => Short
      case Got(docs, r2) =>
        match TakeList(TakePosting, r2)
        case Short => Short
        case Got(postings, r3) =>
          match TakeList(TakeTermCount, r3)
          case Short => Short
          case Got(freqs, r4) => Got(Listing(count, docs, postings, freqs), r4)
  }

  /** Entering what was read into fresh maps. */
  function DocMap(docs: seq<DocEntry>): DocTokens {
    if docs == [] then map[]
    else
      var last := docs[|docs| - 1];
      var c: Counts := MapOf(last.1);
      DocMap(docs[..|docs| - 1])[last.0 := c]
  }

  function PostingMap(postings: seq<Posting>): Postings {
    if postings == [] then map[]
    else
      var last := postings[|postings| - 1];
      var c: map<nat, nat> := MapOf(last.1);
      PostingMap(postings[..|postings| - 1])[last.0 := c]
  }

  function ImageOf(l: Listing): Image {
    Image(l.count, DocMap(l.docs), PostingMap(l.postings), MapOf(l.freqs))
  }

  // ----- sizes that the widths on the stream can hold -----

  ghost predicate CountFits(n: nat) { n < Pow256(4) }

  ghost predicate TermCountsFit(s: seq<TermCount>) {
    |s| < Pow256(8) && forall p :: p in s ==> ByteString(p.0) && CountFits(p.1)
  }

  ghost predicate IdCountsFit(s: seq<(nat, nat)>) {
    |s| < Pow256(8) && forall p :: p in s ==> CountFits(p.0) && CountFits(p.1)
  }

  ghost predicate ListingFits(l: Listing) {
    && l.count < Pow256(8) && |l.docs| < Pow256(8) && |l.postings| < Pow256(8)
    && (forall p :: p in l.docs ==> CountFits(p.0) && TermCountsFit(p.1))
    && (forall p :: p in l.postings ==> ByteString(p.0) && IdCountsFit(p.1))
    && TermCountsFit(l.freqs)
  }

  // ----- reading back what was written -----

  lemma TermCountReadable(p: TermCount)
    requires ByteString(p.0) && CountFits(p.1)
    ensures Readable(PutTermCount, TakeTermCount, p)
  {
    hide PutString, TakeString, PutNat, TakeNat, ByteString;
    forall rest: Bytes ensures TakeTermCount(PutTermCount(p) + rest) == Got(p, rest) {
      assert PutTermCount(p) + rest == PutString(p.0) + (PutNat(4, p.1) + rest);
      TakePutString(p.0, PutNat(4, p.1) + rest);
      TakePut(4, p.1, rest);
    }
  }

  lemma IdCountReadable(p: (nat, nat))
    requires CountFits(p.0) && CountFits(p.1)
    ensures Readable(PutIdCount, TakeIdCount, p)
  {
    hide PutNat, TakeNat;
    forall rest: Bytes ensures TakeIdCount(PutIdCount(p) + rest) == Got(p, rest) {
      assert PutIdCount(p) + rest == PutNat(4, p.0) + (PutNat(4, p.1) + rest);
      TakePut(4, p.0, PutNat(4, p.1) + rest);
      TakePut(4, p.1, rest);
    }
  }

  lemma TermCountsBack(s: seq<TermCount>, rest: Bytes)
    requires TermCountsFit(s)
    ensures TakeList(TakeTermCount, PutList(PutTermCount, s) + rest) == Got(s, rest)
  {
    forall p | p in s ensures Readable(PutTermCount, TakeTermCount, p) {
      TermCountReadable(p);
    }
    TakePutList(PutTermCount, TakeTermCount, s, rest);
  }

  lemma IdCountsBack(s: seq<(nat, nat)>, rest: Bytes)
    requires IdCountsFit(s)
    ensures TakeList(TakeIdCount, PutList(PutIdCount, s) + rest) == Got(s, rest)
  {
    forall p | p in s ensures Readable(PutIdCount, TakeIdCount, p) {
      IdCountReadable(p);
    }
    TakePutList(PutIdCount, TakeIdCount, s, rest);
  }

  lemma DocReadable(p: DocEntry)
    requires CountFits(p.0) && TermCountsFit(p.1)
    ensures Readable(PutDoc, TakeDoc, p)
  {
    hide PutNat, TakeNat, PutList, TakeList, TermCountsFit;
    forall rest: Bytes ensures TakeDoc(PutDoc(p) + rest) == Got(p, rest) {
      assert PutDoc(p) + rest == PutNat(4, p.0) + (PutList(PutTermCount, p.1) + rest);
      TakePut(4, p.0, PutList(PutTermCount, p.1) + rest);
      TermCountsBack(p.1, rest);
    }
  }

  lemma PostingReadable(p: Posting)
    requires ByteString(p.0) && IdCountsFit(p.1)
    ensures Readable(PutPosting, TakePosting, p)
  {
    hide PutString, TakeString, PutList, TakeList, IdCountsFit, ByteString;
    forall rest: Bytes ensures TakePosting(PutPosting(p) + rest) == Got(p, rest) {
      assert PutPosting(p) + rest == PutString(p.0) + (PutList(PutIdCount, p.1) + rest);
      TakePutString(p.0, PutList(PutIdCount, p.1) + rest);
      IdCountsBack(p.1, rest);
    }
  }

  lemma DocsBack(s: seq<DocEntry>, rest: Bytes)
    requires |s| < Pow256(8) && forall p :: p in s ==> CountFits(p.0) && TermCountsFit(p.1)
    ensures TakeList(TakeDoc, PutList(PutDoc, s) + rest) == Got(s, rest)
  {
    forall p | p in s ensures Readable(PutDoc, TakeDoc, p) {
      DocReadable(p);
    }
    TakePutList(PutDoc, TakeDoc, s, rest);
  }

  lemma PostingsBack(s: seq<Posting>, rest: Bytes)
    requires |s| < Pow256(8) && forall p :: p in s ==> ByteString(p.0) && IdCountsFit(p.1)
    ensures TakeList(TakePosting, PutList(PutPosting, s) + rest) == Got(s, rest)
  {
    forall p | p in s ensures Readable(PutPosting, TakePosting, p) {
      PostingReadable(p);
    }
    TakePutList(PutPosting, TakePosting, s, rest);
  }

  lemma ListingBack(l: Listing, rest: Bytes)
    requires ListingFits(l)
    ensures TakeListing(PutListing(l) + rest) == Got(l, rest)
  {
    hide PutNat, TakeNat, PutList, TakeList, TermCountsFit, IdCountsFit, CountFits, ByteString;
    var d, p, f := PutList(PutDoc, l.docs), PutList(PutPosting, l.postings), PutList(PutTermCount, l.freqs);
    assert PutListing(l) + rest == PutNat(8, l.count) + (d + (p + (f + rest)));
    TakePut(8, l.count, d + (p + (f + rest)));
    DocsBack(l.docs, p + (f + rest));
    PostingsBack(l.postings, f + rest);
    TermCountsBack(l.freqs, rest);
  }

  // ----- any iteration order -----

  ghost predicate ListsDocs(docs: seq<DocEntry>, d: DocTokens) {
    && |docs| == |d|
    && (forall i :: 0 <= i < |docs| ==> docs[i].0 in d && Iterates(docs[i].1, d[docs[i].0]))
    && (forall i, j :: 0 <= i < j < |docs| ==> docs[i].0 != docs[j].0)
  }

  ghost predicate ListsPostings(postings: seq<Posting>, p: Postings) {
    && |postings| == |p|
    && (forall i :: 0 <= i < |postings| ==> postings[i].0 in p && Iterates(postings[i].1, p[postings[i].0]))
    && (forall i, j :: 0 <= i < j < |postings| ==> postings[i].0 != postings[j].0)
  }

  /** The listing goes through the image's maps, each in some order. */
  ghost predicate Lists(l: Listing, image: Image) {
    && l.count == image.count && ListsDocs(l.docs, image.docs) && ListsPostings(l.postings, image.postings)
    && Iterates(l.freqs, image.freqs)
  }

  lemma {:induction false} DocsRebuilt(docs: seq<DocEntry>, d: DocTokens)
    requires ListsDocs(docs, d)
    ensures DocMap(docs) == d
    decreases |docs|
  {
    if docs == [] {
      assert d == map[];
    } else {
      var front, last := docs[..|docs| - 1], docs[|docs| - 1];
      var rest := d - {last.0};
      assert d.Keys == rest.Keys + {last.0};
      IterationRebuilds(last.1, d[last.0]);
      hide Iterates;
      DocsRebuilt(front, rest);
      assert rest[last.0 := d[last.0]] == d;
    }
  }

  lemma {:induction false} PostingsRebuilt(postings: seq<Posting>, p: Postings)
    requires ListsPostings(postings, p)
    ensures PostingMap(postings) == p
    decreases |postings|
  {
    if postings == [] {
      assert p == map[];
    } else {
      var front, last := postings[..|postings| - 1], postings[|postings| - 1];
      var rest := p - {last.0};
      assert p.Keys == rest.Keys + {last.0};
      IterationRebuilds(last.1, p[last.0]);
      hide Iterates;
      PostingsRebuilt(front, rest);
      assert rest[last.0 := p[last.0]] == p;
    }
  }

  lemma ImageRebuilt(l: Listing, image: Image)
    requires Lists(l, image)
    ensures ImageOf(l) == image
  {
    DocsRebuilt(l.docs, image.docs);
    PostingsRebuilt(l.postings, image.postings);
    IterationRebuilds(l.freqs, image.freqs);
  }

  /** Whatever order the maps were iterated in when writing, reading gives the same maps and stops
      exactly where the writer stopped. */
  lemma KeywordRoundTrip(l: Listing, image: Image, rest: Bytes)
    requires Lists(l, image) && ListingFits(l)
    ensures TakeListing(PutListing(l) + rest) == Got(l, rest) && ImageOf(l) == image
  {
    ListingBack(l, rest);
    ImageRebuilt(l, image);
  }

  // ----- the methods -----

  method ListDocs(d: DocTokens) returns (docs: seq<DocEntry>)
    ensures ListsDocs(docs, d)
  {
    var outer := Iterate(d);
    docs := [];
    for i := 0 to |outer|
      invariant |docs| == i
      invariant forall j :: 0 <= j < i ==> docs[j].0 == outer[j].0 && Iterates(docs[j].1, d[outer[j].0])
    {
      var inner := Iterate(outer[i].1);
      docs := docs + [(outer[i].0, inner)];
    }
  }

  method ListPostings(p: Postings) returns (postings: seq<Posting>)
    ensures ListsPostings(postings, p)
  {
    var outer := Iterate(p);
    postings := [];
    for i := 0 to |outer|
      invariant |postings| == i
      invariant forall j :: 0 <= j < i ==> postings[j].0 == outer[j].0 && Iterates(postings[j].1, p[outer[j].0])
    {
      var inner := Iterate(outer[i].1);
      postings := postings + [(outer[i].0, inner)];
    }
  }

  method Save(k: KeywordIndex, out: Bytes) returns (r: Bytes, ghost l: Listing)
    ensures Lists(l, Image(k.docCount, k.docTokens, k.postings, k.docFreq))
    ensures r == out + PutListing(l)
  {
    var docs := ListDocs(k.docTokens);
    var postings := ListPostings(k.postings);
    var freqs := Iterate(k.docFreq);
    l := Listing(k.docCount, docs, postings, freqs);
    hide ListsDocs, ListsPostings, Iterates, PutList, PutNat;
    r := out + PutNat(8, k.docCount);
    r := WriteList(r, PutDoc, docs);
    r := WriteList(r, PutPosting, postings);
    r := WriteList(r, PutTermCount, freqs);
    Appended(out, PutNat(8, l.count), PutList(PutDoc, docs), PutList(PutPosting, postings),
             PutList(PutTermCount, freqs));
  }

  /** A stream that ends too soon is an error; otherwise the index is what the stream says. */
  method Load(k: KeywordIndex, b: Bytes) returns (status: Status, rest: Bytes)
    modifies k
    ensures status == if TakeListing(b) == Short then Internal else Ok
    ensures status == Ok ==>
              && rest == TakeListing(b).rest
              && Image(k.docCount, k.docTokens, k.postings, k.docFreq) == ImageOf(TakeListing(b).value)
  {
    hide TakeList, TakeNat;
    rest := b;
    match TakeNat(8, rest)
    case Short => return Internal, rest;
    case Got(count, r1) =>
      k.docCount := count;
      var docs := ReadList(TakeDoc, r1);
      if docs.Short? {
        return Internal, rest;
      }
      k.docTokens := DocMap(docs.value);
      var postings := ReadList(TakePosting, docs.rest);
      if postings.Short? {
        return Internal, rest;
      }
      k.postings := PostingMap(postings.value);
      var freqs := ReadList(TakeTermCount, postings.rest);
      if freqs.Short? {
        return Internal, rest;
      }
      k.docFreq := MapOf(freqs.value);
      return Ok, freqs.rest;
  }
}
