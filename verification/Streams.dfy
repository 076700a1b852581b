/** Length-prefixed values on a byte stream: fixed-width integers, strings, lists and maps, what
    reading them back gives, and that it leaves the rest of the stream alone. */
module Streams {
  import opened Codec

  /** The outcome of a read: a value and the stream behind it, or a stream that ended too soon. */
  datatype Read<+T> = Got(value: T, rest: Bytes) | Short

  // ----- integers -----

  function TakeNat(width: nat, b: Bytes): Read<nat> {
    if |b| < width then Short else Got(NatOf(b[..width]), b[width..])
  }

  lemma TakePut(width: nat, v: nat, rest: Bytes)
    requires v < Pow256(width)
    ensures TakeNat(width, PutNat(width, v) + rest) == Got(v, rest)
  {
    hide NatOf, Pow256;
    NatOfPut(width, v);
    var b := PutNat(width, v) + rest;
    assert b[..width] == PutNat(width, v) && b[width..] == rest;
  }

  /** A flag is one byte; any non-zero byte reads as set. */
  function PutFlag(f: bool): (b: Bytes)
    ensures |b| == 1
  {
    PutNat(1, if f then 1 else 0)
  }

  function TakeFlag(b: Bytes): Read<bool> {
    match TakeNat(1, b)
    case Short => Short
    case Got(v, rest) => Got(v != 0, rest)
  }

  lemma TakePutFlag(f: bool, rest: Bytes)
    ensures TakeFlag(PutFlag(f) + rest) == Got(f, rest)
  {
    TakePut(1, if f then 1 else 0, rest);
  }

  // ----- strings -----

  ghost predicate ByteString(s: string) {
    |s| < Pow256(8) && forall i :: 0 <= i < |s| ==> s[i] as int < 256
  }

  function PutChars(s: string): (b: Bytes)
    ensures |b| == |s|
  {
    if s == "" then [] else PutChars(s[..|s| - 1]) + PutNat(1, s[|s| - 1] as int % 256)
  }

  function CharsOf(b: Bytes): (s: string)
    ensures |s| == |b|
  {
    if b == [] then "" else CharsOf(b[..|b| - 1]) + [CharOf(b[|b| - 1..])]
  }

  function CharOf(b: Bytes): char
    requires |b| == 1
  {
    CharRange(b);
    NatOf(b) as char
  }

  lemma CharRange(b: Bytes)
    requires |b| == 1
    ensures NatOf(b) < 256
  {
    assert Pow256(1) == 256;
  }

  lemma {:induction false} CharsBack(s: string)
    requires forall i :: 0 <= i < |s| ==> s[i] as int < 256
    ensures CharsOf(PutChars(s)) == s
  {
    if s != "" {
      var front, c := s[..|s| - 1], s[|s| - 1];
      CharsBack(front);
      var b := PutChars(s);
      assert b[..|b| - 1] == PutChars(front);
      assert b[|b| - 1..] == PutNat(1, c as int);
      OneCharBack(c);
    }
  }

  lemma OneCharBack(c: char)
    requires c as int < 256
    ensures CharOf(PutNat(1, c as int)) == c
  {
    assert Pow256(1) == 256;
    NatOfPut(1, c as int);
  }

  function PutString(s: string): Bytes {
    PutNat(8, |s|) + PutChars(s)
  }

  function TakeString(b: Bytes): Read<string> {
    match TakeNat(8, b)
    case Short => Short
    case Got(len, rest) => if |rest| < len then Short else Got(CharsOf(rest[..len]), rest[len..])
  }

  lemma TakePutString(s: string, rest: Bytes)
    requires ByteString(s)
    ensures TakeString(PutString(s) + rest) == Got(s, rest)
  {
    hide CharsOf, PutChars, TakeNat, PutNat;
    var chars := PutChars(s);
    TakePut(8, |s|, chars + rest);
    assert PutString(s) + rest == PutNat(8, |s|) + (chars + rest);
    assert (chars + rest)[..|s|] == chars && (chars + rest)[|s|..] == rest;
    CharsBack(s);
  }

  /** Pieces written one after the other. */
  lemma Appended<T>(out: seq<T>, a: seq<T>, b: seq<T>, c: seq<T>, d: seq<T>)
    ensures out + a + b + c + d == out + (a + b + c + d)
  {
  }

  // ----- lists -----

  type Reader<!T> = Bytes -> Read<T>

  function PutAll<T>(put: T -> Bytes, xs: seq<T>): Bytes {
    if xs == [] then [] else PutAll(put, xs[..|xs| - 1]) + put(xs[|xs| - 1])
  }

  /** Reads n values, stopping where the stream ends. */
  function TakeAll<T>(take: Reader<T>, n: nat, b: Bytes): Read<seq<T>> {
    if n == 0 then Got([], b)
    else
      match TakeAll(take, n - 1, b)
      case Short => Short
      case Got(xs, rest) =>
        match take(rest)
        case Short => Short
        case Got(x, rest') => Got(xs + [x], rest')
  }

  /** Reading x gives x back, whatever follows it. */
  ghost predicate Readable<T(!new)>(put: T -> Bytes, take: Reader<T>, x: T) {
    forall rest: Bytes :: take(put(x) + rest) == Got(x, rest)
  }

  lemma {:induction false} TakePutAll<T(!new)>(put: T -> Bytes, take: Reader<T>, xs: seq<T>, rest: Bytes)
    requires forall x :: x in xs ==> Readable(put, take, x)
    ensures TakeAll(take, |xs|, PutAll(put, xs) + rest) == Got(xs, rest)
  {
    if xs == [] {
      assert PutAll(put, xs) + rest == rest;
    } else {
      var front, last := xs[..|xs| - 1], xs[|xs| - 1];
      TakePutAll(put, take, front, put(last) + rest);
      assert PutAll(put, xs) + rest == PutAll(put, front) + (put(last) + rest);
      assert Readable(put, take, last);
      assert front + [last] == xs;
    }
  }

  function PutList<T>(put: T -> Bytes, xs: seq<T>): Bytes {
    PutNat(8, |xs|) + PutAll(put, xs)
  }

  function TakeList<T>(take: Reader<T>, b: Bytes): Read<seq<T>> {
    match TakeNat(8, b)
    case Short => Short
    case Got(n, rest) => TakeAll(take, n, rest)
  }

  lemma TakePutList<T(!new)>(put: T -> Bytes, take: Reader<T>, xs: seq<T>, rest: Bytes)
    requires |xs| < Pow256(8) && forall x :: x in xs ==> Readable(put, take, x)
    ensures TakeList(take, PutList(put, xs) + rest) == Got(xs, rest)
  {
    hide TakeNat, PutNat;
    TakePut(8, |xs|, PutAll(put, xs) + rest);
    assert PutList(put, xs) + rest == PutNat(8, |xs|) + (PutAll(put, xs) + rest);
    TakePutAll(put, take, xs, rest);
  }

  method WriteList<T>(out: Bytes, put: T -> Bytes, xs: seq<T>) returns (r: Bytes)
    ensures r == out + PutList(put, xs)
  {
    hide PutNat;
    r := out + PutNat(8, |xs|);
    for i := 0 to |xs|
      invariant r == out + PutNat(8, |xs|) + PutAll(put, xs[..i])
    {
      assert xs[..i + 1][..i] == xs[..i];
      r := r + put(xs[i]);
    }
    assert xs[..|xs|] == xs;
  }

  method ReadAll<T>(take: Reader<T>, n: nat, b: Bytes) returns (r: Read<seq<T>>)
    ensures r == TakeAll(take, n, b)
  {
    var xs: seq<T>, rest := [], b;
    for i := 0 to n
      invariant TakeAll(take, i, b) == Got(xs, rest)
    {
      match take(rest)
      case Short =>
        ShortStays(take, i + 1, n, b);
        return Short;
      case Got(x, more) =>
        xs, rest := xs + [x], more;
    }
    r := Got(xs, rest);
  }

  lemma {:induction false} ShortStays<T>(take: Reader<T>, i: nat, n: nat, b: Bytes)
    requires i <= n && TakeAll(take, i, b) == Short
    ensures TakeAll(take, n, b) == Short
  {
    if i < n {
      ShortStays(take, i, n - 1, b);
    }
  }

  method ReadList<T>(take: Reader<T>, b: Bytes) returns (r: Read<seq<T>>)
    ensures r == TakeList(take, b)
  {
    match TakeNat(8, b)
    case Short => r := Short;
    case Got(n, rest) => r := ReadAll(take, n, rest);
  }

  // ----- maps, in whatever order they are iterated -----

  /** Entering the pairs one after the other. */
  function MapOf<K, V>(pairs: seq<(K, V)>): map<K, V> {
    if pairs == [] then map[] else MapOf(pairs[..|pairs| - 1])[pairs[|pairs| - 1].0 := pairs[|pairs| - 1].1]
  }

  /** An iteration of the map: every key once, with its value. */
  ghost predicate Iterates<K, V>(pairs: seq<(K, V)>, m: map<K, V>) {
    && |pairs| == |m|
    && (forall i :: 0 <= i < |pairs| ==> pairs[i].0 in m && m[pairs[i].0] == pairs[i].1)
    && (forall i, j :: 0 <= i < j < |pairs| ==> pairs[i].0 != pairs[j].0)
  }

  lemma {:induction false} IterationRebuilds<K, V>(pairs: seq<(K, V)>, m: map<K, V>)
    requires Iterates(pairs, m)
    ensures MapOf(pairs) == m
    decreases |pairs|
  {
    if pairs == [] {
      assert m == map[];
    } else {
      var front, last := pairs[..|pairs| - 1], pairs[|pairs| - 1];
      var rest := m - {last.0};
      assert m.Keys == rest.Keys + {last.0};
      IterationRebuilds(front, rest);
      assert rest[last.0 := last.1] == m;
    }
  }

  method Iterate<K(==), V>(m: map<K, V>) returns (pairs: seq<(K, V)>)
    ensures Iterates(pairs, m)
  {
    pairs := [];
    var todo := m.Keys;
    while todo != {}
      invariant todo <= m.Keys && |pairs| + |todo| == |m.Keys|
      invariant forall i :: 0 <= i < |pairs| ==> pairs[i].0 in m && pairs[i].0 !in todo && m[pairs[i].0] == pairs[i].1
      invariant forall i, j :: 0 <= i < j < |pairs| ==> pairs[i].0 != pairs[j].0
      decreases |todo|
    {
      var k :| k in todo;
      pairs := pairs + [(k, m[k])];
      todo := todo - {k};
    }
  }
}
