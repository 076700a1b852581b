/** Splitting text into lower-case alphanumeric words. */
module Tokens {

  predicate IsUpper(c: char) { 'A' <= c <= 'Z' }

  predicate IsAlnum(c: char) { IsUpper(c) || 'a' <= c <= 'z' || '0' <= c <= '9' }

  function Lower(c: char): char {
    if IsUpper(c) then (c as int + 32) as char else c
  }

  /** The finished words and the word being read. */
  datatype Scan = Scan(words: seq<string>, current: string)

  function Closed(s: Scan): seq<string> {
    if s.current == "" then s.words else s.words + [s.current]
  }

  function Fed(s: Scan, c: char): Scan {
    if IsAlnum(c) then s.(current := s.current + [Lower(c)])
    else Scan(Closed(s), "")
  }

  function ScanOf(s: Scan, text: string): Scan {
    if text == "" then s else Fed(ScanOf(s, text[..|text| - 1]), text[|text| - 1])
  }

  function Words(text: string): seq<string> {
    Closed(ScanOf(Scan([], ""), text))
  }

  method Tokenize(text: string) returns (tokens: seq<string>)
    ensures tokens == Words(text)
  {
    tokens := [];
    var current := "";
    for i := 0 to |text|
      invariant Scan(tokens, current) == ScanOf(Scan([], ""), text[..i])
    {
      assert text[..i + 1][..i] == text[..i];
      var c := text[i];
      if IsAlnum(c) {
        current := current + [Lower(c)];
      } else if current != "" {
        tokens := tokens + [current];
        current := "";
      }
    }
    assert text[..|text|] == text;
    if current != "" {
      tokens := tokens + [current];
    }
  }

  // ----- what the words are -----

  function Lowered(w: string): (r: string)
    ensures |r| == |w|
  {
    if w == "" then "" else Lowered(w[..|w| - 1]) + [Lower(w[|w| - 1])]
  }

  ghost predicate AllAlnum(w: string) {
    forall i :: 0 <= i < |w| ==> IsAlnum(w[i])
  }

  lemma {:induction false} ScanAppend(s: Scan, a: string, b: string)
    ensures ScanOf(s, a + b) == ScanOf(ScanOf(s, a), b)
  {
    if b == "" {
      assert a + b == a;
    } else {
      assert (a + b)[..|a + b| - 1] == a + b[..|b| - 1];
      ScanAppend(s, a, b[..|b| - 1]);
    }
  }

  /** Words already found do not influence the rest. */
  lemma {:induction false} ScanShifts(s: Scan, text: string)
    ensures ScanOf(s, text) == Scan(s.words + ScanOf(Scan([], s.current), text).words,
                                    ScanOf(Scan([], s.current), text).current)
  {
    if text == "" {
    } else {
      ScanShifts(s, text[..|text| - 1]);
    }
  }

  /** A character that is neither letter nor digit separates: the two sides are split on their own. */
  lemma WordsSplit(a: string, c: char, b: string)
    requires !('a' <= c <= 'z' || 'A' <= c <= 'Z' || '0' <= c <= '9')
    ensures Words(a + [c] + b) == Words(a) + Words(b)
  {
    var start := Scan([], "");
    ScanAppend(start, a + [c], b);
    assert (a + [c])[..|a|] == a;
    ScanShifts(ScanOf(start, a + [c]), b);
  }

  lemma {:induction false} ScanWord(w: string)
    requires AllAlnum(w)
    ensures ScanOf(Scan([], ""), w) == Scan([], Lowered(w))
  {
    if w == "" {
    } else {
      ScanWord(w[..|w| - 1]);
    }
  }

  /** Letters and digits in a row are one word, in lower case. With the lemma above this says
      what the words of any text are. */
  lemma WordsOfWord(w: string)
    requires forall i :: 0 <= i < |w| ==> 'a' <= w[i] <= 'z' || 'A' <= w[i] <= 'Z' || '0' <= w[i] <= '9'
    ensures w == "" ==> Words(w) == []
    ensures w != "" ==>
              && |Words(w)| == 1 && |Words(w)[0]| == |w|
              && forall i :: 0 <= i < |w| ==>
                   Words(w)[0][i] == if 'A' <= w[i] <= 'Z' then (w[i] as int + 32) as char else w[i]
  {
    ScanWord(w);
    LoweredAt(w);
  }

  lemma {:induction false} LoweredAt(w: string)
    ensures forall i :: 0 <= i < |w| ==>
              Lowered(w)[i] == if 'A' <= w[i] <= 'Z' then (w[i] as int + 32) as char else w[i]
  {
    if w != "" {
      LoweredAt(w[..|w| - 1]);
    }
  }
}
