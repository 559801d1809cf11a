/** Printed tokens, and reading them back from the text they were printed into. */
module Printing {
  import opened Text

  /** One character of a string literal, as it is written. */
  datatype Item = Chr(c: char) | Esc(c: char)

  function PrintItem(x: Item): string {
    match x case Chr(c) => [c] case Esc(c) => ['\\', c]
  }

  function PrintItems(xs: seq<Item>): string {
    if xs == [] then "" else PrintItem(xs[0]) + PrintItems(xs[1..])
  }

  predicate NoPair(s: string, a: char, b: char) {
    forall i :: 0 <= i < |s| ==> !At2(s, i, a, b)
  }

  predicate Absent(s: string, c: char) {
    forall i :: 0 <= i < |s| ==> s[i] != c
  }

  predicate Ends(s: string, c: char) {
    s != "" && s[|s| - 1] == c
  }

  // ----- A text that continues with a word -----

  /** `t` continues with `w` at `p`, and then with `rest` to its end. */
  ghost predicate Reads(t: string, p: nat, w: string, rest: string) {
    && |t| == p + |w| + |rest|
    && (forall i {:trigger w[i]} :: 0 <= i < |w| ==> t[p + i] == w[i])
    && (forall i {:trigger rest[i]} :: 0 <= i < |rest| ==> t[p + |w| + i] == rest[i])
  }

  lemma ReadsAppend(t: string, p: nat, a: string, b: string, rest: string)
    requires Reads(t, p, a + b, rest)
    ensures Reads(t, p, a, b + rest) && Reads(t, p + |a|, b, rest)
  {
    forall i | 0 <= i < |a| ensures t[p + i] == a[i] { assert (a + b)[i] == a[i]; }
    forall i | 0 <= i < |b| ensures t[p + |a| + i] == b[i] { assert (a + b)[|a| + i] == b[i]; }
    forall i | 0 <= i < |b + rest| ensures t[p + |a| + i] == (b + rest)[i] {
      if i < |b| {} else { assert t[p + |a + b| + (i - |b|)] == rest[i - |b|]; }
    }
  }

  lemma ReadsChar(t: string, p: nat, c: char, b: string, rest: string)
    requires Reads(t, p, [c] + b, rest)
    ensures p < |t| && t[p] == c && Reads(t, p + 1, b, rest)
  {
    assert t[p + 0] == ([c] + b)[0];
    ReadsAppend(t, p, [c], b, rest);
  }

  lemma ReadsFirst(t: string, p: nat, w: string, rest: string)
    requires Reads(t, p, w, rest) && w != ""
    ensures p < |t| && t[p] == w[0]
  {
    assert t[p + 0] == w[0];
  }

  lemma ReadsNext(t: string, p: nat, a: string, b: string)
    requires Reads(t, p, a + b, "")
    ensures Reads(t, p, a, b) && Reads(t, p + |a|, b, "")
  {
    ReadsAppend(t, p, a, b, "");
    assert b + "" == b;
  }

  lemma ReadsIn(t: string, p: nat, w: string, rest: string)
    requires Reads(t, p, w, rest)
    ensures |t| == p + |w| + |rest|
  {
  }

  lemma ReadsSlice(t: string, p: nat, w: string, rest: string)
    requires Reads(t, p, w, rest)
    ensures t[p..p + |w|] == w
  {
    forall i | 0 <= i < |w| ensures t[p..p + |w|][i] == w[i] { assert t[p + i] == w[i]; }
  }

  lemma ReadsTail(t: string, p: nat, w: string, rest: string)
    requires Reads(t, p, w, rest)
    ensures p <= |t| && t[p..] == w + rest
  {
    forall i | 0 <= i < |w + rest| ensures t[p..][i] == (w + rest)[i] {
      if i < |w| { assert t[p + i] == w[i]; } else { assert t[p + |w| + (i - |w|)] == rest[i - |w|]; }
    }
  }

  /** A comment that runs to the end of its line, or of the text. */
  lemma CommentEnd(t: string, p: nat, w: string, rest: string)
    requires Reads(t, p, w, rest) && w != "" && NoBreak(w) && (rest != "" ==> rest[0] == '\n')
    ensures p < |t| && LineEnd(t, p) == (if rest == "" then p + |w| else p + |w| + 1) && LineCommentEnd(t, p) == p + |w|
    ensures rest != "" ==> p + |w| < |t| && t[p + |w|] == '\n' && !IsBreak(t[p + |w| - 1])
  {
    var e := if rest == "" then p + |w| else p + |w| + 1;
    forall i | p <= i < p + |w| ensures !IsBreak(t[i]) && t[i] != '\n' { assert t[p + (i - p)] == w[i - p]; }
    if rest != "" { assert t[p + |w| + 0] == rest[0]; }
    LineEndReach(t, p, e);
    StripOne(t[p..e]);
  }

  // ----- The stretches of a text -----

  function SpanTexts(t: string, spans: seq<Span>): seq<string> {
    if spans == [] then [] else
    var s := spans[0];
    [if SpanIn(t, s) then t[s.start..s.stop] else ""] + SpanTexts(t, spans[1..])
  }

  lemma {:induction false} SpanTextsAppend(t: string, a: seq<Span>, b: seq<Span>)
    ensures SpanTexts(t, a + b) == SpanTexts(t, a) + SpanTexts(t, b)
  {
    if a == [] {
      assert a + b == b;
    } else {
      assert (a + b)[1..] == a[1..] + b;
      SpanTextsAppend(t, a[1..], b);
    }
  }

  // ----- The texts of reported comments -----

  function TextList(cs: seq<Comment>): seq<string> {
    if cs == [] then [] else [cs[0].text] + TextList(cs[1..])
  }

  /** The stretch is not empty and lies on one line. */
  predicate OneLine(t: string, s: Span) {
    s.start < s.stop <= |t| && s.stop <= LineEnd(t, s.start)
  }

  /** Stretches that lie on one line each are reported as one comment each, with their text. */
  lemma {:induction false} OneLineTexts(path: string, t: string, spans: seq<Span>)
    requires forall s :: s in spans ==> OneLine(t, s)
    ensures forall s :: s in spans ==> SpanIn(t, s)
    ensures TextList(CutAll(path, t, spans)) == SpanTexts(t, spans)
  {
    if spans != [] {
      OneLineTexts(path, t, spans[1..]);
      var s, more := spans[0], CutAll(path, t, spans[1..]);
      assert OneLine(t, s);
      CutOnLine(path, t, s);
      hide Cut, LineEnd, Locate, Add;
      var piece := Piece(path, t, s, s.start, s.stop);
      assert CutAll(path, t, spans) == [piece] + more;
      assert ([piece] + more)[1..] == more;
    }
  }
}
