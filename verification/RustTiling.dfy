/** What the comments reported for a Rust text are: disjoint stretches in order, whose block
    comments are exactly the balanced ones. */
module RustTiling {
  import opened Text
  import opened RustLexer
  import opened Pieces
  import Gate

  /** The net number of block comments opened in `t[p..q]`, reading openers and closers from left to right. */
  function Nesting(t: string, p: nat, q: nat): int
    requires p <= q <= |t|
    decreases q - p
  {
    if p + 1 >= q then 0
    else if OpensBlock(t, p) then 1 + Nesting(t, p + 2, q)
    else if ClosesBlock(t, p) then Nesting(t, p + 2, q) - 1
    else Nesting(t, p + 1, q)
  }

  /** `t[a..b]` opens with a block comment whose depth stays positive up to `b`, where it first
      reaches zero, or which is still open when the text ends. */
  ghost predicate IsBlock(t: string, a: nat, b: nat) {
    && a + 2 <= b <= |t| && OpensBlock(t, a)
    && (forall q :: a + 2 <= q < b ==> Nesting(t, a, q) > 0)
    && (Nesting(t, a, b) == 0 || (Nesting(t, a, b) > 0 && b == |t|))
  }

  lemma {:induction false} BlockEndNests(t: string, p: nat, depth: nat)
    requires p <= |t| && 0 < depth
    ensures var e := BlockEnd(t, p, depth);
            && (forall q :: p <= q < e ==> depth + Nesting(t, p, q) > 0)
            && depth + Nesting(t, p, e) >= 0
            && (depth + Nesting(t, p, e) > 0 ==> e == |t|)
    decreases |t| - p
  {
    if p < |t| {
      if OpensBlock(t, p) {
        BlockEndNests(t, p + 2, depth + 1);
      } else if ClosesBlock(t, p) {
        if depth > 1 { BlockEndNests(t, p + 2, depth - 1); }
      } else {
        BlockEndNests(t, p + 1, depth);
      }
    }
  }

  lemma BlockIs(t: string, a: nat)
    requires OpensBlock(t, a)
    ensures IsBlock(t, a, BlockEnd(t, a + 2, 1))
  {
    BlockEndNests(t, a + 2, 1);
    var e := BlockEnd(t, a + 2, 1);
    assert Nesting(t, a, e) == 1 + Nesting(t, a + 2, e);
  }

  /** A block comment's extent is determined by where it starts. */
  lemma BlockUnique(t: string, a: nat, b: nat, b': nat)
    requires IsBlock(t, a, b) && IsBlock(t, a, b')
    ensures b == b'
  {
  }

  // ----- All the comments of a text -----

  /** The stretches follow one another without overlap, at or after `p`; each block comment is
      one, and the block comments are numbered from `id + 1` on. */
  ghost predicate InOrder(t: string, spans: seq<Span>, p: nat, id: nat)
    decreases |spans|
  {
    spans == [] ||
    (var s := spans[0];
     && p <= s.start < s.stop <= |t|
     && match s.family
        case RustBlock => s.blockId == Some(id + 1) && IsBlock(t, s.start, s.stop)
          && InOrder(t, spans[1..], s.stop, id + 1)
        case RustLine => s.blockId == None && IsLineComment(t, s) && InOrder(t, spans[1..], s.stop, id)
        case _ => false)
  }

  /** A line comment runs from `//` to the end of its line, leaving out the newline. */
  ghost predicate IsLineComment(t: string, s: Span) {
    && s.start < s.stop <= |t| && At2(t, s.start, '/', '/')
    && (forall q :: s.start <= q < s.stop - 1 ==> !IsBreak(t[q]))
    && (s.stop < |t| ==> t[s.stop] == '\n' || IsBreak(t[s.stop - 1]))
  }

  lemma LineCommentIs(t: string, p: nat)
    requires At2(t, p, '/', '/')
    ensures p < LineCommentEnd(t, p) <= LineEnd(t, p)
    ensures IsLineComment(t, Span(p, LineCommentEnd(t, p), RustLine, None))
  {
    var e := LineEnd(t, p);
    LineEndScan(t, p);
    var s := t[p..e];
    StripKeeps(s);
    StripOne(s);
    assert e == |t| || t[e - 1] == s[e - 1 - p];
  }

  lemma {:induction false} SpansInOrder(t: string, from: nat, p: nat, m: Mode, id: nat)
    requires from <= p && !m.Block?
    ensures InOrder(t, Spans(t, p, m, id), from, id)
    decreases |t| - p
  {
    if p < |t| {
      match m
      case Raw(hashes) =>
        var close := Find(t, RawClose(hashes), p);
        if close.Some? { SpansInOrder(t, from, close.value + 1 + hashes, Code, id); }
      case Str =>
        SpansInOrder(t, from, StringEnd(t, p), Code, id);
      case Code =>
        CodeInOrder(t, from, p, id);
    }
  }

  lemma {:induction false} CodeInOrder(t: string, from: nat, p: nat, id: nat)
    requires from <= p < |t|
    ensures InOrder(t, Spans(t, p, Code, id), from, id)
    decreases |t| - p, 0
  {
    hide InOrder, IsBlock, IsLineComment, RawOpen;
    var raw := RawOpen(t, p);
    if raw.Some? {
      SpansInOrder(t, from, p + raw.value.0, Raw(raw.value.1), id);
    } else if At2(t, p, 'b', '"') {
      SpansInOrder(t, from, p + 2, Str, id);
    } else if t[p] == '"' {
      SpansInOrder(t, from, p + 1, Str, id);
    } else if t[p] == '\'' {
      SpansInOrder(t, from, CharEnd(t, p), Code, id);
    } else if At2(t, p, '/', '/') {
      LineCommentIs(t, p);
      SpansInOrder(t, LineCommentEnd(t, p), LineEnd(t, p), Code, id);
      InOrderCons(t, Span(p, LineCommentEnd(t, p), RustLine, None), Spans(t, LineEnd(t, p), Code, id), from, id);
    } else if OpensBlock(t, p) {
      var e := BlockEnd(t, p + 2, 1);
      BlockIs(t, p);
      SpansInOrder(t, e, e, Code, id + 1);
      InOrderCons(t, Span(p, e, RustBlock, Some(id + 1)), Spans(t, e, Code, id + 1), from, id);
    } else {
      SpansInOrder(t, from, p + 1, Code, id);
    }
  }

  lemma InOrderCons(t: string, s: Span, rest: seq<Span>, from: nat, id: nat)
    requires from <= s.start < s.stop <= |t|
    requires s.family == RustLine ==> s.blockId == None && IsLineComment(t, s) && InOrder(t, rest, s.stop, id)
    requires s.family == RustBlock ==>
              s.blockId == Some(id + 1) && IsBlock(t, s.start, s.stop) && InOrder(t, rest, s.stop, id + 1)
    requires s.family == RustLine || s.family == RustBlock
    ensures InOrder(t, [s] + rest, from, id)
  {
    assert ([s] + rest)[1..] == rest;
  }

  // ----- The reported pieces -----

  lemma {:induction false} InOrderNumbered(t: string, spans: seq<Span>, p: nat, id: nat)
    requires InOrder(t, spans, p, id)
    ensures Numbered(t, spans, p, id, RustBlock)
    ensures forall s :: s in spans && s.family == RustBlock ==> IsBlock(t, s.start, s.stop)
    decreases |spans|
  {
    hide IsBlock, IsLineComment;
    if spans != [] {
      InOrderNumbered(t, spans[1..], spans[0].stop, if spans[0].family == RustBlock then id + 1 else id);
    }
  }

  /** The block comment with number `n`, whose pieces are those reported under `n`; if it is left open
      it is the last one. */
  lemma BlockOf(path: string, t: string, n: nat) returns (s: Span)
    requires 1 <= n <= Blocks(AllSpans(t), RustBlock)
    ensures SpanIn(t, s) && s.family == RustBlock && s.blockId == Some(n)
    ensures WithId(Comments(path, t), n) == Cut(path, t, s)
    ensures IsBlock(t, s.start, s.stop)
    ensures Nesting(t, s.start, s.stop) > 0 ==> n == Blocks(AllSpans(t), RustBlock)
  {
    hide Cut, CutAll, WithId, Spans, Blocks, Numbered;
    SpansInOrder(t, 0, 0, Code, 0);
    InOrderNumbered(t, AllSpans(t), 0, 0);
    SpansIn(t, AllSpans(t), 0, 0, RustBlock);
    s := PiecesOf(path, t, AllSpans(t), 0, 0, RustBlock, n);
  }

  /** The comments reported for a text are disjoint stretches of it, in order. */
  lemma CommentsInOrder(t: string)
    ensures InOrder(t, AllSpans(t), 0, 0)
  {
    SpansInOrder(t, 0, 0, Code, 0);
  }

  /** Main result: for every text, the pieces reported under each block number, joined in the order in
      which they are reported, are a contiguous stretch of the text: one balanced block comment, left
      open only if it is the last one and reaches the end of the text. */
  lemma CommentsTile(path: string, t: string, n: nat)
    requires 1 <= n <= Blocks(AllSpans(t), RustBlock)
    ensures exists a: nat, b: nat ::
      && IsBlock(t, a, b) && Texts(WithId(Comments(path, t), n)) == t[a..b]
      && (Nesting(t, a, b) > 0 ==> n == Blocks(AllSpans(t), RustBlock))
  {
    var s := BlockOf(path, t, n);
    CutTiles(path, t, s);
  }

  /** The pieces of a block comment continue exactly up to the last: the continuation mark of the
      gate is right for every block comment of every text. */
  lemma BlockContinues(path: string, t: string, n: nat, j: nat)
    requires 1 <= n <= Blocks(AllSpans(t), RustBlock) && j < |WithId(Comments(path, t), n)|
    ensures var ps := WithId(Comments(path, t), n);
            Gate.Continues(Comments(path, t), ps[j]) <==> j + 1 < |ps|
  {
    var s := BlockOf(path, t, n);
    CutTiles(path, t, s);
    CutLines(path, t, s, Locate(t, s.start).0);
    BlockFollows(Comments(path, t), WithId(Comments(path, t), n), n, j, Locate(t, s.start).0, path, RustBlock);
  }
}
