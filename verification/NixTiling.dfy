/** What the comments reported for a Nix text are: disjoint stretches in order, whose block comments
    run from an opener to the first closer after it. */
module NixTiling {
  import opened Text
  import opened NixLexer
  import opened Pieces
  import Gate

  /** `t[a..b]` is a block comment: from an opener to the end of the first closer after it, or, with no
      closer left, to the end of the text. */
  ghost predicate IsBlock(t: string, a: nat, b: nat) {
    && a + 2 <= b <= |t| && At2(t, a, '/', '*')
    && (if Closed(t, a, b) then forall q :: a + 2 <= q < b - 2 ==> !At2(t, q, '*', '/')
        else b == |t| && forall q :: a + 2 <= q ==> !At2(t, q, '*', '/'))
  }

  predicate Closed(t: string, a: nat, b: nat) {
    a + 4 <= b && At2(t, b - 2, '*', '/')
  }

  lemma CloserAt(t: string, p: nat)
    ensures At(t, p, "*/") == At2(t, p, '*', '/')
  {
    assert "*/"[0] == '*' && "*/"[1] == '/';
  }

  lemma BlockIs(t: string, a: nat)
    requires At2(t, a, '/', '*')
    ensures IsBlock(t, a, BlockEnd(t, a + 2))
  {
    hide At;
    forall q: nat ensures At(t, q, "*/") == At2(t, q, '*', '/') { CloserAt(t, q); }
  }

  /** A block comment's extent is determined by where it starts. */
  lemma BlockUnique(t: string, a: nat, b: nat, b': nat)
    requires IsBlock(t, a, b) && IsBlock(t, a, b')
    ensures b == b'
  {
  }

  /** A line comment runs from `#` to the end of its line, leaving out the newline. */
  ghost predicate IsLineComment(t: string, s: Span) {
    && s.start < s.stop <= |t| && t[s.start] == '#'
    && (forall q :: s.start <= q < s.stop - 1 ==> !IsBreak(t[q]))
    && (s.stop < |t| ==> t[s.stop] == '\n' || IsBreak(t[s.stop - 1]))
  }

  lemma LineCommentIs(t: string, p: nat)
    requires p < |t| && t[p] == '#'
    ensures p < LineCommentEnd(t, p) <= LineEnd(t, p)
    ensures IsLineComment(t, Span(p, LineCommentEnd(t, p), HashLine, None))
  {
    hide LineEnd, StripNewlines, IsBreak;
    var e := LineEnd(t, p);
    LineEndScan(t, p);
    NewlineBreaks();
    var s := t[p..e];
    forall i | 0 <= i < |s| - 1 ensures s[i] != '\n' { assert s[i] == t[p + i]; }
    StripKeeps(s);
    StripOne(s);
    assert s[e - 1 - p] == t[e - 1];
  }

  lemma NewlineBreaks()
    ensures IsBreak('\n')
  {
  }

  ghost predicate IsComment(t: string, s: Span) {
    match s.family
    case NixBlock => IsBlock(t, s.start, s.stop)
    case HashLine => IsLineComment(t, s)
    case _ => false
  }

  lemma StepFinds(t: string, p: nat, st: State)
    requires p < |t| && st.mode != InBlock
    ensures var r := Step(t, p, st);
            && (r.found == [] ==> r.state.id == st.id)
            && (r.found != [] ==>
                  && |r.found| == 1 && r.found[0].start == p && r.found[0].start < r.found[0].stop <= r.p
                  && IsComment(t, r.found[0])
                  && r.found[0].blockId == (if r.found[0].family == NixBlock then Some(st.id + 1) else None)
                  && r.state.id == (if r.found[0].family == NixBlock then st.id + 1 else st.id))
  {
    hide IsBlock, IsLineComment, BlockEnd, LineEnd, LineCommentEnd;
    if At2(t, p, '/', '*') { BlockIs(t, p); }
    if t[p] == '#' { LineCommentIs(t, p); }
  }

  /** Main result: the comments found in a text are disjoint and in order, and numbered in order. */
  lemma {:induction false} SpansInOrder(t: string, from: nat, p: nat, st: State)
    requires from <= p && Good(st) && st.mode != InBlock
    ensures Numbered(t, Spans(t, p, st), from, st.id, NixBlock)
    ensures forall s :: s in Spans(t, p, st) ==> IsComment(t, s)
    decreases |t| - p
  {
    hide *;
    if p < |t| {
      var r := Step(t, p, st);
      StepFinds(t, p, st);
      GoodStep(t, p, st);
      StepOn(t, p, st);
      if r.found == [] {
        SpansInOrder(t, from, r.p, r.state);
      } else {
        var s, rest := r.found[0], Spans(t, r.p, r.state);
        SpansInOrder(t, s.stop, r.p, r.state);
        NumberedCons(t, s, rest, from, st.id);
        assert r.found == [s];
      }
    } else {
      NothingLeft(t, p, st, from);
    }
  }

  lemma StepOn(t: string, p: nat, st: State)
    requires p < |t|
    ensures p < Step(t, p, st).p <= |t|
    ensures forall s :: s in Step(t, p, st).found ==> s.stop <= |t|
    ensures Spans(t, p, st) == Step(t, p, st).found + Spans(t, Step(t, p, st).p, Step(t, p, st).state)
    ensures Step(t, p, st).found == [] ==> Spans(t, p, st) == Spans(t, Step(t, p, st).p, Step(t, p, st).state)
  {
    hide StepNormal, StepDouble, StepMulti, BlockEnd;
  }

  lemma NothingLeft(t: string, p: nat, st: State, from: nat)
    requires |t| <= p
    ensures Spans(t, p, st) == [] && Numbered(t, [], from, st.id, NixBlock)
  {
  }

  lemma NumberedCons(t: string, s: Span, rest: seq<Span>, from: nat, id: nat)
    requires from <= s.start < s.stop <= |t| && s.blockId == (if s.family == NixBlock then Some(id + 1) else None)
    requires Numbered(t, rest, s.stop, if s.family == NixBlock then id + 1 else id, NixBlock)
    ensures Numbered(t, [s] + rest, from, id, NixBlock)
  {
    assert ([s] + rest)[1..] == rest;
  }

  lemma StartGood()
    ensures Good(START) && START.mode != InBlock && START.id == 0
  {
  }

  /** The comments reported for a text are disjoint stretches of it, in order, each of them a comment. */
  lemma CommentsInOrder(t: string)
    ensures Numbered(t, AllSpans(t), 0, 0, NixBlock)
    ensures forall s :: s in AllSpans(t) ==> IsComment(t, s)
  {
    hide Numbered, IsComment, Spans, Good;
    StartGood();
    SpansInOrder(t, 0, 0, START);
  }

  // ----- The reported pieces -----

  lemma {:induction false} StrippedWithId(cs: seq<Comment>, n: nat)
    ensures WithId(Stripped(cs), n) == Stripped(WithId(cs, n))
  {
    if cs == [] {
      assert Stripped([]) == [] && WithId([], n) == [];
    } else {
      var c := cs[0].(text := StripNewlines(cs[0].text));
      StrippedWithId(cs[1..], n);
      hide WithId, Stripped;
      StrippedOne(cs[0], cs[1..]);
      StrippedOne(cs[0], WithId(cs[1..], n));
      WithIdCons(cs[0], cs[1..], n);
      WithIdCons(c, Stripped(cs[1..]), n);
      assert cs == [cs[0]] + cs[1..];
      assert [] + WithId(cs[1..], n) == WithId(cs[1..], n);
      assert [] + Stripped(WithId(cs[1..], n)) == Stripped(WithId(cs[1..], n));
    }
  }

  lemma {:induction false} StrippedAt(cs: seq<Comment>)
    ensures |Stripped(cs)| == |cs|
    ensures forall i :: 0 <= i < |cs| ==> Stripped(cs)[i] == cs[i].(text := StripNewlines(cs[i].text))
  {
    if cs != [] { StrippedAt(cs[1..]); }
  }

  /** Main result: for every text, the pieces reported under a block number are the lines of one block
      comment, which runs from an opener to the first closer after it; it lacks the closer only if it
      is the last one. */
  lemma CommentsTile(path: string, t: string, n: nat) returns (s: Span)
    requires 1 <= n <= Blocks(AllSpans(t), NixBlock)
    ensures SpanIn(t, s) && s.start < s.stop && IsBlock(t, s.start, s.stop) && s.blockId == Some(n)
    ensures s.family == NixBlock
    ensures WithId(Comments(path, t), n) == Stripped(Cut(path, t, s))
    ensures !Closed(t, s.start, s.stop) ==> n == Blocks(AllSpans(t), NixBlock)
  {
    hide Cut, CutAll, WithId, Stripped, Spans, Numbered, Blocks, Closed;
    CommentsInOrder(t);
    SpansIn(t, AllSpans(t), 0, 0, NixBlock);
    s := PiecesOf(path, t, AllSpans(t), 0, 0, NixBlock, n);
    StrippedWithId(CutAll(path, t, AllSpans(t)), n);
  }

  /** The pieces of a block comment continue exactly up to the last, whatever the text. */
  lemma BlockContinues(path: string, t: string, n: nat, j: nat)
    requires 1 <= n <= Blocks(AllSpans(t), NixBlock) && j < |WithId(Comments(path, t), n)|
    ensures var ps := WithId(Comments(path, t), n);
            Gate.Continues(Comments(path, t), ps[j]) <==> j + 1 < |ps|
  {
    hide Spans, CutAll, WithId, Stripped, IsBlock, Blocks, Cut;
    var s := CommentsTile(path, t, n);
    CutTiles(path, t, s);
    CutLines(path, t, s, Locate(t, s.start).0);
    var cut := Cut(path, t, s);
    StrippedAt(cut);
    BlockFollows(Comments(path, t), WithId(Comments(path, t), n), n, j, Locate(t, s.start).0, path, NixBlock);
  }
}
