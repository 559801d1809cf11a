/** The pieces reported under the number of a block comment: which they are, and that they are
    marked as continuing one another. The scanners for Rust and Nix both number their blocks. */
module Pieces {
  import opened Text
  import Gate

  // ----- The pieces with a number -----

  function WithId(cs: seq<Comment>, n: nat): seq<Comment> {
    if cs == [] then []
    else (if cs[0].blockId == Some(n) then [cs[0]] else []) + WithId(cs[1..], n)
  }

  lemma WithIdCons(c: Comment, cs: seq<Comment>, n: nat)
    ensures WithId([c] + cs, n) == (if c.blockId == Some(n) then [c] else []) + WithId(cs, n)
  {
  }

  lemma {:induction false} WithIdAppend(a: seq<Comment>, b: seq<Comment>, n: nat)
    ensures WithId(a + b, n) == WithId(a, n) + WithId(b, n)
  {
    if a == [] {
      assert a + b == b;
    } else {
      hide WithId;
      var c, rest := a[0], a[1..];
      WithIdAppend(rest, b, n);
      WithIdCons(c, rest, n);
      WithIdCons(c, rest + b, n);
      assert a == [c] + rest && a + b == [c] + (rest + b);
      Assoc(if c.blockId == Some(n) then [c] else [], WithId(rest, n), WithId(b, n));
    }
  }

  lemma {:induction false} WithIdUniform(cs: seq<Comment>, id: Option<nat>, n: nat)
    requires forall c :: c in cs ==> c.blockId == id
    ensures WithId(cs, n) == if id == Some(n) then cs else []
  {
    if cs != [] { WithIdUniform(cs[1..], id, n); }
  }

  lemma {:induction false} WithIdHas(cs: seq<Comment>, n: nat, c: Comment)
    ensures c in WithId(cs, n) <==> c in cs && c.blockId == Some(n)
  {
    if cs != [] {
      WithIdHas(cs[1..], n, c);
      assert cs == [cs[0]] + cs[1..];
    }
  }

  // ----- Numbered stretches -----

  /** The stretches follow one another without overlap, at or after `p`; those of the family `block`
      are numbered from `id + 1` on, and the others have no number. */
  ghost predicate Numbered(t: string, spans: seq<Span>, p: nat, id: nat, block: Family)
    decreases |spans|
  {
    spans == [] ||
    (var s := spans[0];
     && p <= s.start < s.stop <= |t|
     && s.blockId == (if s.family == block then Some(id + 1) else None)
     && Numbered(t, spans[1..], s.stop, if s.family == block then id + 1 else id, block))
  }

  /** How many block comments there are among `spans`. */
  function Blocks(spans: seq<Span>, block: Family): nat {
    if spans == [] then 0 else (if spans[0].family == block then 1 else 0) + Blocks(spans[1..], block)
  }

  lemma {:induction false} SpansIn(t: string, spans: seq<Span>, from: nat, id: nat, block: Family)
    requires Numbered(t, spans, from, id, block)
    ensures forall s :: s in spans ==> SpanIn(t, s) && from <= s.start < s.stop
    decreases |spans|
  {
    if spans != [] {
      var s := spans[0];
      SpansIn(t, spans[1..], s.stop, if s.family == block then id + 1 else id, block);
    }
  }

  lemma PiecesCons(path: string, t: string, spans: seq<Span>, n: nat)
    requires spans != [] && forall s :: s in spans ==> SpanIn(t, s)
    ensures WithId(CutAll(path, t, spans), n)
         == (if spans[0].blockId == Some(n) then Cut(path, t, spans[0]) else [])
           + WithId(CutAll(path, t, spans[1..]), n)
  {
    hide Cut, WithId;
    CutTiles(path, t, spans[0]);
    WithIdAppend(Cut(path, t, spans[0]), CutAll(path, t, spans[1..]), n);
    WithIdUniform(Cut(path, t, spans[0]), spans[0].blockId, n);
  }

  lemma {:induction false} OtherIds(path: string, t: string, spans: seq<Span>, from: nat, id: nat, block: Family,
                                    n: nat)
    requires Numbered(t, spans, from, id, block) && n <= id
    requires forall s :: s in spans ==> SpanIn(t, s)
    ensures WithId(CutAll(path, t, spans), n) == []
    decreases |spans|
  {
    if spans != [] {
      var s, rest := spans[0], spans[1..];
      hide Cut, CutAll, WithId;
      OtherIds(path, t, rest, s.stop, if s.family == block then id + 1 else id, block, n);
      PiecesCons(path, t, spans, n);
    }
  }

  /** The pieces that carry a number are those of one stretch, which reaches the end of the text
      only if it is the last. */
  lemma {:induction false} PiecesOf(path: string, t: string, spans: seq<Span>, from: nat, id: nat, block: Family,
                                    n: nat)
    returns (s: Span)
    requires Numbered(t, spans, from, id, block)
    requires forall s :: s in spans ==> SpanIn(t, s)
    requires id < n <= id + Blocks(spans, block)
    ensures s in spans && s.family == block && s.blockId == Some(n)
    ensures WithId(CutAll(path, t, spans), n) == Cut(path, t, s)
    ensures s.stop == |t| ==> n == id + Blocks(spans, block)
    decreases |spans|
  {
    hide Cut, CutAll, WithId;
    s := spans[0];
    var rest := spans[1..];
    var next := if s.family == block then id + 1 else id;
    PiecesCons(path, t, spans, n);
    if s.family == block && n == id + 1 {
      OtherIds(path, t, rest, s.stop, next, block, n);
      assert Cut(path, t, s) + [] == Cut(path, t, s);
    } else {
      s := PiecesOf(path, t, rest, s.stop, next, block, n);
      assert [] + WithId(CutAll(path, t, rest), n) == WithId(CutAll(path, t, rest), n);
    }
  }

  // ----- Lines -----

  lemma {:induction false} LineEndShift(t: string, e: nat, p: nat)
    requires e <= p <= |t|
    ensures LineEnd(t, p) == e + LineEnd(t[e..], p - e)
    decreases |t| - p
  {
    if p < |t| && !IsBreak(t[p]) { LineEndShift(t, e, p + 1); }
  }

  lemma {:induction false} LineEndSame(t: string, p: nat, q: nat)
    requires p <= |t| && p <= q < LineEnd(t, p)
    ensures LineEnd(t, q) == LineEnd(t, p)
    decreases q - p
  {
    if p < q { LineEndSame(t, p + 1, q); }
  }

  /** The next line has the next number. */
  lemma {:induction false} LocateNext(t: string, p: nat)
    requires p < |t| && LineEnd(t, p) < |t|
    ensures Locate(t, LineEnd(t, p)).0 == Locate(t, p).0 + 1
    decreases |t|
  {
    var e := LineEnd(t, 0);
    if p < e {
      LineEndSame(t, 0, p);
      assert Locate(t[e..], 0).0 == 1;
    } else {
      LineEndShift(t, e, p);
      LocateNext(t[e..], p - e);
    }
  }

  ghost predicate Consecutive(ps: seq<Comment>, number: nat, path: string) {
    forall j :: 0 <= j < |ps| ==> ps[j].line == number + j && ps[j].path == path
  }

  lemma ConsecutiveCons(c: Comment, ps: seq<Comment>, path: string)
    requires c.path == path && Consecutive(ps, c.line + 1, path)
    ensures Consecutive([c] + ps, c.line, path)
  {
  }

  /** The pieces of a comment are on consecutive lines. */
  lemma {:induction false} CutLines(path: string, t: string, s: Span, number: nat)
    requires SpanIn(t, s) && (s.start < s.stop ==> Locate(t, s.start).0 == number)
    ensures Consecutive(Cut(path, t, s), number, path)
    decreases |t| - s.start
  {
    if s.start < s.stop {
      var e := LineEnd(t, s.start);
      var stop := if e < s.stop then e else s.stop;
      if e < s.stop { LocateNext(t, s.start); }
      CutLines(path, t, s.(start := stop), number + 1);
      ConsecutiveCons(Piece(path, t, s, s.start, stop), Cut(path, t, s.(start := stop)), path);
    }
  }

  // ----- Continuations -----

  lemma BlockFollows(cs: seq<Comment>, ps: seq<Comment>, n: nat, j: nat, first: nat, path: string, block: Family)
    requires ps == WithId(cs, n) && j < |ps|
    requires Consecutive(ps, first, path)
    requires forall c :: c in ps ==> c.blockId == Some(n) && c.family == block
    ensures Gate.Continues(cs, ps[j]) <==> j + 1 < |ps|
  {
    var c := ps[j];
    assert c in ps;
    if j + 1 < |ps| {
      var next := ps[j + 1];
      assert next in ps;
      WithIdHas(cs, n, next);
      var k :| 0 <= k < |cs| && cs[k] == next;
      assert Gate.Follows(c, cs[k]);
    }
    if Gate.Continues(cs, c) {
      var k :| 0 <= k < |cs| && Gate.Follows(c, cs[k]);
      WithIdHas(cs, n, cs[k]);
      var i :| 0 <= i < |ps| && ps[i] == cs[k];
    }
  }
}
