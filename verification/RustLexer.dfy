/** The Rust comment scanner of the hygiene gate. `RustComments` is the line-at-a-time scanner;
    `Spans` is a lexer that reads the whole text once, and the scanner refines it. */
module RustLexer {
  import opened Text

  /** What the lexer is inside of: `Block` counts nested block comments, `Raw` counts the hashes
      that must close the raw string. */
  datatype Mode = Code | Block(depth: nat) | Raw(hashes: nat) | Str

  // ----- The pieces of Rust's lexical grammar, on the whole text -----

  predicate OpensBlock(t: string, p: nat) { At2(t, p, '/', '*') }

  predicate ClosesBlock(t: string, p: nat) { At2(t, p, '*', '/') }

  /** Where the block comment that is `depth` levels deep at `p` ends; the end of the text if
      it is never closed. */
  function BlockEnd(t: string, p: nat, depth: nat): (e: nat)
    requires p <= |t| && 0 < depth
    ensures p <= e <= |t| && (p < |t| ==> p < e)
    decreases |t| - p
  {
    if p == |t| then p
    else if OpensBlock(t, p) then BlockEnd(t, p + 2, depth + 1)
    else if ClosesBlock(t, p) then if depth == 1 then p + 2 else BlockEnd(t, p + 2, depth - 1)
    else BlockEnd(t, p + 1, depth)
  }

  /** Where the string literal that is open at `p` ends. */
  function StringEnd(t: string, p: nat): (e: nat)
    ensures p < |t| ==> p < e <= |t|
    ensures |t| <= p ==> e == p
    decreases |t| - p
  {
    if p >= |t| then p
    else if t[p] == '\\' then if p + 1 == |t| then p + 1 else StringEnd(t, p + 2)
    else if t[p] == '"' then p + 1
    else StringEnd(t, p + 1)
  }

  function HashRun(t: string, p: nat): (n: nat)
    ensures p <= |t| ==> p + n <= |t|
    decreases |t| - p
  {
    if p < |t| && t[p] == '#' then 1 + HashRun(t, p + 1) else 0
  }

  function Hashes(n: nat): (s: string)
    ensures |s| == n && forall i :: 0 <= i < n ==> s[i] == '#'
  {
    seq(n, _ => '#')
  }

  function RawClose(hashes: nat): (s: string)
    ensures |s| == hashes + 1 && NoBreak(s)
  {
    "\"" + Hashes(hashes)
  }

  /** The regular expression `(?:br|rb|r)(#{0,255})"` at `p`: the length of the match and the
      number of hashes. */
  function RawOpen(t: string, p: nat): (r: Option<(nat, nat)>)
    ensures r.Some? ==> r.value.0 > 0 && p + r.value.0 <= |t|
  {
    var prefix := if At2(t, p, 'b', 'r') || At2(t, p, 'r', 'b') then 2
                  else if p < |t| && t[p] == 'r' then 1 else 0;
    var hashes := HashRun(t, p + prefix);
    var quote := p + prefix + hashes;
    if prefix > 0 && hashes <= 255 && quote < |t| && t[quote] == '"'
    then Some((prefix + hashes + 1, hashes)) else None
  }

  /** The closing quote of a character literal is looked for in the twelve characters after the
      opening one, and never past the end of the line. */
  function CharClose(t: string, open: nat, p: nat, escaped: bool): (r: Option<nat>)
    requires open < p
    ensures r.Some? ==> p < r.value <= |t|
    decreases |t| - p
  {
    if p >= |t| || p - open > 12 then None
    else if t[p] == '\'' && !escaped then Some(p + 1)
    else if IsBreak(t[p]) then None
    else CharClose(t, open, p + 1, t[p] == '\\' && !escaped)
  }

  function CharEnd(t: string, p: nat): (e: nat)
    requires p < |t|
    ensures p < e <= |t|
  {
    var close := CharClose(t, p, p + 1, false);
    if close.Some? then close.value else p + 1
  }

  /** The comments of `t` from `p` on, when the lexer is in `m` there and has numbered `id`
      block comments. */
  function Spans(t: string, p: nat, m: Mode, id: nat): (spans: seq<Span>)
    requires m.Block? ==> 0 < m.depth
    ensures forall s :: s in spans ==> SpanIn(t, s)
    decreases |t| - p
  {
    if p >= |t| then [] else
    match m
    case Block(depth) =>
      var e := BlockEnd(t, p, depth);
      [Span(p, e, RustBlock, Some(id))] + Spans(t, e, Code, id)
    case Raw(hashes) =>
      var close := Find(t, RawClose(hashes), p);
      if close.None? then [] else Spans(t, close.value + 1 + hashes, Code, id)
    case Str =>
      Spans(t, StringEnd(t, p), Code, id)
    case Code =>
      var raw := RawOpen(t, p);
      if raw.Some? then Spans(t, p + raw.value.0, Raw(raw.value.1), id)
      else if At2(t, p, 'b', '"') then Spans(t, p + 2, Str, id)
      else if t[p] == '"' then Spans(t, p + 1, Str, id)
      else if t[p] == '\'' then Spans(t, CharEnd(t, p), Code, id)
      else if At2(t, p, '/', '/') then
        [Span(p, LineCommentEnd(t, p), RustLine, None)] + Spans(t, LineEnd(t, p), Code, id)
      else if OpensBlock(t, p) then
        var e := BlockEnd(t, p + 2, 1);
        [Span(p, e, RustBlock, Some(id + 1))] + Spans(t, e, Code, id + 1)
      else Spans(t, p + 1, Code, id)
  }

  function AllSpans(t: string): seq<Span> {
    Spans(t, 0, Code, 0)
  }

  /** What the gate must report for the text `t`. */
  function Comments(path: string, t: string): seq<Comment> {
    CutAll(path, t, AllSpans(t))
  }

  // ----- The scanner's look-ahead stays inside its line -----

  lemma {:induction false} HashRunLocal(t: string, off: nat, line: string, k: nat, i: nat)
    requires OnLine(t, off, line, k) && i <= |line|
    requires i == |line| ==> 0 < i && line[i - 1] != '\n' && !IsBreak(line[i - 1])
    ensures HashRun(t, off + i) == HashRun(line, i)
    decreases |line| - i
  {
    if i < |line| {
      assert t[off + i] == line[i];
      if line[i] == '#' {
        HashRunLocal(t, off, line, k, i + 1);
      }
    }
  }

  lemma {:induction false} HashRunStop(t: string, p: nat)
    requires p <= |t|
    ensures forall q :: p <= q < p + HashRun(t, p) ==> t[q] == '#'
    decreases |t| - p
  {
    if p < |t| && t[p] == '#' {
      HashRunStop(t, p + 1);
    }
  }

  lemma RawOpenLocal(t: string, off: nat, line: string, k: nat, i: nat)
    requires OnLine(t, off, line, k) && i < |line|
    ensures RawOpen(t, off + i) == RawOpen(line, i)
  {
    At2Local(t, off, line, k, i, 'b', 'r');
    At2Local(t, off, line, k, i, 'r', 'b');
    assert t[off + i] == line[i];
    var prefix := if At2(line, i, 'b', 'r') || At2(line, i, 'r', 'b') then 2
                  else if line[i] == 'r' then 1 else 0;
    if prefix > 0 {
      var p := i + prefix;
      HashRunLocal(t, off, line, k, p);
      HashRunStop(line, p);
      var quote := p + HashRun(line, p);
      assert !IsBreak(line[quote - 1]);
      if quote < |line| {
        assert t[off + quote] == line[quote];
      }
    }
  }

  lemma {:induction false} CharCloseLocal(t: string, off: nat, line: string, k: nat, open: nat, p: nat, escaped: bool)
    requires OnLine(t, off, line, k) && open < p <= |line|
    requires p == |line| ==> off + p == |t|
    ensures CharClose(t, off + open, off + p, escaped)
         == (match CharClose(line, open, p, escaped) case None => None case Some(e) => Some(off + e))
    decreases |line| - p
  {
    if p < |line| && p - open <= 12 {
      assert t[off + p] == line[p];
      if (line[p] != '\'' || escaped) && !IsBreak(line[p]) {
        CharCloseLocal(t, off, line, k, open, p + 1, line[p] == '\\' && !escaped);
      }
    }
  }

  /** Every test the scanner makes at a place of a line has the same answer in the whole text. */
  lemma GuardsLocal(t: string, off: nat, line: string, k: nat, i: nat)
    requires OnLine(t, off, line, k) && i < |line|
    ensures t[off + i] == line[i]
    ensures RawOpen(t, off + i) == RawOpen(line, i)
    ensures At2(t, off + i, 'b', '"') == At2(line, i, 'b', '"')
    ensures At2(t, off + i, '/', '/') == At2(line, i, '/', '/')
    ensures OpensBlock(t, off + i) == OpensBlock(line, i)
    ensures ClosesBlock(t, off + i) == ClosesBlock(line, i)
    ensures line[i] == '\'' ==> CharEnd(t, off + i) == off + CharEnd(line, i)
    ensures LineEnd(t, off + i) == off + |line|
  {
    RawOpenLocal(t, off, line, k, i);
    At2Local(t, off, line, k, i, 'b', '"');
    At2Local(t, off, line, k, i, '/', '/');
    At2Local(t, off, line, k, i, '/', '*');
    At2Local(t, off, line, k, i, '*', '/');
    LineEndLocal(t, off, line, k, i);
    if line[i] == '\'' {
      CharCloseLocal(t, off, line, k, i, i + 1, false);
    }
  }

  // ----- The scanner -----

  /** The inner loop over a block comment: on to its end, or to the end of the line. */
  method ConsumeBlock(line: string, start: nat, depth: nat, ghost t: string, ghost off: nat, ghost k: nat)
    returns (i: nat, left: nat)
    requires OnLine(t, off, line, k) && start <= |line| && 0 < depth
    ensures start <= i <= |line| && (start < |line| ==> start < i)
    ensures left == 0 ==> BlockEnd(t, off + start, depth) == off + i
    ensures left > 0 ==> i == |line| && BlockEnd(t, off + start, depth) == BlockEnd(t, off + i, left)
  {
    i, left := start, depth;
    while i < |line|
      invariant start <= i <= |line| && 0 < left
      invariant BlockEnd(t, off + start, depth) == BlockEnd(t, off + i, left)
    {
      GuardsLocal(t, off, line, k, i);
      if OpensBlock(line, i) {
        left := left + 1;
        i := i + 2;
      } else if ClosesBlock(line, i) {
        left := left - 1;
        i := i + 2;
        if left == 0 {
          break;
        }
      } else {
        i := i + 1;
      }
    }
  }

  /** The inner loop over a string literal. A backslash at the very end of the text leaves the
      position one past it. */
  method ConsumeString(line: string, start: nat, ghost t: string, ghost off: nat, ghost k: nat)
    returns (i: nat, inString: bool)
    requires OnLine(t, off, line, k) && start < |line|
    ensures start < i && (i <= |line| || (i == |line| + 1 && off + |line| == |t|))
    ensures !inString ==> StringEnd(t, off + start) == off + i
    ensures inString ==> i >= |line| && StringEnd(t, off + start) == StringEnd(t, if i > |line| then |t| else off + i)
  {
    i, inString := start, true;
    while i < |line|
      invariant start <= i && (i <= |line| || (i == |line| + 1 && off + |line| == |t|))
      invariant StringEnd(t, off + start) == StringEnd(t, if i > |line| then |t| else off + i)
    {
      CharLocal(t, off, line, k, i);
      if line[i] == '\\' {
        i := i + 2;
      } else if line[i] == '"' {
        i := i + 1;
        inString := false;
        break;
      } else {
        i := i + 1;
      }
    }
  }

  /** The inner loop over a character literal (or the apostrophe of a lifetime). */
  method ConsumeChar(line: string, start: nat, ghost t: string, ghost off: nat, ghost k: nat) returns (i: nat)
    requires OnLine(t, off, line, k) && start < |line|
    ensures i == CharEnd(line, start)
  {
    i := start;
    var end := i + 1;
    var escaped := false;
    while end < |line| && end - i <= 12
      invariant start < end <= |line|
      invariant CharClose(line, start, start + 1, false) == CharClose(line, start, end, escaped)
    {
      if line[end] == '\'' && !escaped {
        return end + 1;
      }
      escaped := line[end] == '\\' && !escaped;
      if line[end] != '\\' {
        escaped := false;
      }
      end := end + 1;
    }
    i := i + 1;
  }

  /** What is left to report from position `p` on. */
  ghost function Rest(path: string, t: string, p: nat, m: Mode, id: nat): seq<Comment>
    requires m.Block? ==> 0 < m.depth
  {
    CutAll(path, t, Spans(t, p, m, id))
  }

  lemma RestPast(path: string, t: string, p: nat, m: Mode, id: nat)
    requires |t| <= p && (m.Block? ==> 0 < m.depth)
    ensures Rest(path, t, p, m, id) == []
  {
  }

  /** The scanner's variables hold the lexer's mode. */
  ghost predicate Holds(m: Mode, blockDepth: nat, activeBlock: Option<nat>, id: nat, rawEnd: Option<string>,
                        inString: bool) {
    && (m.Block? ==> 0 < blockDepth == m.depth && activeBlock == Some(id))
    && (!m.Block? ==> blockDepth == 0)
    && rawEnd == (if m.Raw? then Some(RawClose(m.hashes)) else None)
    && inString == m.Str?
  }

  lemma BlockSpanIn(t: string, off: nat, line: string, k: nat, start: nat, i: nat, left: nat, e: nat, id: nat)
    requires OnLine(t, off, line, k) && start < i <= |line|
    requires if left == 0 then e == off + i else i == |line| && e == BlockEnd(t, off + i, left)
    ensures off + |line| <= |t| && off + i <= e
    ensures SpanIn(t, Span(off + start, e, RustBlock, Some(id))) && SpanIn(t, Span(off + i, e, RustBlock, Some(id)))
  {
    hide BlockEnd, Locate;
  }

  /** Inside a block comment from `start`, having reached `i` with `left` levels open. */
  lemma BlockStep(path: string, t: string, off: nat, line: string, k: nat, start: nat, i: nat, left: nat, e: nat,
                  id: nat)
    requires OnLine(t, off, line, k) && start < i <= |line|
    requires if left == 0 then e == off + i else i == |line| && e == BlockEnd(t, off + i, left)
    ensures CutAll(path, t, [Span(off + start, e, RustBlock, Some(id))] + Spans(t, e, Code, id))
         == [Add(path, line, k + 1, line[start..i], RustBlock, Some(id))]
            + Rest(path, t, off + i, if left == 0 then Code else Block(left), id)
  {
    hide *;
    BlockSpanIn(t, off, line, k, start, i, left, e, id);
    var head, rest := Span(off + start, e, RustBlock, Some(id)), Spans(t, e, Code, id);
    var tail := Span(off + i, e, RustBlock, Some(id));
    FirstPiece(path, t, off, line, k, start, i, head);
    CutCons(path, t, head, rest);
    BlockRest(path, t, off + i, left, e, id);
    Assoc([Add(path, line, k + 1, line[start..i], RustBlock, Some(id))], Cut(path, t, tail), CutAll(path, t, rest));
  }

  lemma BlockRest(path: string, t: string, p: nat, left: nat, e: nat, id: nat)
    requires p <= |t| && (if left == 0 then e == p else e == BlockEnd(t, p, left))
    ensures Cut(path, t, Span(p, e, RustBlock, Some(id))) + CutAll(path, t, Spans(t, e, Code, id))
         == Rest(path, t, p, if left == 0 then Code else Block(left), id)
  {
    if left > 0 && p < |t| {
      BlockSpans(t, p, left, id);
      hide Spans;
      CutCons(path, t, Span(p, e, RustBlock, Some(id)), Spans(t, e, Code, id));
    }
  }

  lemma LineCommentStep(path: string, t: string, off: nat, line: string, k: nat, i: nat, id: nat)
    requires OnLine(t, off, line, k) && i < |line| && line[i] != '\n'
    ensures CutAll(path, t, [Span(off + i, LineCommentEnd(t, off + i), RustLine, None)]
            + Spans(t, off + |line|, Code, id))
         == [Add(path, line, k + 1, StripNewlines(line[i..]), RustLine, None)] + Rest(path, t, off + |line|, Code, id)
  {
    LineCommentCut(path, t, off, line, k, i, RustLine, Spans(t, off + |line|, Code, id));
  }

  /** One step of the lexer outside strings and comments, in terms of the line alone. */
  lemma CodeStep(t: string, off: nat, line: string, k: nat, i: nat, id: nat)
    requires OnLine(t, off, line, k) && i < |line|
    ensures Spans(t, off + i, Code, id)
         == (var raw := RawOpen(line, i);
             if raw.Some? then Spans(t, off + i + raw.value.0, Raw(raw.value.1), id)
             else if At2(line, i, 'b', '"') then Spans(t, off + i + 2, Str, id)
             else if line[i] == '"' then Spans(t, off + i + 1, Str, id)
             else if line[i] == '\'' then Spans(t, off + CharEnd(line, i), Code, id)
             else if At2(line, i, '/', '/') then
               [Span(off + i, LineCommentEnd(t, off + i), RustLine, None)] + Spans(t, off + |line|, Code, id)
             else if At2(line, i, '/', '*') then
               var e := BlockEnd(t, off + i + 2, 1);
               [Span(off + i, e, RustBlock, Some(id + 1))] + Spans(t, e, Code, id + 1)
             else Spans(t, off + i + 1, Code, id))
  {
    hide *;
    GuardsLocal(t, off, line, k, i);
    InText(t, off, line, k, i);
    CodeSpans(t, off + i, id);
    OpensIs(line, i);
  }

  lemma InText(t: string, off: nat, line: string, k: nat, i: nat)
    requires OnLine(t, off, line, k) && i < |line|
    ensures off + i < |t| && off + |line| <= |t|
  {
    hide Locate;
  }

  lemma OpensIs(line: string, i: nat)
    ensures OpensBlock(line, i) == At2(line, i, '/', '*')
  {
  }

  lemma CodeSpans(t: string, p: nat, id: nat)
    requires p < |t|
    ensures Spans(t, p, Code, id)
         == (var raw := RawOpen(t, p);
             if raw.Some? then Spans(t, p + raw.value.0, Raw(raw.value.1), id)
             else if At2(t, p, 'b', '"') then Spans(t, p + 2, Str, id)
             else if t[p] == '"' then Spans(t, p + 1, Str, id)
             else if t[p] == '\'' then Spans(t, CharEnd(t, p), Code, id)
             else if At2(t, p, '/', '/') then
               [Span(p, LineCommentEnd(t, p), RustLine, None)] + Spans(t, LineEnd(t, p), Code, id)
             else if OpensBlock(t, p) then
               var e := BlockEnd(t, p + 2, 1);
               [Span(p, e, RustBlock, Some(id + 1))] + Spans(t, e, Code, id + 1)
             else Spans(t, p + 1, Code, id))
  {
    hide RawOpen, CharEnd, LineEnd, BlockEnd, LineCommentEnd, At2, OpensBlock;
  }

  lemma RawStep(t: string, off: nat, line: string, k: nat, i: nat, h: nat, id: nat)
    requires OnLine(t, off, line, k) && i < |line|
    ensures Spans(t, off + i, Raw(h), id)
         == (var end := Find(line, RawClose(h), i);
             if end.None? then Spans(t, off + |line|, Raw(h), id)
             else Spans(t, off + end.value + 1 + h, Code, id))
  {
    FindLocal(t, off, line, k, i, RawClose(h));
  }

  lemma BlockSpans(t: string, p: nat, depth: nat, id: nat)
    requires p < |t| && 0 < depth
    ensures Spans(t, p, Block(depth), id)
         == (var e := BlockEnd(t, p, depth); [Span(p, e, RustBlock, Some(id))] + Spans(t, e, Code, id))
  {
  }

  lemma StringStep(t: string, p: nat, q: nat, inString: bool, id: nat)
    requires p < |t| && p < q
    requires !inString ==> StringEnd(t, p) == q
    requires inString ==> StringEnd(t, p) == StringEnd(t, if q > |t| then |t| else q)
    ensures Spans(t, p, Str, id) == Spans(t, q, if inString then Str else Code, id)
  {
    assert Spans(t, p, Str, id) == Spans(t, StringEnd(t, p), Code, id);
  }

  /** Scans a block comment that began at `start` and is `depth` levels deep at `i`. */
  method ScanBlock(path: string, line: string, start: nat, i: nat, depth: nat, id: nat,
                   ghost t: string, ghost off: nat, ghost k: nat)
    returns (j: nat, left: nat, text: string)
    requires OnLine(t, off, line, k) && start <= i <= |line| && start < |line| && 0 < depth
    requires start == i ==> i < |line|
    ensures start < j <= |line| && text == line[start..j]
    ensures CutAll(path, t, [Span(off + start, BlockEnd(t, off + i, depth), RustBlock, Some(id))]
                            + Spans(t, BlockEnd(t, off + i, depth), Code, id))
         == [Add(path, line, k + 1, text, RustBlock, Some(id))]
            + Rest(path, t, off + j, if left == 0 then Code else Block(left), id)
  {
    hide Spans, BlockEnd, CutAll, Cut, OnLine, Add, Rest;
    j, left := ConsumeBlock(line, i, depth, t, off, k);
    text := line[start..j];
    BlockStep(path, t, off, line, k, start, j, left, BlockEnd(t, off + i, depth), id);
  }

  /** The scanner's step outside strings and comments. */
  method ScanCode(path: string, line: string, i: nat, blockId: nat, ghost t: string, ghost off: nat, k: nat)
    returns (j: nat, depth: nat, id: nat, rawEnd: Option<string>, inString: bool, found: seq<Comment>, ghost m: Mode)
    requires OnLine(t, off, line, k) && i < |line|
    ensures i < j <= |line| && Holds(m, depth, if depth > 0 then Some(id) else None, id, rawEnd, inString)
    ensures Rest(path, t, off + i, Code, blockId) == found + Rest(path, t, off + j, m, id)
  {
    hide Spans, BlockEnd, CutAll, Cut, OnLine, Add, RawClose, LineCommentEnd, LineEnd, StripNewlines;
    j, depth, id, rawEnd, inString, found, m := i, 0, blockId, None, false, [], Code;
    CodeStep(t, off, line, k, i, blockId);
    var raw := RawOpen(line, i);
    if raw.Some? {
      rawEnd, m := Some(RawClose(raw.value.1)), Raw(raw.value.1);
      j := i + raw.value.0;
    } else if At2(line, i, 'b', '"') {
      inString, m := true, Str;
      j := i + 2;
    } else if line[i] == '"' {
      inString, m := true, Str;
      j := i + 1;
    } else if line[i] == '\'' {
      j := ConsumeChar(line, i, t, off, k);
    } else if At2(line, i, '/', '/') {
      LineCommentStep(path, t, off, line, k, i, blockId);
      found := [Add(path, line, k + 1, StripNewlines(line[i..]), RustLine, None)];
      j := |line|;
    } else if At2(line, i, '/', '*') {
      id := blockId + 1;
      var text;
      j, depth, text := ScanBlock(path, line, i, i + 2, 1, id, t, off, k);
      found := [Add(path, line, k + 1, text, RustBlock, Some(id))];
      m := if depth == 0 then Code else Block(depth);
    } else {
      j := i + 1;
    }
  }

  method RustComments(path: string, lines: seq<string>) returns (out: seq<Comment>)
    requires IsSplit(lines)
    ensures out == Comments(path, Join(lines))
  {
    hide Spans, BlockEnd, StringEnd, CutAll, Cut, Find, RawOpen, RawClose, OnLine, IsSplit, Join, Add;
    out := [];
    var blockDepth: nat, blockId: nat := 0, 0;
    var activeBlock: Option<nat> := None;
    var rawEnd: Option<string> := None;
    var inString := false;
    ghost var t := Join(lines);
    ghost var m := Code;

    for k := 0 to |lines|
      invariant Holds(m, blockDepth, activeBlock, blockId, rawEnd, inString)
      invariant out + Rest(path, t, Offset(lines, k), m, blockId) == Comments(path, t)
    {
      var line := lines[k];
      ghost var off := Offset(lines, k);
      LineAt(lines, k);
      OffsetNext(lines, k);
      var i := 0;
      while i < |line|
        invariant i <= |line| || (i == |line| + 1 && off + |line| == |t|)
        invariant Holds(m, blockDepth, activeBlock, blockId, rawEnd, inString)
        invariant out + Rest(path, t, off + i, m, blockId) == Comments(path, t)
        decreases |line| + 1 - i
      {
        ghost var start := i;
        if blockDepth > 0 {
          BlockSpans(t, off + i, blockDepth, blockId);
          var text;
          i, blockDepth, text := ScanBlock(path, line, i, i, blockDepth, blockId, t, off, k);
          out := out + [Add(path, line, k + 1, text, RustBlock, activeBlock)];
          m := if blockDepth == 0 then Code else Block(blockDepth);
          activeBlock := if blockDepth == 0 then None else activeBlock;
        } else if rawEnd.Some? {
          RawStep(t, off, line, k, i, m.hashes, blockId);
          var end := Find(line, rawEnd.value, i);
          if end.None? {
            i := |line|;
            break;
          }
          i := end.value + |rawEnd.value|;
          rawEnd, m := None, Code;
        } else if inString {
          i, inString := ConsumeString(line, i, t, off, k);
          StringStep(t, off + start, off + i, inString, blockId);
          m := if inString then Str else Code;
        } else {
          var found;
          i, blockDepth, blockId, rawEnd, inString, found, m := ScanCode(path, line, i, blockId, t, off, k);
          activeBlock := if blockDepth > 0 then Some(blockId) else None;
          out := out + found;
        }
      }
      if i > |line| {
        RestPast(path, t, off + i, m, blockId);
        RestPast(path, t, off + |line|, m, blockId);
      }
    }
    OffsetEnd(lines);
    RestPast(path, t, |t|, m, blockId);
  }
}
