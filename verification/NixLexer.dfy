/** The Nix comment scanner of the hygiene gate: two kinds of strings, interpolations that nest in
    them, and comments. `NixComments` works line by line and refines `Spans`, which reads the
    whole text once. */
module NixLexer {
  import opened Text

  datatype Mode = Normal | InDouble | InMulti | InBlock

  /** Each open interpolation is stacked with the string mode it must return to and the number of
      braces open inside it; `id` numbers the block comments. */
  datatype State = State(mode: Mode, interpolation: seq<(Mode, int)>, id: nat)

  const START := State(Normal, [], 0)

  function Open(st: State): State {
    State(Normal, st.interpolation + [(st.mode, 1)], st.id)
  }

  function OpenBrace(st: State): State
    requires st.interpolation != []
  {
    var n := |st.interpolation| - 1;
    var (mode, depth) := st.interpolation[n];
    st.(interpolation := st.interpolation[n := (mode, depth + 1)])
  }

  /** A closing brace inside an interpolation: it may close it, and then the stacked mode is in
      force again. */
  function CloseBrace(st: State): State
    requires st.interpolation != []
  {
    var n := |st.interpolation| - 1;
    var (mode, depth) := st.interpolation[n];
    if depth - 1 == 0 then st.(mode := mode, interpolation := st.interpolation[..n])
    else st.(interpolation := st.interpolation[n := (mode, depth - 1)])
  }

  /** Where the block comment that is open at `p` ends. */
  function BlockEnd(t: string, p: nat): (e: nat)
    requires p <= |t|
    ensures p <= e <= |t| && (p < |t| ==> p < e)
  {
    var close := Find(t, "*/", p);
    if close.None? then |t| else close.value + 2
  }

  /** One step of the lexer: where it goes, in what state, and the comment it passes. */
  datatype Outcome = Go(p: nat, state: State, found: seq<Span>)

  function StepMulti(t: string, p: nat, st: State): Outcome
    requires p < |t|
  {
    if At4(t, p, '\'', '\'', '$', '{') then Go(p + 4, st, [])
    else if At3(t, p, '\'', '\'', '\'') || At3(t, p, '\'', '\'', '\\') then Go(p + 3, st, [])
    else if At2(t, p, '$', '{') then Go(p + 2, Open(st), [])
    else if At2(t, p, '\'', '\'') then Go(p + 2, st.(mode := Normal), [])
    else Go(p + 1, st, [])
  }

  function StepDouble(t: string, p: nat, st: State): Outcome
    requires p < |t|
  {
    if t[p] == '\\' then Go(if p + 1 < |t| then p + 2 else p + 1, st, [])
    else if At2(t, p, '$', '{') then Go(p + 2, Open(st), [])
    else Go(p + 1, if t[p] == '"' then st.(mode := Normal) else st, [])
  }

  function StepNormal(t: string, p: nat, st: State): Outcome
    requires p < |t|
  {
    if st.interpolation != [] && t[p] == '{' then Go(p + 1, OpenBrace(st), [])
    else if st.interpolation != [] && t[p] == '}' then Go(p + 1, CloseBrace(st), [])
    else if At2(t, p, '\'', '\'') then Go(p + 2, st.(mode := InMulti), [])
    else if t[p] == '"' then Go(p + 1, st.(mode := InDouble), [])
    else if At2(t, p, '/', '*') then
      var e := BlockEnd(t, p + 2);
      Go(e, st.(id := st.id + 1), [Span(p, e, NixBlock, Some(st.id + 1))])
    else if t[p] == '#' then Go(LineEnd(t, p), st, [Span(p, LineCommentEnd(t, p), HashLine, None)])
    else Go(p + 1, st, [])
  }

  function Step(t: string, p: nat, st: State): (r: Outcome)
    requires p < |t|
    ensures p < r.p <= |t| && forall s :: s in r.found ==> SpanIn(t, s)
  {
    match st.mode
    case InMulti => StepMulti(t, p, st)
    case InDouble => StepDouble(t, p, st)
    case Normal => StepNormal(t, p, st)
    case InBlock =>
      var e := BlockEnd(t, p);
      Go(e, st.(mode := Normal), [Span(p, e, NixBlock, Some(st.id))])
  }

  function Spans(t: string, p: nat, st: State): (spans: seq<Span>)
    ensures forall s :: s in spans ==> SpanIn(t, s)
    decreases |t| - p
  {
    if p >= |t| then [] else
    var r := Step(t, p, st);
    r.found + Spans(t, r.p, r.state)
  }

  function AllSpans(t: string): seq<Span> {
    Spans(t, 0, START)
  }

  /** The pieces as this scanner reports them: without their newlines. */
  function Stripped(cs: seq<Comment>): seq<Comment> {
    if cs == [] then [] else [cs[0].(text := StripNewlines(cs[0].text))] + Stripped(cs[1..])
  }

  /** What the gate must report for the text `t`. */
  function Comments(path: string, t: string): seq<Comment> {
    Stripped(CutAll(path, t, AllSpans(t)))
  }

  ghost function Rest(path: string, t: string, p: nat, st: State): seq<Comment> {
    Stripped(CutAll(path, t, Spans(t, p, st)))
  }

  /** Every stacked interpolation is still open and returns to a string. */
  ghost predicate Good(st: State) {
    forall e :: e in st.interpolation ==> e.1 >= 1 && (e.0 == InDouble || e.0 == InMulti)
  }

  lemma GoodStep(t: string, p: nat, st: State)
    requires p < |t| && Good(st)
    ensures Good(Step(t, p, st).state) && Step(t, p, st).state.mode != InBlock
  {
    hide BlockEnd, LineEnd, LineCommentEnd;
    if st.interpolation != [] {
      assert st.interpolation[|st.interpolation| - 1] in st.interpolation;
    }
  }

  // ----- Look-ahead stays inside the line -----

  lemma At3Local(t: string, off: nat, line: string, k: nat, i: nat, a: char, b: char, c: char)
    requires OnLine(t, off, line, k) && i < |line| && !IsBreak(a) && !IsBreak(b)
    ensures At3(t, off + i, a, b, c) == At3(line, i, a, b, c)
  {
    CharLocal(t, off, line, k, i);
    if i + 1 < |line| { CharLocal(t, off, line, k, i + 1); }
    if i + 2 < |line| { CharLocal(t, off, line, k, i + 2); }
  }

  lemma At4Local(t: string, off: nat, line: string, k: nat, i: nat, a: char, b: char, c: char, d: char)
    requires OnLine(t, off, line, k) && i < |line| && !IsBreak(a) && !IsBreak(b) && !IsBreak(c)
    ensures At4(t, off + i, a, b, c, d) == At4(line, i, a, b, c, d)
  {
    At3Local(t, off, line, k, i, a, b, c);
    if i + 3 < |line| { CharLocal(t, off, line, k, i + 3); }
  }

  lemma GuardsLocal(t: string, off: nat, line: string, k: nat, i: nat)
    requires OnLine(t, off, line, k) && i < |line|
    ensures off + |line| <= |t| && t[off + i] == line[i] && LineEnd(t, off + i) == off + |line|
    ensures At4(t, off + i, '\'', '\'', '$', '{') == At4(line, i, '\'', '\'', '$', '{')
    ensures At3(t, off + i, '\'', '\'', '\'') == At3(line, i, '\'', '\'', '\'')
    ensures At3(t, off + i, '\'', '\'', '\\') == At3(line, i, '\'', '\'', '\\')
    ensures At2(t, off + i, '\'', '\'') == At2(line, i, '\'', '\'')
    ensures At2(t, off + i, '$', '{') == At2(line, i, '$', '{')
    ensures At2(t, off + i, '/', '*') == At2(line, i, '/', '*')
    ensures i + 1 == |line| && !IsBreak(line[i]) ==> off + |line| == |t|
  {
    CharLocal(t, off, line, k, i);
    LineEndLocal(t, off, line, k, i);
    At4Local(t, off, line, k, i, '\'', '\'', '$', '{');
    At3Local(t, off, line, k, i, '\'', '\'', '\'');
    At3Local(t, off, line, k, i, '\'', '\'', '\\');
    At2Local(t, off, line, k, i, '\'', '\'');
    At2Local(t, off, line, k, i, '$', '{');
    At2Local(t, off, line, k, i, '/', '*');
  }

  lemma {:induction false} StrippedAppend(a: seq<Comment>, b: seq<Comment>)
    ensures Stripped(a + b) == Stripped(a) + Stripped(b)
  {
    if a == [] {
      assert a + b == b;
    } else {
      StrippedAppend(a[1..], b);
      assert (a + b)[1..] == a[1..] + b;
    }
  }

  lemma RestPast(path: string, t: string, p: nat, st: State)
    requires |t| <= p
    ensures Rest(path, t, p, st) == []
  {
  }

  /** A step that passes no comment. */
  lemma RestStep(path: string, t: string, p: nat, st: State)
    requires p < |t| && Step(t, p, st).found == []
    ensures Rest(path, t, p, st) == Rest(path, t, Step(t, p, st).p, Step(t, p, st).state)
  {
    var r := Step(t, p, st);
    assert [] + Spans(t, r.p, r.state) == Spans(t, r.p, r.state);
  }

  /** A step that passes a comment. */
  lemma RestFound(path: string, t: string, p: nat, st: State, s: Span)
    requires p < |t| && Step(t, p, st).found == [s] && SpanIn(t, s)
    ensures Rest(path, t, p, st)
         == Stripped(Cut(path, t, s)) + Rest(path, t, Step(t, p, st).p, Step(t, p, st).state)
  {
    var r := Step(t, p, st);
    var more := Spans(t, r.p, r.state);
    hide *;
    CutCons(path, t, s, more);
    StrippedAppend(Cut(path, t, s), CutAll(path, t, more));
  }

  // ----- The scanner -----

  lemma {:induction false} StripIdempotent(s: string)
    ensures StripNewlines(StripNewlines(s)) == StripNewlines(s)
    ensures s != "" && s[|s| - 1] != '\n' ==> StripNewlines(s) == s
    decreases |s|
  {
    if s != "" && s[|s| - 1] == '\n' { StripIdempotent(s[..|s| - 1]); }
  }

  lemma StrippedOne(c: Comment, rest: seq<Comment>)
    ensures Stripped([c] + rest) == [c.(text := StripNewlines(c.text))] + Stripped(rest)
  {
    assert ([c] + rest)[1..] == rest;
  }

  lemma LineInText(t: string, off: nat, line: string, k: nat)
    requires OnLine(t, off, line, k)
    ensures off + |line| <= |t|
  {
  }

  /** The search for the closer of a block comment, on this line and in the text. */
  lemma BlockEndLocal(t: string, off: nat, line: string, k: nat, from: nat)
    requires OnLine(t, off, line, k) && from <= |line|
    ensures off + |line| <= |t|
    ensures var close := Find(line, "*/", from);
            if close.Some? then close.value + 2 <= |line| && BlockEnd(t, off + from) == off + close.value + 2
            else BlockEnd(t, off + from) == BlockEnd(t, off + |line|)
  {
    FindLocal(t, off, line, k, from, "*/");
  }

  lemma CloserKept(line: string, start: nat, end: nat)
    requires start <= end && At(line, end, "*/")
    ensures StripNewlines(line[start..end + 2]) == line[start..end + 2]
  {
    assert line[end + 1] == "*/"[1];
    StripIdempotent(line[start..end + 2]);
  }

  /** A block comment whose search for the closer starts at `from`: closed on this line. */
  lemma BlockCloses(path: string, t: string, off: nat, line: string, k: nat, start: nat, from: nat, id: nat)
    requires OnLine(t, off, line, k) && start <= from <= |line| && Find(line, "*/", from).Some?
    ensures var end := Find(line, "*/", from).value;
            && BlockEnd(t, off + from) == off + end + 2 && off + end + 2 <= |t| && end + 2 <= |line|
            && Stripped(Cut(path, t, Span(off + start, off + end + 2, NixBlock, Some(id))))
               == [Add(path, line, k + 1, line[start..end + 2], NixBlock, Some(id))]
  {
    hide *;
    var end := Find(line, "*/", from).value;
    BlockEndLocal(t, off, line, k, from);
    var s := Span(off + start, off + end + 2, NixBlock, Some(id));
    SpanFits(t, s);
    FirstPiece(path, t, off, line, k, start, end + 2, s);
    CutEmpty(path, t, s.(start := s.stop));
    CloserKept(line, start, end);
    StrippedSingle(path, line, k + 1, line[start..end + 2], Some(id), []);
  }

  lemma SpanFits(t: string, s: Span)
    requires s.start <= s.stop <= |t|
    ensures SpanIn(t, s)
  {
  }

  lemma CutEmpty(path: string, t: string, s: Span)
    requires SpanIn(t, s) && s.start == s.stop
    ensures Cut(path, t, s) == []
  {
  }

  lemma StrippedSingle(path: string, line: string, number: nat, text: string, id: Option<nat>, rest: seq<Comment>)
    ensures Stripped([Add(path, line, number, text, NixBlock, id)] + rest)
         == [Add(path, line, number, StripNewlines(text), NixBlock, id)] + Stripped(rest)
    ensures Stripped([]) == []
    ensures [Add(path, line, number, text, NixBlock, id)] + [] == [Add(path, line, number, text, NixBlock, id)]
  {
    StrippedOne(Add(path, line, number, text, NixBlock, id), rest);
  }

  /** The same comment, going on after this line. */
  lemma BlockGoesOn(path: string, t: string, off: nat, line: string, k: nat, start: nat, from: nat, id: nat)
    requires OnLine(t, off, line, k) && start <= from <= |line| && start < |line| && Find(line, "*/", from).None?
    ensures off + |line| <= |t| && BlockEnd(t, off + from) == BlockEnd(t, off + |line|)
    ensures Stripped(Cut(path, t, Span(off + start, BlockEnd(t, off + from), NixBlock, Some(id))))
         == [Add(path, line, k + 1, StripNewlines(line[start..]), NixBlock, Some(id))]
            + Stripped(Cut(path, t, Span(off + |line|, BlockEnd(t, off + |line|), NixBlock, Some(id))))
  {
    hide *;
    BlockEndLocal(t, off, line, k, from);
    var s := Span(off + start, BlockEnd(t, off + |line|), NixBlock, Some(id));
    SpanFits(t, s);
    FirstPiece(path, t, off, line, k, start, |line|, s);
    assert line[start..|line|] == line[start..];
    SpanFits(t, s.(start := off + |line|));
    StrippedSingle(path, line, k + 1, line[start..], Some(id), Cut(path, t, s.(start := off + |line|)));
  }

  /** What is left of an open block comment at `p`, and all that follows. */
  lemma BlockRest(path: string, t: string, p: nat, st: State)
    requires p <= |t| && st.mode == InBlock
    ensures Rest(path, t, p, st)
         == Stripped(Cut(path, t, Span(p, BlockEnd(t, p), NixBlock, Some(st.id))))
            + Rest(path, t, BlockEnd(t, p), st.(mode := Normal))
  {
    if p < |t| {
      assert Step(t, p, st)
             == Go(BlockEnd(t, p), st.(mode := Normal), [Span(p, BlockEnd(t, p), NixBlock, Some(st.id))]);
      hide *;
      RestFound(path, t, p, st, Span(p, BlockEnd(t, p), NixBlock, Some(st.id)));
    }
  }

  /** Scans a block comment that began at `start` of this line, looking for its end from `from`. */
  method ScanBlock(path: string, line: string, start: nat, from: nat, ghost st: State, id: nat,
                   ghost t: string, ghost off: nat, k: nat)
    returns (i: nat, closed: bool, found: seq<Comment>)
    requires OnLine(t, off, line, k) && start <= from <= |line| && start < |line| && st.id == id
    ensures start < i <= |line| && off + from <= |t|
    ensures Stripped(Cut(path, t, Span(off + start, BlockEnd(t, off + from), NixBlock, Some(id))))
              + Rest(path, t, BlockEnd(t, off + from), st.(mode := Normal))
         == found + Rest(path, t, off + i, st.(mode := if closed then Normal else InBlock))
  {
    hide *;
    LineInText(t, off, line, k);
    var end := Find(line, "*/", from);
    if end.None? {
      BlockGoesOn(path, t, off, line, k, start, from, id);
      found := [Add(path, line, k + 1, StripNewlines(line[start..]), NixBlock, Some(id))];
      i, closed := |line|, false;
      BlockRest(path, t, off + i, st.(mode := InBlock));
      ghost var e := BlockEnd(t, off + i);
      SpanFits(t, Span(off + i, e, NixBlock, Some(id)));
      Assoc(found, Stripped(Cut(path, t, Span(off + i, e, NixBlock, Some(id)))), Rest(path, t, e, st.(mode := Normal)));
    } else {
      BlockCloses(path, t, off, line, k, start, from, id);
      i, closed := end.value + 2, true;
      found := [Add(path, line, k + 1, line[start..i], NixBlock, Some(id))];
    }
  }

  /** The part of the loop body inside strings. */
  method ScanString(line: string, start: nat, mode: Mode, interpolation: seq<(Mode, int)>, ghost id: nat,
                    ghost t: string, ghost off: nat, ghost k: nat)
    returns (i: nat, mode': Mode, interpolation': seq<(Mode, int)>)
    requires OnLine(t, off, line, k) && start < |line| && (mode == InMulti || mode == InDouble)
    ensures start < i && (i <= |line| || (i == |line| + 1 && off + |line| == |t|)) && off + start < |t|
    ensures var r := Step(t, off + start, State(mode, interpolation, id));
            && r.state == State(mode', interpolation', id) && r.found == []
            && r.p == (if i > |line| then |t| else off + i)
  {
    GuardsLocal(t, off, line, k, start);
    hide OnLine;
    i, mode', interpolation' := start, mode, interpolation;
    if mode == InMulti {
      if At4(line, i, '\'', '\'', '$', '{') {
        i := i + 4;
      } else if At3(line, i, '\'', '\'', '\'') || At3(line, i, '\'', '\'', '\\') {
        i := i + 3;
      } else if At2(line, i, '$', '{') {
        interpolation' := interpolation + [(mode, 1)];
        mode' := Normal;
        i := i + 2;
      } else if At2(line, i, '\'', '\'') {
        mode' := Normal;
        i := i + 2;
      } else {
        i := i + 1;
      }
    } else {
      if line[i] == '\\' {
        i := i + 2;
      } else if At2(line, i, '$', '{') {
        interpolation' := interpolation + [(mode, 1)];
        mode' := Normal;
        i := i + 2;
      } else {
        if line[i] == '"' {
          mode' := Normal;
        }
        i := i + 1;
      }
    }
  }

  /** The part of the loop body outside strings and comments, when no comment starts. */
  method ScanNormal(line: string, i: nat, interpolation: seq<(Mode, int)>, ghost id: nat,
                    ghost t: string, ghost off: nat, ghost k: nat)
    returns (j: nat, mode': Mode, interpolation': seq<(Mode, int)>, comment: bool)
    requires OnLine(t, off, line, k) && i < |line|
    ensures off + i < |t|
    ensures !comment ==>
              && i < j <= |line|
              && Step(t, off + i, State(Normal, interpolation, id)) == Go(off + j, State(mode', interpolation', id), [])
    ensures comment ==> (At2(line, i, '/', '*') || line[i] == '#') && mode' == Normal && interpolation' == interpolation
                        && line[i] != '\''  && line[i] != '"'
  {
    GuardsLocal(t, off, line, k, i);
    hide OnLine, BlockEnd, LineEnd, LineCommentEnd;
    j, mode', interpolation', comment := i, Normal, interpolation, false;
    if interpolation != [] && line[i] == '{' {
      var top := |interpolation| - 1;
      var (returnMode, depth) := interpolation[top];
      interpolation' := interpolation[top := (returnMode, depth + 1)];
      j := i + 1;
    } else if interpolation != [] && line[i] == '}' {
      var top := |interpolation| - 1;
      var (returnMode, depth) := interpolation[top];
      depth := depth - 1;
      if depth == 0 {
        interpolation' := interpolation[..top];
        mode' := returnMode;
      } else {
        interpolation' := interpolation[top := (returnMode, depth)];
      }
      j := i + 1;
    } else if At2(line, i, '\'', '\'') {
      mode' := InMulti;
      j := i + 2;
    } else if line[i] == '"' {
      mode' := InDouble;
      j := i + 1;
    } else if At2(line, i, '/', '*') || line[i] == '#' {
      comment := true;
    } else {
      j := i + 1;
    }
  }

  lemma CommentStep(t: string, off: nat, line: string, k: nat, i: nat, st: State)
    requires OnLine(t, off, line, k) && i < |line| && st.mode == Normal
    ensures off + i < |t| && off + |line| <= |t|
    ensures At2(line, i, '/', '*') ==> off + i + 2 <= |t| && i + 2 <= |line|
    ensures At2(line, i, '/', '*') ==>
              Step(t, off + i, st) == (var e := BlockEnd(t, off + i + 2);
                                       Go(e, st.(id := st.id + 1), [Span(off + i, e, NixBlock, Some(st.id + 1))]))
    ensures line[i] == '#' ==>
              Step(t, off + i, st) == Go(off + |line|, st, [Span(off + i, LineCommentEnd(t, off + i), HashLine, None)])
  {
    GuardsLocal(t, off, line, k, i);
  }

  /** A comment that starts at `i`. */
  method ScanComment(path: string, line: string, i: nat, blockId: nat, ghost st: State, ghost t: string, ghost off: nat,
                     k: nat)
    returns (j: nat, id: nat, closed: bool, found: seq<Comment>)
    requires OnLine(t, off, line, k) && i < |line| && st.mode == Normal && st.id == blockId
    requires At2(line, i, '/', '*') || line[i] == '#'
    ensures i < j <= |line|
    ensures Rest(path, t, off + i, st)
            == found + Rest(path, t, off + j, st.(mode := if closed then Normal else InBlock, id := id))
  {
    hide *;
    CommentStep(t, off, line, k, i, st);
    if line[i] == '#' {
      HashPiece(path, t, off, line, k, i, st);
      found := [Add(path, line, k + 1, StripNewlines(line[i..]), HashLine, None)];
      j, id, closed := |line|, blockId, true;
    } else {
      id := blockId + 1;
      ghost var e := BlockEnd(t, off + i + 2);
      SpanFits(t, Span(off + i, e, NixBlock, Some(id)));
      RestFound(path, t, off + i, st, Span(off + i, e, NixBlock, Some(id)));
      j, closed, found := ScanBlock(path, line, i, i + 2, st.(id := id), id, t, off, k);
    }
  }

  lemma HashPiece(path: string, t: string, off: nat, line: string, k: nat, i: nat, st: State)
    requires OnLine(t, off, line, k) && i < |line| && line[i] == '#' && st.mode == Normal
    requires off + i < |t|
    requires Step(t, off + i, st) == Go(off + |line|, st, [Span(off + i, LineCommentEnd(t, off + i), HashLine, None)])
    ensures Rest(path, t, off + i, st)
         == [Add(path, line, k + 1, StripNewlines(line[i..]), HashLine, None)] + Rest(path, t, off + |line|, st)
  {
    hide *;
    var more := Spans(t, off + |line|, st);
    var c := Add(path, line, k + 1, StripNewlines(line[i..]), HashLine, None);
    SpansUnfold(t, off + i, st);
    LineCommentCut(path, t, off, line, k, i, HashLine, more);
    StripIdempotent(line[i..]);
    StrippedOne(c, CutAll(path, t, more));
    AddText(path, line, k + 1, StripNewlines(line[i..]), HashLine, None);
    assert c.(text := StripNewlines(c.text)) == c;
    RestIs(path, t, off + i, st);
    RestIs(path, t, off + |line|, st);
  }

  lemma SpansUnfold(t: string, p: nat, st: State)
    requires p < |t|
    ensures Spans(t, p, st) == Step(t, p, st).found + Spans(t, Step(t, p, st).p, Step(t, p, st).state)
  {
  }

  lemma AddText(path: string, line: string, number: nat, text: string, family: Family, id: Option<nat>)
    ensures Add(path, line, number, text, family, id).text == text
  {
  }

  lemma RestIs(path: string, t: string, p: nat, st: State)
    ensures Rest(path, t, p, st) == Stripped(CutAll(path, t, Spans(t, p, st)))
  {
  }

  lemma ModeStep(path: string, t: string, p: nat, st: State, i: nat)
    requires p < |t| && Step(t, p, st).found == [] && Step(t, p, st).p == (if i > |t| then |t| else i)
    ensures Rest(path, t, p, st) == Rest(path, t, i, Step(t, p, st).state)
  {
    RestStep(path, t, p, st);
    if i > |t| {
      RestPast(path, t, |t|, Step(t, p, st).state);
      RestPast(path, t, i, Step(t, p, st).state);
    }
  }

  method NixComments(path: string, lines: seq<string>) returns (out: seq<Comment>)
    requires IsSplit(lines)
    ensures out == Comments(path, Join(lines))
  {
    hide *;
    out := [];
    var mode := Normal;
    var blockId: nat := 0;
    var activeBlock: Option<nat> := None;
    var interpolation: seq<(Mode, int)> := [];
    ghost var t := Join(lines);
    CommentsAreRest(path, t);
    GoodStart();
    OffsetStart(lines);

    for k := 0 to |lines|
      invariant mode == InBlock ==> activeBlock == Some(blockId)
      invariant Good(State(mode, interpolation, blockId))
      invariant out + Rest(path, t, Offset(lines, k), State(mode, interpolation, blockId)) == Comments(path, t)
    {
      var line := lines[k];
      ghost var off := Offset(lines, k);
      LineAt(lines, k);
      LineInText(t, off, line, k);
      OffsetNext(lines, k);
      var i := 0;
      while i < |line|
        invariant i <= |line| || (i == |line| + 1 && off + |line| == |t|)
        invariant mode == InBlock ==> activeBlock == Some(blockId)
        invariant Good(State(mode, interpolation, blockId))
        invariant out + Rest(path, t, off + i, State(mode, interpolation, blockId)) == Comments(path, t)
        decreases |line| + 1 - i
      {
        var start := i;
        ghost var before := State(mode, interpolation, blockId);
        if mode == InBlock {
          var closed, found;
          BlockRest(path, t, off + i, before);
          i, closed, found := ScanBlock(path, line, i, i, before, activeBlock.value, t, off, k);
          mode := if closed then Normal else InBlock;
          activeBlock := if closed then None else activeBlock;
          GoodSame(before, State(mode, interpolation, blockId));
          out := out + found;
        } else if mode == InMulti || mode == InDouble {
          i, mode, interpolation := ScanString(line, i, mode, interpolation, blockId, t, off, k);
          ModeStep(path, t, off + start, before, off + i);
          GoodStep(t, off + start, before);
        } else {
          var comment;
          i, mode, interpolation, comment := ScanNormal(line, i, interpolation, blockId, t, off, k);
          if comment {
            var closed, found;
            i, blockId, closed, found := ScanComment(path, line, start, blockId, before, t, off, k);
            mode := if closed then Normal else InBlock;
            activeBlock := if closed then None else Some(blockId);
            out := out + found;
            GoodSame(before, State(mode, interpolation, blockId));
          } else {
            ModeStep(path, t, off + start, before, off + i);
            GoodStep(t, off + start, before);
          }
        }
      }
      if i > |line| {
        RestPast(path, t, off + i, State(mode, interpolation, blockId));
        RestPast(path, t, off + |line|, State(mode, interpolation, blockId));
      }
    }
    OffsetEnd(lines);
    RestPast(path, t, |t|, State(mode, interpolation, blockId));
  }

  lemma CommentsAreRest(path: string, t: string)
    ensures [] + Rest(path, t, 0, State(Normal, [], 0)) == Comments(path, t)
  {
  }

  lemma GoodSame(a: State, b: State)
    requires Good(a) && a.interpolation == b.interpolation
    ensures Good(b)
  {
  }

  lemma GoodStart()
    ensures Good(State(Normal, [], 0))
  {
  }

  lemma OffsetStart(lines: seq<string>)
    ensures Offset(lines, 0) == 0
  {
  }
}
