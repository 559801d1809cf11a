/** The shell lexer over a whole text, with no lines: the scanner of ShellLexer, which goes line by
    line and carries its state over, finds exactly the comments that this lexer finds. */
module ShellText {
  import opened Text
  import opened ShellLexer

  /** A line of the text starts at `p`. */
  predicate LineStart(t: string, p: nat)
    requires p <= |t|
  {
    p == 0 || IsBreak(t[p - 1])
  }

  /** A move of the lexer: where it goes on and in what state, and the comment it has passed. */
  datatype Move = Move(p: nat, state: State, found: seq<Span>)

  /** A line of the text that is part of a here-document, the one at the head of the queue. */
  function LexBody(t: string, p: nat, st: State): Move
    requires p < |t| && st.heredocs != []
  {
    var e := LineEnd(t, p);
    Move(e, if Closes(t[p..e], st.heredocs[0]) then st.(heredocs := st.heredocs[1..]) else st, [])
  }

  function LexArithmetic(t: string, p: nat, st: State): Move
    requires p < |t| && st.arithmetic > 0
  {
    var depth := if t[p] == '(' then st.arithmetic + 1 else if t[p] == ')' then st.arithmetic - 1 else st.arithmetic;
    Move(p + 1, st.(arithmetic := depth), [])
  }

  function LexDouble(t: string, p: nat, st: State): Move
    requires p < |t|
  {
    if t[p] == '\\' then Move(p + 2, st, [])
    else if At3(t, p, '$', '(', '(') then Move(p + 3, st.(arithmetic := 2), [])
    else if At2(t, p, '$', '(') then
      Move(p + 2, st.(quote := Unquoted, substitutions := st.substitutions + [(Double, 1)]), [])
    else Move(p + 1, if t[p] == '"' then st.(quote := Unquoted) else st, [])
  }

  /** A here-document operator at `p`; its delimiter ends with the line. */
  function OperatorAt(t: string, p: nat): (r: Option<(Heredoc, nat)>)
    requires p < |t|
    ensures r.Some? ==> p < r.value.1 <= LineEnd(t, p)
  {
    ParseHeredoc(t[..LineEnd(t, p)], p)
  }

  predicate CommentAt(t: string, p: nat)
    requires p < |t|
  {
    t[p] == '#' && (LineStart(t, p) || IsSpace(t[p - 1]) || IsOperator(t[p - 1]))
  }

  predicate Shebang(t: string, p: nat) { p == 0 && At2(t, 0, '#', '!') }

  /** The stretch of the comment that starts at `p`. */
  function CommentSpan(t: string, p: nat): Span
    requires p < |t|
  {
    Span(p, LineCommentEnd(t, p), HashLine, None)
  }

  function LexUnquoted(t: string, p: nat, st: State): Move
    requires p < |t|
  {
    if t[p] == '\'' then Move(p + 1, st.(quote := Single), [])
    else if t[p] == '"' then Move(p + 1, st.(quote := Double), [])
    else if At2(t, p, '(', '(') then Move(p + 2, st.(arithmetic := 2), [])
    else if At3(t, p, '$', '(', '(') then Move(p + 3, st.(arithmetic := 2), [])
    else if At2(t, p, '$', '(') then Move(p + 2, st.(substitutions := st.substitutions + [(Unquoted, 1)]), [])
    else if st.substitutions != [] && t[p] == '(' then Move(p + 1, OpenParen(st), [])
    else if st.substitutions != [] && t[p] == ')' then Move(p + 1, CloseParen(st), [])
    else if OperatorAt(t, p).Some? then
      var (heredoc, end) := OperatorAt(t, p).value;
      Move(end, st.(heredocs := st.heredocs + [heredoc]), [])
    else if CommentAt(t, p) then Move(LineEnd(t, p), st, if Shebang(t, p) then [] else [CommentSpan(t, p)])
    else Move(p + 1, st, [])
  }

  function Lex(t: string, p: nat, st: State): (m: Move)
    requires p < |t|
    ensures p < m.p && forall s :: s in m.found ==> SpanIn(t, s)
  {
    if st.heredocs != [] && LineStart(t, p) then LexBody(t, p, st)
    else if st.arithmetic > 0 then LexArithmetic(t, p, st)
    else match st.quote
      case Single => Move(p + 1, if t[p] == '\'' then st.(quote := Unquoted) else st, [])
      case Double => LexDouble(t, p, st)
      case Unquoted => LexUnquoted(t, p, st)
  }

  /** The comments from `p` on. */
  function Spans(t: string, p: nat, st: State): (spans: seq<Span>)
    ensures forall s :: s in spans ==> SpanIn(t, s)
    decreases |t| - p
  {
    if p >= |t| then [] else
    var m := Lex(t, p, st);
    m.found + Spans(t, m.p, m.state)
  }

  function AllSpans(t: string): (spans: seq<Span>)
    ensures forall s :: s in spans ==> SpanIn(t, s)
  {
    Spans(t, 0, START)
  }

  /** What the gate must report for a shell script. */
  function Comments(path: string, t: string): seq<Comment> {
    CutAll(path, t, AllSpans(t))
  }

  // ----- The line-by-line scan finds the same -----

  lemma InText(t: string, off: nat, line: string, k: nat, i: nat)
    requires OnLine(t, off, line, k) && i < |line|
    ensures off + i < |t| && off + |line| <= |t| && t[off + i] == line[i]
    ensures i > 0 ==> t[off + i - 1] == line[i - 1] && !IsBreak(line[i - 1])
  {
    hide Locate;
    if i > 0 { assert t[off + (i - 1)] == line[i - 1]; }
  }

  // ----- The operator of a here-document in its line -----

  lemma {:induction false} WordShift(u: string, off: nat, line: string, i: nat, q: Quoting)
    requires off <= |u| && u[off..] == line && i <= |line|
    ensures var (w, end, after) := Word(line, i, q);
            Word(u, off + i, q) == (w, off + end, after)
    decreases |line| - i
  {
    if i < |line| {
      var c := line[i];
      assert u[off + i] == c;
      if i + 1 < |line| { assert u[off + (i + 1)] == line[i + 1]; }
      if q == Unquoted && EndsWord(c) {
      } else {
        var jump := q != Single && c == '\\' && i + 1 < |line|;
        var next := if q == Unquoted && c == '\'' then Single else if q == Unquoted && c == '"' then Double
                    else if (q == Single && c == '\'') || (q == Double && c == '"') then Unquoted else q;
        WordShift(u, off, line, if jump then i + 2 else i + 1, next);
      }
    }
  }

  lemma {:induction false} BlanksShift(u: string, off: nat, line: string, i: nat)
    requires off <= |u| && u[off..] == line
    ensures SkipBlanks(u, off + i) == off + SkipBlanks(line, i)
    decreases |line| - i
  {
    if i < |line| {
      assert u[off + i] == line[i];
      BlanksShift(u, off, line, i + 1);
    }
  }

  /** An operator is read the same way in its line and in any text that ends with that line. */
  lemma OperatorShift(u: string, off: nat, line: string, i: nat)
    requires off <= |u| && u[off..] == line && i < |line|
    requires off > 0 ==> u[off - 1] != '<'
    ensures var r := ParseHeredoc(line, i);
            ParseHeredoc(u, off + i) == if r.None? then None else Some((r.value.0, off + r.value.1))
  {
    hide Word, SkipBlanks;
    assert forall j :: 0 <= j < |line| ==> u[off..][j] == u[off + j];
    if i > 0 { assert u[off + i - 1] == line[i - 1]; }
    if At2(line, i, '<', '<') {
      var from := if i + 2 < |line| && line[i + 2] == '-' then i + 3 else i + 2;
      BlanksShift(u, off, line, from);
      WordShift(u, off, line, SkipBlanks(line, from), Unquoted);
    }
  }

  lemma OperatorLocal(t: string, off: nat, line: string, k: nat, i: nat)
    requires OnLine(t, off, line, k) && i < |line| && (off > 0 ==> IsBreak(t[off - 1]))
    ensures off + i < |t|
    ensures var r := ParseHeredoc(line, i);
            OperatorAt(t, off + i) == if r.None? then None else Some((r.value.0, off + r.value.1))
  {
    hide ParseHeredoc;
    InText(t, off, line, k, i);
    LineEndLocal(t, off, line, k, i);
    var u := t[..off + |line|];
    SliceLocal(t, off, line, k, 0, |line|);
    assert u[off..] == t[off + 0..off + |line|] && line[0..|line|] == line;
    OperatorShift(u, off, line, i);
  }

  // ----- One move -----

  /** What a step of the scanner on a line is in the whole text. */
  function Lift(t: string, off: nat, i: nat, line: string, r: Outcome, st: State): Move
    requires off + i < |t|
  {
    match r
    case Go(j, next) => Move(off + j, next, [])
    case Stop(reported) => Move(off + |line|, st, if reported then [CommentSpan(t, off + i)] else [])
  }

  lemma At2In(t: string, off: nat, line: string, k: nat, i: nat)
    requires OnLine(t, off, line, k) && i < |line|
    ensures At2(t, off + i, '(', '(') == At2(line, i, '(', '(')
    ensures At2(t, off + i, '$', '(') == At2(line, i, '$', '(')
    ensures At2(t, off + i, '#', '!') == At2(line, i, '#', '!')
    ensures At3(t, off + i, '$', '(', '(') == At3(line, i, '$', '(', '(')
  {
    hide OnLine;
    At2Local(t, off, line, k, i, '(', '(');
    At2Local(t, off, line, k, i, '$', '(');
    At2Local(t, off, line, k, i, '#', '!');
    if At2(line, i, '$', '(') { At2Local(t, off, line, k, i + 1, '(', '('); }
  }

  lemma CommentLocal(t: string, off: nat, line: string, k: nat, i: nat)
    requires OnLine(t, off, line, k) && i < |line| && (off > 0 ==> IsBreak(t[off - 1])) && (off > 0 <==> k > 0)
    ensures off + i < |t|
    ensures CommentAt(t, off + i) == StartsComment(line, i)
    ensures Shebang(t, off + i) == (k == 0 && i == 0 && At2(line, 0, '#', '!'))
  {
    InText(t, off, line, k, i);
    At2In(t, off, line, k, i);
  }

  lemma UnquotedLocal(t: string, off: nat, line: string, k: nat, i: nat, st: State)
    requires OnLine(t, off, line, k) && i < |line| && (off > 0 ==> IsBreak(t[off - 1])) && (off > 0 <==> k > 0)
    ensures off + i < |t|
    ensures LexUnquoted(t, off + i, st) == Lift(t, off, i, line, StepUnquoted(line, k == 0, i, st), st)
  {
    InText(t, off, line, k, i);
    At2In(t, off, line, k, i);
    OperatorLocal(t, off, line, k, i);
    CommentLocal(t, off, line, k, i);
    LineEndLocal(t, off, line, k, i);
    hide OnLine, OperatorAt, ParseHeredoc, CommentAt, StartsComment, Shebang, LineEnd, At2, At3, CommentSpan, OpenParen,
         CloseParen;
  }

  /** Away from the start of a here-document's line, the lexer moves as the scanner steps. */
  lemma LexLocal(t: string, off: nat, line: string, k: nat, i: nat, st: State)
    requires OnLine(t, off, line, k) && i < |line| && (off > 0 ==> IsBreak(t[off - 1])) && (off > 0 <==> k > 0)
    requires i == 0 ==> st.heredocs == []
    ensures off + i < |t|
    ensures Lex(t, off + i, st) == Lift(t, off, i, line, Step(line, k == 0, i, st), st)
  {
    InText(t, off, line, k, i);
    At2In(t, off, line, k, i);
    UnquotedLocal(t, off, line, k, i, st);
    hide OnLine, LexUnquoted, StepUnquoted, At2, At3;
  }

  // ----- One line -----

  /** The comment that the scan of a line reports, as a stretch of the text. */
  function FoundAt(t: string, off: nat, found: Option<nat>): (spans: seq<Span>)
    ensures forall s :: s in spans ==> SpanIn(t, s)
  {
    if found.Some? && off + found.value < |t| then [CommentSpan(t, off + found.value)] else []
  }

  lemma SpansNext(t: string, p: nat, st: State)
    requires p < |t|
    ensures Spans(t, p, st) == Lex(t, p, st).found + Spans(t, Lex(t, p, st).p, Lex(t, p, st).state)
  {
    hide Lex;
  }

  lemma SpansEnd(t: string, p: nat, st: State)
    requires |t| <= p
    ensures Spans(t, p, st) == []
  {
  }

  lemma ScanNext(line: string, first: bool, i: nat, st: State)
    ensures i >= |line| ==> ScanLine(line, first, i, st) == (st, None)
    ensures i < |line| ==>
              var r := Step(line, first, i, st);
              ScanLine(line, first, i, st)
              == if r.Go? then ScanLine(line, first, r.i, r.state) else (st, if r.reported then Some(i) else None)
  {
    hide Step;
  }

  /** A step leaves the line only past a backslash that ends the text. */
  lemma StepIn(line: string, first: bool, i: nat, st: State)
    requires i < |line|
    ensures Step(line, first, i, st).Go? ==> Step(line, first, i, st).i <= if line[i] == '\\' then i + 2 else |line|
  {
    hide ParseHeredoc, StartsComment, CloseParen, OpenParen;
    if Step(line, first, i, st).Go? && st.arithmetic == 0 && st.quote == Unquoted {
      ParseIn(line, i);
    }
  }

  lemma ParseIn(line: string, i: nat)
    ensures ParseHeredoc(line, i).Some? ==> ParseHeredoc(line, i).value.1 <= |line| && line[i] == '<'
  {
  }

  lemma LastNotBreak(t: string, off: nat, line: string, k: nat, i: nat)
    requires OnLine(t, off, line, k) && i < |line| && !IsBreak(line[i])
    ensures off + |line| <= |t| && (off + |line| < |t| ==> i + 1 < |line|)
  {
    hide Locate;
  }

  lemma StepStays(t: string, off: nat, line: string, k: nat, i: nat, st: State)
    requires OnLine(t, off, line, k) && i < |line| && Step(line, k == 0, i, st).Go?
    ensures off + |line| <= |t|
    ensures Step(line, k == 0, i, st).i <= |line| || off + |line| == |t|
  {
    hide *;
    StepIn(line, k == 0, i, st);
    InText(t, off, line, k, i);
    if line[i] == '\\' {
      Backslash();
      LastNotBreak(t, off, line, k, i);
    }
  }

  lemma Backslash()
    ensures !IsBreak('\\')
  {
  }

  lemma {:induction false} LineRefines(t: string, off: nat, line: string, k: nat, i: nat, st: State)
    requires OnLine(t, off, line, k) && (off > 0 ==> IsBreak(t[off - 1])) && (off > 0 <==> k > 0)
    requires i == 0 ==> st.heredocs == []
    requires i <= |line| || off + |line| == |t|
    ensures var (after, found) := ScanLine(line, k == 0, i, st);
            Spans(t, off + i, st) == FoundAt(t, off, found) + Spans(t, off + |line|, after)
    decreases |line| - i
  {
    hide *;
    ScanNext(line, k == 0, i, st);
    NothingFound(t, off);
    if i >= |line| {
      if i > |line| {
        SpansEnd(t, off + i, st);
        SpansEnd(t, off + |line|, st);
      }
    } else {
      var r := Step(line, k == 0, i, st);
      LexLocal(t, off, line, k, i, st);
      SpansNext(t, off + i, st);
      LiftIs(t, off, i, line, r, st);
      if r.Go? {
        StepStays(t, off, line, k, i, st);
        StepOn(line, k == 0, i, st);
        LineRefines(t, off, line, k, r.i, r.state);
      }
    }
  }

  lemma StepOn(line: string, first: bool, i: nat, st: State)
    requires i < |line|
    ensures Step(line, first, i, st).Go? ==> i < Step(line, first, i, st).i
  {
  }

  lemma NothingFound(t: string, off: nat)
    ensures FoundAt(t, off, None) == []
  {
  }

  lemma LiftIs(t: string, off: nat, i: nat, line: string, r: Outcome, st: State)
    requires off + i < |t|
    ensures Lift(t, off, i, line, r, st)
         == if r.Go? then Move(off + r.i, r.state, [])
            else Move(off + |line|, st, FoundAt(t, off, if r.reported then Some(i) else None))
  {
    hide CommentSpan;
  }

  /** A whole line, in a here-document or not. */
  lemma WholeLine(t: string, off: nat, line: string, k: nat, st: State)
    requires OnLine(t, off, line, k) && (off > 0 ==> IsBreak(t[off - 1])) && (off > 0 <==> k > 0)
    ensures var (after, found) := Line(line, k == 0, st);
            Spans(t, off, st) == FoundAt(t, off, found) + Spans(t, off + |line|, after)
  {
    hide ScanLine, Spans, Closes, OnLine;
    if st.heredocs == [] {
      LineRefines(t, off, line, k, 0, st);
    } else {
      NotEmpty(t, off, line, k);
      LineEndLocal(t, off, line, k, 0);
      SliceLocal(t, off, line, k, 0, |line|);
      assert line[0..|line|] == line;
      SpansNext(t, off, st);
    }
  }

  lemma NotEmpty(t: string, off: nat, line: string, k: nat)
    requires OnLine(t, off, line, k)
    ensures 0 < |line| && off + |line| <= |t|
    ensures off + |line| < |t| ==> IsBreak(t[off + |line| - 1])
  {
    hide Locate;
    assert t[off + (|line| - 1)] == line[|line| - 1];
  }

  // ----- The whole text -----

  /** What is left to report from position `p` on. */
  ghost function Rest(path: string, t: string, p: nat, st: State): seq<Comment> {
    CutAll(path, t, Spans(t, p, st))
  }

  lemma ScanStart(line: string, first: bool, i: nat, st: State)
    ensures var found := ScanLine(line, first, i, st).1;
            found.Some? ==> i <= found.value < |line| && line[found.value] == '#'
    decreases |line| - i
  {
    hide Step;
    if i < |line| {
      StepOn(line, first, i, st);
      StopsAt(line, first, i, st);
      if Step(line, first, i, st).Go? {
        ScanStart(line, first, Step(line, first, i, st).i, Step(line, first, i, st).state);
      }
    }
  }

  lemma StopsAt(line: string, first: bool, i: nat, st: State)
    requires i < |line|
    ensures Step(line, first, i, st).Stop? ==> line[i] == '#'
  {
    hide ParseHeredoc;
  }

  lemma FoundIn(line: string, first: bool, st: State)
    ensures var found := Line(line, first, st).1;
            found.Some? ==> found.value < |line| && line[found.value] == '#'
  {
    hide ScanLine, Closes;
    ScanStart(line, first, 0, st);
  }

  lemma FoundIs(t: string, off: nat, line: string, k: nat, i: nat)
    requires OnLine(t, off, line, k) && i < |line|
    ensures off + i < |t|
    ensures FoundAt(t, off, Some(i)) == [Span(off + i, LineCommentEnd(t, off + i), HashLine, None)]
  {
    hide LineCommentEnd;
    InText(t, off, line, k, i);
  }

  lemma ReportedIs(path: string, lines: seq<string>, k: nat)
    requires k < |lines|
    ensures var found := Line(lines[k], k == 0, After(lines, 0, k, START)).1;
            && (found.None? ==> ReportedAt(path, lines, 0, k, START) == [])
            && (found.Some? && found.value < |lines[k]| ==>
                  ReportedAt(path, lines, 0, k, START)
                  == [Add(path, lines[k], k + 1, StripNewlines(lines[k][found.value..]), HashLine, None)])
    ensures After(lines, 0, k + 1, START) == Line(lines[k], k == 0, After(lines, 0, k, START)).0
  {
    hide Line, Add, StripNewlines;
  }

  /** Line `k` starts a line of the text. */
  lemma LineStarts(lines: seq<string>, k: nat)
    requires IsSplit(lines) && k < |lines|
    ensures var off := Offset(lines, k);
            off <= |Join(lines)| && (off > 0 <==> k > 0) && (off > 0 ==> IsBreak(Join(lines)[off - 1]))
  {
    hide *;
    LineAt(lines, k);
    NotEmpty(Join(lines), Offset(lines, k), lines[k], k);
    OffsetZero(lines);
    if k > 0 {
      LineAt(lines, k - 1);
      NotEmpty(Join(lines), Offset(lines, k - 1), lines[k - 1], k - 1);
      OffsetNext(lines, k - 1);
    }
  }

  lemma OffsetZero(lines: seq<string>)
    ensures Offset(lines, 0) == 0
  {
  }

  /** The comment reported for a line is the one that the lexer passes on that line. */
  lemma ReportedHere(path: string, t: string, lines: seq<string>, k: nat)
    requires IsSplit(lines) && t == Join(lines) && k < |lines|
    ensures Rest(path, t, Offset(lines, k), After(lines, 0, k, START))
         == ReportedAt(path, lines, 0, k, START) + Rest(path, t, Offset(lines, k + 1), After(lines, 0, k + 1, START))
  {
    hide *;
    var line, off, st := lines[k], Offset(lines, k), After(lines, 0, k, START);
    LineAt(lines, k);
    OffsetNext(lines, k);
    LineStarts(lines, k);
    WholeLine(t, off, line, k, st);
    var (after, found) := Line(line, k == 0, st);
    var rest := Spans(t, off + |line|, after);
    FoundIn(line, k == 0, st);
    ReportedIs(path, lines, k);
    RestIs(path, t, off, st);
    RestIs(path, t, off + |line|, after);
    if found.Some? {
      FoundIs(t, off, line, k, found.value);
      LineCommentCut(path, t, off, line, k, found.value, HashLine, rest);
    } else {
      NothingFound(t, off);
      assert [] + rest == rest;
    }
  }

  lemma RestIs(path: string, t: string, p: nat, st: State)
    ensures Rest(path, t, p, st) == CutAll(path, t, Spans(t, p, st))
  {
  }

  /** Main result: the line-by-line scan reports exactly the comments of the whole-text lexer. */
  lemma {:induction false} ScanRefines(path: string, lines: seq<string>, k: nat)
    requires IsSplit(lines) && k <= |lines|
    ensures Reported(path, lines, 0, k, START) + Rest(path, Join(lines), Offset(lines, k), After(lines, 0, k, START))
         == Comments(path, Join(lines))
  {
    hide Spans, ReportedAt, CutAll, IsSplit, Join, Line;
    if k > 0 {
      ScanRefines(path, lines, k - 1);
      ReportedHere(path, Join(lines), lines, k - 1);
    }
  }

  lemma ReportedAll(path: string, lines: seq<string>)
    requires IsSplit(lines)
    ensures Reported(path, lines, 0, |lines|, START) == Comments(path, Join(lines))
  {
    hide *;
    var t, st := Join(lines), After(lines, 0, |lines|, START);
    ScanRefines(path, lines, |lines|);
    OffsetEnd(lines);
    SpansEnd(t, |t|, st);
    RestIs(path, t, |t|, st);
    NoSpans(path, t);
  }

  lemma NoSpans(path: string, t: string)
    ensures CutAll(path, t, []) == []
  {
  }

  /** The scanner of the gate. */
  method ShellComments(path: string, lines: seq<string>) returns (out: seq<Comment>)
    requires IsSplit(lines)
    ensures out == Comments(path, Join(lines))
  {
    hide ScanLine, Comments, IsSplit, Join;
    out := [];
    var heredocs: seq<Heredoc> := [];
    var quote := Unquoted;
    var substitutions: seq<(Quoting, int)> := [];
    var arithmeticDepth: nat := 0;
    for k := 0 to |lines|
      invariant State(quote, substitutions, arithmeticDepth, heredocs) == After(lines, 0, k, START)
      invariant out == Reported(path, lines, 0, k, START)
    {
      var line := lines[k];
      if heredocs != [] {
        var current := heredocs[0];
        var candidate := StripNewlines(line);
        if current.stripTabs {
          candidate := StripTabs(candidate);
        }
        if candidate == current.delimiter {
          heredocs := heredocs[1..];
        }
        continue;
      }
      var report;
      quote, substitutions, arithmeticDepth, heredocs, report :=
        ScanShellLine(line, k == 0, State(quote, substitutions, arithmeticDepth, heredocs));
      if report.Some? {
        out := out + [Add(path, line, k + 1, StripNewlines(line[report.value..]), HashLine, None)];
      }
    }
    ReportedAll(path, lines);
  }

  // ----- A backslash outside of quotes -----

  /** The character at `p` opens or closes something, or starts a here-document. */
  predicate Acts(t: string, p: nat, st: State)
    requires p < |t|
  {
    || t[p] == '\'' || t[p] == '"' || At2(t, p, '(', '(') || At2(t, p, '$', '(')
    || (st.substitutions != [] && (t[p] == '(' || t[p] == ')'))
    || OperatorAt(t, p).Some?
  }

  /** To the shell a backslash outside of quotes takes the next character with it. The scanner passes both with
      nothing changed, too, if and only if that character does nothing by itself. */
  lemma BackslashPair(t: string, p: nat, st: State)
    requires p + 1 < |t| && t[p] == '\\' && !(st.heredocs != [] && LineStart(t, p))
    requires st.arithmetic == 0 && st.quote == Unquoted
    ensures Lex(t, p, st) == Move(p + 1, st, [])
    ensures Lex(t, p + 1, st) == Move(p + 2, st, []) <==> !Acts(t, p + 1, st)
  {
    hide LineEnd, IsSpace;
    Backslash();
    BackslashWord();
    if st.substitutions != [] { ParensChange(st); }
  }

  lemma BackslashWord()
    ensures !IsSpace('\\') && !IsOperator('\\')
  {
  }

  lemma ParensChange(st: State)
    requires st.substitutions != []
    ensures OpenParen(st) != st && CloseParen(st) != st
  {
    var n := |st.substitutions| - 1;
    var (prior, depth) := st.substitutions[n];
    assert OpenParen(st).substitutions[n] == (prior, depth + 1);
    if depth != 1 { assert CloseParen(st).substitutions[n] == (prior, depth - 1); }
  }

  /** An apostrophe taken so hides a comment that the shell has. */
  lemma BackslashExample()
    ensures AllSpans("\\' # c\n") == []
  {
    var t := "\\' # c\n";
    var quoted := START.(quote := Single);
    BackslashPair(t, 0, START);
    assert Spans(t, 7, quoted) == [];
    assert Lex(t, 6, quoted) == Move(7, quoted, []) && Lex(t, 5, quoted) == Move(6, quoted, []);
    assert Lex(t, 4, quoted) == Move(5, quoted, []) && Lex(t, 3, quoted) == Move(4, quoted, []);
    assert Lex(t, 2, quoted) == Move(3, quoted, []) && Lex(t, 1, START) == Move(2, quoted, []);
    hide Lex;
    assert Spans(t, 6, quoted) == [] && Spans(t, 5, quoted) == [];
    assert Spans(t, 4, quoted) == [] && Spans(t, 3, quoted) == [];
    assert Spans(t, 2, quoted) == [] && Spans(t, 1, START) == [];
    assert Spans(t, 0, START) == [];
  }
}
