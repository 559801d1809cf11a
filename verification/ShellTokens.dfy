/** Printing a shell script from its tokens and scanning the result finds exactly the comments: a
    `#` in a word, in quotes, in arithmetic or in a here-document is none, and every other one is,
    at any nesting of quotes and substitutions. */
module ShellTokens {
  import opened Text
  import opened Printing
  import opened ShellLexer
  import opened ShellText
  import Operator = ShellRoundTrip

  /** The lines of a here-document and the line that ends it. */
  datatype Body = Body(lines: seq<string>, last: string)

  datatype Token =
    | Plain(text: string)                                            // words, blanks, operators
    | InSingle(text: string)                                         // '...'
    | Quoted(tokens: seq<Token>)                                     // "..."
    | Escaped(c: char)                                               // \c in double quotes
    | Subst(tokens: seq<Token>)                                      // $(...)
    | Group(tokens: seq<Token>)                                      // (...)
    | Stray                                                          // ) outside every substitution
    | Arith(dollar: bool, text: string)                              // ((...)) or $((...)), the text with the closers
    | Here(strip: bool, blanks: string, word: seq<Operator.Piece>)   // << and the delimiter
    | Newline(bodies: seq<Body>)                                     // and the pending here-documents after it
    | Hash(text: string)                                             // a comment, to the end of the line

  // ----- Printing -----

  function PrintBodies(bodies: seq<Body>): string {
    if bodies == [] then "" else Join(bodies[0].lines) + (bodies[0].last + PrintBodies(bodies[1..]))
  }

  function PrintToken(x: Token): string
    decreases x, 0
  {
    match x
    case Plain(s) => s
    case InSingle(s) => ['\''] + (s + "'")
    case Quoted(ys) => ['"'] + (Print(ys) + "\"")
    case Escaped(c) => ['\\'] + [c]
    case Subst(ys) => ['$'] + (['('] + (Print(ys) + ")"))
    case Group(ys) => ['('] + (Print(ys) + ")")
    case Stray => ")"
    case Arith(dollar, s) => if dollar then ['$'] + (['('] + (['('] + s)) else ['('] + (['('] + s)
    case Here(strip, blanks, word) => Operator.PrintOperator(strip, blanks, word)
    case Newline(bodies) => ['\n'] + PrintBodies(bodies)
    case Hash(s) => ['#'] + s
  }

  function Print(xs: seq<Token>): string
    decreases xs, 1
  {
    if xs == [] then "" else PrintToken(xs[0]) + Print(xs[1..])
  }

  // ----- Well-formed token lists -----

  /** The here-documents pending after a token, when `q` are pending before it. */
  function Queue(x: Token, q: seq<Heredoc>): seq<Heredoc>
    decreases x, 0
  {
    match x
    case Quoted(ys) => Pending(ys, q)
    case Subst(ys) => Pending(ys, q)
    case Group(ys) => Pending(ys, q)
    case Here(strip, _, word) => q + [Heredoc(Operator.Meaning(word), strip)]
    case Newline(_) => []
    case _ => q
  }

  function Pending(xs: seq<Token>, q: seq<Heredoc>): seq<Heredoc>
    decreases xs, 1
  {
    if xs == [] then q else Pending(xs[1..], Queue(xs[0], q))
  }

  function Last(prev: char, s: string): char {
    if s == "" then prev else s[|s| - 1]
  }

  /** The character at `i` of `w` is nothing but itself. */
  predicate Ordinary(w: string, i: nat, double: bool, prev: char)
    requires i < |w|
  {
    && w[i] != '"' && !At2(w, i, '$', '(')
    && (double ==> w[i] != '\\')
    && (!double ==>
          && w[i] != '\'' && w[i] != '(' && w[i] != ')'
          && (At2(w, i, '<', '<') ==> prev == '<' || At3(w, i, '<', '<', '<'))
          && (w[i] == '#' ==> !IsSpace(prev) && !IsOperator(prev)))
  }

  /** From `depth` open parentheses on, `s` closes the last of them with its last character. */
  predicate ClosesAt(s: string, depth: nat) {
    if s == "" then depth == 0 else
    depth > 0 && ClosesAt(s[1..], if s[0] == '(' then depth + 1 else if s[0] == ')' then depth - 1 else depth)
  }

  predicate IsLine(s: string) {
    s != "" && IsBreak(s[|s| - 1]) && NoBreak(s[..|s| - 1])
  }

  /** The lines of a here-document do not end it, and the last one does. Only at the end of the text
      may the last one lack its newline. */
  predicate WellBody(b: Body, h: Heredoc, final: bool) {
    && (forall l :: l in b.lines ==> IsLine(l) && !Closes(l, h))
    && Closes(b.last, h) && b.last != "" && (IsLine(b.last) || (final && NoBreak(b.last)))
  }

  predicate WellBodies(bodies: seq<Body>, q: seq<Heredoc>, rest: string) {
    if bodies == [] || q == [] then bodies == [] && q == [] else
    && WellBody(bodies[0], q[0], |bodies| == 1 && rest == "")
    && WellBodies(bodies[1..], q[1..], rest)
  }

  /** `x` may stand in double quotes or outside them, inside substitutions or outside them, after
      the character `prev`, while `q` are pending, and before `rest`. */
  predicate WellToken(x: Token, double: bool, nested: bool, prev: char, q: seq<Heredoc>, rest: string)
    decreases x, 0
  {
    match x
    case Plain(s) =>
      && s != "" && (q != [] ==> NoBreak(s))
      && forall i :: 0 <= i < |s| ==> Ordinary(s + rest, i, double, Last(prev, s[..i]))
    case InSingle(s) => !double && Absent(s, '\'') && (q != [] ==> NoBreak(s))
    case Quoted(ys) => !double && Well(ys, true, nested, '"', q, ['"'] + rest)
    case Escaped(c) => double && (q != [] ==> !IsBreak(c))
    case Subst(ys) => Well(ys, false, true, '(', q, [')'] + rest) && (Print(ys) != "" ==> Print(ys)[0] != '(')
    case Group(ys) => !double && Well(ys, false, nested, '(', q, [')'] + rest)
      && (Print(ys) != "" ==> Print(ys)[0] != '(')
    case Stray => !double && !nested
    case Arith(dollar, s) => (double ==> dollar) && ClosesAt(s, 2) && (q != [] ==> NoBreak(s))
    case Here(strip, blanks, word) =>
      && !double && prev != '<' && NoBreak(Operator.PrintOperator(strip, blanks, word))
      && (forall i :: 0 <= i < |blanks| ==> IsBlank(blanks[i]))
      && Operator.WellFormed(word) && Operator.Meaning(word) != ""
      && (Operator.Print(word) != "" && Operator.Print(word)[0] == '-' ==> strip || blanks != "")
      && (rest != "" ==> EndsWord(rest[0]))
    case Newline(bodies) => WellBodies(bodies, q, rest)
    case Hash(s) =>
      && !double && (IsSpace(prev) || IsOperator(prev))
      && NoBreak(s) && (rest != "" ==> rest[0] == '\n')
  }

  predicate Well(xs: seq<Token>, double: bool, nested: bool, prev: char, q: seq<Heredoc>, rest: string)
    decreases xs, 1
  {
    && (q != [] ==> !IsBreak(prev))
    && (xs == [] ||
        (&& WellToken(xs[0], double, nested, prev, q, Print(xs[1..]) + rest)
         && Well(xs[1..], double, nested, Last(prev, PrintToken(xs[0])), Queue(xs[0], q), rest)))
  }

  /** A whole script: it starts unquoted, at the start of a line, and nothing follows it. */
  predicate WellFormed(xs: seq<Token>) {
    Well(xs, false, false, '\n', [], "")
  }

  // ----- The comments among the tokens -----

  predicate IsShebang(s: string, p: nat) { p == 0 && s != "" && s[0] == '!' }

  function TokenSpan(x: Token, p: nat): seq<Span>
    decreases x, 0
  {
    match x
    case Quoted(ys) => TokenSpans(ys, p + 1)
    case Subst(ys) => TokenSpans(ys, p + 2)
    case Group(ys) => TokenSpans(ys, p + 1)
    case Hash(s) => if IsShebang(s, p) then [] else [Span(p, p + (|s| + 1), HashLine, None)]
    case _ => []
  }

  /** Where the comments of a printed token list are when printing starts at `p`. */
  function TokenSpans(xs: seq<Token>, p: nat): seq<Span>
    decreases xs, 1
  {
    if xs == [] then [] else TokenSpan(xs[0], p) + TokenSpans(xs[1..], p + |PrintToken(xs[0])|)
  }

  // ----- Single characters -----

  /** What the lexer looks at just before `p`. */
  function Before(t: string, p: nat): char
    requires p <= |t|
  {
    if p == 0 then '\n' else t[p - 1]
  }

  /** The lexer is not at a line of a here-document. */
  predicate Away(t: string, p: nat, st: State)
    requires p <= |t|
  {
    st.heredocs != [] ==> !IsBreak(Before(t, p))
  }

  lemma AwayLex(t: string, p: nat, st: State)
    requires p < |t| && Away(t, p, st)
    ensures !(st.heredocs != [] && LineStart(t, p))
  {
  }

  lemma BeforeIs(t: string, p: nat, w: string, rest: string)
    requires Reads(t, p, w, rest)
    ensures p + |w| <= |t| && Before(t, p + |w|) == Last(Before(t, p), w)
  {
    if w != "" { assert t[p + (|w| - 1)] == w[|w| - 1]; }
  }

  lemma LineEndPast(t: string, p: nat)
    requires p < |t| && !IsBreak(t[p])
    ensures LineEnd(t, p) == LineEnd(t, p + 1)
  {
  }

  /** `<<` that is part of `<<<` is no operator. */
  lemma NoOperator(t: string, p: nat)
    requires p < |t|
    requires At2(t, p, '<', '<') ==> Before(t, p) == '<' || At3(t, p, '<', '<', '<')
    ensures OperatorAt(t, p) == None
  {
    hide IsBreak, Word, SkipBlanks;
    if At3(t, p, '<', '<', '<') {
      NoAngleBreak();
      LineEndPast(t, p);
      LineEndPast(t, p + 1);
      assert p + 3 <= LineEnd(t, p + 2);
    }
  }

  lemma NoAngleBreak()
    ensures !IsBreak('<')
  {
  }

  lemma OrdinaryMoves(t: string, p: nat, st: State, double: bool)
    requires p < |t| && Away(t, p, st) && st.arithmetic == 0 && st.quote == (if double then Double else Unquoted)
    requires Ordinary(t, p, double, Before(t, p))
    ensures Lex(t, p, st) == Move(p + 1, st, [])
  {
    hide OperatorAt;
    AwayLex(t, p, st);
    if !double {
      NoOperator(t, p);
    }
  }

  lemma AtSame(t: string, p: nat, w: string, i: nat)
    requires p <= |t| && t[p..] == w && i < |w|
    ensures t[p + i] == w[i]
    ensures At2(t, p + i, '<', '<') == At2(w, i, '<', '<') && At2(t, p + i, '$', '(') == At2(w, i, '$', '(')
    ensures At3(t, p + i, '<', '<', '<') == At3(w, i, '<', '<', '<')
  {
  }

  lemma OrdinarySame(t: string, p: nat, w: string, i: nat, double: bool, prev: char)
    requires p <= |t| && t[p..] == w && i < |w| && Ordinary(w, i, double, prev)
    ensures Ordinary(t, p + i, double, prev)
  {
    AtSame(t, p, w, i);
  }

  // ----- Reading back: tokens without parts -----

  /** The lexer is outside arithmetic, in double quotes or unquoted, each open substitution still open,
      and not at a line of a here-document. */
  predicate Ready(t: string, p: nat, st: State, double: bool)
    requires p <= |t|
  {
    && st.arithmetic == 0 && st.quote == (if double then Double else Unquoted)
    && (st.substitutions != [] ==> st.substitutions[|st.substitutions| - 1].1 >= 1)
    && Away(t, p, st)
  }

  lemma Moves(t: string, p: nat, st: State, q: nat, next: State)
    requires p < |t| && Lex(t, p, st) == Move(q, next, [])
    ensures Spans(t, p, st) == Spans(t, q, next)
  {
    hide Lex;
    SpansNext(t, p, st);
  }

  /** Inside a token nothing but a line break can start a here-document's line. */
  lemma ReadyOn(t: string, p: nat, s: string, rest: string, i: nat, st: State, double: bool)
    requires Reads(t, p, s, rest) && i <= |s| && p <= |t| && Ready(t, p, st, double)
    requires st.heredocs != [] ==> NoBreak(s)
    ensures p + i <= |t| && Ready(t, p + i, st, double) && Before(t, p + i) == Last(Before(t, p), s[..i])
  {
    if i > 0 { assert t[p + (i - 1)] == s[i - 1]; }
  }

  lemma PlainMoves(t: string, p: nat, s: string, rest: string, i: nat, double: bool, st: State)
    requires Reads(t, p, s, rest) && i < |s| && p <= |t| && Ready(t, p, st, double)
    requires st.heredocs != [] ==> NoBreak(s)
    requires Ordinary(s + rest, i, double, Last(Before(t, p), s[..i]))
    ensures Spans(t, p + i, st) == Spans(t, p + i + 1, st)
  {
    hide *;
    ReadyOn(t, p, s, rest, i, st, double);
    ReadsTail(t, p, s, rest);
    OrdinarySame(t, p, s + rest, i, double, Last(Before(t, p), s[..i]));
    ReadyIs(t, p + i, st, double);
    OrdinaryMoves(t, p + i, st, double);
    Moves(t, p + i, st, p + i + 1, st);
  }

  lemma ReadyIs(t: string, p: nat, st: State, double: bool)
    requires p <= |t| && Ready(t, p, st, double)
    ensures Away(t, p, st) && st.arithmetic == 0 && st.quote == (if double then Double else Unquoted)
  {
  }

  lemma {:induction false} PlainBack(t: string, p: nat, s: string, rest: string, i: nat, double: bool, st: State)
    requires Reads(t, p, s, rest) && i <= |s| && p <= |t| && Ready(t, p, st, double)
    requires st.heredocs != [] ==> NoBreak(s)
    requires forall j :: 0 <= j < |s| ==> Ordinary(s + rest, j, double, Last(Before(t, p), s[..j]))
    ensures Spans(t, p + i, st) == Spans(t, p + |s|, st)
    decreases |s| - i
  {
    hide *;
    if i < |s| {
      PlainMoves(t, p, s, rest, i, double, st);
      PlainBack(t, p, s, rest, i + 1, double, st);
    }
  }

  lemma SingleMoves(t: string, p: nat, st: State)
    requires p < |t| && Away(t, p, st) && st.arithmetic == 0 && st.quote == Single
    ensures Lex(t, p, st) == Move(p + 1, if t[p] == '\'' then st.(quote := Unquoted) else st, [])
  {
    AwayLex(t, p, st);
  }

  lemma {:induction false} SingleBack(t: string, p: nat, s: string, rest: string, st: State)
    requires Reads(t, p, s + "'", rest) && p <= |t| && Away(t, p, st) && st.arithmetic == 0 && st.quote == Single
    requires Absent(s, '\'') && (st.heredocs != [] ==> NoBreak(s))
    ensures Spans(t, p, st) == Spans(t, p + |s| + 1, st.(quote := Unquoted))
    decreases |s|
  {
    hide Spans, Lex, IsBreak;
    var w := s + "'";
    ReadsFirst(t, p, w, rest);
    SingleMoves(t, p, st);
    if s == "" {
      Moves(t, p, st, p + 1, st.(quote := Unquoted));
    } else {
      assert w == [s[0]] + (s[1..] + "'");
      ReadsChar(t, p, s[0], s[1..] + "'", rest);
      Moves(t, p, st, p + 1, st);
      SingleBack(t, p + 1, s[1..], rest, st);
    }
  }

  lemma ArithMoves(t: string, p: nat, st: State)
    requires p < |t| && Away(t, p, st) && st.arithmetic > 0
    ensures Lex(t, p, st) == LexArithmetic(t, p, st)
  {
    AwayLex(t, p, st);
  }

  lemma {:induction false} ArithBack(t: string, p: nat, s: string, rest: string, st: State)
    requires Reads(t, p, s, rest) && p <= |t| && Away(t, p, st) && ClosesAt(s, st.arithmetic)
    requires st.heredocs != [] ==> NoBreak(s)
    ensures Spans(t, p, st) == Spans(t, p + |s|, st.(arithmetic := 0))
    decreases |s|
  {
    hide Spans, Lex, IsBreak;
    if s != "" {
      assert s == [s[0]] + s[1..];
      ReadsChar(t, p, s[0], s[1..], rest);
      ArithMoves(t, p, st);
      var next := LexArithmetic(t, p, st).state;
      Moves(t, p, st, p + 1, next);
      ArithBack(t, p + 1, s[1..], rest, next);
    }
  }

  // ----- Here-documents -----

  lemma {:induction false} LineEndFar(t: string, p: nat, w: string, rest: string)
    requires Reads(t, p, w, rest) && NoBreak(w)
    ensures p + |w| <= LineEnd(t, p) == LineEnd(t, p + |w|)
    decreases |w|
  {
    if w != "" {
      assert w == [w[0]] + w[1..];
      ReadsChar(t, p, w[0], w[1..], rest);
      LineEndFar(t, p + 1, w[1..], rest);
    }
  }

  lemma ReadsCut(t: string, p: nat, w: string, rest: string, e: nat)
    requires Reads(t, p, w, rest) && p + |w| <= e <= |t|
    ensures e - p - |w| <= |rest| && Reads(t[..e], p, w, rest[..e - p - |w|])
  {
  }

  lemma HereMoves(t: string, p: nat, st: State, h: Heredoc, end: nat)
    requires p < |t| && Ready(t, p, st, false) && OperatorAt(t, p) == Some((h, end)) && t[p] == '<'
    ensures Lex(t, p, st) == Move(end, st.(heredocs := st.heredocs + [h]), [])
  {
    hide OperatorAt;
    AwayLex(t, p, st);
  }

  lemma HereBack(t: string, p: nat, x: Token, rest: string, st: State, nested: bool)
    requires x.Here? && Reads(t, p, PrintToken(x), rest) && p <= |t| && Ready(t, p, st, false)
    requires WellToken(x, false, nested, Before(t, p), st.heredocs, rest)
    ensures Spans(t, p, st) == Spans(t, p + |PrintToken(x)|, st.(heredocs := Queue(x, st.heredocs)))
  {
    hide Spans, Lex, IsBreak, LineEnd, Reads, Ready, Operator.WellFormed, Operator.Meaning, Operator.Print, EndsWord,
         NoBreak, ParseHeredoc, IsBlank, Operator.PrintOperator;
    var w, e := Operator.PrintOperator(x.strip, x.blanks, x.word), LineEnd(t, p);
    LineEndFar(t, p, w, rest);
    ReadsCut(t, p, w, rest, e);
    var cut := rest[..e - p - |w|];
    assert cut != "" ==> cut[0] == rest[0];
    Operator.OperatorBack(t[..e], p, x.strip, x.blanks, x.word, cut);
    var h := Heredoc(Operator.Meaning(x.word), x.strip);
    OperatorFirst(x.strip, x.blanks, x.word);
    ReadsFirst(t, p, w, rest);
    HereMoves(t, p, st, h, p + |w|);
    Moves(t, p, st, p + |w|, st.(heredocs := st.heredocs + [h]));
  }

  lemma OperatorFirst(strip: bool, blanks: string, word: seq<Operator.Piece>)
    ensures Operator.PrintOperator(strip, blanks, word) != "" && Operator.PrintOperator(strip, blanks, word)[0] == '<'
  {
  }

  /** A line of a here-document: `l` is a whole line, or the last one. */
  lemma BodyLine(t: string, p: nat, l: string, rest: string, st: State)
    requires Reads(t, p, l, rest) && l != "" && (IsLine(l) || (NoBreak(l) && rest == ""))
    requires p <= |t| && st.heredocs != [] && LineStart(t, p)
    ensures Spans(t, p, st)
         == Spans(t, p + |l|, if Closes(l, st.heredocs[0]) then st.(heredocs := st.heredocs[1..]) else st)
    ensures p + |l| <= |t| && (IsLine(l) ==> LineStart(t, p + |l|))
  {
    hide Spans, Closes;
    ReadsSlice(t, p, l, rest);
    forall i | p <= i < p + |l| - 1 ensures !IsBreak(t[i]) {
      assert t[p + (i - p)] == l[i - p];
      if IsLine(l) { assert l[i - p] == l[..|l| - 1][i - p]; }
    }
    assert t[p + (|l| - 1)] == l[|l| - 1];
    LineEndReach(t, p, p + |l|);
    SpansNext(t, p, st);
  }

  lemma {:induction false} LinesBack(t: string, p: nat, lines: seq<string>, rest: string, st: State)
    requires Reads(t, p, Join(lines), rest) && p <= |t| && st.heredocs != [] && LineStart(t, p)
    requires forall l :: l in lines ==> IsLine(l) && !Closes(l, st.heredocs[0])
    ensures Spans(t, p, st) == Spans(t, p + |Join(lines)|, st)
    ensures p + |Join(lines)| <= |t| && LineStart(t, p + |Join(lines)|)
    decreases |lines|
  {
    hide Spans, Closes, Reads, LineStart, IsLine;
    if lines != [] {
      var l := lines[0];
      assert l in lines;
      ReadsAppend(t, p, l, Join(lines[1..]), rest);
      LineNotEmpty(l);
      BodyLine(t, p, l, Join(lines[1..]) + rest, st);
      LinesBack(t, p + |l|, lines[1..], rest, st);
    }
  }

  lemma LineNotEmpty(l: string)
    requires IsLine(l)
    ensures l != ""
  {
  }

  lemma BodyBack(t: string, p: nat, b: Body, rest: string, st: State)
    requires Reads(t, p, Join(b.lines) + b.last, rest) && p <= |t| && st.heredocs != [] && LineStart(t, p)
    requires WellBody(b, st.heredocs[0], rest == "")
    ensures Spans(t, p, st) == Spans(t, p + |Join(b.lines)| + |b.last|, st.(heredocs := st.heredocs[1..]))
    ensures var e := p + |Join(b.lines)| + |b.last|; e <= |t| && (rest != "" ==> LineStart(t, e))
  {
    hide Spans, Closes, Reads, LineStart, IsLine, Join, NoBreak;
    ReadsAppend(t, p, Join(b.lines), b.last, rest);
    LinesBack(t, p, b.lines, b.last + rest, st);
    BodyLine(t, p + |Join(b.lines)|, b.last, rest, st);
  }

  lemma BodiesStep(bodies: seq<Body>, q: seq<Heredoc>, rest: string)
    requires WellBodies(bodies, q, rest)
    ensures bodies == [] ==> q == [] && PrintBodies(bodies) == ""
    ensures bodies != [] ==>
              && q != [] && WellBody(bodies[0], q[0], PrintBodies(bodies[1..]) + rest == "")
                && WellBodies(bodies[1..], q[1..], rest)
              && PrintBodies(bodies) == (Join(bodies[0].lines) + bodies[0].last) + PrintBodies(bodies[1..])
              && (PrintBodies(bodies[1..]) == "" ==> q[1..] == [])
  {
    hide Closes, IsLine, NoBreak, Join;
    if bodies != [] {
      Assoc(Join(bodies[0].lines), bodies[0].last, PrintBodies(bodies[1..]));
      if |bodies| > 1 { assert bodies[1].last != ""; }
    }
  }

  lemma {:induction false} BodiesBack(t: string, p: nat, bodies: seq<Body>, rest: string, st: State)
    requires Reads(t, p, PrintBodies(bodies), rest) && p <= |t| && LineStart(t, p)
    requires WellBodies(bodies, st.heredocs, rest)
    ensures Spans(t, p, st) == Spans(t, p + |PrintBodies(bodies)|, st.(heredocs := []))
    decreases |bodies|
  {
    hide *;
    BodiesStep(bodies, st.heredocs, rest);
    if bodies != [] {
      var b, more, next := bodies[0], PrintBodies(bodies[1..]), st.(heredocs := st.heredocs[1..]);
      var w := Join(b.lines) + b.last;
      ReadsAppend(t, p, w, more, rest);
      BodyBack(t, p, b, more + rest, st);
      if more + rest != "" {
        BodiesBack(t, p + |w|, bodies[1..], rest, next);
      }
    }
  }

  lemma NewlineMoves(t: string, p: nat, st: State, double: bool)
    requires p < |t| && Ready(t, p, st, double) && t[p] == '\n'
    ensures Lex(t, p, st) == Move(p + 1, st, []) && LineStart(t, p + 1)
  {
    AwayLex(t, p, st);
    if !double { NoOperator(t, p); }
  }

  lemma NewlineBack(t: string, p: nat, bodies: seq<Body>, rest: string, st: State, double: bool)
    requires Reads(t, p, ['\n'] + PrintBodies(bodies), rest) && p <= |t| && Ready(t, p, st, double)
    requires WellBodies(bodies, st.heredocs, rest)
    ensures Spans(t, p, st) == Spans(t, p + (1 + |PrintBodies(bodies)|), st.(heredocs := []))
  {
    hide *;
    ReadsChar(t, p, '\n', PrintBodies(bodies), rest);
    NewlineMoves(t, p, st, double);
    Moves(t, p, st, p + 1, st);
    BodiesBack(t, p + 1, bodies, rest, st);
  }

  // ----- Comments -----

  lemma HashMoves(t: string, p: nat, st: State, e: nat)
    requires p < |t| && Ready(t, p, st, false) && t[p] == '#' && e == LineEnd(t, p)
    requires IsSpace(Before(t, p)) || IsOperator(Before(t, p))
    ensures Lex(t, p, st) == Move(e, st, if Shebang(t, p) then [] else [CommentSpan(t, p)])
  {
    hide CommentSpan, LineEnd;
    AwayLex(t, p, st);
    NoOperator(t, p);
  }

  lemma HashBack(t: string, p: nat, s: string, rest: string, st: State)
    requires Reads(t, p, ['#'] + s, rest) && p <= |t| && Ready(t, p, st, false)
    requires NoBreak(s) && (rest != "" ==> rest[0] == '\n') && (IsSpace(Before(t, p)) || IsOperator(Before(t, p)))
    ensures Spans(t, p, st) == TokenSpan(Hash(s), p) + Spans(t, p + (|s| + 1), st)
  {
    hide Spans, Lex, IsBreak, LineEnd, IsSpace, IsOperator, LineCommentEnd, Ready, Reads;
    ReadsChar(t, p, '#', s, rest);
    HashNoBreak();
    CommentEnd(t, p, ['#'] + s, rest);
    HashMoves(t, p, st, LineEnd(t, p));
    if s != "" { ReadsFirst(t, p + 1, s, rest); } else { NoMore(t, p + 1, rest); }
    var e := p + (|s| + 1);
    SpansNext(t, p, st);
    if rest != "" {
      ReadyAt(t, p, e, st);
      NewlineMoves(t, e, st, false);
      Moves(t, e, st, e + 1, st);
    }
  }

  lemma ReadyAt(t: string, p: nat, q: nat, st: State)
    requires p <= |t| && q <= |t| && Ready(t, p, st, false) && !IsBreak(Before(t, q))
    ensures Ready(t, q, st, false)
  {
  }

  lemma HashNoBreak()
    ensures !IsBreak('#')
  {
  }

  lemma NoMore(t: string, p: nat, rest: string)
    requires Reads(t, p, "", rest) && (rest != "" ==> rest[0] == '\n')
    ensures p < |t| ==> t[p] == '\n'
  {
    if rest != "" { assert t[p + 0 + 0] == rest[0]; }
  }

  // ----- Openers and closers -----

  /** A single character outside double quotes. */
  lemma UnquotedMoves(t: string, p: nat, st: State)
    requires p < |t| && Ready(t, p, st, false) && !At2(t, p, '(', '(')
    ensures t[p] == '\'' ==> Lex(t, p, st) == Move(p + 1, st.(quote := Single), [])
    ensures t[p] == '"' ==> Lex(t, p, st) == Move(p + 1, st.(quote := Double), [])
    ensures t[p] == '(' ==> Lex(t, p, st) == Move(p + 1, Opened(st), [])
    ensures t[p] == ')' ==> Lex(t, p, st) == Move(p + 1, Closed(st), [])
  {
    AwayLex(t, p, st);
    hide OpenParen, CloseParen;
    if t[p] != '<' { NoOperator(t, p); }
  }

  /** A parenthesis counts only inside a substitution. */
  function Opened(st: State): State {
    if st.substitutions == [] then st else OpenParen(st)
  }

  function Closed(st: State): State {
    if st.substitutions == [] then st else CloseParen(st)
  }

  function Inside(st: State): State {
    st.(quote := Unquoted, substitutions := st.substitutions + [(st.quote, 1)])
  }

  lemma GroupRestores(st: State, q: seq<Heredoc>)
    requires st.substitutions != [] ==> st.substitutions[|st.substitutions| - 1].1 >= 1
    ensures Closed(Opened(st).(heredocs := q)) == st.(heredocs := q)
    ensures Opened(st).substitutions != [] <==> st.substitutions != []
    ensures st.substitutions != [] ==> Opened(st).substitutions[|Opened(st).substitutions| - 1].1 >= 1
    ensures Opened(st).(substitutions := []) == st.(substitutions := [])
  {
  }

  lemma SubstRestores(st: State, q: seq<Heredoc>)
    ensures Closed(Inside(st).(heredocs := q)) == st.(heredocs := q)
  {
    assert (st.substitutions + [(st.quote, 1)])[..|st.substitutions|] == st.substitutions;
  }

  lemma DoubleMoves(t: string, p: nat, st: State)
    requires p < |t| && Ready(t, p, st, true)
    ensures t[p] == '\\' ==> Lex(t, p, st) == Move(p + 2, st, [])
    ensures t[p] == '"' ==> Lex(t, p, st) == Move(p + 1, st.(quote := Unquoted), [])
  {
    AwayLex(t, p, st);
  }

  lemma DollarMoves(t: string, p: nat, st: State, double: bool)
    requires p < |t| && Ready(t, p, st, double) && At2(t, p, '$', '(')
    ensures At3(t, p, '$', '(', '(') ==> Lex(t, p, st) == Move(p + 3, st.(arithmetic := 2), [])
    ensures !At3(t, p, '$', '(', '(') ==> Lex(t, p, st) == Move(p + 2, Inside(st), [])
  {
    AwayLex(t, p, st);
  }

  lemma ParenMoves(t: string, p: nat, st: State)
    requires p < |t| && Ready(t, p, st, false) && At2(t, p, '(', '(')
    ensures Lex(t, p, st) == Move(p + 2, st.(arithmetic := 2), [])
  {
    AwayLex(t, p, st);
  }

  lemma NoBreaks()
    ensures !IsBreak('"') && !IsBreak('(') && !IsBreak(')') && !IsBreak('\'')
  {
  }

  // ----- Reading back: leaves -----

  lemma InSingleBack(t: string, p: nat, s: string, rest: string, st: State)
    requires Reads(t, p, PrintToken(InSingle(s)), rest) && p <= |t| && Ready(t, p, st, false)
    requires Absent(s, '\'') && (st.heredocs != [] ==> NoBreak(s))
    ensures Spans(t, p, st) == Spans(t, p + (|s| + 2), st)
  {
    hide Spans, Lex, IsBreak, Reads, Absent, NoBreak;
    ReadsChar(t, p, '\'', s + "'", rest);
    UnquotedMoves(t, p, st);
    Moves(t, p, st, p + 1, st.(quote := Single));
    NoBreaks();
    SingleBack(t, p + 1, s, rest, st.(quote := Single));
    assert p + 1 + |s| + 1 == p + (|s| + 2);
  }

  lemma EscapedBack(t: string, p: nat, c: char, rest: string, st: State)
    requires Reads(t, p, PrintToken(Escaped(c)), rest) && p <= |t| && Ready(t, p, st, true)
    ensures Spans(t, p, st) == Spans(t, p + 2, st)
  {
    hide Spans, Lex, Reads, Ready;
    ReadsChar(t, p, '\\', [c], rest);
    DoubleMoves(t, p, st);
    Moves(t, p, st, p + 2, st);
  }

  lemma StrayBack(t: string, p: nat, rest: string, st: State)
    requires Reads(t, p, ")", rest) && p <= |t| && Ready(t, p, st, false) && st.substitutions == []
    ensures Spans(t, p, st) == Spans(t, p + 1, st)
  {
    hide Spans, Lex, Reads, Ready;
    ReadsFirst(t, p, ")", rest);
    UnquotedMoves(t, p, st);
    Moves(t, p, st, p + 1, st);
  }

  lemma ArithmeticBack(t: string, p: nat, dollar: bool, s: string, rest: string, st: State, double: bool)
    requires Reads(t, p, PrintToken(Arith(dollar, s)), rest) && p <= |t| && Ready(t, p, st, double)
    requires (double ==> dollar) && ClosesAt(s, 2) && (st.heredocs != [] ==> NoBreak(s))
    ensures Spans(t, p, st) == Spans(t, p + |PrintToken(Arith(dollar, s))|, st)
  {
    hide Spans, Lex, Reads, ClosesAt, NoBreak, IsBreak;
    var q := if dollar then p + 1 else p;
    if dollar { ReadsChar(t, p, '$', ['('] + (['('] + s), rest); }
    ReadsChar(t, q, '(', ['('] + s, rest);
    ReadsChar(t, q + 1, '(', s, rest);
    if dollar { DollarMoves(t, p, st, double); } else { ParenMoves(t, p, st); }
    Moves(t, p, st, q + 2, st.(arithmetic := 2));
    NoBreaks();
    ReadsIn(t, q + 2, s, rest);
    ArithBack(t, q + 2, s, rest, st.(arithmetic := 2));
    assert p + |PrintToken(Arith(dollar, s))| == q + 2 + |s|;
  }

  // ----- Reading back: tokens with parts -----

  lemma QuotedBack(t: string, p: nat, ys: seq<Token>, rest: string, st: State)
    requires Reads(t, p, PrintToken(Quoted(ys)), rest) && p <= |t| && Ready(t, p, st, false)
    requires Well(ys, true, st.substitutions != [], '"', st.heredocs, ['"'] + rest)
    ensures Spans(t, p, st)
         == TokenSpans(ys, p + 1) + Spans(t, p + (|Print(ys)| + 2), st.(heredocs := Pending(ys, st.heredocs)))
    decreases ys, 2
  {
    hide *;
    PartPrints(ys);
    ReadsChar(t, p, '"', Print(ys) + "\"", rest);
    ReadsAppend(t, p + 1, Print(ys), "\"", rest);
    FromUnquoted(t, p, st);
    var inside, after := st.(quote := Double), st.(heredocs := Pending(ys, st.heredocs));
    Moves(t, p, st, p + 1, inside);
    ReadyPart(t, p, p + 1, st, inside, false);
    TokensBack(t, p + 1, ys, ['"'] + rest, inside, true);
    var e := p + 1 + |Print(ys)|;
    ReadsFirst(t, e, "\"", rest);
    DoubleMoves(t, e, inside.(heredocs := Pending(ys, st.heredocs)));
    UnquotedIs(t, p, st);
    Moves(t, e, inside.(heredocs := Pending(ys, st.heredocs)), e + 1, after);
  }

  lemma SubstBack(t: string, p: nat, ys: seq<Token>, rest: string, st: State, double: bool)
    requires Reads(t, p, PrintToken(Subst(ys)), rest) && p <= |t| && Ready(t, p, st, double)
    requires Well(ys, false, true, '(', st.heredocs, [')'] + rest) && (Print(ys) != "" ==> Print(ys)[0] != '(')
    ensures Spans(t, p, st)
         == TokenSpans(ys, p + 2) + Spans(t, p + (|Print(ys)| + 3), st.(heredocs := Pending(ys, st.heredocs)))
    decreases ys, 2
  {
    hide *;
    PartPrints(ys);
    ReadsChar(t, p, '$', ['('] + (Print(ys) + ")"), rest);
    ReadsChar(t, p + 1, '(', Print(ys) + ")", rest);
    ReadsFirst(t, p + 2, Print(ys) + ")", rest);
    ReadsAppend(t, p + 2, Print(ys), ")", rest);
    var inside, q := Inside(st), Pending(ys, st.heredocs);
    InsideIs(st);
    AtIs(t, p);
    DollarMoves(t, p, st, double);
    Moves(t, p, st, p + 2, inside);
    ReadyPart(t, p, p + 2, st, inside, double);
    TokensBack(t, p + 2, ys, [')'] + rest, inside, false);
    var e := p + 2 + |Print(ys)|;
    ReadsFirst(t, e, ")", rest);
    AtIs(t, e);
    UnquotedMoves(t, e, inside.(heredocs := q));
    SubstRestores(st, q);
    Moves(t, e, inside.(heredocs := q), e + 1, st.(heredocs := q));
  }

  lemma GroupBack(t: string, p: nat, ys: seq<Token>, rest: string, st: State)
    requires Reads(t, p, PrintToken(Group(ys)), rest) && p <= |t| && Ready(t, p, st, false)
    requires Well(ys, false, st.substitutions != [], '(', st.heredocs, [')'] + rest)
    requires Print(ys) != "" ==> Print(ys)[0] != '('
    ensures Spans(t, p, st)
         == TokenSpans(ys, p + 1) + Spans(t, p + (|Print(ys)| + 2), st.(heredocs := Pending(ys, st.heredocs)))
    decreases ys, 2
  {
    hide *;
    PartPrints(ys);
    ReadsChar(t, p, '(', Print(ys) + ")", rest);
    ReadsFirst(t, p + 1, Print(ys) + ")", rest);
    ReadsAppend(t, p + 1, Print(ys), ")", rest);
    var inside, q := Opened(st), Pending(ys, st.heredocs);
    OpenedIs(st);
    UnquotedIs(t, p, st);
    AtIs(t, p);
    UnquotedMoves(t, p, st);
    Moves(t, p, st, p + 1, inside);
    ReadyStack(t, p, st, false);
    GroupRestores(st, q);
    ReadyPart(t, p, p + 1, st, inside, false);
    TokensBack(t, p + 1, ys, [')'] + rest, inside, false);
    var e := p + 1 + |Print(ys)|;
    ReadsFirst(t, e, ")", rest);
    AtIs(t, e);
    UnquotedMoves(t, e, inside.(heredocs := q));
    Moves(t, e, inside.(heredocs := q), e + 1, st.(heredocs := q));
  }

  lemma PartPrints(ys: seq<Token>)
    ensures PrintToken(Quoted(ys)) == ['"'] + (Print(ys) + "\"")
    ensures PrintToken(Subst(ys)) == ['$'] + (['('] + (Print(ys) + ")"))
    ensures PrintToken(Group(ys)) == ['('] + (Print(ys) + ")")
  {
  }

  lemma AtIs(t: string, p: nat)
    ensures At2(t, p, '(', '(') <==> p + 1 < |t| && t[p] == '(' && t[p + 1] == '('
    ensures At2(t, p, '$', '(') <==> p + 1 < |t| && t[p] == '$' && t[p + 1] == '('
    ensures At3(t, p, '$', '(', '(') <==> p + 2 < |t| && t[p] == '$' && t[p + 1] == '(' && t[p + 2] == '('
  {
  }

  lemma InsideIs(st: State)
    ensures var i := Inside(st);
            && i.quote == Unquoted && i.arithmetic == st.arithmetic && i.heredocs == st.heredocs
            && i.substitutions != [] && i.substitutions[|i.substitutions| - 1].1 == 1
  {
  }

  lemma OpenedIs(st: State)
    ensures var i := Opened(st); i.quote == st.quote && i.arithmetic == st.arithmetic && i.heredocs == st.heredocs
  {
  }

  lemma UnquotedIs(t: string, p: nat, st: State)
    requires p <= |t| && Ready(t, p, st, false)
    ensures st.quote == Unquoted
  {
  }

  lemma ReadyStack(t: string, p: nat, st: State, double: bool)
    requires p <= |t| && Ready(t, p, st, double)
    ensures st.substitutions != [] ==> st.substitutions[|st.substitutions| - 1].1 >= 1
  {
  }

  lemma FromUnquoted(t: string, p: nat, st: State)
    requires p < |t| && Ready(t, p, st, false) && t[p] == '"'
    ensures Lex(t, p, st) == Move(p + 1, st.(quote := Double), [])
  {
    hide Lex, Ready;
    UnquotedMoves(t, p, st);
  }

  /** Just after an opener. */
  lemma ReadyPart(t: string, p: nat, q: nat, st: State, inside: State, double: bool)
    requires p <= |t| && Ready(t, p, st, double) && 0 < q <= |t| && (t[q - 1] == '"' || t[q - 1] == '(')
    requires inside.heredocs == st.heredocs && inside.arithmetic == st.arithmetic
    requires inside.substitutions == st.substitutions
             || (inside.substitutions != [] && inside.substitutions[|inside.substitutions| - 1].1 >= 1)
    requires inside.quote != Single
    ensures Ready(t, q, inside, inside.quote == Double) && Before(t, q) == t[q - 1]
  {
    NoBreaks();
  }

  lemma TokenBack(t: string, p: nat, x: Token, rest: string, st: State, double: bool)
    requires Reads(t, p, PrintToken(x), rest) && p <= |t| && Ready(t, p, st, double)
    requires WellToken(x, double, st.substitutions != [], Before(t, p), st.heredocs, rest)
    ensures Spans(t, p, st) == TokenSpan(x, p) + Spans(t, p + |PrintToken(x)|, st.(heredocs := Queue(x, st.heredocs)))
    decreases x, 0
  {
    hide Spans, Lex, Reads, Ready, Before, Ordinary, Absent, NoBreak, ClosesAt, IsSpace, IsOperator, Well, WellBodies,
         Print, TokenSpans, Pending, Operator.PrintOperator, Operator.WellFormed, Operator.Meaning, Operator.Print,
         IsBlank, EndsWord, PrintBodies;
    match x {
      case Plain(s) => PlainBack(t, p, s, rest, 0, double, st);
      case InSingle(s) => InSingleBack(t, p, s, rest, st);
      case Quoted(ys) => QuotedBack(t, p, ys, rest, st);
      case Escaped(c) => EscapedBack(t, p, c, rest, st);
      case Subst(ys) => SubstBack(t, p, ys, rest, st, double);
      case Group(ys) => GroupBack(t, p, ys, rest, st);
      case Stray => StrayBack(t, p, rest, st);
      case Arith(dollar, s) => ArithmeticBack(t, p, dollar, s, rest, st, double);
      case Here(_, _, _) => HereBack(t, p, x, rest, st, st.substitutions != []);
      case Newline(bodies) => NewlineBack(t, p, bodies, rest, st, double);
      case Hash(s) => HashBack(t, p, s, rest, st);
    }
  }

  lemma TokensStep(xs: seq<Token>, double: bool, nested: bool, prev: char, q: seq<Heredoc>, rest: string)
    requires Well(xs, double, nested, prev, q, rest)
    ensures q != [] ==> !IsBreak(prev)
    ensures xs == [] ==> Print(xs) == "" && Pending(xs, q) == q && forall p: nat :: TokenSpans(xs, p) == []
    ensures xs != [] ==>
              && WellToken(xs[0], double, nested, prev, q, Print(xs[1..]) + rest)
              && Well(xs[1..], double, nested, Last(prev, PrintToken(xs[0])), Queue(xs[0], q), rest)
              && Print(xs) == PrintToken(xs[0]) + Print(xs[1..])
              && Pending(xs, q) == Pending(xs[1..], Queue(xs[0], q))
              && forall p: nat ::
                   TokenSpans(xs, p) == TokenSpan(xs[0], p) + TokenSpans(xs[1..], p + |PrintToken(xs[0])|)
  {
    hide WellToken, IsBreak, PrintToken, Queue, TokenSpan;
  }

  lemma ReadyNext(t: string, p: nat, q: nat, st: State, double: bool, heredocs: seq<Heredoc>)
    requires p <= |t| && Ready(t, p, st, double) && q <= |t| && (heredocs != [] ==> !IsBreak(Before(t, q)))
    ensures Ready(t, q, st.(heredocs := heredocs), double)
  {
  }

  lemma {:induction false} TokensBack(t: string, p: nat, xs: seq<Token>, rest: string, st: State, double: bool)
    requires Reads(t, p, Print(xs), rest) && p <= |t| && Ready(t, p, st, double)
    requires Well(xs, double, st.substitutions != [], Before(t, p), st.heredocs, rest)
    ensures Spans(t, p, st) == TokenSpans(xs, p) + Spans(t, p + |Print(xs)|, st.(heredocs := Pending(xs, st.heredocs)))
    ensures p + |Print(xs)| <= |t| && Ready(t, p + |Print(xs)|, st.(heredocs := Pending(xs, st.heredocs)), double)
    decreases xs, 1
  {
    hide *;
    TokensStep(xs, double, st.substitutions != [], Before(t, p), st.heredocs, rest);
    if xs == [] {
      assert st.(heredocs := st.heredocs) == st;
    } else {
      var w, more, q := PrintToken(xs[0]), Print(xs[1..]), Queue(xs[0], st.heredocs);
      var next := st.(heredocs := q);
      ReadsAppend(t, p, w, more, rest);
      TokenBack(t, p, xs[0], more + rest, st, double);
      BeforeIs(t, p, w, more + rest);
      TokensStep(xs[1..], double, st.substitutions != [], Before(t, p + |w|), q, rest);
      ReadyNext(t, p, p + |w|, st, double, q);
      TokensBack(t, p + |w|, xs[1..], rest, next, double);
      Assoc(TokenSpan(xs[0], p), TokenSpans(xs[1..], p + |w|),
            Spans(t, p + |Print(xs)|, st.(heredocs := Pending(xs, st.heredocs))));
    }
  }

  // ----- The main result -----

  /** The comments among the tokens, as they are written; a `#!` that starts the script is none. */
  function HashesOf(x: Token, first: bool): seq<string>
    decreases x, 0
  {
    match x
    case Quoted(ys) => Hashes(ys, false)
    case Subst(ys) => Hashes(ys, false)
    case Group(ys) => Hashes(ys, false)
    case Hash(s) => if first && s != "" && s[0] == '!' then [] else [['#'] + s]
    case _ => []
  }

  function Hashes(xs: seq<Token>, first: bool): seq<string>
    decreases xs, 1
  {
    if xs == [] then [] else HashesOf(xs[0], first) + Hashes(xs[1..], first && PrintToken(xs[0]) == "")
  }

  lemma {:induction false} TextsBackOf(t: string, p: nat, x: Token, rest: string)
    requires Reads(t, p, PrintToken(x), rest)
    ensures SpanTexts(t, TokenSpan(x, p)) == HashesOf(x, p == 0)
    decreases x, 0
  {
    hide Print, Hashes, TokenSpans, Reads;
    match x {
      case Quoted(ys) =>
        ReadsChar(t, p, '"', Print(ys) + "\"", rest);
        ReadsAppend(t, p + 1, Print(ys), "\"", rest);
        TextsBack(t, p + 1, ys, "\"" + rest);
      case Group(ys) =>
        ReadsChar(t, p, '(', Print(ys) + ")", rest);
        ReadsAppend(t, p + 1, Print(ys), ")", rest);
        TextsBack(t, p + 1, ys, ")" + rest);
      case Subst(ys) =>
        ReadsChar(t, p, '$', ['('] + (Print(ys) + ")"), rest);
        ReadsChar(t, p + 1, '(', Print(ys) + ")", rest);
        ReadsAppend(t, p + 2, Print(ys), ")", rest);
        TextsBack(t, p + 2, ys, ")" + rest);
      case Hash(s) =>
        ReadsIn(t, p, ['#'] + s, rest);
        ReadsSlice(t, p, ['#'] + s, rest);
      case _ =>
    }
  }

  lemma {:induction false} TextsBack(t: string, p: nat, xs: seq<Token>, rest: string)
    requires Reads(t, p, Print(xs), rest)
    ensures SpanTexts(t, TokenSpans(xs, p)) == Hashes(xs, p == 0)
    decreases xs, 1
  {
    hide PrintToken, Reads, TokenSpan, HashesOf;
    if xs != [] {
      var w := PrintToken(xs[0]);
      ReadsAppend(t, p, w, Print(xs[1..]), rest);
      TextsBackOf(t, p, xs[0], Print(xs[1..]) + rest);
      TextsBack(t, p + |w|, xs[1..], rest);
      SpanTextsAppend(t, TokenSpan(xs[0], p), TokenSpans(xs[1..], p + |w|));
    }
  }

  /** A shell comment lies on one line, in every script. */
  lemma {:induction false} CommentsOneLine(t: string, p: nat, st: State)
    ensures forall s :: s in Spans(t, p, st) ==> OneLine(t, s)
    decreases |t| - p
  {
    if p < |t| {
      hide Spans, OneLine, Lex;
      SpansNext(t, p, st);
      LexOneLine(t, p, st);
      CommentsOneLine(t, Lex(t, p, st).p, Lex(t, p, st).state);
    }
  }

  lemma LexOneLine(t: string, p: nat, st: State)
    requires p < |t|
    ensures forall s :: s in Lex(t, p, st).found ==> OneLine(t, s)
  {
    hide OperatorAt, Closes, IsSpace, IsOperator, OneLine, CommentSpan;
    if t[p] == '#' {
      CommentOneLine(t, p);
    }
  }

  lemma CommentOneLine(t: string, p: nat)
    requires p < |t| && t[p] == '#'
    ensures OneLine(t, CommentSpan(t, p))
  {
    hide LineEnd;
    StripKeeps(t[p..LineEnd(t, p)]);
  }

  /** Main result: in a printed script the scanner reports exactly the comments among the tokens,
      each at its place and with its text, whatever the nesting of quotes, substitutions, groups,
      arithmetic and here-documents around it. */
  lemma RoundTrip(path: string, xs: seq<Token>)
    requires WellFormed(xs)
    ensures AllSpans(Print(xs)) == TokenSpans(xs, 0)
    ensures TextList(Comments(path, Print(xs))) == Hashes(xs, true)
  {
    hide Print, Hashes, TokenSpans, Well, Spans, CutAll, TextList, SpanTexts, OneLine;
    var t := Print(xs);
    assert Reads(t, 0, t, "");
    TokensBack(t, 0, xs, "", START, false);
    SpansEnd(t, |t|, START.(heredocs := Pending(xs, [])));
    TextsBack(t, 0, xs, "");
    CommentsOneLine(t, 0, START);
    OneLineTexts(path, t, AllSpans(t));
  }
}
