/** Printing a Nix text from its tokens and scanning the result finds exactly the comments: a `#` or
    an opener of a comment in a string of either kind is none, one in an interpolation is, at any
    nesting. */
module NixTokens {
  import opened Text
  import opened Printing
  import opened NixLexer

  datatype Token =
    | Plain(text: string)             // code, or the characters of a string
    | Quoted(tokens: seq<Token>)      // "..."
    | Multi(tokens: seq<Token>)       // ''...''
    | Escaped(c: char)                // \c in double quotes
    | MultiEscape(text: string)       // three ways to escape in an indented string
    | Interp(tokens: seq<Token>)      // ${...} in a string
    | Brace(tokens: seq<Token>)       // {...} in code
    | Hash(text: string)              // a comment, to the end of the line
    | Block(text: string)             // a comment from slash-star to star-slash

  // ----- Printing -----

  function PrintToken(x: Token): string
    decreases x, 0
  {
    match x
    case Plain(s) => s
    case Quoted(ys) => ['"'] + (Print(ys) + ['"'])
    case Multi(ys) => ['\''] + (['\''] + (Print(ys) + ['\'', '\'']))
    case Escaped(c) => ['\\'] + [c]
    case MultiEscape(s) => s
    case Interp(ys) => ['$'] + (['{'] + (Print(ys) + ['}']))
    case Brace(ys) => ['{'] + (Print(ys) + ['}'])
    case Hash(s) => ['#'] + s
    case Block(s) => ['/'] + (['*'] + (s + "*/"))
  }

  function Print(xs: seq<Token>): string
    decreases xs, 1
  {
    if xs == [] then "" else PrintToken(xs[0]) + Print(xs[1..])
  }

  // ----- Well-formed token lists -----

  /** The character at `i` of `w` is nothing but itself. */
  predicate Ordinary(w: string, i: nat, mode: Mode, nested: bool)
    requires i < |w|
  {
    match mode
    case Normal =>
      && w[i] != '"' && w[i] != '#' && !At2(w, i, '\'', '\'') && !At2(w, i, '/', '*')
      && (nested ==> w[i] != '{' && w[i] != '}')
    case InDouble => w[i] != '"' && w[i] != '\\' && !At2(w, i, '$', '{')
    case InMulti => !At2(w, i, '\'', '\'') && !At2(w, i, '$', '{')
    case InBlock => false
  }

  predicate AllOrdinary(s: string, rest: string, mode: Mode, nested: bool) {
    forall i :: 0 <= i < |s| ==> Ordinary(s + rest, i, mode, nested)
  }

  /** `x` may stand in code or in a string, inside interpolations or outside them, before `rest`. */
  predicate WellToken(x: Token, mode: Mode, nested: bool, rest: string)
    decreases x, 0
  {
    match x
    case Plain(s) => AllOrdinary(s, rest, mode, nested)
    case Quoted(ys) => mode == Normal && Well(ys, InDouble, nested, ['"'] + rest)
    case Multi(ys) =>
      && mode == Normal && Well(ys, InMulti, nested, ['\'', '\''] + rest)
      && (rest != "" ==> rest[0] != '\'' && rest[0] != '\\') && !At2(rest, 0, '$', '{')
    case Escaped(c) => mode == InDouble
    case MultiEscape(s) => mode == InMulti && (s == "''${" || s == "'''" || s == "''\\")
    case Interp(ys) => (mode == InDouble || mode == InMulti) && Well(ys, Normal, true, ['}'] + rest)
    case Brace(ys) => mode == Normal && Well(ys, Normal, nested, ['}'] + rest)
    case Hash(s) => mode == Normal && NoBreak(s) && (rest != "" ==> rest[0] == '\n')
    case Block(s) => mode == Normal && NoPair(s, '*', '/')
  }

  predicate Well(xs: seq<Token>, mode: Mode, nested: bool, rest: string)
    decreases xs, 1
  {
    xs == [] || (WellToken(xs[0], mode, nested, Print(xs[1..]) + rest) && Well(xs[1..], mode, nested, rest))
  }

  /** A whole text: it starts in code, and nothing follows it. */
  predicate WellFormed(xs: seq<Token>) {
    Well(xs, Normal, false, "")
  }

  // ----- The comments among the tokens -----

  /** The block comments are numbered in the order in which they are printed. */
  function NextId(x: Token, id: nat): nat
    decreases x, 0
  {
    match x
    case Quoted(ys) => NextIds(ys, id)
    case Multi(ys) => NextIds(ys, id)
    case Interp(ys) => NextIds(ys, id)
    case Brace(ys) => NextIds(ys, id)
    case Block(_) => id + 1
    case _ => id
  }

  function NextIds(xs: seq<Token>, id: nat): nat
    decreases xs, 1
  {
    if xs == [] then id else NextIds(xs[1..], NextId(xs[0], id))
  }

  function TokenSpan(x: Token, p: nat, id: nat): seq<Span>
    decreases x, 0
  {
    match x
    case Quoted(ys) => TokenSpans(ys, p + 1, id)
    case Multi(ys) => TokenSpans(ys, p + 2, id)
    case Interp(ys) => TokenSpans(ys, p + 2, id)
    case Brace(ys) => TokenSpans(ys, p + 1, id)
    case Hash(s) => [Span(p, p + (|s| + 1), HashLine, None)]
    case Block(s) => [Span(p, p + (|s| + 4), NixBlock, Some(id + 1))]
    case _ => []
  }

  /** Where the comments of a printed token list are when printing starts at `p`. */
  function TokenSpans(xs: seq<Token>, p: nat, id: nat): seq<Span>
    decreases xs, 1
  {
    if xs == [] then []
    else TokenSpan(xs[0], p, id) + TokenSpans(xs[1..], p + |PrintToken(xs[0])|, NextId(xs[0], id))
  }

  /** The comments among the tokens, as they are written. */
  function CommentsOf(x: Token): seq<string>
    decreases x, 0
  {
    match x
    case Quoted(ys) => AllComments(ys)
    case Multi(ys) => AllComments(ys)
    case Interp(ys) => AllComments(ys)
    case Brace(ys) => AllComments(ys)
    case Hash(_) => [PrintToken(x)]
    case Block(_) => [PrintToken(x)]
    case _ => []
  }

  function AllComments(xs: seq<Token>): seq<string>
    decreases xs, 1
  {
    if xs == [] then [] else CommentsOf(xs[0]) + AllComments(xs[1..])
  }

  // ----- Single steps -----

  lemma Moves(t: string, p: nat, st: State, q: nat, next: State)
    requires p < |t| && Step(t, p, st) == Go(q, next, [])
    ensures Spans(t, p, st) == Spans(t, q, next)
  {
    hide Step;
  }

  lemma OrdinaryMoves(t: string, p: nat, w: string, i: nat, st: State)
    requires p <= |t| && t[p..] == w && i < |w|
    requires Ordinary(w, i, st.mode, st.interpolation != [])
    ensures Step(t, p + i, st) == Go(p + i + 1, st, [])
  {
    assert t[p + i] == w[i];
    if i + 1 < |w| { assert t[p + (i + 1)] == w[i + 1]; }
  }

  lemma OrdinaryAt(s: string, rest: string, i: nat, mode: Mode, nested: bool)
    requires AllOrdinary(s, rest, mode, nested) && i < |s|
    ensures Ordinary(s + rest, i, mode, nested)
  {
    hide Ordinary;
  }

  lemma {:induction false} PlainBack(t: string, p: nat, s: string, rest: string, i: nat, st: State)
    requires Reads(t, p, s, rest) && i <= |s|
    requires AllOrdinary(s, rest, st.mode, st.interpolation != [])
    ensures Spans(t, p + i, st) == Spans(t, p + |s|, st)
    decreases |s| - i
  {
    hide *;
    if i < |s| {
      ReadsTail(t, p, s, rest);
      OrdinaryAt(s, rest, i, st.mode, st.interpolation != []);
      OrdinaryMoves(t, p, s + rest, i, st);
      Moves(t, p + i, st, p + i + 1, st);
      PlainBack(t, p, s, rest, i + 1, st);
    }
  }

  /** What the openers and closers do. */
  lemma NormalMoves(t: string, p: nat, st: State)
    requires p < |t| && st.mode == Normal
    ensures t[p] == '"' ==> Step(t, p, st) == Go(p + 1, st.(mode := InDouble), [])
    ensures At2(t, p, '\'', '\'') ==> Step(t, p, st) == Go(p + 2, st.(mode := InMulti), [])
    ensures t[p] == '{' ==> Step(t, p, st) == Go(p + 1, Opened(st), [])
    ensures t[p] == '}' ==> Step(t, p, st) == Go(p + 1, Closed(st), [])
  {
    hide OpenBrace, CloseBrace, BlockEnd, LineEnd, LineCommentEnd;
  }

  /** A brace counts only inside an interpolation. */
  function Opened(st: State): State {
    if st.interpolation == [] then st else OpenBrace(st)
  }

  function Closed(st: State): State {
    if st.interpolation == [] then st else CloseBrace(st)
  }

  /** Every open interpolation is still open. */
  predicate Ready(st: State) {
    st.interpolation != [] ==> st.interpolation[|st.interpolation| - 1].1 >= 1
  }

  lemma BraceRestores(st: State, id: nat)
    requires Ready(st)
    ensures Closed(Opened(st).(id := id)) == st.(id := id) && Ready(Opened(st))
    ensures Opened(st).interpolation != [] <==> st.interpolation != []
    ensures Opened(st).mode == st.mode && Opened(st).id == st.id
  {
  }

  lemma InterpRestores(st: State, id: nat)
    ensures Closed(Open(st).(id := id)) == st.(id := id) && Ready(Open(st))
    ensures Open(st).interpolation != [] && Open(st).mode == Normal && Open(st).id == st.id
  {
    assert (st.interpolation + [(st.mode, 1)])[..|st.interpolation|] == st.interpolation;
  }

  lemma StringMoves(t: string, p: nat, st: State)
    requires p < |t|
    ensures st.mode == InDouble && t[p] == '"' ==> Step(t, p, st) == Go(p + 1, st.(mode := Normal), [])
    ensures st.mode == InDouble && t[p] == '\\' && p + 1 < |t| ==> Step(t, p, st) == Go(p + 2, st, [])
    ensures (st.mode == InDouble || st.mode == InMulti) && At2(t, p, '$', '{') ==>
              Step(t, p, st) == Go(p + 2, Open(st), [])
    ensures (&& st.mode == InMulti && At2(t, p, '\'', '\'') && !At3(t, p, '\'', '\'', '\'')
             && !At3(t, p, '\'', '\'', '\\') && !At4(t, p, '\'', '\'', '$', '{'))
            ==> Step(t, p, st) == Go(p + 2, st.(mode := Normal), [])
  {
    hide Open;
  }

  lemma EscapeBack(t: string, p: nat, s: string, rest: string, st: State)
    requires Reads(t, p, s, rest) && st.mode == InMulti && (s == "''${" || s == "'''" || s == "''\\")
    ensures Spans(t, p, st) == Spans(t, p + |s|, st)
  {
    assert t[p + 0] == s[0] && t[p + 1] == s[1] && t[p + 2] == s[2];
    if |s| == 4 { assert t[p + 3] == s[3]; }
    Moves(t, p, st, p + |s|, st);
  }

  lemma EscapedBack(t: string, p: nat, c: char, rest: string, st: State)
    requires Reads(t, p, PrintToken(Escaped(c)), rest) && st.mode == InDouble
    ensures Spans(t, p, st) == Spans(t, p + 2, st)
  {
    hide Spans, Step, Reads;
    ReadsChar(t, p, '\\', [c], rest);
    ReadsFirst(t, p + 1, [c], rest);
    StringMoves(t, p, st);
    Moves(t, p, st, p + 2, st);
  }

  // ----- Comments -----

  lemma SpansStep(t: string, p: nat, st: State)
    requires p < |t|
    ensures Spans(t, p, st) == Step(t, p, st).found + Spans(t, Step(t, p, st).p, Step(t, p, st).state)
  {
    hide Step;
  }

  lemma HashMoves(t: string, p: nat, st: State)
    requires p < |t| && st.mode == Normal
    ensures t[p] == '#' ==> Step(t, p, st) == Go(LineEnd(t, p), st, [Span(p, LineCommentEnd(t, p), HashLine, None)])
    ensures t[p] == '\n' ==> Step(t, p, st) == Go(p + 1, st, [])
    ensures At2(t, p, '/', '*') ==>
              var e := BlockEnd(t, p + 2);
              Step(t, p, st) == Go(e, st.(id := st.id + 1), [Span(p, e, NixBlock, Some(st.id + 1))])
  {
    hide BlockEnd, LineEnd, LineCommentEnd;
  }

  lemma HashBack(t: string, p: nat, s: string, rest: string, st: State)
    requires Reads(t, p, ['#'] + s, rest) && st.mode == Normal && NoBreak(s) && (rest != "" ==> rest[0] == '\n')
    ensures Spans(t, p, st) == [Span(p, p + (|s| + 1), HashLine, None)] + Spans(t, p + (|s| + 1), st)
  {
    hide Spans, Step, LineEnd, LineCommentEnd, Reads;
    ReadsChar(t, p, '#', s, rest);
    CommentEnd(t, p, ['#'] + s, rest);
    HashMoves(t, p, st);
    SpansStep(t, p, st);
    var e := p + (|s| + 1);
    if rest != "" {
      HashMoves(t, e, st);
      Moves(t, e, st, e + 1, st);
    }
  }

  lemma CloserAt(t: string, p: nat)
    ensures At(t, p, "*/") ==> At2(t, p, '*', '/')
  {
    assert "*/"[0] == '*' && "*/"[1] == '/';
  }

  lemma CloserBack(t: string, p: nat, s: string, rest: string)
    requires Reads(t, p, s + "*/", rest) && NoPair(s, '*', '/')
    ensures p <= |t| && BlockEnd(t, p) == p + |s| + 2
  {
    var w := s + "*/";
    assert w[|s|] == '*' && w[|s| + 1] == '/';
    assert t[p + |s|] == w[|s|] && t[p + (|s| + 1)] == w[|s| + 1];
    forall q | p <= q < p + |s| ensures !At(t, q, "*/") {
      var i := q - p;
      assert t[p + i] == w[i] && t[p + (i + 1)] == w[i + 1] && !At2(s, i, '*', '/');
      CloserAt(t, q);
    }
    FindIs(t, "*/", p, p + |s|);
  }

  lemma BlockBack(t: string, p: nat, s: string, rest: string, st: State)
    requires Reads(t, p, PrintToken(Block(s)), rest) && st.mode == Normal && NoPair(s, '*', '/')
    ensures Spans(t, p, st)
         == [Span(p, p + (|s| + 4), NixBlock, Some(st.id + 1))] + Spans(t, p + (|s| + 4), st.(id := st.id + 1))
  {
    hide Spans, Step, Reads, BlockEnd;
    ReadsChar(t, p, '/', ['*'] + (s + "*/"), rest);
    ReadsChar(t, p + 1, '*', s + "*/", rest);
    CloserBack(t, p + 2, s, rest);
    HashMoves(t, p, st);
    SpansStep(t, p, st);
  }

  // ----- Tokens with parts -----

  lemma QuotedBack(t: string, p: nat, ys: seq<Token>, rest: string, st: State)
    requires Reads(t, p, PrintToken(Quoted(ys)), rest) && st.mode == Normal && Ready(st)
    requires Well(ys, InDouble, st.interpolation != [], ['"'] + rest)
    ensures Spans(t, p, st)
         == TokenSpans(ys, p + 1, st.id) + Spans(t, p + (|Print(ys)| + 2), st.(id := NextIds(ys, st.id)))
    decreases ys, 2
  {
    hide *;
    PartPrints(ys);
    ReadsChar(t, p, '"', Print(ys) + ['"'], rest);
    ReadsAppend(t, p + 1, Print(ys), ['"'], rest);
    var inside, id := st.(mode := InDouble), NextIds(ys, st.id);
    NormalMoves(t, p, st);
    Moves(t, p, st, p + 1, inside);
    ReadySame(st, inside);
    TokensBack(t, p + 1, ys, ['"'] + rest, inside);
    var e := p + 1 + |Print(ys)|;
    ReadsFirst(t, e, ['"'], rest);
    StringMoves(t, e, inside.(id := id));
    Moves(t, e, inside.(id := id), e + 1, st.(id := id));
  }

  lemma MultiBack(t: string, p: nat, ys: seq<Token>, rest: string, st: State)
    requires Reads(t, p, PrintToken(Multi(ys)), rest) && st.mode == Normal && Ready(st)
    requires Well(ys, InMulti, st.interpolation != [], ['\'', '\''] + rest)
    requires (rest != "" ==> rest[0] != '\'' && rest[0] != '\\') && !At2(rest, 0, '$', '{')
    ensures Spans(t, p, st)
         == TokenSpans(ys, p + 2, st.id) + Spans(t, p + (|Print(ys)| + 4), st.(id := NextIds(ys, st.id)))
    decreases ys, 2
  {
    hide *;
    PartPrints(ys);
    ReadsChar(t, p, '\'', ['\''] + (Print(ys) + ['\'', '\'']), rest);
    ReadsChar(t, p + 1, '\'', Print(ys) + ['\'', '\''], rest);
    ReadsAppend(t, p + 2, Print(ys), ['\'', '\''], rest);
    var inside, id := st.(mode := InMulti), NextIds(ys, st.id);
    AtIs(t, p);
    NormalMoves(t, p, st);
    Moves(t, p, st, p + 2, inside);
    ReadySame(st, inside);
    TokensBack(t, p + 2, ys, ['\'', '\''] + rest, inside);
    var e := p + 2 + |Print(ys)|;
    CloserAlone(t, e, rest);
    StringMoves(t, e, inside.(id := id));
    Moves(t, e, inside.(id := id), e + 2, st.(id := id));
  }

  lemma CloserAlone(t: string, p: nat, rest: string)
    requires Reads(t, p, ['\'', '\''], rest)
    requires (rest != "" ==> rest[0] != '\'' && rest[0] != '\\') && !At2(rest, 0, '$', '{')
    ensures At2(t, p, '\'', '\'') && !At3(t, p, '\'', '\'', '\'') && !At3(t, p, '\'', '\'', '\\')
    ensures !At4(t, p, '\'', '\'', '$', '{')
  {
    assert t[p + 0] == ['\'', '\''][0] && t[p + 1] == ['\'', '\''][1];
    if rest != "" { assert t[p + 2 + 0] == rest[0]; }
    if |rest| > 1 { assert t[p + 2 + 1] == rest[1]; }
  }

  lemma InterpBack(t: string, p: nat, ys: seq<Token>, rest: string, st: State)
    requires Reads(t, p, PrintToken(Interp(ys)), rest) && (st.mode == InDouble || st.mode == InMulti)
    requires Well(ys, Normal, true, ['}'] + rest)
    ensures Spans(t, p, st)
         == TokenSpans(ys, p + 2, st.id) + Spans(t, p + (|Print(ys)| + 3), st.(id := NextIds(ys, st.id)))
    decreases ys, 2
  {
    hide *;
    PartPrints(ys);
    ReadsChar(t, p, '$', ['{'] + (Print(ys) + ['}']), rest);
    ReadsChar(t, p + 1, '{', Print(ys) + ['}'], rest);
    ReadsAppend(t, p + 2, Print(ys), ['}'], rest);
    var inside, id := Open(st), NextIds(ys, st.id);
    AtIs(t, p);
    StringMoves(t, p, st);
    Moves(t, p, st, p + 2, inside);
    InterpRestores(st, id);
    TokensBack(t, p + 2, ys, ['}'] + rest, inside);
    var e := p + 2 + |Print(ys)|;
    ReadsFirst(t, e, ['}'], rest);
    NormalMoves(t, e, inside.(id := id));
    Moves(t, e, inside.(id := id), e + 1, st.(id := id));
  }

  lemma BraceBack(t: string, p: nat, ys: seq<Token>, rest: string, st: State)
    requires Reads(t, p, PrintToken(Brace(ys)), rest) && st.mode == Normal && Ready(st)
    requires Well(ys, Normal, st.interpolation != [], ['}'] + rest)
    ensures Spans(t, p, st)
         == TokenSpans(ys, p + 1, st.id) + Spans(t, p + (|Print(ys)| + 2), st.(id := NextIds(ys, st.id)))
    decreases ys, 2
  {
    hide *;
    PartPrints(ys);
    ReadsChar(t, p, '{', Print(ys) + ['}'], rest);
    ReadsAppend(t, p + 1, Print(ys), ['}'], rest);
    var inside, id := Opened(st), NextIds(ys, st.id);
    NormalMoves(t, p, st);
    Moves(t, p, st, p + 1, inside);
    BraceRestores(st, id);
    TokensBack(t, p + 1, ys, ['}'] + rest, inside);
    var e := p + 1 + |Print(ys)|;
    ReadsFirst(t, e, ['}'], rest);
    NormalMoves(t, e, inside.(id := id));
    Moves(t, e, inside.(id := id), e + 1, st.(id := id));
  }

  lemma PartPrints(ys: seq<Token>)
    ensures PrintToken(Quoted(ys)) == ['"'] + (Print(ys) + ['"'])
    ensures PrintToken(Multi(ys)) == ['\''] + (['\''] + (Print(ys) + ['\'', '\'']))
    ensures PrintToken(Interp(ys)) == ['$'] + (['{'] + (Print(ys) + ['}']))
    ensures PrintToken(Brace(ys)) == ['{'] + (Print(ys) + ['}'])
  {
  }

  lemma AtIs(t: string, p: nat)
    ensures At2(t, p, '\'', '\'') <==> p + 1 < |t| && t[p] == '\'' && t[p + 1] == '\''
    ensures At2(t, p, '$', '{') <==> p + 1 < |t| && t[p] == '$' && t[p + 1] == '{'
  {
  }

  lemma ReadySame(a: State, b: State)
    requires Ready(a) && a.interpolation == b.interpolation
    ensures Ready(b)
  {
  }

  lemma TokenBack(t: string, p: nat, x: Token, rest: string, st: State)
    requires Reads(t, p, PrintToken(x), rest) && Ready(st)
    requires WellToken(x, st.mode, st.interpolation != [], rest)
    ensures Spans(t, p, st)
         == TokenSpan(x, p, st.id) + Spans(t, p + |PrintToken(x)|, st.(id := NextId(x, st.id)))
    decreases x, 0
  {
    hide Spans, Step, Reads, Ready, AllOrdinary, NoBreak, NoPair, Well, Print, TokenSpans, NextIds;
    match x {
      case Plain(s) => PlainBack(t, p, s, rest, 0, st);
      case Quoted(ys) => QuotedBack(t, p, ys, rest, st);
      case Multi(ys) => MultiBack(t, p, ys, rest, st);
      case Escaped(c) => EscapedBack(t, p, c, rest, st);
      case MultiEscape(s) => EscapeBack(t, p, s, rest, st);
      case Interp(ys) => InterpBack(t, p, ys, rest, st);
      case Brace(ys) => BraceBack(t, p, ys, rest, st);
      case Hash(s) => HashBack(t, p, s, rest, st);
      case Block(s) => BlockBack(t, p, s, rest, st);
    }
  }

  lemma TokensStep(xs: seq<Token>, mode: Mode, nested: bool, rest: string, p: nat, id: nat)
    requires Well(xs, mode, nested, rest)
    ensures xs == [] ==> Print(xs) == "" && NextIds(xs, id) == id && TokenSpans(xs, p, id) == []
    ensures xs != [] ==>
              && WellToken(xs[0], mode, nested, Print(xs[1..]) + rest) && Well(xs[1..], mode, nested, rest)
              && Print(xs) == PrintToken(xs[0]) + Print(xs[1..])
              && NextIds(xs, id) == NextIds(xs[1..], NextId(xs[0], id))
              && TokenSpans(xs, p, id)
                 == TokenSpan(xs[0], p, id) + TokenSpans(xs[1..], p + |PrintToken(xs[0])|, NextId(xs[0], id))
  {
    hide WellToken, PrintToken, NextId, TokenSpan;
  }

  lemma {:induction false} TokensBack(t: string, p: nat, xs: seq<Token>, rest: string, st: State)
    requires Reads(t, p, Print(xs), rest) && Ready(st)
    requires Well(xs, st.mode, st.interpolation != [], rest)
    ensures Spans(t, p, st)
         == TokenSpans(xs, p, st.id) + Spans(t, p + |Print(xs)|, st.(id := NextIds(xs, st.id)))
    decreases xs, 1
  {
    hide *;
    TokensStep(xs, st.mode, st.interpolation != [], rest, p, st.id);
    if xs == [] {
      assert st.(id := st.id) == st;
    } else {
      var w, next := PrintToken(xs[0]), st.(id := NextId(xs[0], st.id));
      ReadsAppend(t, p, w, Print(xs[1..]), rest);
      TokenBack(t, p, xs[0], Print(xs[1..]) + rest, st);
      ReadySame(st, next);
      TokensBack(t, p + |w|, xs[1..], rest, next);
      Assoc(TokenSpan(xs[0], p, st.id), TokenSpans(xs[1..], p + |w|, next.id),
            Spans(t, p + |Print(xs)|, st.(id := NextIds(xs, st.id))));
    }
  }

  // ----- The main result -----

  lemma {:induction false} TextsBackOf(t: string, p: nat, x: Token, rest: string, id: nat)
    requires Reads(t, p, PrintToken(x), rest)
    ensures SpanTexts(t, TokenSpan(x, p, id)) == CommentsOf(x)
    decreases x, 0
  {
    hide Print, AllComments, TokenSpans, Reads;
    match x {
      case Quoted(ys) =>
        ReadsChar(t, p, '"', Print(ys) + ['"'], rest);
        ReadsAppend(t, p + 1, Print(ys), ['"'], rest);
        TextsBack(t, p + 1, ys, ['"'] + rest, id);
      case Multi(ys) =>
        ReadsChar(t, p, '\'', ['\''] + (Print(ys) + ['\'', '\'']), rest);
        ReadsChar(t, p + 1, '\'', Print(ys) + ['\'', '\''], rest);
        ReadsAppend(t, p + 2, Print(ys), ['\'', '\''], rest);
        TextsBack(t, p + 2, ys, ['\'', '\''] + rest, id);
      case Interp(ys) =>
        ReadsChar(t, p, '$', ['{'] + (Print(ys) + ['}']), rest);
        ReadsChar(t, p + 1, '{', Print(ys) + ['}'], rest);
        ReadsAppend(t, p + 2, Print(ys), ['}'], rest);
        TextsBack(t, p + 2, ys, ['}'] + rest, id);
      case Brace(ys) =>
        ReadsChar(t, p, '{', Print(ys) + ['}'], rest);
        ReadsAppend(t, p + 1, Print(ys), ['}'], rest);
        TextsBack(t, p + 1, ys, ['}'] + rest, id);
      case Hash(s) =>
        ReadsIn(t, p, PrintToken(x), rest);
        ReadsSlice(t, p, PrintToken(x), rest);
      case Block(s) =>
        ReadsIn(t, p, PrintToken(x), rest);
        ReadsSlice(t, p, PrintToken(x), rest);
      case _ =>
    }
  }

  lemma {:induction false} TextsBack(t: string, p: nat, xs: seq<Token>, rest: string, id: nat)
    requires Reads(t, p, Print(xs), rest)
    ensures SpanTexts(t, TokenSpans(xs, p, id)) == AllComments(xs)
    decreases xs, 1
  {
    hide PrintToken, Reads, TokenSpan, CommentsOf;
    if xs != [] {
      var w, next := PrintToken(xs[0]), NextId(xs[0], id);
      ReadsAppend(t, p, w, Print(xs[1..]), rest);
      TextsBackOf(t, p, xs[0], Print(xs[1..]) + rest, id);
      TextsBack(t, p + |w|, xs[1..], rest, next);
      SpanTextsAppend(t, TokenSpan(xs[0], p, id), TokenSpans(xs[1..], p + |w|, next));
    }
  }

  /** Main result: in a printed text the lexer finds exactly the comments among the tokens, each at
      its place, under its number and with its text, whatever the nesting of the two kinds of
      strings, interpolations and braces around it; these are what the scanner reports. */
  lemma RoundTrip(path: string, xs: seq<Token>)
    requires WellFormed(xs)
    ensures forall s :: s in TokenSpans(xs, 0, 0) ==> SpanIn(Print(xs), s)
    ensures Comments(path, Print(xs)) == Stripped(CutAll(path, Print(xs), TokenSpans(xs, 0, 0)))
    ensures SpanTexts(Print(xs), TokenSpans(xs, 0, 0)) == AllComments(xs)
  {
    hide Print, AllComments, TokenSpans, Well, Spans, CutAll, Stripped;
    var t := Print(xs);
    assert Reads(t, 0, t, "");
    TokensBack(t, 0, xs, "", START);
    NothingLeft(t, START.(id := NextIds(xs, 0)));
    assert TokenSpans(xs, 0, 0) + [] == TokenSpans(xs, 0, 0);
    TextsBack(t, 0, xs, "", 0);
  }

  lemma NothingLeft(t: string, st: State)
    ensures Spans(t, |t|, st) == []
  {
  }
}
