/** Printing a list of TOML tokens and scanning the result finds exactly the comments. */
module TomlRoundTrip {
  import opened Text
  import opened Printing
  import opened TomlLexer

  datatype Token =
    | Bare(text: string)                              // anything outside strings and comments
    | Basic(items: seq<Item>)                         // "..."
    | Literal(text: string)                           // '...'
    | MultiLine(literal: bool, items: seq<Item>)      // """...""" and '''...'''
    | Hash(text: string)                              // #... to the end of the line

  function Delimiter(literal: bool): string {
    [Quote(literal), Quote(literal), Quote(literal)]
  }

  function PrintToken(x: Token): string {
    match x
    case Bare(s) => s
    case Basic(items) => "\"" + (PrintItems(items) + "\"")
    case Literal(s) => "'" + (s + "'")
    case MultiLine(literal, items) => Delimiter(literal) + (PrintItems(items) + Delimiter(literal))
    case Hash(s) => ['#'] + s
  }

  function Print(xs: seq<Token>): string {
    if xs == [] then "" else PrintToken(xs[0]) + Print(xs[1..])
  }

  // ----- Well-formed token lists -----

  /** No three quotes in a row inside a multi-line string; one or two may stand anywhere, also
      right before the closing delimiter. */
  predicate NoThree(items: seq<Item>, quote: char) {
    forall i :: 0 <= i < |items| - 2 ==> !(items[i] == items[i + 1] == items[i + 2] == Chr(quote))
  }

  predicate WellToken(x: Token) {
    match x
    case Bare(s) => s != "" && Absent(s, '"') && Absent(s, '\'') && Absent(s, '#')
    case Basic(items) =>
      forall i :: 0 <= i < |items| ==>
        !IsBreak(items[i].c) && (items[i].Chr? ==> items[i].c != '"' && items[i].c != '\\')
    case Literal(s) => NoBreak(s) && Absent(s, '\'')
    case MultiLine(literal, items) =>
      && NoThree(items, Quote(literal))
      && (forall i :: 0 <= i < |items| ==> if literal then items[i].Chr? else items[i].Esc? || items[i].c != '\\')
    case Hash(s) => NoBreak(s)
  }

  predicate Opens(x: Token, quote: char) {
    match x
    case Basic(_) => quote == '"'
    case Literal(_) => quote == '\''
    case MultiLine(literal, _) => quote == Quote(literal)
    case _ => false
  }

  /** A string is not followed at once by a string with the same quote. */
  predicate Joins(x: Token, y: Token) {
    !(Opens(x, '"') && Opens(y, '"')) && !(Opens(x, '\'') && Opens(y, '\''))
  }

  /** A comment is followed by the newline, or by nothing. */
  predicate EndsLine(x: Token, y: Token) {
    x.Hash? ==> y.Bare? && y.text != "" && y.text[0] == '\n'
  }

  predicate WellFormed(xs: seq<Token>) {
    xs == [] ||
    (WellToken(xs[0]) && (|xs| > 1 ==> Joins(xs[0], xs[1]) && EndsLine(xs[0], xs[1])) && WellFormed(xs[1..]))
  }

  // ----- The comments among the tokens -----

  function TokenSpan(x: Token, p: nat): seq<Span> {
    if x.Hash? then [Span(p, p + |x.text| + 1, HashLine, None)] else []
  }

  function TokenSpans(xs: seq<Token>, p: nat): seq<Span> {
    if xs == [] then [] else TokenSpan(xs[0], p) + TokenSpans(xs[1..], p + |PrintToken(xs[0])|)
  }

  function TokenText(x: Token): seq<string> {
    if x.Hash? then ["#" + x.text] else []
  }

  /** The comments of a token list, as they are printed (without their newlines). */
  function CommentTexts(xs: seq<Token>): seq<string> {
    if xs == [] then [] else TokenText(xs[0]) + CommentTexts(xs[1..])
  }

  // ----- Reading back -----

  ghost predicate StartsOther(rest: string, quote: char) {
    rest != "" ==> rest[0] != quote
  }

  lemma {:induction false} BasicBack(t: string, p: nat, items: seq<Item>, rest: string)
    requires Reads(t, p, PrintItems(items) + "\"", rest) && WellToken(Basic(items))
    ensures BasicEnd(t, p) == p + |PrintItems(items)| + 1
    decreases |items|
  {
    var w := PrintItems(items) + "\"";
    if items == [] {
      assert w[0] == '"';
    } else {
      var head, tail := PrintItem(items[0]), PrintItems(items[1..]) + "\"";
      assert w == head + tail;
      ReadsAppend(t, p, head, tail, rest);
      BasicBack(t, p + |head|, items[1..], rest);
      assert head[0] == t[p];
      if items[0].Esc? { assert head[1] == t[p + 1]; }
    }
  }

  lemma {:induction false} LiteralBack(t: string, p: nat, s: string, rest: string)
    requires Reads(t, p, s + "'", rest) && WellToken(Literal(s))
    ensures LiteralEnd(t, p) == p + |s| + 1
    decreases |s|
  {
    var w := s + "'";
    assert t[p] == w[0];
    if s != "" {
      assert w == [s[0]] + (s[1..] + "'");
      ReadsAppend(t, p, [s[0]], s[1..] + "'", rest);
      LiteralBack(t, p + 1, s[1..], rest);
    }
  }

  lemma {:induction false} RunBack(t: string, p: nat, n: nat, quote: char)
    requires p + n <= |t| && (forall i :: p <= i < p + n ==> t[i] == quote)
    requires p + n < |t| ==> t[p + n] != quote
    ensures QuoteRun(t, p, quote) == n
    decreases n
  {
    if n > 0 { RunBack(t, p + 1, n - 1, quote); }
  }

  /** What a multi-line string still has to read: `items` and the closing delimiter. */
  function Tail(items: seq<Item>, literal: bool): (w: string)
    ensures w != ""
    ensures w[0] == if items == [] then Quote(literal) else PrintItem(items[0])[0]
  {
    PrintItems(items) + Delimiter(literal)
  }

  lemma TailStep(t: string, p: nat, items: seq<Item>, literal: bool, rest: string)
    requires Reads(t, p, Tail(items, literal), rest)
    ensures p < |t| && t[p] == Tail(items, literal)[0]
    ensures items != [] ==> Reads(t, p + |PrintItem(items[0])|, Tail(items[1..], literal), rest)
  {
    if items != [] {
      assert Tail(items, literal) == PrintItem(items[0]) + Tail(items[1..], literal);
      ReadsAppend(t, p, PrintItem(items[0]), Tail(items[1..], literal), rest);
    }
  }

  /** All that is left is quotes: the closing run takes them all. */
  lemma ClosingRun(t: string, p: nat, items: seq<Item>, literal: bool, rest: string)
    requires Reads(t, p, Tail(items, literal), rest) && StartsOther(rest, Quote(literal))
    requires |items| <= 2 && forall i :: 0 <= i < |items| ==> items[i] == Chr(Quote(literal))
    ensures MultiEnd(t, p, literal) == Some(p + |items| + 3)
  {
    var q, n := Quote(literal), |items|;
    var w := Tail(items, literal);
    var one, two := [Chr(q)], [Chr(q), Chr(q)];
    assert one[1..] == [] && two[1..] == one;
    assert PrintItems(one) == [q] && PrintItems(two) == [q, q];
    assert items == [] || items == one || items == two;
    assert |w| == n + 3 && forall i :: 0 <= i < n + 3 ==> w[i] == q;
    forall i | p <= i < p + n + 3 ensures t[i] == q { assert t[p + (i - p)] == w[i - p]; }
    if rest != "" { assert t[p + |w| + 0] == rest[0]; }
    RunBack(t, p, n + 3, q);
  }

  lemma NoThreeMore(items: seq<Item>, quote: char)
    requires items != [] && NoThree(items, quote)
    ensures NoThree(items[1..], quote)
  {
    var more := items[1..];
    forall i | 0 <= i < |more| - 2 ensures !(more[i] == more[i + 1] == more[i + 2] == Chr(quote)) {
      assert !(items[i + 1] == items[i + 2] == items[i + 3] == Chr(quote));
    }
  }

  lemma {:induction false} MultiBack(t: string, p: nat, items: seq<Item>, literal: bool, rest: string)
    requires Reads(t, p, Tail(items, literal), rest) && StartsOther(rest, Quote(literal))
    requires WellToken(MultiLine(literal, items))
    ensures MultiEnd(t, p, literal) == Some(p + |PrintItems(items)| + 3)
    decreases |items|
  {
    hide Reads, QuoteRun, Tail, NoThree, StartsOther;
    var q := Quote(literal);
    TailStep(t, p, items, literal, rest);
    if items == [] {
      ClosingRun(t, p, items, literal, rest);
    } else {
      var next, more := p + |PrintItem(items[0])|, items[1..];
      NoThreeMore(items, q);
      TailStep(t, next, more, literal, rest);
      if items[0] != Chr(q) {
        MultiBack(t, next, more, literal, rest);
      } else if more == [] || (more[0] == Chr(q) && |more| == 1) {
        ClosingRun(t, p, items, literal, rest);
        assert |PrintItems(items)| == |items| by { if |more| == 1 { assert more[1..] == []; } }
      } else {
        NotThree(t, p, items, literal, rest);
        MultiBack(t, next, more, literal, rest);
      }
    }
  }

  lemma ThirdOther(items: seq<Item>, quote: char)
    requires |items| > 2 && NoThree(items, quote) && items[0] == items[1] == Chr(quote)
    ensures items[2] != Chr(quote)
  {
    assert items[0 + 1] == items[0];
  }

  /** A quote inside the string does not close it. */
  lemma NotThree(t: string, p: nat, items: seq<Item>, literal: bool, rest: string)
    requires Reads(t, p, Tail(items, literal), rest) && WellToken(MultiLine(literal, items))
    requires |items| > 1 && items[0] == Chr(Quote(literal))
    requires items[1] == Chr(Quote(literal)) ==> |items| > 2
    ensures !Three(t, p, literal)
  {
    hide Reads, Tail;
    TailStep(t, p, items, literal, rest);
    TailStep(t, p + 1, items[1..], literal, rest);
    if items[1] == Chr(Quote(literal)) {
      ThirdOther(items, Quote(literal));
      assert items[1..][1..][0] == items[2];
      TailStep(t, p + 2, items[1..][1..], literal, rest);
    }
  }

  lemma {:induction false} BareBack(t: string, p: nat, s: string, rest: string)
    requires Reads(t, p, s, rest) && Absent(s, '"') && Absent(s, '\'') && Absent(s, '#')
    ensures Spans(t, p, Normal) == Spans(t, p + |s|, Normal)
    decreases |s|
  {
    if s != "" {
      assert t[p + 0] == s[0];
      assert s == [s[0]] + s[1..];
      ReadsAppend(t, p, [s[0]], s[1..], rest);
      BareBack(t, p + 1, s[1..], rest);
    }
  }

  lemma BasicOpens(t: string, p: nat, items: seq<Item>, rest: string)
    requires Reads(t, p, PrintToken(Basic(items)), rest) && WellToken(Basic(items)) && StartsOther(rest, '"')
    ensures p < |t| && t[p] == '"' && !Three(t, p, false)
  {
    var w := PrintToken(Basic(items));
    assert t[p + 0] == w[0] && t[p + 1] == w[1];
    if items == [] {
      if rest != "" { assert t[p + |w| + 0] == rest[0]; }
    } else {
      assert w[1] == PrintItem(items[0])[0];
    }
  }

  lemma LiteralOpens(t: string, p: nat, s: string, rest: string)
    requires Reads(t, p, PrintToken(Literal(s)), rest) && WellToken(Literal(s)) && StartsOther(rest, '\'')
    ensures p < |t| && t[p] == '\'' && !Three(t, p, true)
  {
    var w := PrintToken(Literal(s));
    assert t[p + 0] == w[0] && t[p + 1] == w[1];
    if s == "" {
      if rest != "" { assert t[p + |w| + 0] == rest[0]; }
    } else {
      assert w[1] == s[0];
    }
  }

  lemma HashBack(t: string, p: nat, s: string, rest: string)
    requires Reads(t, p, PrintToken(Hash(s)), rest) && NoBreak(s) && (rest != "" ==> rest[0] == '\n')
    ensures Spans(t, p, Normal) == [Span(p, p + |s| + 1, HashLine, None)] + Spans(t, p + |s| + 1, Normal)
  {
    hide Spans, Reads, LineEnd, LineCommentEnd;
    ReadsChar(t, p, '#', s, rest);
    CommentEnd(t, p, ['#'] + s, rest);
    HashSpans(t, p);
    if rest != "" { NewlineSpans(t, p + |s| + 1); }
  }

  lemma NewlineSpans(t: string, p: nat)
    requires p < |t| && t[p] == '\n'
    ensures Spans(t, p, Normal) == Spans(t, p + 1, Normal)
  {
  }

  lemma TokenIs(x: Token, p: nat)
    requires WellToken(x)
    ensures TokenSpan(x, p) == if x.Hash? then [Span(p, p + |x.text| + 1, HashLine, None)] else []
    ensures match x
            case Bare(s) => PrintToken(x) == s && Absent(s, '"') && Absent(s, '\'') && Absent(s, '#')
            case Basic(items) => |PrintToken(x)| == |PrintItems(items)| + 2 && Opens(x, '"')
            case Literal(s) => |PrintToken(x)| == |s| + 2 && Opens(x, '\'')
            case MultiLine(literal, items) => |PrintToken(x)| == |PrintItems(items)| + 6 && Opens(x, Quote(literal))
                                              && (Quote(literal) == '"' || Quote(literal) == '\'')
            case Hash(s) => |PrintToken(x)| == |s| + 1 && NoBreak(s)
  {
    hide PrintItems, NoThree, NoBreak, Absent;
  }

  /** The scanner crosses one printed token in one go and reports it if it is a comment. */
  lemma TokenBack(t: string, p: nat, x: Token, rest: string)
    requires WellToken(x) && Reads(t, p, PrintToken(x), rest)
    requires Opens(x, '"') ==> StartsOther(rest, '"')
    requires Opens(x, '\'') ==> StartsOther(rest, '\'')
    requires x.Hash? && rest != "" ==> rest[0] == '\n'
    ensures Spans(t, p, Normal) == TokenSpan(x, p) + Spans(t, p + |PrintToken(x)|, Normal)
  {
    hide *;
    TokenIs(x, p);
    match x
    case Bare(s) => BareBack(t, p, s, rest);
    case Basic(items) => BasicToken(t, p, items, rest);
    case Literal(s) => LiteralToken(t, p, s, rest);
    case MultiLine(literal, items) => MultiToken(t, p, literal, items, rest);
    case Hash(s) => HashBack(t, p, s, rest);
  }

  lemma BasicToken(t: string, p: nat, items: seq<Item>, rest: string)
    requires Reads(t, p, PrintToken(Basic(items)), rest) && WellToken(Basic(items)) && StartsOther(rest, '"')
    ensures Spans(t, p, Normal) == Spans(t, p + |PrintItems(items)| + 2, Normal)
  {
    BasicOpens(t, p, items, rest);
    ReadsAppend(t, p, "\"", PrintItems(items) + "\"", rest);
    BasicBack(t, p + 1, items, rest);
    hide Reads, WellToken;
  }

  lemma LiteralToken(t: string, p: nat, s: string, rest: string)
    requires Reads(t, p, PrintToken(Literal(s)), rest) && WellToken(Literal(s)) && StartsOther(rest, '\'')
    ensures Spans(t, p, Normal) == Spans(t, p + |s| + 2, Normal)
  {
    LiteralOpens(t, p, s, rest);
    ReadsAppend(t, p, "'", s + "'", rest);
    LiteralBack(t, p + 1, s, rest);
    hide Reads, WellToken;
  }

  lemma HashSpans(t: string, p: nat)
    requires p < |t| && t[p] == '#'
    ensures Spans(t, p, Normal) == [Span(p, LineCommentEnd(t, p), HashLine, None)] + Spans(t, LineEnd(t, p), Normal)
  {
  }

  lemma MultiToken(t: string, p: nat, literal: bool, items: seq<Item>, rest: string)
    requires WellToken(MultiLine(literal, items)) && Reads(t, p, PrintToken(MultiLine(literal, items)), rest)
    requires StartsOther(rest, Quote(literal))
    ensures Spans(t, p, Normal) == Spans(t, p + |PrintItems(items)| + 6, Normal)
  {
    var w := PrintToken(MultiLine(literal, items));
    assert t[p + 0] == w[0] && t[p + 1] == w[1] && t[p + 2] == w[2];
    ReadsAppend(t, p, Delimiter(literal), Tail(items, literal), rest);
    MultiBack(t, p + 3, items, literal, rest);
    MultiSpans(t, p, literal);
  }

  lemma MultiSpans(t: string, p: nat, literal: bool)
    requires Three(t, p, literal)
    ensures Spans(t, p, Normal)
            == (var e := MultiEnd(t, p + 3, literal); if e.None? then [] else Spans(t, e.value, Normal))
  {
    MultiStep(t, p + 3, literal);
  }

  lemma JoinsOther(x: Token, xs: seq<Token>, quote: char)
    requires WellFormed(xs) && (xs != [] ==> Joins(x, xs[0]))
    requires Opens(x, quote)
    ensures StartsOther(Print(xs), quote)
  {
    if xs != [] {
      var w := PrintToken(xs[0]);
      assert w != "" && (w[0] == quote ==> Opens(xs[0], quote));
    }
  }

  lemma {:induction false} TokensBack(t: string, p: nat, xs: seq<Token>)
    requires WellFormed(xs) && Reads(t, p, Print(xs), "")
    ensures Spans(t, p, Normal) == TokenSpans(xs, p)
    decreases |xs|
  {
    hide *;
    if xs == [] {
      NoTokens(p);
      SpansAtEnd(t, p) by { ReadsIn(t, p, "", ""); }
    } else {
      var x, w, rest := xs[0], PrintToken(xs[0]), Print(xs[1..]);
      FirstToken(xs, p);
      ReadsNext(t, p, w, rest);
      if Opens(x, '"') { JoinsOther(x, xs[1..], '"'); }
      if Opens(x, '\'') { JoinsOther(x, xs[1..], '\''); }
      if x.Hash? { HashFollows(x, xs[1..]); }
      TokenBack(t, p, x, rest);
      TokensBack(t, p + |w|, xs[1..]);
    }
  }

  lemma HashFollows(x: Token, xs: seq<Token>)
    requires x.Hash? && (xs != [] ==> EndsLine(x, xs[0]))
    ensures Print(xs) != "" ==> Print(xs)[0] == '\n'
  {
  }

  lemma NoTokens(p: nat)
    ensures Print([]) == "" && TokenSpans([], p) == []
  {
  }

  lemma FirstToken(xs: seq<Token>, p: nat)
    requires WellFormed(xs) && xs != []
    ensures Print(xs) == PrintToken(xs[0]) + Print(xs[1..])
    ensures TokenSpans(xs, p) == TokenSpan(xs[0], p) + TokenSpans(xs[1..], p + |PrintToken(xs[0])|)
    ensures WellToken(xs[0]) && WellFormed(xs[1..])
    ensures xs[1..] != [] ==> Joins(xs[0], xs[1..][0]) && EndsLine(xs[0], xs[1..][0])
  {
    hide WellToken, PrintToken, TokenSpan, Joins, EndsLine;
  }

  lemma SpansAtEnd(t: string, p: nat)
    requires |t| <= p
    ensures Spans(t, p, Normal) == []
  {
  }

  lemma TokenTextBack(t: string, p: nat, x: Token, rest: string)
    requires Reads(t, p, PrintToken(x), rest)
    ensures SpanTexts(t, TokenSpan(x, p)) == TokenText(x)
  {
    ReadsSlice(t, p, PrintToken(x), rest);
  }

  lemma {:induction false} TokenTexts(t: string, p: nat, xs: seq<Token>)
    requires Reads(t, p, Print(xs), "")
    ensures SpanTexts(t, TokenSpans(xs, p)) == CommentTexts(xs)
    decreases |xs|
  {
    hide Reads, PrintToken, TokenSpan, TokenText;
    if xs != [] {
      var x, w := xs[0], PrintToken(xs[0]);
      ReadsNext(t, p, w, Print(xs[1..]));
      TokenTextBack(t, p, x, Print(xs[1..]));
      TokenTexts(t, p + |w|, xs[1..]);
      SpanTextsAppend(t, TokenSpan(x, p), TokenSpans(xs[1..], p + |w|));
    }
  }

  /** A TOML comment lies on one line, in every text. */
  lemma {:induction false} CommentsOneLine(t: string, p: nat, mode: Mode)
    ensures forall s :: s in Spans(t, p, mode) ==> OneLine(t, s)
    decreases |t| - p, if mode.Multi? then 0 else 1
  {
    hide LineEnd;
    if p < |t| {
      if mode.Multi? {
        var e := MultiEnd(t, p, mode.literal);
        if e.Some? { CommentsOneLine(t, e.value, Normal); }
      } else if Three(t, p, false) {
        CommentsOneLine(t, p + 3, Multi(false));
      } else if Three(t, p, true) {
        CommentsOneLine(t, p + 3, Multi(true));
      } else if t[p] == '"' {
        CommentsOneLine(t, BasicEnd(t, p + 1), Normal);
      } else if t[p] == '\'' {
        CommentsOneLine(t, LiteralEnd(t, p + 1), Normal);
      } else if t[p] == '#' {
        StripKeeps(t[p..LineEnd(t, p)]);
        CommentsOneLine(t, LineEnd(t, p), Normal);
      } else {
        CommentsOneLine(t, p + 1, Normal);
      }
    }
  }

  /** Main result: for every well-formed list of tokens, scanning what it prints finds exactly its
      comments, in order and where they were printed, and reports them with the text they were
      printed with. */
  lemma RoundTrip(path: string, xs: seq<Token>)
    requires WellFormed(xs)
    ensures AllSpans(Print(xs)) == TokenSpans(xs, 0)
    ensures TextList(Comments(path, Print(xs))) == CommentTexts(xs)
  {
    hide Print, TokenSpans, Spans, CutAll, CommentTexts, TextList, OneLine;
    TokensBack(Print(xs), 0, xs);
    TokenTexts(Print(xs), 0, xs);
    CommentsOneLine(Print(xs), 0, Normal);
    OneLineTexts(path, Print(xs), AllSpans(Print(xs)));
  }
}
