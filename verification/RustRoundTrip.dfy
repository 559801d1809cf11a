/** Printing a list of Rust tokens and scanning the result finds exactly the comments. */
module RustRoundTrip {
  import opened Text
  import opened Printing
  import opened RustLexer

  /** The inside of a block comment. */
  datatype Part = Words(text: string) | Inner(parts: seq<Part>)

  datatype Token =
    | Plain(text: string)                               // code without quotes or comments
    | Tick                                              // the apostrophe of a lifetime or label
    | CharLit(c: char)                                  // 'c'
    | CharEsc(c: char, tail: string)                    // '\c', '\x7f', '\u{1F600}'
    | StrLit(byte: bool, items: seq<Item>)              // "..." and b"..."
    | RawStr(byte: bool, hashes: nat, body: string)     // r#"..."# and br#"..."#
    | LineComment(text: string)                         // //... to the end of the line
    | BlockComment(parts: seq<Part>)                    // slash-star ... star-slash

  // ----- Printing -----

  function PrintPart(x: Part): string
    decreases x, 0
  {
    match x case Words(s) => s case Inner(parts) => "/*" + PrintParts(parts) + "*/"
  }

  function PrintParts(xs: seq<Part>): string
    decreases xs, 1
  {
    if xs == [] then "" else PrintPart(xs[0]) + PrintParts(xs[1..])
  }

  function RawPrefix(byte: bool, hashes: nat): (s: string)
    ensures |s| == if byte then hashes + 3 else hashes + 2
  {
    (if byte then "br" else "r") + Hashes(hashes) + "\""
  }

  function PrintToken(x: Token): string {
    match x
    case Plain(s) => s
    case Tick => "'"
    case CharLit(c) => ['\'', c, '\'']
    case CharEsc(c, tail) => ['\'', '\\', c] + tail + "'"
    case StrLit(byte, items) => (if byte then "b\"" else "\"") + (PrintItems(items) + "\"")
    case RawStr(byte, hashes, body) => RawPrefix(byte, hashes) + (body + RawClose(hashes))
    case LineComment(s) => "//" + s
    case BlockComment(parts) => "/*" + PrintParts(parts) + "*/"
  }

  function Print(xs: seq<Token>): string {
    if xs == [] then "" else PrintToken(xs[0]) + Print(xs[1..])
  }

  // ----- Well-formed token lists -----

  /** The words of a block comment hold no opener and no closer, also not across the place where
      they meet the next part or the closer. */
  predicate WellParts(xs: seq<Part>)
    decreases xs
  {
    xs == [] ||
    (&& (match xs[0]
         case Words(s) =>
           && NoPair(s, '/', '*') && NoPair(s, '*', '/')
           && (|xs| > 1 ==> xs[1].Inner? && !Ends(s, '*'))
           && (|xs| == 1 ==> !Ends(s, '/'))
         case Inner(parts) => WellParts(parts))
     && WellParts(xs[1..]))
  }

  predicate WellToken(x: Token) {
    match x
    case Plain(s) => Absent(s, '"') && Absent(s, '\'') && NoPair(s, '/', '/') && NoPair(s, '/', '*')
    case Tick => true
    case CharLit(c) => c != '\'' && c != '\\' && !IsBreak(c)
    case CharEsc(c, tail) =>
      !IsBreak(c) && NoBreak(tail) && Absent(tail, '\'') && Absent(tail, '\\') && |tail| <= 9
    case StrLit(_, items) => forall x :: x in items && x.Chr? ==> x.c != '"' && x.c != '\\'
    case RawStr(_, hashes, body) => hashes <= 255 && forall i :: 0 <= i < |body| ==> !At(body, i, RawClose(hashes))
    case LineComment(s) => NoBreak(s)
    case BlockComment(parts) => WellParts(parts)
  }

  predicate IsString(x: Token) { x.StrLit? || x.RawStr? }

  predicate IsComment(x: Token) { x.LineComment? || x.BlockComment? }

  /** Plain code does not run into the next token: two chunks of it are never adjacent, a chunk
      that ends in `/` is not followed by a comment, nor one that ends in `r`, `b` or `#` (which
      may be taken for the prefix of a raw string) by a string. */
  predicate Joins(x: Token, y: Token) {
    x.Plain? ==> && !y.Plain? && x.text != ""
                 && (IsComment(y) ==> !Ends(x.text, '/'))
                 && (IsString(y) ==> !Ends(x.text, 'r') && !Ends(x.text, 'b') && !Ends(x.text, '#'))
  }

  /** A line comment is followed by the newline, or by nothing. */
  predicate EndsLine(x: Token, y: Token) {
    x.LineComment? ==> y.Plain? && y.text != "" && y.text[0] == '\n'
  }

  /** The number of backslashes right before `s[i]`. */
  function Backslashes(s: string, i: nat): nat
    requires i <= |s|
  {
    if i > 0 && s[i - 1] == '\\' then 1 + Backslashes(s, i - 1) else 0
  }

  predicate IsEscaped(s: string, i: nat)
    requires i <= |s|
  {
    Backslashes(s, i) % 2 == 1
  }

  /** After an apostrophe and before `s`: the apostrophe `s[i]` closes what may be a character literal,
      as it is not escaped and within the next twelve characters on the line. */
  predicate ClosesTick(s: string, i: nat) {
    i < |s| && i < 12 && s[i] == '\'' && !IsEscaped(s, i) && NoBreak(s[..i])
  }

  /** How many characters after an apostrophe, and before `s`, are passed with it. */
  function Window(s: string, i: nat): (n: nat)
    ensures n <= |s|
    ensures n == 0 <==> forall j :: i <= j ==> !ClosesTick(s, j)
    ensures n > 0 ==> i < n && ClosesTick(s, n - 1) && forall j :: i <= j < n - 1 ==> !ClosesTick(s, j)
    decreases |s| - i
  {
    if i >= |s| then 0 else if ClosesTick(s, i) then i + 1 else Window(s, i + 1)
  }

  /** What is passed with an apostrophe is nothing but plain code and other apostrophes: `'a, 'b` is
      passed as one, and nothing is lost. */
  predicate WellFormed(xs: seq<Token>)
    decreases |xs|, 0
  {
    xs == [] ||
    (&& WellToken(xs[0])
     && (|xs| > 1 ==> Joins(xs[0], xs[1]) && EndsLine(xs[0], xs[1]))
     && if xs[0].Tick? then Skips(xs[1..], Window(Print(xs[1..]), 0)) else WellFormed(xs[1..]))
  }

  /** The first `n` characters are those of whole tokens that are no comments or literals; a well-formed
      list follows. */
  predicate Skips(xs: seq<Token>, n: nat)
    decreases |xs|, 1
  {
    if n == 0 then WellFormed(xs) else
    && xs != [] && (xs[0].Plain? || xs[0].Tick?) && |PrintToken(xs[0])| <= n
    && Skips(xs[1..], n - |PrintToken(xs[0])|)
  }

  // ----- The comments among the tokens -----

  function TokenSpan(x: Token, p: nat, id: nat): seq<Span> {
    var q := p + |PrintToken(x)|;
    match x
    case LineComment(_) => [Span(p, q, RustLine, None)]
    case BlockComment(_) => [Span(p, q, RustBlock, Some(id + 1))]
    case _ => []
  }

  function NextId(x: Token, id: nat): nat {
    if x.BlockComment? then id + 1 else id
  }

  /** Where the comments of a printed token list are when printing starts at `p`. */
  function TokenSpans(xs: seq<Token>, p: nat, id: nat): seq<Span> {
    if xs == [] then []
    else TokenSpan(xs[0], p, id) + TokenSpans(xs[1..], p + |PrintToken(xs[0])|, NextId(xs[0], id))
  }

  // ----- Reading back -----

  lemma {:induction false} StringBack(t: string, p: nat, items: seq<Item>, rest: string)
    requires Reads(t, p, PrintItems(items) + "\"", rest)
    requires forall x :: x in items && x.Chr? ==> x.c != '"' && x.c != '\\'
    ensures StringEnd(t, p) == p + |PrintItems(items)| + 1
    decreases |items|
  {
    var w := PrintItems(items) + "\"";
    if items == [] {
      assert w[0] == '"';
    } else {
      var head := PrintItem(items[0]);
      assert items[0] in items;
      assert w == head + (PrintItems(items[1..]) + "\"");
      ReadsAppend(t, p, head, PrintItems(items[1..]) + "\"", rest);
      StringBack(t, p + |head|, items[1..], rest);
      assert head[0] == t[p];
    }
  }

  lemma CharBack(t: string, p: nat, x: Token, rest: string)
    requires x.CharLit? && WellToken(x) && Reads(t, p, PrintToken(x), rest)
    ensures t[p] == '\'' && CharEnd(t, p) == p + 3
  {
    var w := PrintToken(x);
    assert t[p] == w[0] && t[p + 1] == w[1] && t[p + 2] == w[2];
    assert CharClose(t, p, p + 2, false) == Some(p + 3);
  }

  lemma {:induction false} CharTail(t: string, open: nat, p: nat, w: string, escaped: bool)
    requires open < p && p + |w| < |t| && p + |w| - open <= 12
    requires forall i :: 0 <= i < |w| ==> t[p + i] == w[i] && w[i] != '\'' && w[i] != '\\' && !IsBreak(w[i])
    requires t[p + |w|] == '\'' && !escaped
    ensures CharClose(t, open, p, escaped) == Some(p + |w| + 1)
    decreases |w|
  {
    if w != "" {
      assert t[p + 0] == w[0];
      forall i | 0 <= i < |w[1..]|
        ensures t[p + 1 + i] == w[1..][i] && w[1..][i] != '\'' && w[1..][i] != '\\' && !IsBreak(w[1..][i])
      {
        assert t[p + (i + 1)] == w[i + 1];
      }
      CharTail(t, open, p + 1, w[1..], false);
    }
  }

  lemma CharEscBack(t: string, p: nat, x: Token, rest: string)
    requires x.CharEsc? && WellToken(x) && Reads(t, p, PrintToken(x), rest)
    ensures t[p] == '\'' && CharEnd(t, p) == p + |PrintToken(x)|
  {
    var w := PrintToken(x);
    var n := |x.tail|;
    assert t[p] == w[0] && t[p + 1] == w[1] && t[p + 2] == w[2];
    assert t[p + (3 + n)] == w[3 + n];
    forall i | 0 <= i < n ensures t[p + 3 + i] == x.tail[i] {
      assert t[p + (3 + i)] == w[3 + i];
    }
    CharTail(t, p, p + 3, x.tail, false);
    assert CharClose(t, p, p + 2, true) == CharClose(t, p, p + 3, false);
    assert CharClose(t, p, p + 1, false) == CharClose(t, p, p + 2, true);
  }

  lemma NoBreakStep(s: string, i: nat)
    requires i < |s| && NoBreak(s[..i])
    ensures NoBreak(s[..i + 1]) <==> !IsBreak(s[i])
  {
    assert s[..i + 1][i] == s[i];
    if !IsBreak(s[i]) {
      var w := s[..i + 1];
      forall j | 0 <= j < |w| ensures !IsBreak(w[j]) { if j < i { assert w[j] == s[..i][j]; } }
    }
  }

  lemma BreakStays(s: string, i: nat)
    requires i <= |s| && !NoBreak(s[..i])
    ensures Window(s, i) == 0
  {
    forall j | i <= j ensures !ClosesTick(s, j) {
      if j < |s| {
        var k :| 0 <= k < i && IsBreak(s[..i][k]);
        assert s[..j][k] == s[k];
      }
    }
  }

  /** The search for the apostrophe that closes a character literal. */
  lemma {:induction false} CloseIsWindow(t: string, p: nat, rest: string, i: nat)
    requires Reads(t, p, "'", rest) && i <= |rest| && NoBreak(rest[..i])
    ensures var n := Window(rest, i);
            CharClose(t, p, p + 1 + i, IsEscaped(rest, i)) == if n == 0 then None else Some(p + 1 + n)
    decreases |rest| - i
  {
    hide IsBreak, NoBreak, Backslashes, Window;
    WindowStep(rest, i);
    ReadsIn(t, p, "'", rest);
    if i < |rest| && i < 12 {
      assert t[p + 1 + i] == rest[i];
      EscapedStep(rest, i);
      if !ClosesTick(rest, i) {
        NoBreakStep(rest, i);
        if IsBreak(rest[i]) { BreakStays(rest, i + 1); } else { CloseIsWindow(t, p, rest, i + 1); }
      }
    }
  }

  lemma WindowStep(s: string, i: nat)
    ensures i >= |s| || i >= 12 ==> Window(s, i) == 0
    ensures i < |s| ==> Window(s, i) == if ClosesTick(s, i) then i + 1 else Window(s, i + 1)
  {
    hide IsEscaped, NoBreak;
  }

  lemma EscapedStep(s: string, i: nat)
    requires i < |s|
    ensures IsEscaped(s, i + 1) == (s[i] == '\\' && !IsEscaped(s, i))
  {
  }

  /** An apostrophe is passed together with its window. */
  lemma TickWindow(t: string, p: nat, rest: string)
    requires Reads(t, p, "'", rest)
    ensures p < |t| && t[p] == '\'' && CharEnd(t, p) == p + 1 + Window(rest, 0)
  {
    hide Window;
    assert t[p + 0] == "'"[0];
    CloseIsWindow(t, p, rest, 0);
    assert !IsEscaped(rest, 0);
  }

  // ----- Raw strings -----

  lemma {:induction false} HashRunIs(t: string, p: nat, n: nat)
    requires p + n < |t| && t[p + n] != '#' && forall q :: p <= q < p + n ==> t[q] == '#'
    ensures HashRun(t, p) == n
    decreases n
  {
    if n > 0 { HashRunIs(t, p + 1, n - 1); }
  }

  lemma RawOpenBack(t: string, p: nat, byte: bool, hashes: nat, rest: string)
    requires hashes <= 255
    requires Reads(t, p, RawPrefix(byte, hashes), rest)
    ensures RawOpen(t, p) == Some((if byte then hashes + 3 else hashes + 2, hashes))
  {
    var prefix := if byte then "br" else "r";
    var w := prefix + Hashes(hashes) + "\"";
    var n := |prefix|;
    assert t[p] == w[0] && t[p + 1] == w[1];
    forall q | p + n <= q < p + n + hashes ensures t[q] == '#' {
      assert w[q - p] == Hashes(hashes)[q - p - n];
    }
    assert t[p + (n + hashes)] == w[n + hashes] == '"';
    HashRunIs(t, p + n, hashes);
    if !byte {
      assert t[p + 1] == '#' || t[p + 1] == '"';
    }
  }

  /** The first closing quote that has all its hashes is the one printed after the body. */
  lemma RawCloseBack(t: string, p: nat, hashes: nat, body: string, rest: string)
    requires Reads(t, p, body + RawClose(hashes), rest)
    requires forall i :: 0 <= i < |body| ==> !At(body, i, RawClose(hashes))
    ensures Find(t, RawClose(hashes), p) == Some(p + |body|)
  {
    var close := RawClose(hashes);
    var w := body + close;
    forall j | 0 <= j < |close| ensures t[p + |body| + j] == close[j] {
      assert t[p + (|body| + j)] == w[|body| + j];
    }
    forall q | p <= q < p + |body| ensures !At(t, q, close) {
      var i := q - p;
      assert !At(body, i, close);
      if i + |close| <= |body| {
        var j :| 0 <= j < |close| && body[i + j] != close[j];
        assert t[p + (i + j)] == w[i + j];
      } else {
        var j := |body| - i;
        assert t[p + |body|] == w[|body|] == '"' && close[j] == Hashes(hashes)[j - 1];
        assert q + |close| <= |t| ==> t[q + j] != close[j];
      }
    }
    FindIs(t, close, p, p + |body|);
  }

  // ----- Block comments -----

  /** What may follow the parts of a block comment: the closer, whatever comes after it. */
  ghost predicate Closes(rest: string) { At2(rest, 0, '*', '/') }

  lemma {:induction false} WordsBack(t: string, p: nat, s: string, rest: string, depth: nat)
    requires Reads(t, p, s, rest) && 0 < depth
    requires NoPair(s, '/', '*') && NoPair(s, '*', '/')
    requires rest != "" && (Ends(s, '*') ==> rest[0] != '/') && (Ends(s, '/') ==> rest[0] != '*')
    ensures BlockEnd(t, p, depth) == BlockEnd(t, p + |s|, depth)
    decreases |s|
  {
    if s != "" {
      assert t[p + 0] == s[0];
      assert !At2(s, 0, '/', '*') && !At2(s, 0, '*', '/');
      if |s| > 1 { assert t[p + 1] == s[1]; } else { assert t[p + |s| + 0] == rest[0]; }
      assert s == [s[0]] + s[1..];
      ReadsAppend(t, p, [s[0]], s[1..], rest);
      forall i | 0 <= i < |s[1..]| ensures !At2(s[1..], i, '/', '*') && !At2(s[1..], i, '*', '/') {
        assert !At2(s, i + 1, '/', '*') && !At2(s, i + 1, '*', '/');
      }
      WordsBack(t, p + 1, s[1..], rest, depth);
    }
  }

  lemma {:induction false} PartsBack(t: string, p: nat, xs: seq<Part>, rest: string, depth: nat)
    requires Reads(t, p, PrintParts(xs), rest) && WellParts(xs) && 0 < depth && Closes(rest)
    ensures BlockEnd(t, p, depth) == BlockEnd(t, p + |PrintParts(xs)|, depth)
    decreases xs, 1
  {
    hide *;
    if xs == [] {
      NoParts();
    } else {
      var a, b := PrintPart(xs[0]), PrintParts(xs[1..]);
      FirstPart(xs, rest);
      ReadsAppend(t, p, a, b, rest);
      match xs[0] {
        case Words(s) => WordsBack(t, p, s, b + rest, depth);
        case Inner(parts) => InnerBack(t, p, parts, b + rest, depth);
      }
      PartsBack(t, p + |a|, xs[1..], rest, depth);
    }
  }

  lemma NoParts()
    ensures PrintParts([]) == ""
  {
  }

  lemma FirstPart(xs: seq<Part>, rest: string)
    requires xs != [] && WellParts(xs) && Closes(rest)
    ensures PrintParts(xs) == PrintPart(xs[0]) + PrintParts(xs[1..]) && WellParts(xs[1..])
    ensures match xs[0]
            case Words(s) =>
              && PrintPart(xs[0]) == s && NoPair(s, '/', '*') && NoPair(s, '*', '/')
              && (var after := PrintParts(xs[1..]) + rest;
                  after != "" && (Ends(s, '*') ==> after[0] != '/') && (Ends(s, '/') ==> after[0] != '*'))
            case Inner(parts) => PrintPart(xs[0]) == "/*" + PrintParts(parts) + "*/" && WellParts(parts)
  {
    hide NoPair, Ends;
    if |xs| > 1 && xs[0].Words? {
      InnerStarts(xs[1..]);
    } else if xs[0].Words? {
      assert PrintParts(xs[1..]) + rest == rest;
    }
  }

  lemma InnerStarts(xs: seq<Part>)
    requires xs != [] && xs[0].Inner?
    ensures PrintParts(xs) != "" && PrintParts(xs)[0] == '/'
  {
    assert PrintPart(xs[0])[0] == '/';
  }

  lemma {:induction false} InnerBack(t: string, p: nat, parts: seq<Part>, rest: string, depth: nat)
    requires Reads(t, p, "/*" + PrintParts(parts) + "*/", rest) && WellParts(parts) && 0 < depth
    ensures BlockEnd(t, p, depth) == BlockEnd(t, p + |PrintParts(parts)| + 4, depth)
    ensures OpensBlock(t, p) && BlockEnd(t, p + 2, 1) == p + |PrintParts(parts)| + 4
    decreases parts, 2
  {
    hide Reads, PrintParts, WellParts;
    ReadsInner(t, p, PrintParts(parts), rest);
    PartsBack(t, p + 2, parts, "*/" + rest, depth + 1);
    PartsBack(t, p + 2, parts, "*/" + rest, 1);
  }

  lemma ReadsInner(t: string, p: nat, w: string, rest: string)
    requires Reads(t, p, "/*" + w + "*/", rest)
    ensures Reads(t, p + 2, w, "*/" + rest) && Closes("*/" + rest)
    ensures OpensBlock(t, p) && ClosesBlock(t, p + 2 + |w|)
  {
    var u := "/*" + w + "*/";
    assert t[p + 0] == u[0] && t[p + 1] == u[1];
    assert t[p + (2 + |w|)] == u[2 + |w|] && t[p + (3 + |w|)] == u[3 + |w|];
    assert u == "/*" + (w + "*/");
    ReadsAppend(t, p, "/*", w + "*/", rest);
    ReadsAppend(t, p + 2, w, "*/", rest);
  }

  // ----- Plain code -----

  lemma RawOpenChars(t: string, p: nat)
    requires RawOpen(t, p).Some?
    ensures var n := RawOpen(t, p).value.0;
            && t[p + n - 1] == '"' && forall q :: p <= q < p + n - 1 ==> t[q] in "rb#"
  {
    var prefix := if At2(t, p, 'b', 'r') || At2(t, p, 'r', 'b') then 2 else 1;
    HashRunStop(t, p + prefix);
  }

  /** What may follow a chunk of plain code. */
  ghost predicate Follows(s: string, rest: string) {
    rest != "" ==>
      && rest[0] in "/'\"rb"
      && (rest[0] == '/' ==> !Ends(s, '/'))
      && (rest[0] in "\"rb" ==> !Ends(s, 'r') && !Ends(s, 'b') && !Ends(s, '#'))
  }

  lemma NoRawInPlain(t: string, p: nat, s: string, rest: string, i: nat)
    requires Reads(t, p, s, rest) && i < |s| && Absent(s, '"') && Follows(s, rest)
    ensures RawOpen(t, p + i) == None && !At2(t, p + i, 'b', '"')
  {
    var e := p + |s|;
    forall q | p <= q < e ensures t[q] == s[q - p] && t[q] != '"' {
      assert t[p + (q - p)] == s[q - p];
    }
    if rest != "" { assert t[e + 0] == rest[0]; }
    if RawOpen(t, p + i).Some? {
      RawOpenChars(t, p + i);
    }
  }

  lemma {:induction false} PlainBack(t: string, p: nat, s: string, rest: string, i: nat, id: nat)
    requires Reads(t, p, s, rest) && WellToken(Plain(s)) && Follows(s, rest) && i <= |s|
    ensures Spans(t, p + i, Code, id) == Spans(t, p + |s|, Code, id)
    decreases |s| - i
  {
    if i < |s| {
      NoRawInPlain(t, p, s, rest, i);
      assert !At2(s, i, '/', '/') && !At2(s, i, '/', '*');
      assert t[p + i] == s[i];
      if i + 1 < |s| { assert t[p + (i + 1)] == s[i + 1]; } else if rest != "" { assert t[p + |s| + 0] == rest[0]; }
      PlainBack(t, p, s, rest, i + 1, id);
    }
  }

  /** How the printed form of a token that is not plain code starts. */
  lemma TokenStarts(x: Token)
    requires !x.Plain?
    ensures PrintToken(x) != "" && PrintToken(x)[0] in "/'\"rb"
    ensures PrintToken(x)[0] == '/' ==> IsComment(x)
    ensures PrintToken(x)[0] in "\"rb" ==> IsString(x)
  {
  }

  lemma PlainFollows(s: string, xs: seq<Token>)
    requires xs != [] ==> Joins(Plain(s), xs[0])
    ensures Follows(s, Print(xs))
  {
    if xs != [] { TokenStarts(xs[0]); }
  }

  lemma StrLitBack(t: string, p: nat, x: Token, rest: string, id: nat)
    requires x.StrLit? && WellToken(x) && Reads(t, p, PrintToken(x), rest)
    ensures Spans(t, p, Code, id) == Spans(t, p + |PrintToken(x)|, Code, id)
  {
    hide *;
    var w, open := PrintToken(x), if x.byte then "b\"" else "\"";
    StrTokenIs(x);
    StrOpens(t, p, open, PrintItems(x.items) + "\"", rest);
    ReadsIn(t, p, w, rest);
    ReadsAppend(t, p, open, PrintItems(x.items) + "\"", rest);
    StringBack(t, p + |open|, x.items, rest);
    StrSpans(t, p, |open|, p + |w|, id);
  }

  lemma StrTokenIs(x: Token)
    requires x.StrLit? && WellToken(x)
    ensures PrintToken(x) == (if x.byte then "b\"" else "\"") + (PrintItems(x.items) + "\"")
    ensures forall i :: i in x.items && i.Chr? ==> i.c != '"' && i.c != '\\'
  {
    hide PrintItems;
  }

  lemma StrOpens(t: string, p: nat, open: string, tail: string, rest: string)
    requires Reads(t, p, open + tail, rest) && (open == "b\"" || open == "\"") && tail != ""
    ensures p + |open| < |t| && if open == "\"" then t[p] == '"' else At2(t, p, 'b', '"')
  {
    var w := open + tail;
    assert t[p + 0] == w[0] && t[p + 1] == w[1];
  }

  lemma StrSpans(t: string, p: nat, n: nat, e: nat, id: nat)
    requires (n == 2 && At2(t, p, 'b', '"')) || (n == 1 && p < |t| && t[p] == '"')
    requires p + n < |t| && StringEnd(t, p + n) == e
    ensures Spans(t, p, Code, id) == Spans(t, e, Code, id)
  {
    assert RawOpen(t, p) == None;
    assert Spans(t, p, Code, id) == Spans(t, p + n, Str, id);
  }

  lemma RawTokenIs(x: Token)
    requires x.RawStr? && WellToken(x)
    ensures PrintToken(x) == RawPrefix(x.byte, x.hashes) + (x.body + RawClose(x.hashes)) && x.hashes <= 255
    ensures forall i :: 0 <= i < |x.body| ==> !At(x.body, i, RawClose(x.hashes))
  {
    hide RawPrefix, RawClose;
  }

  lemma RawStrBack(t: string, p: nat, x: Token, rest: string, id: nat)
    requires x.RawStr? && WellToken(x) && Reads(t, p, PrintToken(x), rest)
    ensures Spans(t, p, Code, id) == Spans(t, p + |PrintToken(x)|, Code, id)
  {
    hide *;
    var open, tail := RawPrefix(x.byte, x.hashes), x.body + RawClose(x.hashes);
    RawTokenIs(x);
    ReadsIn(t, p, open + tail, rest);
    ReadsAppend(t, p, open, tail, rest);
    RawOpenBack(t, p, x.byte, x.hashes, tail + rest);
    RawCloseBack(t, p + |open|, x.hashes, x.body, rest);
    RawSpans(t, p, |open|, x.hashes, p + |open| + |x.body|, id);
  }

  lemma RawSpans(t: string, p: nat, n: nat, hashes: nat, close: nat, id: nat)
    requires p + n < |t| && RawOpen(t, p) == Some((n, hashes)) && Find(t, RawClose(hashes), p + n) == Some(close)
    ensures Spans(t, p, Code, id) == Spans(t, close + hashes + 1, Code, id)
  {
    hide RawOpen, Find, CharEnd, BlockEnd, StringEnd, LineEnd, LineCommentEnd;
    assert Spans(t, p, Code, id) == Spans(t, p + n, Raw(hashes), id);
  }

  lemma LineCommentBack(t: string, p: nat, x: Token, rest: string, id: nat)
    requires x.LineComment? && WellToken(x) && Reads(t, p, PrintToken(x), rest)
    requires rest != "" ==> rest[0] == '\n'
    ensures Spans(t, p, Code, id) == TokenSpan(x, p, id) + Spans(t, p + |PrintToken(x)|, Code, id)
  {
    hide *;
    LineTokenIs(x, p, id);
    var e := p + |PrintToken(x)|;
    CommentEnd(t, p, PrintToken(x), rest);
    ReadsAppend(t, p, "//", x.text, rest);
    SlashesBack(t, p, x.text + rest);
    CommentSpans(t, p, id);
    if rest != "" { NewlineSpans(t, e, id); }
  }

  lemma SlashesBack(t: string, p: nat, rest: string)
    requires Reads(t, p, "//", rest)
    ensures At2(t, p, '/', '/') && p < |t| && t[p] == '/'
  {
    assert t[p + 0] == "//"[0] && t[p + 1] == "//"[1];
  }

  lemma LineTokenIs(x: Token, p: nat, id: nat)
    requires x.LineComment? && WellToken(x)
    ensures PrintToken(x) == "//" + x.text && PrintToken(x) != "" && NoBreak(PrintToken(x))
    ensures TokenSpan(x, p, id) == [Span(p, p + |PrintToken(x)|, RustLine, None)]
  {
    forall i | 0 <= i < |PrintToken(x)| ensures !IsBreak(PrintToken(x)[i]) {
      if i >= 2 { assert PrintToken(x)[i] == x.text[i - 2]; }
    }
  }

  lemma NewlineSpans(t: string, p: nat, id: nat)
    requires p < |t| && t[p] == '\n'
    ensures Spans(t, p, Code, id) == Spans(t, p + 1, Code, id)
  {
    assert RawOpen(t, p) == None;
  }

  lemma BlockCommentBack(t: string, p: nat, x: Token, rest: string)
    requires x.BlockComment? && WellToken(x) && Reads(t, p, PrintToken(x), rest)
    ensures OpensBlock(t, p) && t[p] == '/' && BlockEnd(t, p + 2, 1) == p + |PrintToken(x)|
  {
    InnerBack(t, p, x.parts, rest, 1);
  }

  lemma TokenIs(x: Token, p: nat, id: nat)
    requires WellToken(x)
    ensures x.Plain? ==> PrintToken(x) == x.text
    ensures x.Tick? ==> PrintToken(x) == "'"
    ensures x.CharLit? ==> |PrintToken(x)| == 3
    ensures !x.LineComment? && !x.BlockComment? ==> TokenSpan(x, p, id) == [] && NextId(x, id) == id
    ensures x.LineComment? ==> NextId(x, id) == id
    ensures x.BlockComment? ==>
              NextId(x, id) == id + 1 && TokenSpan(x, p, id) == [Span(p, p + |PrintToken(x)|, RustBlock, Some(id + 1))]
  {
    hide WellToken, PrintParts, PrintItems, RawPrefix, RawClose;
  }

  /** The lexer crosses one printed token in one go and reports it if it is a comment. */
  lemma TokenBack(t: string, p: nat, x: Token, rest: string, id: nat)
    requires WellToken(x) && Reads(t, p, PrintToken(x), rest)
    requires x.Plain? ==> Follows(x.text, rest)
    requires !x.Tick? && (x.LineComment? && rest != "" ==> rest[0] == '\n')
    ensures Spans(t, p, Code, id) == TokenSpan(x, p, id) + Spans(t, p + |PrintToken(x)|, Code, NextId(x, id))
  {
    hide *;
    TokenIs(x, p, id);
    match x
    case Plain(s) => PlainBack(t, p, s, rest, 0, id);
    case CharLit(_) => CharBack(t, p, x, rest); QuoteSpans(t, p, id);
    case CharEsc(_, _) => CharEscBack(t, p, x, rest); QuoteSpans(t, p, id);
    case StrLit(_, _) => StrLitBack(t, p, x, rest, id);
    case RawStr(_, _, _) => RawStrBack(t, p, x, rest, id);
    case LineComment(_) => LineCommentBack(t, p, x, rest, id);
    case BlockComment(_) => BlockCommentBack(t, p, x, rest); CommentSpans(t, p, id);
  }

  lemma QuoteSpans(t: string, p: nat, id: nat)
    requires p < |t| && t[p] == '\''
    ensures Spans(t, p, Code, id) == Spans(t, CharEnd(t, p), Code, id)
  {
  }

  lemma CommentSpans(t: string, p: nat, id: nat)
    requires p < |t| && t[p] == '/'
    ensures At2(t, p, '/', '/') ==>
              Spans(t, p, Code, id)
                == [Span(p, LineCommentEnd(t, p), RustLine, None)] + Spans(t, LineEnd(t, p), Code, id)
    ensures OpensBlock(t, p) ==>
              Spans(t, p, Code, id)
                == (var e := BlockEnd(t, p + 2, 1); [Span(p, e, RustBlock, Some(id + 1))] + Spans(t, e, Code, id + 1))
  {
  }

  lemma {:induction false} TokensBack(t: string, p: nat, xs: seq<Token>, id: nat)
    requires WellFormed(xs) && Reads(t, p, Print(xs), "")
    ensures Spans(t, p, Code, id) == TokenSpans(xs, p, id)
    decreases |xs|, 0
  {
    hide *;
    if xs == [] {
      NoTokens(p, id);
      ReadsIn(t, p, "", "");
      SpansAtEnd(t, p, id);
    } else {
      var x := xs[0];
      var w, rest := PrintToken(x), Print(xs[1..]);
      FirstToken(xs, p, id);
      ReadsNext(t, p, w, rest);
      if x.Tick? {
        TokenIs(x, p, id);
        TickWindow(t, p, rest);
        QuoteSpans(t, p, id);
        SkipsBack(t, p + 1, xs[1..], Window(rest, 0), id);
      } else {
        if x.Plain? { PlainFollows(x.text, xs[1..]); }
        if x.LineComment? { LineFollows(x, xs[1..]); }
        TokenBack(t, p, x, rest, id);
        TokensBack(t, p + |w|, xs[1..], NextId(x, id));
      }
    }
  }

  lemma {:induction false} SkipsBack(t: string, p: nat, xs: seq<Token>, n: nat, id: nat)
    requires Skips(xs, n) && Reads(t, p, Print(xs), "")
    ensures Spans(t, p + n, Code, id) == TokenSpans(xs, p, id)
    decreases |xs|, 1
  {
    hide *;
    SkipsStep(xs, n, p, id);
    if n == 0 {
      TokensBack(t, p, xs, id);
    } else {
      var w := PrintToken(xs[0]);
      ReadsNext(t, p, w, Print(xs[1..]));
      SkipsBack(t, p + |w|, xs[1..], n - |w|, id);
    }
  }

  lemma SkipsStep(xs: seq<Token>, n: nat, p: nat, id: nat)
    requires Skips(xs, n)
    ensures n == 0 ==> WellFormed(xs)
    ensures n > 0 ==>
              && xs != [] && |PrintToken(xs[0])| <= n && Skips(xs[1..], n - |PrintToken(xs[0])|)
              && Print(xs) == PrintToken(xs[0]) + Print(xs[1..])
              && TokenSpans(xs, p, id) == TokenSpans(xs[1..], p + |PrintToken(xs[0])|, id)
  {
    hide WellFormed;
  }

  lemma LineFollows(x: Token, xs: seq<Token>)
    requires x.LineComment? && (xs != [] ==> EndsLine(x, xs[0]))
    ensures Print(xs) != "" ==> Print(xs)[0] == '\n'
  {
  }

  lemma NoTokens(p: nat, id: nat)
    ensures Print([]) == "" && TokenSpans([], p, id) == []
  {
  }

  lemma FirstToken(xs: seq<Token>, p: nat, id: nat)
    requires WellFormed(xs) && xs != []
    ensures Print(xs) == PrintToken(xs[0]) + Print(xs[1..])
    ensures TokenSpans(xs, p, id)
            == TokenSpan(xs[0], p, id) + TokenSpans(xs[1..], p + |PrintToken(xs[0])|, NextId(xs[0], id))
    ensures WellToken(xs[0]) && (xs[1..] != [] ==> Joins(xs[0], xs[1..][0]) && EndsLine(xs[0], xs[1..][0]))
    ensures if xs[0].Tick? then Skips(xs[1..], Window(Print(xs[1..]), 0)) else WellFormed(xs[1..])
    ensures xs[0].Plain? ==> xs[0] == Plain(xs[0].text)
  {
    hide WellToken, PrintToken, TokenSpan, Joins, EndsLine, Skips, Window;
  }

  lemma SpansAtEnd(t: string, p: nat, id: nat)
    requires |t| <= p
    ensures Spans(t, p, Code, id) == []
  {
  }

  // ----- Main result -----

  function TokenText(x: Token): seq<string> {
    match x
    case LineComment(s) => ["//" + s]
    case BlockComment(_) => [PrintToken(x)]
    case _ => []
  }

  /** The comments of a token list, as they are printed (a line comment without its newline). */
  function CommentTexts(xs: seq<Token>): seq<string> {
    if xs == [] then [] else TokenText(xs[0]) + CommentTexts(xs[1..])
  }

  lemma TokenTextBack(t: string, p: nat, x: Token, rest: string, id: nat)
    requires Reads(t, p, PrintToken(x), rest)
    ensures SpanTexts(t, TokenSpan(x, p, id)) == TokenText(x)
  {
    ReadsSlice(t, p, PrintToken(x), rest);
  }

  lemma {:induction false} TokenTexts(t: string, p: nat, xs: seq<Token>, id: nat)
    requires Reads(t, p, Print(xs), "")
    ensures SpanTexts(t, TokenSpans(xs, p, id)) == CommentTexts(xs)
    decreases |xs|
  {
    hide Reads, PrintToken, TokenSpan, TokenText;
    if xs != [] {
      var x, w := xs[0], PrintToken(xs[0]);
      ReadsNext(t, p, w, Print(xs[1..]));
      TokenTextBack(t, p, x, Print(xs[1..]), id);
      TokenTexts(t, p + |w|, xs[1..], NextId(x, id));
      SpanTextsAppend(t, TokenSpan(x, p, id), TokenSpans(xs[1..], p + |w|, NextId(x, id)));
    }
  }

  /** Main result: for every well-formed list of tokens, scanning what it prints finds exactly its
      comments, in order, where they were printed and with the text they were printed with; these
      are the comments that are reported. */
  lemma RoundTrip(path: string, xs: seq<Token>)
    requires WellFormed(xs)
    ensures forall s :: s in TokenSpans(xs, 0, 0) ==> SpanIn(Print(xs), s)
    ensures Comments(path, Print(xs)) == CutAll(path, Print(xs), TokenSpans(xs, 0, 0))
    ensures SpanTexts(Print(xs), TokenSpans(xs, 0, 0)) == CommentTexts(xs)
  {
    hide Print, TokenSpans, Spans, CutAll;
    TokensBack(Print(xs), 0, xs, 0);
    TokenTexts(Print(xs), 0, xs, 0);
  }
}
