/** Writing a here-document operator and parsing it gives back the delimiter. */
module ShellRoundTrip {
  import opened Text
  import opened Printing
  import opened ShellLexer

  /** A piece of a delimiter, by how it is quoted. */
  datatype Piece = Bare(text: string) | InSingle(text: string) | InDouble(text: string) | Escaped(c: char)

  /** The inside of double quotes: the four special characters are escaped. */
  function EscapeAll(s: string): string {
    if s == "" then "" else (if Special(s[0]) then ['\\', s[0]] else [s[0]]) + EscapeAll(s[1..])
  }

  function PrintPiece(x: Piece): string {
    match x
    case Bare(s) => s
    case InSingle(s) => ['\''] + (s + "'")
    case InDouble(s) => ['"'] + (EscapeAll(s) + "\"")
    case Escaped(c) => ['\\'] + [c]
  }

  function Print(xs: seq<Piece>): string {
    if xs == [] then "" else PrintPiece(xs[0]) + Print(xs[1..])
  }

  function PieceMeaning(x: Piece): string {
    if x.Escaped? then [x.c] else x.text
  }

  function Meaning(xs: seq<Piece>): string {
    if xs == [] then "" else PieceMeaning(xs[0]) + Meaning(xs[1..])
  }

  predicate WellPiece(x: Piece) {
    match x
    case Bare(s) => forall i :: 0 <= i < |s| ==> !EndsWord(s[i]) && s[i] != '\'' && s[i] != '"' && s[i] != '\\'
    case InSingle(s) => Absent(s, '\'')
    case _ => true
  }

  predicate WellFormed(xs: seq<Piece>) {
    xs == [] || (WellPiece(xs[0]) && WellFormed(xs[1..]))
  }

  lemma PrependMore(a: string, b: string, r: (string, nat, Quoting), x: (string, nat, Quoting))
    requires x == Prepend(b, r)
    ensures Prepend(a, x) == Prepend(a + b, r)
  {
    PrependTwice(a, b, r);
  }

  lemma {:induction false} BareBack(t: string, p: nat, s: string, rest: string)
    requires Reads(t, p, s, rest) && WellPiece(Bare(s))
    ensures Word(t, p, Unquoted) == Prepend(s, Word(t, p + |s|, Unquoted))
    decreases |s|
  {
    if s == "" {
      PrependTwice("", "", Word(t, p, Unquoted));
    } else {
      assert t[p + 0] == s[0] && s == [s[0]] + s[1..];
      ReadsAppend(t, p, [s[0]], s[1..], rest);
      BareBack(t, p + 1, s[1..], rest);
      PrependMore([s[0]], s[1..], Word(t, p + |s|, Unquoted), Word(t, p + 1, Unquoted));
    }
  }

  lemma {:induction false} SingleBack(t: string, p: nat, s: string, rest: string)
    requires Reads(t, p, s + "'", rest) && Absent(s, '\'')
    ensures Word(t, p, Single) == Prepend(s, Word(t, p + |s| + 1, Unquoted))
    decreases |s|
  {
    var w := s + "'";
    assert t[p + 0] == w[0];
    if s == "" {
      PrependTwice("", "", Word(t, p + 1, Unquoted));
    } else {
      assert w == [s[0]] + (s[1..] + "'");
      ReadsAppend(t, p, [s[0]], s[1..] + "'", rest);
      SingleBack(t, p + 1, s[1..], rest);
      assert [s[0]] + s[1..] == s;
      PrependMore([s[0]], s[1..], Word(t, p + |s| + 1, Unquoted), Word(t, p + 1, Single));
    }
  }

  lemma {:induction false} DoubleBack(t: string, p: nat, s: string, rest: string)
    requires Reads(t, p, EscapeAll(s) + "\"", rest)
    ensures Word(t, p, Double) == Prepend(s, Word(t, p + |EscapeAll(s)| + 1, Unquoted))
    decreases |s|
  {
    var w := EscapeAll(s) + "\"";
    assert t[p + 0] == w[0];
    if s == "" {
      PrependTwice("", "", Word(t, p + 1, Unquoted));
    } else {
      var head, tail := if Special(s[0]) then ['\\', s[0]] else [s[0]], EscapeAll(s[1..]) + "\"";
      assert w == head + tail;
      ReadsAppend(t, p, head, tail, rest);
      if Special(s[0]) { assert t[p + 1] == head[1]; }
      assert t[p] == head[0];
      DoubleBack(t, p + |head|, s[1..], rest);
      assert [s[0]] + s[1..] == s;
      PrependMore([s[0]], s[1..], Word(t, p + |EscapeAll(s)| + 1, Unquoted), Word(t, p + |head|, Double));
    }
  }

  lemma WordOpens(t: string, p: nat)
    requires p < |t|
    ensures t[p] == '\'' ==> Word(t, p, Unquoted) == Word(t, p + 1, Single)
    ensures t[p] == '"' ==> Word(t, p, Unquoted) == Word(t, p + 1, Double)
    ensures t[p] == '\\' && p + 1 < |t| ==> Word(t, p, Unquoted) == Prepend([t[p + 1]], Word(t, p + 2, Unquoted))
  {
  }

  lemma InSingleBack(t: string, p: nat, s: string, rest: string)
    requires Reads(t, p, PrintPiece(InSingle(s)), rest) && Absent(s, '\'')
    ensures Word(t, p, Unquoted) == Prepend(s, Word(t, p + (|s| + 2), Unquoted))
  {
    hide Reads, Word, Prepend, Absent;
    ReadsChar(t, p, '\'', s + "'", rest);
    SingleBack(t, p + 1, s, rest);
    WordOpens(t, p);
    assert p + 1 + |s| + 1 == p + (|s| + 2);
  }

  lemma InDoubleBack(t: string, p: nat, s: string, rest: string)
    requires Reads(t, p, PrintPiece(InDouble(s)), rest)
    ensures Word(t, p, Unquoted) == Prepend(s, Word(t, p + (|EscapeAll(s)| + 2), Unquoted))
  {
    hide *;
    DoubleIs(s);
    ReadsChar(t, p, '"', EscapeAll(s) + "\"", rest);
    DoubleBack(t, p + 1, s, rest);
    WordOpens(t, p);
  }

  lemma DoubleIs(s: string)
    ensures PrintPiece(InDouble(s)) == ['"'] + (EscapeAll(s) + "\"")
  {
    hide EscapeAll;
  }

  lemma EscapedBack(t: string, p: nat, c: char, rest: string)
    requires Reads(t, p, PrintPiece(Escaped(c)), rest)
    ensures Word(t, p, Unquoted) == Prepend([c], Word(t, p + 2, Unquoted))
  {
    hide Reads, Word, Prepend;
    ReadsChar(t, p, '\\', [c], rest);
    ReadsFirst(t, p + 1, [c], rest);
    WordOpens(t, p);
  }

  lemma PieceLength(x: Piece)
    ensures |PrintPiece(x)| == match x case Bare(s) => |s| case InSingle(s) => |s| + 2
                               case InDouble(s) => |EscapeAll(s)| + 2 case Escaped(_) => 2
  {
  }

  lemma PieceBack(t: string, p: nat, x: Piece, rest: string)
    requires Reads(t, p, PrintPiece(x), rest) && WellPiece(x)
    ensures Word(t, p, Unquoted) == Prepend(PieceMeaning(x), Word(t, p + |PrintPiece(x)|, Unquoted))
  {
    hide Reads, Word, Prepend, EscapeAll;
    PieceLength(x);
    match x
    case Bare(s) => BareBack(t, p, s, rest);
    case InSingle(s) => InSingleBack(t, p, s, rest);
    case InDouble(s) => InDoubleBack(t, p, s, rest);
    case Escaped(c) => EscapedBack(t, p, c, rest);
  }

  lemma {:induction false} WordBack(t: string, p: nat, xs: seq<Piece>, rest: string)
    requires Reads(t, p, Print(xs), rest) && WellFormed(xs)
    requires rest != "" ==> EndsWord(rest[0])
    ensures Word(t, p, Unquoted) == (Meaning(xs), p + |Print(xs)|, Unquoted)
    decreases |xs|
  {
    hide Reads, Word, PrintPiece, PieceMeaning, WellPiece, EndsWord;
    if xs == [] {
      WordEnd(t, p, rest);
    } else {
      var w, more := PrintPiece(xs[0]), Print(xs[1..]);
      ReadsAppend(t, p, w, more, rest);
      PieceBack(t, p, xs[0], more + rest);
      WordBack(t, p + |w|, xs[1..], rest);
    }
  }

  lemma WordEnd(t: string, p: nat, rest: string)
    requires Reads(t, p, "", rest) && (rest != "" ==> EndsWord(rest[0]))
    ensures Word(t, p, Unquoted) == ("", p, Unquoted)
  {
    if rest != "" { assert t[p + 0 + 0] == rest[0]; }
  }

  lemma {:induction false} BlanksBack(t: string, p: nat, blanks: string, rest: string)
    requires Reads(t, p, blanks, rest) && (forall i :: 0 <= i < |blanks| ==> IsBlank(blanks[i]))
    requires rest != "" ==> !IsBlank(rest[0])
    ensures SkipBlanks(t, p) == p + |blanks|
    decreases |blanks|
  {
    if blanks == "" {
      if rest != "" { assert t[p + 0 + 0] == rest[0]; }
    } else {
      assert t[p + 0] == blanks[0] && blanks == [blanks[0]] + blanks[1..];
      ReadsAppend(t, p, [blanks[0]], blanks[1..], rest);
      BlanksBack(t, p + 1, blanks[1..], rest);
    }
  }

  /** A here-document operator, as it is written. */
  function PrintOperator(strip: bool, blanks: string, xs: seq<Piece>): string {
    ['<'] + (['<'] + (if strip then ['-'] + (blanks + Print(xs)) else blanks + Print(xs)))
  }

  /** Main result: an operator written with any mixture of quoting styles, anywhere in a line,
      is parsed back to its delimiter, and the parser stops exactly where the word ends. */
  lemma OperatorBack(line: string, p: nat, strip: bool, blanks: string, xs: seq<Piece>, rest: string)
    requires Reads(line, p, PrintOperator(strip, blanks, xs), rest)
    requires p > 0 ==> line[p - 1] != '<'
    requires forall i :: 0 <= i < |blanks| ==> IsBlank(blanks[i])
    requires WellFormed(xs) && Meaning(xs) != ""
    requires Print(xs) != "" && Print(xs)[0] == '-' ==> strip || blanks != ""
    requires rest != "" ==> EndsWord(rest[0])
    ensures ParseHeredoc(line, p) == Some((Heredoc(Meaning(xs), strip), p + |PrintOperator(strip, blanks, xs)|))
  {
    hide *;
    var w, q := Print(xs), if strip then p + 3 else p + 2;
    FirstChar(xs);
    OperatorStarts(line, p, strip, blanks, xs, rest);
    assert (w + rest)[0] == w[0];
    BlanksBack(line, q, blanks, w + rest);
    WordBack(line, q + |blanks|, xs, rest);
    ParseIs(line, p, strip, q + |blanks|, Meaning(xs), q + |blanks| + |w|);
    OperatorLength(strip, blanks, xs);
  }

  lemma OperatorLength(strip: bool, blanks: string, xs: seq<Piece>)
    ensures |PrintOperator(strip, blanks, xs)| == (if strip then 3 else 2) + |blanks| + |Print(xs)|
  {
  }

  lemma ParseIs(line: string, p: nat, strip: bool, i: nat, delimiter: string, end: nat)
    requires At2(line, p, '<', '<') && !At3(line, p, '<', '<', '<') && (p > 0 ==> line[p - 1] != '<')
    requires (p + 2 < |line| && line[p + 2] == '-') == strip
    requires SkipBlanks(line, if strip then p + 3 else p + 2) == i
    requires Word(line, i, Unquoted) == (delimiter, end, Unquoted) && delimiter != ""
    ensures ParseHeredoc(line, p) == Some((Heredoc(delimiter, strip), end))
  {
  }

  lemma OperatorStarts(line: string, p: nat, strip: bool, blanks: string, xs: seq<Piece>, rest: string)
    requires Reads(line, p, PrintOperator(strip, blanks, xs), rest)
    requires forall i :: 0 <= i < |blanks| ==> IsBlank(blanks[i])
    requires Print(xs) != "" && Print(xs)[0] != '<' && !IsBlank(Print(xs)[0])
    requires Print(xs)[0] == '-' ==> strip || blanks != ""
    ensures At2(line, p, '<', '<') && !At3(line, p, '<', '<', '<')
    ensures (p + 2 < |line| && line[p + 2] == '-') == strip
    ensures var q := if strip then p + 3 else p + 2;
            && |line| == q + |blanks| + |Print(xs)| + |rest|
            && Reads(line, q, blanks, Print(xs) + rest) && Reads(line, q + |blanks|, Print(xs), rest)
  {
    hide Reads, Print;
    var w := blanks + Print(xs);
    var tail := if strip then ['-'] + w else w;
    ReadsChar(line, p, '<', ['<'] + tail, rest);
    ReadsChar(line, p + 1, '<', tail, rest);
    if strip { ReadsChar(line, p + 2, '-', w, rest); }
    var q := if strip then p + 3 else p + 2;
    ReadsAppend(line, q, blanks, Print(xs), rest);
    ReadsIn(line, q + |blanks|, Print(xs), rest);
    ReadsFirst(line, q + |blanks|, Print(xs), rest);
    if blanks != "" { ReadsFirst(line, q, blanks, Print(xs) + rest); }
  }

  lemma FirstChar(xs: seq<Piece>)
    requires WellFormed(xs) && Meaning(xs) != ""
    ensures Print(xs) != "" && Print(xs)[0] != '<' && !IsBlank(Print(xs)[0])
  {
    if xs[0].Bare? && xs[0].text == "" {
      FirstChar(xs[1..]);
    }
  }
}
