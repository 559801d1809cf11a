/** The TOML comment scanner of the hygiene gate: `TomlComments` works line by line and refines
    `Spans`, which reads the whole text once. */
module TomlLexer {
  import opened Text

  datatype Mode = Normal | Multi(literal: bool)

  function Quote(literal: bool): (q: char)
    ensures !IsBreak(q)
  {
    if literal then '\'' else '"'
  }

  function QuoteRun(t: string, p: nat, quote: char): (n: nat)
    ensures p <= |t| ==> p + n <= |t|
    decreases |t| - p
  {
    if p < |t| && t[p] == quote then 1 + QuoteRun(t, p + 1, quote) else 0
  }

  predicate Three(t: string, p: nat, literal: bool) {
    At3(t, p, Quote(literal), Quote(literal), Quote(literal))
  }

  /** Where the multi-line string that is open at `p` is closed; the whole closing run of quotes
      belongs to it. */
  function MultiEnd(t: string, p: nat, literal: bool): (e: Option<nat>)
    ensures e.Some? ==> p < e.value <= |t|
    decreases |t| - p
  {
    if p >= |t| then None
    else if !literal && t[p] == '\\' then MultiEnd(t, p + 2, literal)
    else if Three(t, p, literal) then Some(p + QuoteRun(t, p, Quote(literal)))
    else MultiEnd(t, p + 1, literal)
  }

  /** A basic string ends at its closing quote or with its line. */
  function BasicEnd(t: string, p: nat): (e: nat)
    ensures p < |t| ==> p < e <= |t|
    ensures |t| <= p ==> e == p
    decreases |t| - p
  {
    if p >= |t| then p
    else if t[p] == '\\' && p + 1 < |t| then if IsBreak(t[p + 1]) then p + 2 else BasicEnd(t, p + 2)
    else if t[p] == '"' || IsBreak(t[p]) then p + 1
    else BasicEnd(t, p + 1)
  }

  /** A literal string ends at the next apostrophe or with its line. */
  function LiteralEnd(t: string, p: nat): (e: nat)
    ensures p < |t| ==> p < e <= |t|
    ensures |t| <= p ==> e == p
    decreases |t| - p
  {
    if p >= |t| then p
    else if t[p] == '\'' || IsBreak(t[p]) then p + 1
    else LiteralEnd(t, p + 1)
  }

  function Spans(t: string, p: nat, m: Mode): (spans: seq<Span>)
    ensures forall s :: s in spans ==> SpanIn(t, s)
    decreases |t| - p
  {
    if p >= |t| then []
    else if m.Multi? then
      var e := MultiEnd(t, p, m.literal);
      if e.None? then [] else Spans(t, e.value, Normal)
    else if Three(t, p, false) then Spans(t, p + 3, Multi(false))
    else if Three(t, p, true) then Spans(t, p + 3, Multi(true))
    else if t[p] == '"' then Spans(t, BasicEnd(t, p + 1), Normal)
    else if t[p] == '\'' then Spans(t, LiteralEnd(t, p + 1), Normal)
    else if t[p] == '#' then [Span(p, LineCommentEnd(t, p), HashLine, None)] + Spans(t, LineEnd(t, p), Normal)
    else Spans(t, p + 1, Normal)
  }

  function AllSpans(t: string): seq<Span> {
    Spans(t, 0, Normal)
  }

  /** What the gate must report for the text `t`. */
  function Comments(path: string, t: string): seq<Comment> {
    CutAll(path, t, AllSpans(t))
  }

  // ----- Look-ahead stays inside the line -----

  lemma ThreeLocal(t: string, off: nat, line: string, k: nat, i: nat, literal: bool)
    requires OnLine(t, off, line, k) && i < |line|
    ensures Three(t, off + i, literal) == Three(line, i, literal)
  {
    var q := Quote(literal);
    assert t[off + i] == line[i];
    if i + 1 < |line| { assert t[off + (i + 1)] == line[i + 1]; }
    if i + 2 < |line| { assert t[off + (i + 2)] == line[i + 2]; }
  }

  lemma {:induction false} QuoteRunLocal(t: string, off: nat, line: string, k: nat, i: nat, quote: char)
    requires OnLine(t, off, line, k) && i <= |line| && !IsBreak(quote)
    requires i == |line| ==> 0 < i && line[i - 1] == quote
    ensures QuoteRun(t, off + i, quote) == QuoteRun(line, i, quote)
    decreases |line| - i
  {
    if i < |line| {
      assert t[off + i] == line[i];
      if line[i] == quote {
        QuoteRunLocal(t, off, line, k, i + 1, quote);
      }
    } else {
      assert IsBreak(line[i - 1]) || off + i == |t|;
    }
  }

  lemma ThreeRun(t: string, p: nat, literal: bool)
    requires Three(t, p, literal)
    ensures QuoteRun(t, p, Quote(literal)) >= 3
  {
    assert QuoteRun(t, p + 1, Quote(literal)) >= 2;
  }

  lemma GuardsLocal(t: string, off: nat, line: string, k: nat, i: nat)
    requires OnLine(t, off, line, k) && i < |line|
    ensures t[off + i] == line[i] && LineEnd(t, off + i) == off + |line|
    ensures Three(t, off + i, false) == Three(line, i, false)
    ensures Three(t, off + i, true) == Three(line, i, true)
  {
    ThreeLocal(t, off, line, k, i, false);
    ThreeLocal(t, off, line, k, i, true);
    LineEndLocal(t, off, line, k, i);
  }

  // ----- The scanner -----

  /** The inner loop over a run of quotes. */
  method CountQuotes(line: string, i: nat, quote: char) returns (run: nat)
    requires i <= |line|
    ensures run == QuoteRun(line, i, quote) && i + run <= |line|
  {
    run := 0;
    while i + run < |line| && line[i + run] == quote
      invariant i + run <= |line| && QuoteRun(line, i, quote) == run + QuoteRun(line, i + run, quote)
    {
      run := run + 1;
    }
  }

  method ConsumeTomlMultiline(line: string, start: nat, literal: bool, ghost t: string, ghost off: nat, ghost k: nat)
    returns (i: nat, closed: bool)
    requires OnLine(t, off, line, k) && start <= |line|
    ensures closed ==> start < i <= |line| && MultiEnd(t, off + start, literal) == Some(off + i)
    ensures !closed ==> MultiEnd(t, off + start, literal) == MultiEnd(t, off + |line|, literal)
  {
    i := start;
    while i < |line|
      invariant start <= i && (i <= |line| || (i == |line| + 1 && off + |line| == |t|))
      invariant MultiEnd(t, off + start, literal) == MultiEnd(t, off + i, literal)
    {
      GuardsLocal(t, off, line, k, i);
      if !literal && line[i] == '\\' {
        i := i + 2;
        continue;
      }
      if Three(line, i, literal) {
        ThreeRun(line, i, literal);
        QuoteRunLocal(t, off, line, k, i, Quote(literal));
        var run := CountQuotes(line, i, Quote(literal));
        if run >= 3 {
          return i + run, true;
        }
      }
      i := i + 1;
    }
    closed := false;
  }

  /** The inner loop over a basic string. */
  method ConsumeBasic(line: string, start: nat, ghost t: string, ghost off: nat, ghost k: nat) returns (i: nat)
    requires OnLine(t, off, line, k) && 0 < start <= |line|
    ensures start <= i && (i <= |line| || (i == |line| + 1 && off + |line| == |t|))
    ensures start < |line| ==> BasicEnd(t, off + start) == (if i > |line| then |t| else off + i)
    ensures start == |line| ==> i == |line|
  {
    i := start;
    while i < |line|
      invariant start <= i && (i <= |line| || (i == |line| + 1 && off + |line| == |t|))
      invariant i < |line| ==> BasicEnd(t, off + start) == BasicEnd(t, off + i)
      invariant i >= |line| && start < |line| ==> BasicEnd(t, off + start) == off + |line|
      invariant start == |line| ==> i == |line|
    {
      CharLocal(t, off, line, k, i);
      if i + 1 < |line| { CharLocal(t, off, line, k, i + 1); }
      if line[i] == '\\' {
        i := i + 2;
      } else if line[i] == '"' {
        i := i + 1;
        break;
      } else {
        i := i + 1;
      }
    }
  }

  function ModeOf(multiline: Option<bool>): Mode {
    if multiline.Some? then Multi(multiline.value) else Normal
  }

  ghost function Rest(path: string, t: string, p: nat, m: Mode): seq<Comment> {
    CutAll(path, t, Spans(t, p, m))
  }

  lemma RestPast(path: string, t: string, p: nat, m: Mode)
    requires |t| <= p
    ensures Rest(path, t, p, m) == []
  {
  }

  lemma MultiStep(t: string, p: nat, literal: bool)
    ensures Spans(t, p, Multi(literal))
         == (var e := MultiEnd(t, p, literal); if e.None? then [] else Spans(t, e.value, Normal))
  {
  }

  lemma {:induction false} LiteralEndIs(t: string, off: nat, line: string, k: nat, i: nat)
    requires OnLine(t, off, line, k) && i < |line|
    ensures LiteralEnd(t, off + i) == off + (match Find(line, "'", i) case None => |line| case Some(e) => e + 1)
    decreases |line| - i
  {
    CharLocal(t, off, line, k, i);
    if line[i] == '\'' {
      FindIs(line, "'", i, i);
    } else {
      assert !At(line, i, "'") by { assert "'"[0] == '\''; }
      FindSkip(line, "'", i, i + 1);
      if i + 1 < |line| {
        LiteralEndIs(t, off, line, k, i + 1);
      }
    }
  }

  lemma LineInText(t: string, off: nat, line: string, k: nat, i: nat)
    requires OnLine(t, off, line, k) && i < |line| && !IsBreak(line[i])
    ensures off + |line| <= |t| && (i + 1 == |line| ==> off + |line| == |t|)
  {
  }

  /** A multi-line string that has just been opened: on to its end, or to the end of the line. */
  method ScanMulti(line: string, start: nat, literal: bool, ghost t: string, ghost off: nat, ghost k: nat)
    returns (i: nat, multiline: Option<bool>)
    requires OnLine(t, off, line, k) && start <= |line|
    ensures start <= i <= |line| && (start < |line| ==> start < i) && (multiline.Some? ==> i == |line|)
    ensures Spans(t, off + start, Multi(literal))
         == Spans(t, off + i, ModeOf(multiline))
  {
    hide Spans, MultiEnd, OnLine;
    var closed;
    MultiStep(t, off + start, literal);
    i, closed := ConsumeTomlMultiline(line, start, literal, t, off, k);
    if closed {
      multiline := None;
    } else {
      i, multiline := |line|, Some(literal);
      MultiStep(t, off + i, literal);
    }
  }

  /** One step of the scanner outside multi-line strings. */
  method ScanNormal(path: string, line: string, start: nat, ghost t: string, ghost off: nat, k: nat)
    returns (i: nat, multiline: Option<bool>, found: seq<Comment>)
    requires OnLine(t, off, line, k) && start < |line|
    ensures start < i && (i <= |line| || (i == |line| + 1 && off + |line| == |t|))
    ensures multiline.Some? ==> i == |line|
    ensures Rest(path, t, off + start, Normal)
         == found + Rest(path, t, off + i, ModeOf(multiline))
  {
    hide CutAll, Cut, MultiEnd, BasicEnd, LiteralEnd, OnLine, LineEnd, LineCommentEnd, StripNewlines, Find;
    i, multiline, found := start, None, [];
    GuardsLocal(t, off, line, k, i);
    if Three(line, i, false) {
      i, multiline := ScanMulti(line, i + 3, false, t, off, k);
    } else if Three(line, i, true) {
      i, multiline := ScanMulti(line, i + 3, true, t, off, k);
    } else if line[i] == '"' {
      LineInText(t, off, line, k, i);
      i := ConsumeBasic(line, i + 1, t, off, k);
      if i > |line| { RestPast(path, t, off + i, Normal); RestPast(path, t, |t|, Normal); }
    } else if line[i] == '\'' {
      LineInText(t, off, line, k, i);
      if i + 1 < |line| { LiteralEndIs(t, off, line, k, i + 1); }
      var end := Find(line, "'", i + 1);
      i := if end.None? then |line| else end.value + 1;
    } else if line[i] == '#' {
      LineCommentCut(path, t, off, line, k, i, HashLine, Spans(t, off + |line|, Normal));
      found := [Add(path, line, k + 1, StripNewlines(line[i..]), HashLine, None)];
      i := |line|;
    } else {
      i := i + 1;
    }
  }

  method TomlComments(path: string, lines: seq<string>) returns (out: seq<Comment>)
    requires IsSplit(lines)
    ensures out == Comments(path, Join(lines))
  {
    hide Spans, CutAll, OnLine, IsSplit, Join;
    out := [];
    var multiline: Option<bool> := None;
    ghost var t := Join(lines);
    for k := 0 to |lines|
      invariant out + Rest(path, t, Offset(lines, k), ModeOf(multiline)) == Comments(path, t)
    {
      var line := lines[k];
      ghost var off := Offset(lines, k);
      LineAt(lines, k);
      OffsetNext(lines, k);
      var i := 0;
      while i < |line|
        invariant i <= |line| || (i == |line| + 1 && off + |line| == |t|)
        invariant out + Rest(path, t, off + i, ModeOf(multiline)) == Comments(path, t)
        decreases |line| + 1 - i, multiline.Some?
      {
        if multiline.Some? {
          i, multiline := ScanMulti(line, i, multiline.value, t, off, k);
        } else {
          var found;
          i, multiline, found := ScanNormal(path, line, i, t, off, k);
          out := out + found;
        }
      }
      if i > |line| {
        RestPast(path, t, off + i, ModeOf(multiline));
        RestPast(path, t, off + |line|, ModeOf(multiline));
      }
    }
    OffsetEnd(lines);
    RestPast(path, t, |t|, ModeOf(multiline));
  }
}
