/** The shell comment scanner of the hygiene gate: quotes, nested `$(...)`, arithmetic and a queue
    of pending here-documents, carried from line to line. */
module ShellLexer {
  import opened Text

  datatype Quoting = Unquoted | Single | Double

  datatype Heredoc = Heredoc(delimiter: string, stripTabs: bool)

  /** What the scanner carries along. Each open `$(` is stacked with the quoting it must return to
      and the number of parentheses open inside it. */
  datatype State = State(quote: Quoting, substitutions: seq<(Quoting, int)>, arithmetic: nat, heredocs: seq<Heredoc>)

  const START := State(Unquoted, [], 0, [])

  // ----- Here-document operators -----

  predicate EndsWord(c: char) {
    || c == ' ' || c == '\t' || c == '\r' || c == '\n' || c == ';' || c == '|' || c == '&'
    || c == '(' || c == ')' || c == '<' || c == '>' || c == '#'
  }

  predicate IsBlank(c: char) { c == ' ' || c == '\t' }

  function SkipBlanks(s: string, i: nat): (j: nat)
    ensures i <= j && (i <= |s| ==> j <= |s|)
    decreases |s| - i
  {
    if i < |s| && IsBlank(s[i]) then SkipBlanks(s, i + 1) else i
  }

  /** The word at `i`, read under `q`: its text with the quoting removed, where it ends, and the
      quoting in force there. */
  function Word(s: string, i: nat, q: Quoting): (r: (string, nat, Quoting))
    ensures i <= r.1 && (i <= |s| ==> r.1 <= |s|)
    decreases |s| - i
  {
    if i >= |s| then ("", i, q) else
    var c := s[i];
    match q
    case Single =>
      if c == '\'' then Word(s, i + 1, Unquoted) else Prepend([c], Word(s, i + 1, q))
    case Double =>
      if c == '"' then Word(s, i + 1, Unquoted)
      else if c == '\\' && i + 1 < |s| then Prepend(Unescape(s[i + 1]), Word(s, i + 2, q))
      else Prepend([c], Word(s, i + 1, q))
    case Unquoted =>
      if EndsWord(c) then ("", i, q)
      else if c == '\'' then Word(s, i + 1, Single)
      else if c == '"' then Word(s, i + 1, Double)
      else if c == '\\' && i + 1 < |s| then Prepend([s[i + 1]], Word(s, i + 2, q))
      else Prepend([c], Word(s, i + 1, q))
  }

  function Prepend(w: string, r: (string, nat, Quoting)): (string, nat, Quoting) {
    (w + r.0, r.1, r.2)
  }

  /** The characters that double quotes do not protect. */
  predicate Special(c: char) { c == '$' || c == '`' || c == '"' || c == '\\' }

  /** A backslash in double quotes: it escapes five characters and is kept before all others. */
  function Unescape(c: char): string {
    if c == '\n' then "" else if Special(c) then [c] else ['\\', c]
  }

  function ParseHeredoc(s: string, start: nat): (r: Option<(Heredoc, nat)>)
    ensures r.Some? ==> start < r.value.1 <= |s| && r.value.0.delimiter != ""
  {
    if !At2(s, start, '<', '<') || At3(s, start, '<', '<', '<') then None
    else if start > 0 && s[start - 1] == '<' then None
    else
      var strip := start + 2 < |s| && s[start + 2] == '-';
      var i := SkipBlanks(s, if strip then start + 3 else start + 2);
      var (delimiter, end, q) := Word(s, i, Unquoted);
      if q != Unquoted || delimiter == "" then None else Some((Heredoc(delimiter, strip), end))
  }

  lemma PrependTwice(a: string, b: string, r: (string, nat, Quoting))
    ensures Prepend(a, Prepend(b, r)) == Prepend(a + b, r) && Prepend("", r) == r
  {
    Assoc(a, b, r.0);
    assert "" + r.0 == r.0;
  }

  /** The loop that reads the delimiter. */
  method ParseWord(line: string, start: nat) returns (delimiter: string, i: nat, quote: Quoting)
    requires start <= |line|
    ensures (delimiter, i, quote) == Word(line, start, Unquoted)
  {
    delimiter, i, quote := "", start, Unquoted;
    ghost var word := Word(line, i, Unquoted);
    PrependTwice("", "", word);
    while i < |line| && !(quote == Unquoted && EndsWord(line[i]))
      invariant i <= |line|
      invariant word == Prepend(delimiter, Word(line, i, quote))
      decreases |line| - i
    {
      var ch := line[i];
      var piece := "";
      if quote == Single {
        if ch == '\'' {
          quote := Unquoted;
        } else {
          piece := [ch];
        }
        i := i + 1;
      } else if quote == Double {
        if ch == '"' {
          quote := Unquoted;
          i := i + 1;
        } else if ch == '\\' && i + 1 < |line| {
          var nxt := line[i + 1];
          if Special(nxt) || nxt == '\n' {
            if nxt != '\n' {
              piece := [nxt];
            }
          } else {
            piece := ['\\', nxt];
          }
          i := i + 2;
        } else {
          piece := [ch];
          i := i + 1;
        }
      } else if ch == '\'' {
        quote := Single;
        i := i + 1;
      } else if ch == '"' {
        quote := Double;
        i := i + 1;
      } else if ch == '\\' && i + 1 < |line| {
        piece := [line[i + 1]];
        i := i + 2;
      } else {
        piece := [ch];
        i := i + 1;
      }
      PrependTwice(delimiter, piece, Word(line, i, quote));
      delimiter := delimiter + piece;
    }
    assert delimiter + "" == delimiter;
  }

  method ParseShellHeredoc(line: string, start: nat) returns (r: Option<(Heredoc, nat)>)
    ensures r == ParseHeredoc(line, start)
  {
    if !At2(line, start, '<', '<') || At3(line, start, '<', '<', '<') {
      return None;
    }
    if start > 0 && line[start - 1] == '<' {
      return None;
    }
    var i := start + 2;
    var stripTabs := i < |line| && line[i] == '-';
    if stripTabs {
      i := i + 1;
    }
    ghost var from := i;
    while i < |line| && (line[i] == ' ' || line[i] == '\t')
      invariant i <= |line| && SkipBlanks(line, from) == SkipBlanks(line, i)
    {
      i := i + 1;
    }
    var delimiter, quote;
    delimiter, i, quote := ParseWord(line, i);
    if quote != Unquoted || delimiter == "" {
      return None;
    }
    r := Some((Heredoc(delimiter, stripTabs), i));
  }

  // ----- One step of the scanner -----

  datatype Outcome = Go(i: nat, state: State) | Stop(reported: bool)

  predicate IsOperator(c: char) { c == ';' || c == '|' || c == '&' || c == '(' || c == ')' }

  predicate StartsComment(line: string, i: nat) {
    i < |line| && line[i] == '#' && (i == 0 || IsSpace(line[i - 1]) || IsOperator(line[i - 1]))
  }

  function StepArithmetic(c: char, i: nat, st: State): Outcome
    requires st.arithmetic > 0
  {
    Go(i + 1, if c == '(' then st.(arithmetic := st.arithmetic + 1)
              else if c == ')' then st.(arithmetic := st.arithmetic - 1) else st)
  }

  function StepDouble(line: string, i: nat, st: State): Outcome
    requires i < |line|
  {
    if line[i] == '\\' then Go(i + 2, st)
    else if At3(line, i, '$', '(', '(') then Go(i + 3, st.(arithmetic := 2))
    else if At2(line, i, '$', '(') then
      Go(i + 2, st.(quote := Unquoted, substitutions := st.substitutions + [(Double, 1)]))
    else Go(i + 1, if line[i] == '"' then st.(quote := Unquoted) else st)
  }

  /** A closing parenthesis inside a substitution: it may close the substitution, and then the
      stacked quoting is in force again. */
  function CloseParen(st: State): State
    requires st.substitutions != []
  {
    var n := |st.substitutions| - 1;
    var (prior, depth) := st.substitutions[n];
    if depth - 1 == 0 then st.(quote := prior, substitutions := st.substitutions[..n])
    else st.(substitutions := st.substitutions[n := (prior, depth - 1)])
  }

  function OpenParen(st: State): State
    requires st.substitutions != []
  {
    var n := |st.substitutions| - 1;
    var (prior, depth) := st.substitutions[n];
    st.(substitutions := st.substitutions[n := (prior, depth + 1)])
  }

  function StepUnquoted(line: string, first: bool, i: nat, st: State): Outcome
    requires i < |line|
  {
    var c := line[i];
    if c == '\'' then Go(i + 1, st.(quote := Single))
    else if c == '"' then Go(i + 1, st.(quote := Double))
    else if At2(line, i, '(', '(') then Go(i + 2, st.(arithmetic := 2))
    else if At3(line, i, '$', '(', '(') then Go(i + 3, st.(arithmetic := 2))
    else if At2(line, i, '$', '(') then Go(i + 2, st.(substitutions := st.substitutions + [(Unquoted, 1)]))
    else if st.substitutions != [] && c == '(' then Go(i + 1, OpenParen(st))
    else if st.substitutions != [] && c == ')' then Go(i + 1, CloseParen(st))
    else
      var heredoc := ParseHeredoc(line, i);
      if heredoc.Some? then Go(heredoc.value.1, st.(heredocs := st.heredocs + [heredoc.value.0]))
      else if StartsComment(line, i) then Stop(!(first && i == 0 && At2(line, 0, '#', '!')))
      else Go(i + 1, st)
  }

  function Step(line: string, first: bool, i: nat, st: State): (r: Outcome)
    requires i < |line|
    ensures r.Go? ==> i < r.i
  {
    if st.arithmetic > 0 then StepArithmetic(line[i], i, st)
    else match st.quote
      case Single => Go(i + 1, if line[i] == '\'' then st.(quote := Unquoted) else st)
      case Double => StepDouble(line, i, st)
      case Unquoted => StepUnquoted(line, first, i, st)
  }

  /** The rest of a line from `i` on: the state it leaves, and where a comment to report starts. */
  function ScanLine(line: string, first: bool, i: nat, st: State): (State, Option<nat>)
    decreases |line| - i
  {
    if i >= |line| then (st, None) else
    match Step(line, first, i, st)
    case Go(j, next) => ScanLine(line, first, j, next)
    case Stop(reported) => (st, if reported then Some(i) else None)
  }

  function StripTabs(s: string): string {
    if s != "" && s[0] == '\t' then StripTabs(s[1..]) else s
  }

  /** The line ends the here-document. */
  predicate Closes(line: string, h: Heredoc) {
    var candidate := StripNewlines(line);
    (if h.stripTabs then StripTabs(candidate) else candidate) == h.delimiter
  }

  /** A whole line: while a here-document is pending its lines are only compared with the
      delimiter at the head of the queue. */
  function Line(line: string, first: bool, st: State): (State, Option<nat>) {
    if st.heredocs != [] then
      (if Closes(line, st.heredocs[0]) then st.(heredocs := st.heredocs[1..]) else st, None)
    else ScanLine(line, first, 0, st)
  }

  /** The state after the first `k` lines, starting from `st`; the text starts at line `from`. */
  function After(lines: seq<string>, from: nat, k: nat, st: State): State
    requires from <= k <= |lines|
  {
    if k == from then st else Line(lines[k - 1], k == 1, After(lines, from, k - 1, st)).0
  }

  /** The comment reported for line `k` (counting from 0), if any. */
  function ReportedAt(path: string, lines: seq<string>, from: nat, k: nat, st: State): seq<Comment>
    requires from <= k < |lines|
  {
    match Line(lines[k], k == 0, After(lines, from, k, st)).1
    case None => []
    case Some(i) => [Add(path, lines[k], k + 1, StripNewlines(lines[k][if i <= |lines[k]| then i else |lines[k]|..]),
      HashLine, None)]
  }

  /** The comments reported for the lines from `from` up to `k`. */
  function Reported(path: string, lines: seq<string>, from: nat, k: nat, st: State): seq<Comment>
    requires from <= k <= |lines|
  {
    if k == from then [] else Reported(path, lines, from, k - 1, st) + ReportedAt(path, lines, from, k - 1, st)
  }

  // ----- The scanner -----

  /** The part of the loop body for unquoted text. */
  method ScanUnquoted(line: string, first: bool, start: nat, st: State)
    returns (i: nat, quote: Quoting, substitutions: seq<(Quoting, int)>, arithmeticDepth: nat, heredocs: seq<Heredoc>,
             stop: bool, report: Option<nat>)
    requires start < |line| && st.quote == Unquoted && st.arithmetic == 0
    ensures State(quote, substitutions, arithmeticDepth, heredocs)
            == (match Step(line, first, start, st) case Go(_, next) => next case Stop(_) => st)
    ensures stop <==> Step(line, first, start, st).Stop?
    ensures !stop ==> Step(line, first, start, st).i == i && report == None
    ensures stop ==> i == start && report == if Step(line, first, start, st).reported then Some(i) else None
  {
    i, quote, substitutions, arithmeticDepth, heredocs := start, st.quote, st.substitutions, 0, st.heredocs;
    stop, report := false, None;
    var ch := line[i];
    if ch == '\'' {
      quote := Single;
      i := i + 1;
      return;
    }
    if ch == '"' {
      quote := Double;
      i := i + 1;
      return;
    }
    if At2(line, i, '(', '(') {
      arithmeticDepth := 2;
      i := i + 2;
      return;
    }
    if At3(line, i, '$', '(', '(') {
      arithmeticDepth := 2;
      i := i + 3;
      return;
    }
    if At2(line, i, '$', '(') {
      substitutions := substitutions + [(Unquoted, 1)];
      i := i + 2;
      return;
    }
    if substitutions != [] && ch == '(' {
      var top := |substitutions| - 1;
      var (prior, depth) := substitutions[top];
      substitutions := substitutions[top := (prior, depth + 1)];
      i := i + 1;
      return;
    }
    if substitutions != [] && ch == ')' {
      var top := |substitutions| - 1;
      var (prior, depth) := substitutions[top];
      depth := depth - 1;
      if depth == 0 {
        substitutions := substitutions[..top];
        quote := prior;
      } else {
        substitutions := substitutions[top := (prior, depth)];
      }
      i := i + 1;
      return;
    }
    if At2(line, i, '<', '<') {
      var parsed := ParseShellHeredoc(line, i);
      if parsed.Some? {
        heredocs := heredocs + [parsed.value.0];
        i := parsed.value.1;
        return;
      }
    }
    if StartsComment(line, i) {
      if !(first && i == 0 && At2(line, 0, '#', '!')) {
        report := Some(i);
      }
      stop := true;
      return;
    }
    i := i + 1;
  }

  /** The loop over the characters of a line. */
  method ScanShellLine(line: string, first: bool, st: State)
    returns (quote: Quoting, substitutions: seq<(Quoting, int)>, arithmeticDepth: nat, heredocs: seq<Heredoc>,
             report: Option<nat>)
    ensures (State(quote, substitutions, arithmeticDepth, heredocs), report) == ScanLine(line, first, 0, st)
    ensures report.Some? ==> report.value < |line|
  {
    hide StepUnquoted;
    quote, substitutions, arithmeticDepth, heredocs := st.quote, st.substitutions, st.arithmetic, st.heredocs;
    report := None;
    var i, stop := 0, false;
    while i < |line| && !stop
      invariant !stop ==>
                && report == None
                && ScanLine(line, first, i, State(quote, substitutions, arithmeticDepth, heredocs))
                  == ScanLine(line, first, 0, st)
      invariant stop ==>
                (State(quote, substitutions, arithmeticDepth, heredocs), report) == ScanLine(line, first, 0, st)
      invariant report.Some? ==> report.value < |line|
      decreases |line| - i, !stop
    {
      var ch := line[i];
      if arithmeticDepth > 0 {
        if ch == '(' {
          arithmeticDepth := arithmeticDepth + 1;
        } else if ch == ')' {
          arithmeticDepth := arithmeticDepth - 1;
        }
        i := i + 1;
        continue;
      }
      if quote == Single {
        if ch == '\'' {
          quote := Unquoted;
        }
        i := i + 1;
        continue;
      }
      if quote == Double {
        if ch == '\\' {
          i := i + 2;
          continue;
        }
        if At3(line, i, '$', '(', '(') {
          arithmeticDepth := 2;
          i := i + 3;
          continue;
        }
        if At2(line, i, '$', '(') {
          substitutions := substitutions + [(quote, 1)];
          quote := Unquoted;
          i := i + 2;
          continue;
        }
        if ch == '"' {
          quote := Unquoted;
        }
        i := i + 1;
        continue;
      }
      i, quote, substitutions, arithmeticDepth, heredocs, stop, report :=
        ScanUnquoted(line, first, i, State(quote, substitutions, arithmeticDepth, heredocs));
    }
  }
}
