/** What the shell scanner keeps over every run: here-documents are ended first-in first-out, and
    the substitution stack restores the quoting it was opened under. */
module ShellProperties {
  import opened Text
  import opened ShellLexer
  import ShellText

  // ----- Here-documents -----

  /** Some of the lines `from..k` end the here-documents `hs`, each its own, in this order. */
  predicate EndsIn(lines: seq<string>, from: nat, k: nat, hs: seq<Heredoc>)
    requires from <= k <= |lines|
    decreases k
  {
    hs == [] ||
    (k > from &&
     (EndsIn(lines, from, k - 1, hs)
      || (Closes(lines[k - 1], hs[|hs| - 1]) && EndsIn(lines, from, k - 1, hs[..|hs| - 1]))))
  }

  lemma {:induction false} EndsInPrefix(lines: seq<string>, from: nat, k: nat, hs: seq<Heredoc>, c: nat)
    requires from <= k <= |lines| && c <= |hs| && EndsIn(lines, from, k, hs)
    ensures EndsIn(lines, from, k, hs[..c])
    decreases k
  {
    if 0 < c < |hs| {
      if EndsIn(lines, from, k - 1, hs) {
        EndsInPrefix(lines, from, k - 1, hs, c);
      } else {
        EndsInPrefix(lines, from, k - 1, hs[..|hs| - 1], c);
        assert hs[..|hs| - 1][..c] == hs[..c];
      }
    } else {
      assert hs[..|hs|] == hs && hs[..0] == [];
    }
  }

  /** The scanner has ended `c` of the here-documents: as many as can be ended in order. */
  ghost predicate Ended(lines: seq<string>, from: nat, k: nat, hs: seq<Heredoc>, c: nat)
    requires from <= k <= |lines|
  {
    c <= |hs| && EndsIn(lines, from, k, hs[..c]) && (c < |hs| ==> !EndsIn(lines, from, k, hs[..c + 1]))
  }

  lemma EndedAll(lines: seq<string>, from: nat, k: nat, hs: seq<Heredoc>, c: nat)
    requires from <= k <= |lines| && Ended(lines, from, k, hs, c) && !EndsIn(lines, from, k, hs)
    ensures c < |hs|
  {
    assert hs[..|hs|] == hs;
  }

  lemma EndedNext(lines: seq<string>, from: nat, k: nat, hs: seq<Heredoc>, c: nat)
    requires from <= k < |lines| && Ended(lines, from, k, hs, c) && c < |hs|
    ensures Ended(lines, from, k + 1, hs, if Closes(lines[k], hs[c]) then c + 1 else c)
  {
    var more := hs[..c + 1];
    assert more[..c] == hs[..c] && more[|more| - 1] == hs[c];
    if c + 1 < |hs| {
      var two := hs[..c + 2];
      assert two[..c + 1] == more;
      if EndsIn(lines, from, k, two) { EndsInPrefix(lines, from, k, two, c + 1); }
    }
  }

  /** Here-documents are first-in first-out: once the delimiters `hs` are pending, then up to the
      line that ends the last of them nothing is reported, nothing of the state changes but the
      queue, and the queue is what is left of `hs`. It is empty exactly when lines ending the
      documents have appeared in the order in which they were queued. */
  lemma HeredocsFifo(path: string, lines: seq<string>, from: nat, k: nat, st: State)
    requires from <= k <= |lines| && st.heredocs != []
    requires k > from ==> !EndsIn(lines, from, k - 1, st.heredocs)
    ensures Reported(path, lines, from, k, st) == []
    ensures exists c :: 0 <= c <= |st.heredocs|
                        && After(lines, from, k, st) == st.(heredocs := st.heredocs[c..])
                        && Ended(lines, from, k, st.heredocs, c)
    ensures After(lines, from, k, st).heredocs == [] <==> EndsIn(lines, from, k, st.heredocs)
  {
    var hs := st.heredocs;
    var c := EndedCount(path, lines, from, k, st);
    assert c == |hs| ==> hs[..c] == hs;
    if c < |hs| && EndsIn(lines, from, k, hs) {
      EndsInPrefix(lines, from, k, hs, c + 1);
    }
  }

  lemma {:induction false} EndedCount(path: string, lines: seq<string>, from: nat, k: nat, st: State) returns (c: nat)
    requires from <= k <= |lines| && st.heredocs != []
    requires k > from ==> !EndsIn(lines, from, k - 1, st.heredocs)
    ensures Reported(path, lines, from, k, st) == []
    ensures c <= |st.heredocs| && After(lines, from, k, st) == st.(heredocs := st.heredocs[c..])
    ensures Ended(lines, from, k, st.heredocs, c)
    decreases k
  {
    hide ScanLine, Closes;
    var hs := st.heredocs;
    if k == from {
      c := 0;
      assert hs[0..] == hs;
    } else {
      hide Ended, EndsIn;
      c := EndedCount(path, lines, from, k - 1, st);
      EndedAll(lines, from, k - 1, hs, c);
      EndedNext(lines, from, k - 1, hs, c);
      assert hs[c..][1..] == hs[c + 1..] && hs[c..][0] == hs[c];
      c := if Closes(lines[k - 1], hs[c]) then c + 1 else c;
    }
  }

  /** A scan can be split at any line: the second part goes on from the state of the first. */
  lemma {:induction false} ReportedSplit(path: string, lines: seq<string>, from: nat, k: nat)
    requires from <= k <= |lines|
    ensures var st := After(lines, 0, from, START);
            && After(lines, 0, k, START) == After(lines, from, k, st)
            && Reported(path, lines, 0, k, START)
              == Reported(path, lines, 0, from, START) + Reported(path, lines, from, k, st)
    decreases k
  {
    hide Line, Add;
    if from < k {
      ReportedSplit(path, lines, from, k - 1);
      Assoc(Reported(path, lines, 0, from, START), Reported(path, lines, from, k - 1, After(lines, 0, from, START)),
            ReportedAt(path, lines, 0, k - 1, START));
    }
  }

  /** So in the comments reported for a whole script none lies on a line from `from` on, where
      here-documents are pending, up to the line `k` that ends the last of them; the rest of the
      script is scanned in the state in which they were queued. */
  lemma BodiesSilent(path: string, lines: seq<string>, from: nat, k: nat)
    requires IsSplit(lines) && from <= k <= |lines|
    requires After(lines, 0, from, START).heredocs != []
    requires k > from ==> !EndsIn(lines, from, k - 1, After(lines, 0, from, START).heredocs)
    ensures var before, st := After(lines, 0, from, START), After(lines, 0, k, START);
            && ShellText.Comments(path, Join(lines))
               == Reported(path, lines, 0, from, START) + Reported(path, lines, k, |lines|, st)
            && st == before.(heredocs := st.heredocs)
            && (st.heredocs == [] <==> EndsIn(lines, from, k, before.heredocs))
  {
    hide *;
    ReportedSplit(path, lines, from, k);
    HeredocsFifo(path, lines, from, k, After(lines, 0, from, START));
    ReportedSplit(path, lines, k, |lines|);
    ShellText.ReportedAll(path, lines);
  }

  // ----- Runs of the scanner -----

  /** Where the scanner is: at place `i` of line `line`. */
  datatype Config = Config(line: nat, i: nat, state: State)

  function Next(lines: seq<string>, c: Config): Config {
    if c.line >= |lines| then c
    else if c.i == 0 && c.state.heredocs != [] then Config(c.line + 1, 0, Line(lines[c.line], c.line == 0, c.state).0)
    else if c.i >= |lines[c.line]| then Config(c.line + 1, 0, c.state)
    else match Step(lines[c.line], c.line == 0, c.i, c.state)
      case Go(j, next) => Config(c.line, j, next)
      case Stop(_) => Config(c.line + 1, 0, c.state)
  }

  function Run(lines: seq<string>, c: Config, n: nat): Config {
    if n == 0 then c else Next(lines, Run(lines, c, n - 1))
  }

  lemma {:induction false} RunFrom(lines: seq<string>, c: Config, m: nat, n: nat)
    ensures Run(lines, Run(lines, c, m), n) == Run(lines, c, m + n)
  {
    hide Next;
    if n > 0 { RunFrom(lines, c, m, n - 1); }
  }

  /** The scanner gets from `c` to `d`. */
  ghost predicate Gets(lines: seq<string>, c: Config, d: Config) {
    exists n: nat :: Run(lines, c, n) == d
  }

  lemma GetsNext(lines: seq<string>, c: Config)
    ensures Gets(lines, c, Next(lines, c))
  {
    hide Next;
    assert Run(lines, c, 1) == Next(lines, Run(lines, c, 0));
  }

  lemma GetsOn(lines: seq<string>, c: Config, d: Config, e: Config)
    requires Gets(lines, c, d) && Gets(lines, d, e)
    ensures Gets(lines, c, e)
  {
    hide Next;
    var m: nat :| Run(lines, c, m) == d;
    var n: nat :| Run(lines, d, n) == e;
    RunFrom(lines, c, m, n);
  }

  lemma {:induction false} RunLine(lines: seq<string>, k: nat, i: nat, st: State)
    requires k < |lines| && (i == 0 ==> st.heredocs == [])
    ensures Gets(lines, Config(k, i, st), Config(k + 1, 0, ScanLine(lines[k], k == 0, i, st).0))
    decreases |lines[k]| - i
  {
    hide Step, Gets;
    var c := Config(k, i, st);
    var d := Next(lines, c);
    GetsNext(lines, c);
    if i < |lines[k]| && Step(lines[k], k == 0, i, st).Go? {
      RunLine(lines, k, d.i, d.state);
      GetsOn(lines, c, d, Config(k + 1, 0, ScanLine(lines[k], k == 0, d.i, d.state).0));
    }
  }

  /** The line-by-line scan is such a run, step by step. */
  lemma {:induction false} RunReaches(lines: seq<string>, k: nat)
    requires k <= |lines|
    ensures Gets(lines, Config(0, 0, START), Config(k, 0, After(lines, 0, k, START)))
  {
    hide Step, ScanLine, Closes;
    if k == 0 {
      assert Run(lines, Config(0, 0, START), 0) == Config(0, 0, START);
    } else {
      hide Gets;
      var c := Config(k - 1, 0, After(lines, 0, k - 1, START));
      RunReaches(lines, k - 1);
      if c.state.heredocs != [] {
        GetsNext(lines, c);
      } else {
        RunLine(lines, k - 1, 0, c.state);
      }
      GetsOn(lines, Config(0, 0, START), c, Config(k, 0, After(lines, 0, k, START)));
    }
  }

  // ----- The substitution stack -----

  /** Every stacked entry is still open, and was opened unquoted or in double quotes. */
  ghost predicate Good(st: State) {
    forall e :: e in st.substitutions ==> e.1 >= 1 && e.0 != Single
  }

  /** What one step may do to the stack: nothing, open a substitution under the quoting in force,
      count parentheses in the innermost one, or close it and return to its quoting. */
  ghost predicate StackStep(s: State, t: State) {
    var a, b := s.substitutions, t.substitutions;
    || a == b
    || (b == a + [(s.quote, 1)] && t.quote == Unquoted && s.quote != Single)
    || (a != [] && |b| == |a| && b[..|a| - 1] == a[..|a| - 1] && b[|a| - 1].0 == a[|a| - 1].0 && b[|a| - 1].1 >= 1
        && s.quote == t.quote == Unquoted)
    || (a != [] && b == a[..|a| - 1] && t.quote == a[|a| - 1].0 && a[|a| - 1].1 == 1)
  }

  lemma NextStep(lines: seq<string>, c: Config)
    requires Good(c.state)
    ensures StackStep(c.state, Next(lines, c).state) && Good(Next(lines, c).state)
  {
    hide Closes, ParseHeredoc, StartsComment;
    var s, t := c.state, Next(lines, c).state;
    if s.substitutions != [] {
      assert s.substitutions[|s.substitutions| - 1] in s.substitutions;
    }
  }

  lemma {:induction false} GoodRun(lines: seq<string>, n: nat)
    ensures Good(Run(lines, Config(0, 0, START), n).state)
  {
    if n > 0 {
      GoodRun(lines, n - 1);
      NextStep(lines, Run(lines, Config(0, 0, START), n - 1));
    }
  }

  function Height(c: Config): nat { |c.state.substitutions| }

  /** While a substitution opened at `c` is open, what lies below it and the quoting to return to
      stay as they were. */
  lemma {:induction false} Inside(lines: seq<string>, c: Config, n: nat)
    requires Good(c.state) && n >= 1
    requires Height(Run(lines, c, 1)) == Height(c) + 1
    requires forall m :: 1 <= m <= n ==> Height(Run(lines, c, m)) > Height(c)
    ensures var t := Run(lines, c, n).state;
            && Good(t) && |t.substitutions| > Height(c) && t.substitutions[..Height(c)] == c.state.substitutions
            && t.substitutions[Height(c)].0 == c.state.quote
    decreases n
  {
    var h := Height(c);
    NextStep(lines, c);
    assert Run(lines, c, 1) == Next(lines, Run(lines, c, 0));
    if n > 1 {
      Inside(lines, c, n - 1);
      var s := Run(lines, c, n - 1).state;
      NextStep(lines, Run(lines, c, n - 1));
      var t := Run(lines, c, n).state;
      BelowKept(s, t, h);
    }
  }

  lemma BelowKept(s: State, t: State, h: nat)
    requires StackStep(s, t) && |s.substitutions| > h && |t.substitutions| > h
    ensures t.substitutions[..h] == s.substitutions[..h] && t.substitutions[h].0 == s.substitutions[h].0
  {
    var a, b := s.substitutions, t.substitutions;
    if |a| == |b| && a != b {
      assert forall i :: 0 <= i < |a| - 1 ==> b[i] == b[..|a| - 1][i] == a[..|a| - 1][i] == a[i];
    }
  }

  /** Closing restores: in every run, for any nesting and across lines, the step that brings the
      stack back to the height it had before a substitution was opened also brings back the
      stack and the quoting in force at the opening. */
  lemma CloseRestores(lines: seq<string>, c: Config, n: nat)
    requires Good(c.state) && n > 1
    requires Height(Run(lines, c, 1)) == Height(c) + 1
    requires forall m :: 1 <= m < n ==> Height(Run(lines, c, m)) > Height(c)
    requires Height(Run(lines, c, n)) == Height(c)
    ensures Run(lines, c, n).state.substitutions == c.state.substitutions
    ensures Run(lines, c, n).state.quote == c.state.quote
  {
    hide Next;
    Inside(lines, c, n - 1);
    var s := Run(lines, c, n - 1);
    assert Run(lines, c, n) == Next(lines, s);
    NextStep(lines, s);
    hide Run, Good;
    assert |s.state.substitutions| - 1 == Height(c);
  }
}
