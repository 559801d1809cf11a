/** What the Nix scanner keeps over every run: the interpolation stack restores the string mode it
    was opened in. */
module NixProperties {
  import opened Text
  import opened NixLexer

  /** Where the lexer is, and in what state. */
  datatype Config = Config(p: nat, state: State)

  function Next(t: string, c: Config): Config {
    if c.p >= |t| then c else
    var r := Step(t, c.p, c.state);
    Config(r.p, r.state)
  }

  function Run(t: string, c: Config, n: nat): Config {
    if n == 0 then c else Next(t, Run(t, c, n - 1))
  }

  /** The comments passed in the first `n` steps from `c`. */
  function Passed(t: string, c: Config, n: nat): seq<Span> {
    if n == 0 then [] else
    var d := Run(t, c, n - 1);
    Passed(t, c, n - 1) + (if d.p >= |t| then [] else Step(t, d.p, d.state).found)
  }

  /** These steps are the lexer's: what it finds is what they pass and what it finds after them. */
  lemma {:induction false} PassedAreFound(t: string, c: Config, n: nat)
    ensures var d := Run(t, c, n);
            Spans(t, c.p, c.state) == Passed(t, c, n) + Spans(t, d.p, d.state)
  {
    hide Step;
    if n == 0 {
      assert [] + Spans(t, c.p, c.state) == Spans(t, c.p, c.state);
    } else {
      PassedAreFound(t, c, n - 1);
      var d := Run(t, c, n - 1);
      if d.p < |t| {
        var r := Step(t, d.p, d.state);
        Assoc(Passed(t, c, n - 1), r.found, Spans(t, r.p, r.state));
      } else {
        assert Passed(t, c, n - 1) + [] == Passed(t, c, n - 1);
      }
    }
  }

  /** What one step may do to the stack: nothing, open an interpolation in the string mode in
      force, count braces in the innermost one, or close it and return to its mode. */
  ghost predicate StackStep(s: State, t: State) {
    var a, b := s.interpolation, t.interpolation;
    || a == b
    || (b == a + [(s.mode, 1)] && t.mode == Normal && (s.mode == InDouble || s.mode == InMulti))
    || (a != [] && |b| == |a| && b[..|a| - 1] == a[..|a| - 1] && b[|a| - 1].0 == a[|a| - 1].0 && b[|a| - 1].1 >= 1
        && s.mode == t.mode == Normal)
    || (a != [] && b == a[..|a| - 1] && s.mode == Normal && t.mode == a[|a| - 1].0 && a[|a| - 1].1 == 1)
  }

  lemma NextStep(t: string, c: Config)
    requires Good(c.state)
    ensures StackStep(c.state, Next(t, c).state) && Good(Next(t, c).state)
  {
    hide BlockEnd, LineEnd, LineCommentEnd;
    var s := c.state;
    if s.interpolation != [] {
      assert s.interpolation[|s.interpolation| - 1] in s.interpolation;
    }
  }

  /** In every run, stacked entries have depth at least one and return to a string mode. */
  lemma {:induction false} GoodRun(t: string, n: nat)
    ensures Good(Run(t, Config(0, START), n).state)
  {
    hide Next;
    if n > 0 {
      GoodRun(t, n - 1);
      NextStep(t, Run(t, Config(0, START), n - 1));
    } else {
      GoodStart();
    }
  }

  function Height(c: Config): nat { |c.state.interpolation| }

  lemma BelowKept(s: State, t: State, h: nat)
    requires StackStep(s, t) && |s.interpolation| > h && |t.interpolation| > h
    ensures t.interpolation[..h] == s.interpolation[..h] && t.interpolation[h].0 == s.interpolation[h].0
  {
    var a, b := s.interpolation, t.interpolation;
    if |a| == |b| && a != b {
      assert forall i :: 0 <= i < |a| - 1 ==> b[i] == b[..|a| - 1][i] == a[..|a| - 1][i] == a[i];
    }
  }

  /** While an interpolation opened at `c` is open, what lies below it and the mode to return to
      stay as they were. */
  lemma {:induction false} Inside(t: string, c: Config, n: nat)
    requires Good(c.state) && n >= 1
    requires Height(Run(t, c, 1)) == Height(c) + 1
    requires forall m :: 1 <= m <= n ==> Height(Run(t, c, m)) > Height(c)
    ensures var s := Run(t, c, n).state;
            && Good(s) && |s.interpolation| > Height(c) && s.interpolation[..Height(c)] == c.state.interpolation
            && s.interpolation[Height(c)].0 == c.state.mode
    decreases n
  {
    hide Next, Good;
    NextStep(t, c);
    assert Run(t, c, 1) == Next(t, Run(t, c, 0));
    if n > 1 {
      Inside(t, c, n - 1);
      NextStep(t, Run(t, c, n - 1));
      BelowKept(Run(t, c, n - 1).state, Run(t, c, n).state, Height(c));
    }
  }

  /** Closing restores: in every run, for any nesting, the step that brings the stack back to the
      height it had before an interpolation was opened also brings back the stack and the string
      mode in force at the opening. */
  lemma CloseRestores(t: string, c: Config, n: nat)
    requires Good(c.state) && n > 1
    requires Height(Run(t, c, 1)) == Height(c) + 1
    requires forall m :: 1 <= m < n ==> Height(Run(t, c, m)) > Height(c)
    requires Height(Run(t, c, n)) == Height(c)
    ensures Run(t, c, n).state.interpolation == c.state.interpolation
    ensures Run(t, c, n).state.mode == c.state.mode
  {
    hide Next;
    Inside(t, c, n - 1);
    var s := Run(t, c, n - 1);
    assert Run(t, c, n) == Next(t, s);
    NextStep(t, s);
    hide Run, Good;
    assert |s.state.interpolation| - 1 == Height(c);
  }
}
