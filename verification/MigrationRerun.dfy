/** Running the SKILL.toml migration again changes nothing; and how a text relates to its lines. */
module MigrationRerun {
  import opened Text
  import opened Migration

  // ----- Running it again -----

  /** A line that starts after a line break is one of the lines of the text. */
  lemma {:induction false} LineIn(a: string, w: string, b: string)
    requires a != "" ==> IsBreak(a[|a| - 1])
    requires w != "" && NoBreak(w[..|w| - 1]) && IsBreak(w[|w| - 1])
    ensures w in SplitLines(a + w + b)
    decreases |a|
  {
    hide SplitLines, LineEnd, IsBreak, NoBreak;
    var t := a + w + b;
    var e := LineEnd(t, 0);
    SplitIs(t);
    if a == "" {
      FirstIs(w, b);
      assert t == w + b && t[..e] == w;
    } else {
      LineEndScan(t, 0);
      assert t[|a| - 1] == a[|a| - 1];
      assert e <= |a|;
      assert e < |a| ==> a[e..][|a[e..]| - 1] == a[|a| - 1];
      LineIn(a[e..], w, b);
      assert t[e..] == a[e..] + w + b;
    }
  }

  lemma FirstIs(w: string, b: string)
    requires w != "" && NoBreak(w[..|w| - 1]) && IsBreak(w[|w| - 1])
    ensures LineEnd(w + b, 0) == |w|
  {
    var t := w + b;
    forall i | 0 <= i < |w| - 1 ensures !IsBreak(t[i]) { NoBreakAt(w[..|w| - 1], i); assert t[i] == w[..|w| - 1][i]; }
    assert t[|w| - 1] == w[|w| - 1];
    LineEndReach(t, 0, |w|);
  }

  ghost predicate Has(t: string, w: string) {
    exists a, b :: t == a + w + b
  }

  lemma HasMore(t: string, w: string, c: string)
    requires Has(t, w)
    ensures Has(t + c, w)
  {
    var a, b :| t == a + w + b;
    assert t + c == a + w + (b + c);
  }

  lemma HasAfter(a: string, w: string, b: string)
    ensures Has(a + w + b, w)
  {
  }

  lemma EnsureIs(s: string)
    ensures EnsureNewline(s) == s || EnsureNewline(s) == s + "\n"
  {
  }

  lemma {:induction false} AssembleHas(secs: seq<Section>, forge: seq<string>)
    ensures Assemble(secs, forge).1 ==> Has(Assemble(secs, forge).0, FORGE)
  {
    hide Has, KeptLines, Join, EnsureNewline;
    if secs != [] {
      var s, r := secs[|secs| - 1], Assemble(secs[..|secs| - 1], forge);
      AssembleHas(secs[..|secs| - 1], forge);
      var more := r.0 + Join(KeptLines(s));
      if r.1 {
        HasMore(r.0, FORGE, Join(KeptLines(s)));
      } else if s.table == SKILL {
        HasAfter(EnsureNewline(more), FORGE, Join(forge));
      }
    }
  }

  lemma {:induction false} SubsHave(out: string, secs: seq<Section>)
    requires Has(out, FORGE)
    ensures Has(AppendSubs(out, secs), FORGE)
  {
    hide Has, EnsureNewline, Join;
    if secs != [] {
      SubsHave(out, secs[..|secs| - 1]);
      var before := AppendSubs(out, secs[..|secs| - 1]);
      var more := Join(SubLines(secs[|secs| - 1]));
      EnsureIs(before);
      HasMore(before, FORGE, "\n");
      HasMore(EnsureNewline(before), FORGE, "\n");
      HasMore(EnsureNewline(before) + "\n", FORGE, more);
    }
  }

  lemma NewTextHasForge(secs: seq<Section>)
    ensures Has(NewText(secs), FORGE)
  {
    hide Has, Forge, Assemble, AppendSubs, EnsureNewline, Join;
    var forge := Forge(secs);
    var r := Assemble(secs, forge);
    AssembleHas(secs, forge);
    HasAfter(EnsureNewline(r.0), FORGE, Join(forge));
    SubsHave(AddForge(r, forge), secs);
  }

  predicate IsName(s: string) {
    forall i :: 0 <= i < |s| ==> IsWord(s[i]) || s[i] == '.'
  }

  lemma {:induction false} SkipNameTo(line: string, i: nat, end: nat)
    requires i <= end < |line| && !(IsWord(line[end]) || line[end] == '.')
    requires forall j :: i <= j < end ==> IsWord(line[j]) || line[j] == '.'
    ensures SkipName(line, i, true) == end
    decreases end - i
  {
    if i < end { SkipNameTo(line, i + 1, end); }
  }

  /** A header written without spaces is read back. */
  lemma HeaderOf(name: string)
    requires IsName(name) && name != ""
    ensures TableName("[" + name + "]\n") == Some(name) && NoBreak("[" + name + "]")
  {
    var line, n := "[" + name + "]\n", |name|;
    HeaderChars(name);
    SkipNameTo(line, 1, n + 1);
    hide SkipName, IsName;
    assert SkipSpaces(line, n + 2) == n + 3;
  }

  lemma HeaderChars(name: string)
    requires IsName(name) && name != ""
    ensures var line, n := "[" + name + "]\n", |name|;
            && line[0] == '[' && line[n + 1] == ']' && line[n + 2] == '\n' && line[1..n + 1] == name
            && forall j :: 1 <= j < n + 1 ==> IsWord(line[j]) || line[j] == '.'
    ensures NoBreak("[" + name + "]") && !IsSpace(name[0])
  {
    assert IsWord(name[0]) || name[0] == '.';
  }

  lemma ForgeLiterals()
    ensures "[" + "forge" + "]\n" == "[forge]\n" && "[" + "forge" + "]" == "[forge]"
    ensures FORGE == "\n" + "[forge]\n" && IsName("forge") && "forge" != ""
  {
    hide TableName, NoBreak, SkipName, SkipSpaces;
  }

  lemma ForgeHeader()
    ensures TableName("[forge]\n") == Some("forge")
    ensures FORGE == "\n" + "[forge]\n" && NoBreak("[forge]")
  {
    hide *;
    ForgeLiterals();
    HeaderOf("forge");
  }

  lemma LineAmong(lines: seq<string>, w: string)
    requires w in lines && TableName(w) == Some("forge")
    ensures HasForge(lines)
  {
    hide TableName;
  }

  lemma ForgeLine()
    ensures var w := "[forge]\n"; w != "" && w[..|w| - 1] == "[forge]" && IsBreak(w[|w| - 1])
  {
  }

  lemma BreakEnd(a: string)
    ensures IsBreak((a + "\n")[|a|])
  {
  }

  lemma ForgeLineIn(t: string)
    requires Has(t, FORGE)
    ensures HasForge(SplitLines(t))
  {
    var a, b :| t == a + FORGE + b;
    hide *;
    ForgeHeader();
    ForgeLine();
    BreakEnd(a);
    assert t == (a + "\n") + "[forge]\n" + b;
    LineIn(a + "\n", "[forge]\n", b);
    LineAmong(SplitLines(t), "[forge]\n");
  }

  /** Idempotence, for every text: planning on the output returns the output. */
  lemma Idempotent(content: string)
    ensures Planned(Planned(content).after).after == Planned(content).after
    ensures Planned(content).Changed() ==> Planned(Planned(content).after).alreadyMigrated
  {
    hide NewText, Sections, SplitLines, Has, HasForge, Forge, Keys, Suffixes;
    var secs := Sections(SplitLines(content));
    if Planned(content).Changed() {
      NewTextHasForge(secs);
      ForgeLineIn(NewText(secs));
    }
  }

  // ----- Texts and their lines -----

  /** A line with its line break, whichever it is. */
  predicate Proper(line: string) {
    line != "" && IsBreak(line[|line| - 1]) && NoBreak(line[..|line| - 1])
  }

  ghost predicate AllProper(lines: seq<string>) {
    forall i :: 0 <= i < |lines| ==> Proper(lines[i])
  }

  /** The last line of the text has its line break. */
  predicate Broken(t: string) {
    t == "" || IsBreak(t[|t| - 1])
  }

  lemma ProperFirst(line: string, t: string)
    requires Proper(line)
    ensures LineEnd(line + t, 0) == |line|
  {
    var u, n := line + t, |line| - 1;
    forall i | 0 <= i < n ensures !IsBreak(u[i]) { NoBreakAt(line[..n], i); assert u[i] == line[..n][i]; }
    assert u[n] == line[n];
    LineEndReach(u, 0, |line|);
  }

  lemma {:induction false} SplitOfJoin(lines: seq<string>)
    requires AllProper(lines)
    ensures SplitLines(Join(lines)) == lines
  {
    if lines != [] {
      var t := Join(lines);
      ProperFirst(lines[0], Join(lines[1..]));
      SplitOfJoin(lines[1..]);
      assert t[..|lines[0]|] == lines[0] && t[|lines[0]|..] == Join(lines[1..]);
    }
  }

  /** All lines of such a text are proper. */
  lemma {:induction false} SplitProper(t: string)
    requires Broken(t)
    ensures AllProper(SplitLines(t))
  {
    hide LineEnd, SplitLines, Proper, IsBreak;
    SplitEmpty();
    if t != "" {
      var e := LineEnd(t, 0);
      RestBroken(t, e);
      SplitProper(t[e..]);
      FirstProper(t);
      SplitIs(t);
    }
  }

  lemma RestBroken(t: string, e: nat)
    requires e <= |t| && Broken(t)
    ensures Broken(t[e..])
  {
  }

  lemma SplitIs(t: string)
    requires t != ""
    ensures SplitLines(t) == [t[..LineEnd(t, 0)]] + SplitLines(t[LineEnd(t, 0)..])
  {
    hide LineEnd;
  }

  lemma SplitEmpty()
    ensures SplitLines("") == []
  {
  }

  lemma NoBreakSlice(t: string, e: nat)
    requires e <= |t| && forall i :: 0 <= i < e ==> !IsBreak(t[i])
    ensures NoBreak(t[..e])
  {
  }

  lemma TakeSnoc(t: string, e: nat)
    requires 0 < e <= |t|
    ensures t[..e] == t[..e - 1] + [t[e - 1]]
  {
  }

  lemma SnocBody(s: string, c: char)
    ensures (s + [c])[..|s + [c]| - 1] == s && (s + [c])[|s + [c]| - 1] == c
  {
  }

  lemma FirstProper(t: string)
    requires t != "" && Broken(t)
    ensures Proper(t[..LineEnd(t, 0)])
  {
    hide LineEnd, IsBreak, NoBreak;
    var e := LineEnd(t, 0);
    LineEndScan(t, 0);
    NoBreakSlice(t, e - 1);
    TakeSnoc(t, e);
    SnocBody(t[..e - 1], t[e - 1]);
  }
}
