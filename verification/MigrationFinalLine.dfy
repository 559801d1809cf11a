/** A file without its final newline migrates as it does with it, unless a second [skill] ends in a key
    that moves. */
module MigrationFinalLine {
  import opened Text
  import opened Migration
  import opened MigrationRerun
  import opened MigrationTables
  import opened MigrationMeaning

  // ----- The newline changes neither header nor key -----

  lemma {:induction false} SpacesEnd(s: string, i: nat)
    requires i <= |s|
    ensures var j := SkipSpaces(s, i);
            SkipSpaces(s + "\n", i) == (if j == |s| then |s| + 1 else j)
    decreases |s| - i
  {
    var u := s + "\n";
    if i < |s| {
      assert u[i] == s[i];
      if IsSpace(s[i]) { SpacesEnd(s, i + 1); }
    } else {
      assert u[i] == '\n' && SkipSpaces(u, i + 1) == i + 1;
    }
  }

  lemma {:induction false} NameEnd(s: string, i: nat, dots: bool)
    requires i <= |s| + 1
    ensures SkipName(s + "\n", i, dots) == if i <= |s| then SkipName(s, i, dots) else i
    decreases |s| - i
  {
    var u := s + "\n";
    if i < |s| {
      assert u[i] == s[i];
      NameEnd(s, i + 1, dots);
    }
  }

  lemma TableEnd(s: string)
    ensures TableName(s + "\n") == TableName(s)
  {
    hide SkipSpaces, SkipName, IsSpace, IsWord;
    var u := s + "\n";
    assert forall i :: 0 <= i < |s| ==> u[i] == s[i];
    SpacesEnd(s, 0);
    var open := SkipSpaces(s, 0);
    if open < |s| && s[open] == '[' {
      SpacesEnd(s, open + 1);
      var from := SkipSpaces(s, open + 1);
      NameEnd(s, from, true);
      NameEnd(s, |s| + 1, true);
      var stop := SkipName(s, from, true);
      if from < stop {
        SpacesEnd(s, stop);
        var close := SkipSpaces(s, stop);
        if close < |s| { SpacesEnd(s, close + 1); }
        assert u[from..stop] == s[from..stop];
      } else if from == |s| {
        NameStays(s, from);
      }
    }
  }

  lemma NameStays(s: string, i: nat)
    requires i >= |s|
    ensures SkipName(s, i, true) == i && SkipName(s, i, false) == i
  {
  }

  lemma KeyEnd(s: string)
    ensures KeyName(s + "\n") == KeyName(s)
  {
    hide SkipSpaces, SkipName, IsSpace, IsWord;
    var u := s + "\n";
    assert forall i :: 0 <= i < |s| ==> u[i] == s[i];
    SpacesEnd(s, 0);
    var from := SkipSpaces(s, 0);
    NameEnd(s, from, false);
    NameEnd(s, |s| + 1, false);
    var stop := SkipName(s, from, false);
    if from < stop {
      SpacesEnd(s, stop);
      assert u[from..stop] == s[from..stop];
    } else if from == |s| {
      NameStays(s, from);
    }
  }

  lemma {:induction false} SplitEnd(t: string)
    requires !Broken(t)
    ensures var lines := SplitLines(t);
            && lines != []
            && SplitLines(t + "\n") == lines[..|lines| - 1] + [lines[|lines| - 1] + "\n"]
            && lines[|lines| - 1] != "" && !EndsLine(lines[|lines| - 1])
  {
    hide SplitLines, LineEnd, IsBreak, EndsLine;
    var u, e := t + "\n", LineEnd(t, 0);
    if e < |t| {
      LineEndSame(t, e);
      var rest := t[e..];
      RestEnd(t, e);
      assert u[e..] == rest + "\n" && u[..e] == t[..e];
      SplitEnd(rest);
      SplitIs(t);
      SplitIs(u);
      var more := SplitLines(rest);
      assert ([t[..e]] + more)[..|more|] == [t[..e]] + more[..|more| - 1];
    } else {
      LastEnd(t);
      SplitIs(t);
      SplitIs(u);
      assert t[e..] == "" && u[|u|..] == "" && t[..e] == t && u[..|u|] == u;
      SplitEmpty();
    }
  }

  lemma RestEnd(t: string, e: nat)
    requires e < |t| && !Broken(t)
    ensures !Broken(t[e..])
  {
  }

  lemma LastEnd(t: string)
    requires !Broken(t) && LineEnd(t, 0) == |t|
    ensures LineEnd(t + "\n", 0) == |t| + 1 && !EndsLine(t)
  {
    var u := t + "\n";
    LineEndScan(t, 0);
    forall i | 0 <= i < |t| ensures !IsBreak(u[i]) {
      assert u[i] == t[i];
    }
    LineEndReach(u, 0, |u|);
  }

  lemma LineEndSame(t: string, e: nat)
    requires e == LineEnd(t, 0) && e < |t|
    ensures LineEnd(t + "\n", 0) == e
  {
    var u := t + "\n";
    LineEndScan(t, 0);
    assert forall i :: 0 <= i < |t| ==> u[i] == t[i];
    LineEndReach(u, 0, e);
  }

  // ----- The section of the last line -----

  lemma LastSection(lines: seq<string>, line: string)
    returns (prior: seq<Section>, table: Option<string>, body: seq<string>)
    ensures Sections(lines + [line]) == prior + [Section(table, body + [line])]
    ensures Sections(lines + [line + "\n"]) == prior + [Section(table, body + [line + "\n"])]
  {
    hide TableName, Sections;
    TableEnd(line);
    SectionsMore(lines, line);
    SectionsMore(lines, line + "\n");
    var secs := Sections(lines);
    if IsHeader(line) {
      prior, table, body := secs, TableName(line), [];
      assert body + [line] == [line] && body + [line + "\n"] == [line + "\n"];
    } else {
      var last := secs[|secs| - 1];
      prior, table, body := secs[..|secs| - 1], last.table, last.lines;
    }
  }

  /** Same text but for a final newline. */
  ghost predicate Twin(a: string, b: string) {
    EnsureNewline(a) == EnsureNewline(b)
  }

  lemma TwinEnd(a: string, line: string)
    requires line != "" && !EndsLine(line)
    ensures Twin(a + line, a + (line + "\n"))
  {
    var x := a + line;
    assert x[|x| - 1] == line[|line| - 1];
    assert x + "\n" == a + (line + "\n");
    assert (x + "\n")[|x|] == '\n';
  }

  lemma JoinTwin(before: string, lines: seq<string>, line: string)
    requires line != "" && !EndsLine(line)
    ensures Twin(before + Join(lines + [line]), before + Join(lines + [line + "\n"]))
  {
    hide Twin, Join, EndsLine;
    JoinAppend(lines, [line]);
    JoinAppend(lines, [line + "\n"]);
    JoinOne(line);
    JoinOne(line + "\n");
    TwinEnd(before + Join(lines), line);
    assert before + Join(lines) + line == before + (Join(lines) + line);
    assert before + Join(lines) + (line + "\n") == before + (Join(lines) + (line + "\n"));
  }

  lemma MovesEnd(line: string)
    ensures Moves(line + "\n") == Moves(line)
  {
    KeyEnd(line);
  }

  /** The last line of the last section is a key that moves. */
  predicate LastMoves(table: Option<string>, body: seq<string>, line: string) {
    table == SKILL && body != [] && Moves(line)
  }

  lemma SelectLast(body: seq<string>, line: string, moved: bool)
    requires body != []
    ensures Select((body + [line])[1..], moved)
            == Select(body[1..], moved) + (if Moves(line) == moved then [line] else [])
  {
    hide Moves;
    assert (body + [line])[1..] == body[1..] + [line];
    SelectNext(body[1..], line, moved);
  }

  function KeptFront(table: Option<string>, body: seq<string>): seq<string> {
    if table == SKILL && body != [] then [body[0]] + Select(body[1..], false) else body
  }

  lemma LastKept(table: Option<string>, body: seq<string>, line: string)
    requires !LastMoves(table, body, line)
    ensures MovedLines(Section(table, body + [line]))
            == (if table == SKILL && body != [] then Select(body[1..], true) else [])
    ensures SubSuffix(table).None? ==> KeptLines(Section(table, body + [line])) == KeptFront(table, body) + [line]
    ensures SubSuffix(table).Some? ==> KeptLines(Section(table, body + [line])) == []
  {
    hide Select, Moves;
    SelectNothing();
    if body != [] {
      SelectLast(body, line, true);
      SelectLast(body, line, false);
      assert (body + [line])[0] == body[0];
    } else {
      assert ([] + [line])[1..] == [];
    }
  }

  lemma LastMoved(table: Option<string>, body: seq<string>, line: string)
    requires LastMoves(table, body, line)
    ensures MovedLines(Section(table, body + [line])) == Select(body[1..], true) + [line]
    ensures KeptLines(Section(table, body + [line])) == KeptFront(table, body)
  {
    hide Select, Moves;
    SelectLast(body, line, true);
    SelectLast(body, line, false);
    assert (body + [line])[0] == body[0];
  }

  lemma SubLast(table: Option<string>, body: seq<string>, line: string)
    requires SubSuffix(table).Some? && line != "" && !EndsLine(line)
    ensures exists front, last ::
      && last != "" && !EndsLine(last)
      && SubLines(Section(table, body + [line])) == front + [last]
      && SubLines(Section(table, body + [line + "\n"])) == front + [last + "\n"]
  {
    var x := SubSuffix(table).value;
    hide SubSuffix, Moves;
    var s, u := Section(table, body + [line]), Section(table, body + [line + "\n"]);
    if body == [] {
      var h := "[forge." + x + "]";
      assert h != "" && h[|h| - 1] == ']' && EndsLine(line + "\n");
      assert SubLines(s) == [] + [h + ""] && h + "" == h;
      assert SubLines(u) == [] + [h + "\n"];
    } else {
      var front := [RenamedHeader(x, body[0])] + body[1..];
      assert (body + [line])[1..] == body[1..] + [line] && (body + [line + "\n"])[1..] == body[1..] + [line + "\n"];
      assert SubLines(s) == front + [line] && SubLines(u) == front + [line + "\n"];
    }
  }

  // ----- The new text -----

  lemma ForgeNext(secs: seq<Section>, s: Section)
    ensures Forge(secs + [s]) == Forge(secs) + MovedLines(s)
  {
    assert (secs + [s])[..|secs|] == secs;
  }

  lemma AssembleNext(secs: seq<Section>, s: Section, forge: seq<string>)
    ensures var r := Assemble(secs, forge); var more := r.0 + Join(KeptLines(s));
            Assemble(secs + [s], forge)
              == (if s.table == SKILL && !r.1 then (EnsureNewline(more) + FORGE + Join(forge), true) else (more, r.1))
  {
    hide Join, KeptLines, EnsureNewline;
    assert (secs + [s])[..|secs|] == secs;
  }

  lemma {:induction false} AppendTwin(a: string, b: string, secs: seq<Section>)
    requires Twin(a, b)
    ensures Twin(AppendSubs(a, secs), AppendSubs(b, secs))
  {
    if secs != [] {
      hide EnsureNewline, Join, SubLines;
      AppendTwin(a, b, secs[..|secs| - 1]);
    }
  }

  lemma AddForgeTwin(r: (string, bool), q: (string, bool), forge: seq<string>)
    requires r.1 == q.1 && Twin(r.0, q.0)
    ensures Twin(AddForge(r, forge), AddForge(q, forge))
  {
    hide Join, EnsureNewline;
  }

  /** Appending the sub-tables, the last one included. */
  lemma SubsTwin(a: string, b: string, prior: seq<Section>, table: Option<string>, body: seq<string>, line: string)
    requires Twin(a, b) && line != "" && !EndsLine(line)
    ensures Twin(AppendSubs(a, prior + [Section(table, body + [line])]),
            AppendSubs(b, prior + [Section(table, body + [line + "\n"])]))
  {
    var s, u := Section(table, body + [line]), Section(table, body + [line + "\n"]);
    hide SubSuffix, Join, SubLines, EndsLine, EnsureNewline;
    AppendNext(a, prior, s);
    AppendNext(b, prior, u);
    AppendTwin(a, b, prior);
    if SubSuffix(table).Some? {
      SubLast(table, body, line);
      var front, last :| last != "" && !EndsLine(last) && SubLines(s) == front + [last]
        && SubLines(u) == front + [last + "\n"];
      JoinTwin(EnsureNewline(AppendSubs(a, prior)) + "\n", front, last);
    }
  }

  /** When the last line stays where it is. */
  lemma KeptTwin(prior: seq<Section>, table: Option<string>, body: seq<string>, line: string)
    requires line != "" && !EndsLine(line) && !LastMoves(table, body, line)
    ensures Twin(NewText(prior + [Section(table, body + [line])]),
            NewText(prior + [Section(table, body + [line + "\n"])]))
  {
    var s, u := Section(table, body + [line]), Section(table, body + [line + "\n"]);
    MovesEnd(line);
    LastKept(table, body, line);
    LastKept(table, body, line + "\n");
    ForgeNext(prior, s);
    ForgeNext(prior, u);
    var forge := Forge(prior + [s]);
    AssembleNext(prior, s, forge);
    AssembleNext(prior, u, forge);
    var r := Assemble(prior, forge);
    var x, y := Assemble(prior + [s], forge), Assemble(prior + [u], forge);
    JoinTwin(r.0, KeptFront(table, body), line);
    assert x.1 == y.1 && Twin(x.0, y.0) by {
      hide SubSuffix, Join, EndsLine, EnsureNewline, Moves, Select, Forge, Assemble;
      if SubSuffix(table).None? {
        assert EnsureNewline(r.0 + Join(KeptLines(s))) == EnsureNewline(r.0 + Join(KeptLines(u)));
      } else {
        assert x == y;
      }
    }
    AddForgeTwin(x, y, forge);
    SubsTwin(AddForge(x, forge), AddForge(y, forge), prior, table, body, line);
  }

  // ----- When the last line moves -----

  predicate HasSkill(secs: seq<Section>) {
    exists i :: 0 <= i < |secs| && secs[i].table == SKILL
  }

  /** Without a [skill] nothing of the moved lines is written yet; with one they are, once. */
  lemma {:induction false} AssembleLength(secs: seq<Section>, forge: seq<string>, more: seq<string>)
    ensures Assemble(secs, forge).1 == HasSkill(secs) && Assemble(secs, more).1 == HasSkill(secs)
    ensures !HasSkill(secs) ==> Assemble(secs, forge) == Assemble(secs, more)
    ensures HasSkill(secs) ==> |Assemble(secs, forge).0| - |Join(forge)| == |Assemble(secs, more).0| - |Join(more)|
  {
    if secs != [] {
      hide HasSkill, Join, EnsureNewline, KeptLines, SubSuffix;
      var n := |secs| - 1;
      AssembleLength(secs[..n], forge, more);
      SkillNext(secs[..n], secs[n]);
      assert secs == secs[..n] + [secs[n]];
    }
  }

  lemma SkillNext(secs: seq<Section>, s: Section)
    ensures HasSkill(secs + [s]) == (HasSkill(secs) || s.table == SKILL) && !HasSkill([])
  {
    if HasSkill(secs) {
      var i :| 0 <= i < |secs| && secs[i].table == SKILL;
      assert (secs + [s])[i].table == SKILL;
    }
    if s.table == SKILL { assert (secs + [s])[|secs|].table == SKILL; }
  }

  lemma FirstSkillTwin(prior: seq<Section>, table: Option<string>, body: seq<string>, line: string)
    requires line != "" && !EndsLine(line) && LastMoves(table, body, line) && !HasSkill(prior)
    ensures Twin(NewText(prior + [Section(table, body + [line])]),
            NewText(prior + [Section(table, body + [line + "\n"])]))
  {
    var s, u := Section(table, body + [line]), Section(table, body + [line + "\n"]);
    MovesEnd(line);
    LastMoved(table, body, line);
    LastMoved(table, body, line + "\n");
    ForgeNext(prior, s);
    ForgeNext(prior, u);
    var front := Forge(prior) + Select(body[1..], true);
    Assoc(Forge(prior), Select(body[1..], true), [line]);
    Assoc(Forge(prior), Select(body[1..], true), [line + "\n"]);
    hide HasSkill, SubSuffix, Join, EndsLine, EnsureNewline, Moves, Select, Forge, Assemble, KeptLines, MovedLines;
    var f, g := Forge(prior + [s]), Forge(prior + [u]);
    AssembleLength(prior, f, g);
    AssembleNext(prior, s, f);
    AssembleNext(prior, u, g);
    var start := EnsureNewline(Assemble(prior, f).0 + Join(KeptLines(s))) + FORGE;
    JoinTwin(start, front, line);
    SubsTwin(start + Join(f), start + Join(g), prior, table, body, line);
  }

  /** What is appended to two texts that end alike is as long. */
  lemma {:induction false} AppendLength(a: string, b: string, secs: seq<Section>)
    requires a != "" && b != "" && EndsLine(a) == EndsLine(b)
    ensures AppendSubs(a, secs) != "" && AppendSubs(b, secs) != ""
    ensures EndsLine(AppendSubs(a, secs)) == EndsLine(AppendSubs(b, secs))
    ensures |AppendSubs(a, secs)| - |a| == |AppendSubs(b, secs)| - |b|
  {
    if secs != [] {
      hide EndsLine, Join, SubLines, SubSuffix, EnsureNewline;
      var n := |secs| - 1;
      AppendLength(a, b, secs[..n]);
      if SubSuffix(secs[n].table).Some? {
        AppendEnds(AppendSubs(a, secs[..n]), AppendSubs(b, secs[..n]), Join(SubLines(secs[n])));
      }
    }
  }

  lemma AppendEnds(a: string, b: string, more: string)
    requires a != "" && b != "" && EndsLine(a) == EndsLine(b)
    ensures |EnsureNewline(a)| - |a| == |EnsureNewline(b)| - |b|
    ensures EndsLine(EnsureNewline(a) + "\n" + more) == EndsLine(EnsureNewline(b) + "\n" + more)
  {
    var x, y := EnsureNewline(a) + "\n", EnsureNewline(b) + "\n";
    if more == "" { assert x + more == x && y + more == y; } else {
      assert (x + more)[|x| + |more| - 1] == more[|more| - 1] == (y + more)[|y| + |more| - 1];
    }
  }

  /** After an earlier [skill] the moved line is glued to the line that follows it. */
  lemma SecondSkill(prior: seq<Section>, table: Option<string>, body: seq<string>, line: string)
    requires LastMoves(table, body, line) && HasSkill(prior) && NoneEmpty(body)
    ensures !Twin(NewText(prior + [Section(table, body + [line])]),
            NewText(prior + [Section(table, body + [line + "\n"])]))
  {
    var s, u := Section(table, body + [line]), Section(table, body + [line + "\n"]);
    MovesEnd(line);
    LastMoved(table, body, line);
    LastMoved(table, body, line + "\n");
    ForgeNext(prior, s);
    ForgeNext(prior, u);
    var front := Forge(prior) + Select(body[1..], true);
    Assoc(Forge(prior), Select(body[1..], true), [line]);
    Assoc(Forge(prior), Select(body[1..], true), [line + "\n"]);
    var kept := KeptFront(SKILL, body);
    KeptSome(body);
    hide HasSkill, SubSuffix, Join, EndsLine, EnsureNewline, Moves, Select, Forge, Assemble, KeptLines, MovedLines;
    var f, g := Forge(prior + [s]), Forge(prior + [u]);
    AssembleLength(prior, f, g);
    AssembleNext(prior, s, f);
    AssembleNext(prior, u, g);
    JoinAppend(front, [line]);
    JoinAppend(front, [line + "\n"]);
    JoinOne(line);
    JoinOne(line + "\n");
    var a, b := Assemble(prior, f).0, Assemble(prior, g).0;
    EndsAfter(a, b, Join(kept));
    AppendLength(a + Join(kept), b + Join(kept), prior);
    AppendNext(a + Join(kept), prior, s);
    AppendNext(b + Join(kept), prior, u);
    Longer(NewText(prior + [s]), NewText(prior + [u]));
  }

  lemma KeptSome(body: seq<string>)
    requires body != [] && NoneEmpty(body)
    ensures Join(KeptFront(SKILL, body)) != ""
  {
    hide Moves, Select;
    var kept := KeptFront(SKILL, body);
    assert Join(kept) == kept[0] + Join(kept[1..]) && kept[0] == body[0];
  }

  lemma EndsAfter(a: string, b: string, more: string)
    requires more != ""
    ensures EndsLine(a + more) == EndsLine(b + more) && a + more != "" && b + more != ""
  {
    assert (a + more)[|a| + |more| - 1] == more[|more| - 1] == (b + more)[|b| + |more| - 1];
  }

  lemma Longer(x: string, y: string)
    requires EndsLine(x) == EndsLine(y) && x != "" && y != "" && |x| != |y|
    ensures !Twin(x, y)
  {
  }

  /** The last line is a provenance key of a [skill] that is not the first. */
  predicate Glued(secs: seq<Section>) {
    && secs != []
    && secs[|secs| - 1].lines != []
    && LastMoves(secs[|secs| - 1].table, Front(secs[|secs| - 1].lines), Last(secs[|secs| - 1].lines))
    && HasSkill(secs[..|secs| - 1])
  }

  function Front(lines: seq<string>): seq<string>
    requires lines != []
  {
    lines[..|lines| - 1]
  }

  function Last(lines: seq<string>): string
    requires lines != []
  {
    lines[|lines| - 1]
  }

  lemma GluedIs(prior: seq<Section>, table: Option<string>, body: seq<string>, line: string)
    ensures Glued(prior + [Section(table, body + [line])]) == (LastMoves(table, body, line) && HasSkill(prior))
  {
    hide LastMoves, HasSkill;
    var s := Section(table, body + [line]);
    assert (prior + [s])[..|prior|] == prior && (body + [line])[..|body|] == body;
  }

  lemma KeysEnd(lines: seq<string>, line: string)
    ensures Keys(lines + [line + "\n"]) == Keys(lines + [line])
  {
    hide KeyName;
    KeyEnd(line);
    assert (lines + [line])[..|lines|] == lines && (lines + [line + "\n"])[..|lines|] == lines;
  }

  lemma SuffixesNext(secs: seq<Section>, s: Section)
    ensures Suffixes(secs + [s]) == Suffixes(secs) + (match SubSuffix(s.table) case None => [] case Some(x) => [x])
  {
    assert (secs + [s])[..|secs|] == secs;
  }

  /** The final newline does not change what is found to move. */
  lemma SameMoves(prior: seq<Section>, table: Option<string>, body: seq<string>, line: string)
    ensures var a, b := prior + [Section(table, body + [line])], prior + [Section(table, body + [line + "\n"])];
            Keys(Forge(a)) == Keys(Forge(b)) && Suffixes(a) == Suffixes(b)
  {
    var s, u := Section(table, body + [line]), Section(table, body + [line + "\n"]);
    MovesEnd(line);
    ForgeNext(prior, s);
    ForgeNext(prior, u);
    SuffixesNext(prior, s);
    SuffixesNext(prior, u);
    if LastMoves(table, body, line) {
      LastMoved(table, body, line);
      LastMoved(table, body, line + "\n");
      hide Keys, Select, Moves;
      Assoc(Forge(prior), Select(body[1..], true), [line]);
      Assoc(Forge(prior), Select(body[1..], true), [line + "\n"]);
      KeysEnd(Forge(prior) + Select(body[1..], true), line);
    } else {
      LastKept(table, body, line);
      LastKept(table, body, line + "\n");
    }
  }

  lemma HasForgeEnd(lines: seq<string>, line: string)
    ensures HasForge(lines + [line + "\n"]) == HasForge(lines + [line])
  {
    hide TableName;
    TableEnd(line);
    var a, b := lines + [line], lines + [line + "\n"];
    if HasForge(a) {
      var i :| 0 <= i < |a| && TableName(a[i]) == Some("forge");
      assert TableName(b[i]) == Some("forge");
    }
    if HasForge(b) {
      var i :| 0 <= i < |b| && TableName(b[i]) == Some("forge");
      assert TableName(a[i]) == Some("forge");
    }
  }

  lemma BodyNoneEmpty(prior: seq<Section>, table: Option<string>, body: seq<string>, line: string)
    requires GoodSections(prior + [Section(table, body + [line])])
    ensures NoneEmpty(body)
  {
    hide TableName;
    var secs := prior + [Section(table, body + [line])];
    assert GoodSection(secs[|prior|]);
    assert forall i :: 0 <= i < |body| ==> body[i] == (body + [line])[i];
  }

  lemma PlannedAs(t: string, secs: seq<Section>)
    requires !HasForge(SplitLines(t)) && secs == Sections(SplitLines(t))
    requires Keys(Forge(secs)) != [] || Suffixes(secs) != []
    ensures Planned(t).after == NewText(secs)
  {
    hide HasForge, NewText, Sections, SplitLines, Keys, Forge, Suffixes;
  }

  lemma ChangedMoves(t: string)
    requires Planned(t).Changed()
    ensures var secs := Sections(SplitLines(t)); Keys(Forge(secs)) != [] || Suffixes(secs) != []
  {
    hide HasForge, NewText, Sections, SplitLines, Keys, Forge, Suffixes;
  }

  lemma NewlineAdded(t: string)
    ensures Broken(t + "\n")
  {
    assert (t + "\n")[|t|] == '\n';
  }

  /** Migrating a file without its final newline gives, up to a newline at the end, what migrating it
      with the newline gives: exactly when its last line is not a provenance key of a second [skill]. */
  lemma FinalNewline(t: string)
    requires !Broken(t) && Planned(t).Changed()
    ensures EnsureNewline(Planned(t).after) == EnsureNewline(Planned(t + "\n").after) <==>
              !Glued(Sections(SplitLines(t)))
  {
    hide *;
    SplitEnd(t);
    var lines := SplitLines(t);
    var rest, line := lines[..|lines| - 1], lines[|lines| - 1];
    assert lines == rest + [line];
    var prior, table, body := LastSection(rest, line);
    var s, u := prior + [Section(table, body + [line])], prior + [Section(table, body + [line + "\n"])];
    NewlineAdded(t);
    SplitNoneEmpty(t);
    SectionsGood(lines);
    BodyNoneEmpty(prior, table, body, line);
    GluedIs(prior, table, body, line);
    PlanIs(t);
    ChangedMoves(t);
    SameMoves(prior, table, body, line);
    HasForgeEnd(rest, line);
    PlannedAs(t + "\n", u);
    TwinMeans(NewText(s), NewText(u));
    if !LastMoves(table, body, line) {
      KeptTwin(prior, table, body, line);
    } else if !HasSkill(prior) {
      FirstSkillTwin(prior, table, body, line);
    } else {
      SecondSkill(prior, table, body, line);
    }
  }

  lemma TwinMeans(a: string, b: string)
    ensures Twin(a, b) <==> EnsureNewline(a) == EnsureNewline(b)
  {
  }

  /** The plan changes the file exactly when there is no [forge] yet and something moves. */
  lemma ChangedWhen(t: string)
    ensures var secs := Sections(SplitLines(t));
            Planned(t).Changed() <==> !HasForge(SplitLines(t)) && (Keys(Forge(secs)) != [] || Suffixes(secs) != [])
  {
    hide HasForge, NewText, Sections, SplitLines, Keys, Forge, Suffixes, Has;
    var secs := Sections(SplitLines(t));
    NewTextHasForge(secs);
    ForgeLineIn(NewText(secs));
  }

  lemma ChangedAtEnd(t: string)
    requires !Broken(t)
    ensures Planned(t).Changed() <==> Planned(t + "\n").Changed()
  {
    hide *;
    SplitEnd(t);
    var lines := SplitLines(t);
    var rest, line := lines[..|lines| - 1], lines[|lines| - 1];
    assert lines == rest + [line];
    var prior, table, body := LastSection(rest, line);
    SameMoves(prior, table, body, line);
    HasForgeEnd(rest, line);
    ChangedWhen(t);
    ChangedWhen(t + "\n");
  }

  lemma {:induction false} MoreRows(t: string, table: Option<string>)
    requires Broken(t)
    ensures TextRows(EnsureNewline(t), table) == TextRows(t, table)
  {
    hide Sections, Rows, SplitLines, NonBlank;
    if EnsureNewline(t) != t {
      BreakMore(t);
      var lines := SplitLines(t);
      var secs := Sections(lines);
      BlankLine();
      SectionsMore(lines, "\n");
      SomeSections(lines);
      assert Extend(secs, ["\n"]) == AddBlank(secs);
      SplitNoneEmpty(t);
      SectionsGood(lines);
      LastGood(secs);
      RowsBlank(secs, table);
    }
  }

  lemma LastGood(secs: seq<Section>)
    requires GoodSections(secs) && secs != []
    ensures secs[|secs| - 1].table.Some? ==> secs[|secs| - 1].lines != []
  {
    hide TableName;
    assert GoodSection(secs[|secs| - 1]);
  }

  lemma {:induction false} BreakMore(t: string)
    requires Broken(t)
    ensures SplitLines(t + "\n") == SplitLines(t) + ["\n"]
  {
    hide SplitLines;
    SplitProper(t);
    JoinSplit(t);
    JoinAppend(SplitLines(t), ["\n"]);
    JoinOne("\n");
    BlankLine();
    var lines := SplitLines(t) + ["\n"];
    assert AllProper(lines);
    SplitOfJoin(lines);
  }

  lemma ProperBroken(lines: seq<string>)
    requires AllProper(lines)
    ensures Broken(Join(lines))
  {
    if lines != [] {
      var n := |lines| - 1;
      assert lines == lines[..n] + [lines[n]];
      JoinAppend(lines[..n], [lines[n]]);
      JoinOne(lines[n]);
      var t := Join(lines);
      assert t[|t| - 1] == lines[n][|lines[n]| - 1];
    }
  }

  lemma SkillLiterals()
    ensures "[" + "skill" + "]\n" == "[skill]\n" && "[" + "skill" + "]" == "[skill]"
    ensures IsName("skill") && "skill" != "" && SKILL == Some("skill") && "[skill]\n" == "[skill]" + ['\n']
  {
    hide TableName, NoBreak, SkipName, SkipSpaces;
  }

  lemma StarsMoves()
    ensures Moves("stars=1") && TableName("stars=1") == None && SplitLines("stars=1") == ["stars=1"]
  {
    var s := "stars=1";
    assert SkipName(s, 0, false) == 5 by {
      assert SkipName(s, 5, false) == 5;
      assert SkipName(s, 3, false) == SkipName(s, 4, false) == 5;
      assert SkipName(s, 1, false) == SkipName(s, 2, false) == 5;
    }
    assert s[0..5] == "stars";
    assert "stars" == PROVENANCE_KEYS[4];
    LineEndReach(s, 0, 7);
    assert s[..7] == s && s[7..] == "";
    assert SplitLines(s) == [s] + SplitLines("");
  }

  lemma SplitFirst(line: string, t: string)
    requires Proper(line)
    ensures SplitLines(line + t) == [line] + SplitLines(t)
  {
    ProperFirst(line, t);
    assert (line + t)[..|line|] == line && (line + t)[|line|..] == t;
  }

  /** Such a file: the moved line runs into the header of the second [skill]. */
  lemma GluedExample()
    ensures Glued(Sections(SplitLines("[skill]\n" + ("[skill]\n" + "stars=1"))))
  {
    hide *;
    var h, k := "[skill]\n", "stars=1";
    SkillLiterals();
    HeaderOf("skill");
    ProperSnoc("[skill]");
    StarsMoves();
    SplitFirst(h, h + k);
    SplitFirst(h, k);
    assert [h] + ([h] + [k]) == [] + [h] + [h] + [k];
    ExampleSections(h, k);
  }

  lemma ExampleSections(h: string, k: string)
    requires TableName(h) == SKILL && TableName(k) == None && Moves(k)
    ensures Glued(Sections([] + [h] + [h] + [k]))
  {
    hide Sections, TableName, Moves;
    FlatEmpty();
    SectionsMore([], h);
    SectionsMore([] + [h], h);
    SectionsMore([] + [h] + [h], k);
    var secs := Sections([] + [h] + [h] + [k]);
    assert secs[1].table == SKILL && secs[2] == Section(SKILL, [h] + [k]) && |secs| == 3;
    assert ([h] + [k])[..1] == [h];
    assert secs[..2][1].table == SKILL;
  }
}
