/** What the SKILL.toml migration keeps, whatever line breaks a file has: every row is kept, under its table or
    under the one it is renamed to, in the order it had, exactly when no renamed header runs into the line below
    it; and which lines are lost then. */
module MigrationKept {
  import opened Text
  import opened Migration
  import opened MigrationRerun
  import opened MigrationTables
  import opened MigrationMeaning
  import opened MigrationFinalLine

  function NewHeader(suffix: string): string { "[forge." + suffix + "]" }

  /** The header of a sub-table that is renamed ends in another line break than the newline, which is not
      written again, and a line that is not blank follows it: the two become one line. */
  predicate RunsOn(s: Section) {
    SubSuffix(s.table).Some? && |s.lines| > 1 && !EndsLine(s.lines[0]) && s.lines[1] != "\n"
  }

  predicate NoneRunsOn(secs: seq<Section>) {
    forall i :: 0 <= i < |secs| ==> !RunsOn(secs[i])
  }

  /** The section as if its header ended in a newline. A blank line below it has the newline that it lacks. */
  function Mended(s: Section): Section {
    if SubSuffix(s.table).None? || s.lines == [] || EndsLine(s.lines[0]) then s
    else s.(lines := [("[" + s.table.value + "]") + ['\n']]
                     + (if |s.lines| > 1 && s.lines[1] == "\n" then s.lines[2..] else s.lines[1..]))
  }

  function MendedAll(secs: seq<Section>): seq<Section> {
    seq(|secs|, i requires 0 <= i < |secs| => Mended(secs[i]))
  }

  lemma MendedNext(secs: seq<Section>, s: Section)
    ensures MendedAll(secs + [s]) == MendedAll(secs) + [Mended(s)] && MendedAll([]) == []
  {
    hide Mended;
  }

  // ----- Mending changes nothing but such headers -----

  lemma SkillSubHeader(x: string)
    requires x in PROVENANCE_SUBTABLES
    ensures var h := ("[" + ("skill." + x) + "]") + ['\n'];
            Proper(h) && EndsLine(h) && TableName(h) == Some("skill." + x)
  {
    hide TableName, NoBreak, SkipName, SkipSpaces, Proper;
    assert IsName("skill.") && IsName(x);
    HeaderOf("skill." + x);
    ProperSnoc("[" + ("skill." + x) + "]");
    assert "[" + ("skill." + x) + "]\n" == ("[" + ("skill." + x) + "]") + ['\n'];
  }

  lemma GoodBody(s: Section)
    requires GoodSection(s) && AllProper(s.lines) && s.table.Some?
    ensures s.lines != [] && CleanLines(s.lines[1..])
  {
    hide TableName, Proper;
  }

  lemma MendedClean(s: Section)
    requires GoodSection(s) && AllProper(s.lines)
    ensures Clean(Mended(s)) && Mended(s).table == s.table
  {
    if SubSuffix(s.table).Some? {
      hide GoodSection, AllProper, Clean, CleanLines, TableName;
      GoodBody(s);
      hide SubSuffix;
      var x := SubSuffix(s.table).value;
      if !EndsLine(s.lines[0]) {
        SkillSubHeader(x);
        var body := if |s.lines| > 1 && s.lines[1] == "\n" then s.lines[2..] else s.lines[1..];
        CleanRest(s.lines);
        HeadClean(s.table, ("[" + ("skill." + x) + "]") + ['\n'], body);
      } else {
        EndsClean(s);
      }
    }
  }

  lemma CleanRest(lines: seq<string>)
    requires lines != [] && CleanLines(lines[1..])
    ensures |lines| > 1 ==> CleanLines(lines[2..]) && !IsHeader(lines[1]) && Proper(lines[1])
  {
    hide IsHeader, Proper;
    if |lines| > 1 {
      assert lines[1..][0] == lines[1];
      assert forall i :: 0 <= i < |lines| - 2 ==> lines[2..][i] == lines[1..][i + 1];
    }
  }

  lemma EndsClean(s: Section)
    requires GoodSection(s) && AllProper(s.lines) && s.lines != [] && EndsLine(s.lines[0])
    ensures Clean(s)
  {
    hide TableName, Proper;
  }

  /** The sections of a text that ends in a line break, and the same mended. */
  lemma TextMended(t: string)
    requires Broken(t)
    ensures var secs := Sections(SplitLines(t));
            && GoodSections(secs) && ProperSections(secs) && secs != []
            && CleanSections(MendedAll(secs))
  {
    hide *;
    var lines := SplitLines(t);
    SplitProper(t);
    SplitNoneEmpty(t);
    SectionsGood(lines);
    FlatSections(lines);
    ProperParts(Sections(lines));
    SomeSections(lines);
    AllMended(Sections(lines));
  }

  lemma AllMended(secs: seq<Section>)
    requires GoodSections(secs) && ProperSections(secs)
    ensures CleanSections(MendedAll(secs))
  {
    hide GoodSection, AllProper, Clean, Mended;
    forall i | 0 <= i < |secs| ensures Clean(Mended(secs[i])) && Mended(secs[i]).table == secs[i].table {
      MendedClean(secs[i]);
    }
  }

  lemma MendedSame(s: Section)
    ensures Mended(s).table == s.table && KeptLines(Mended(s)) == KeptLines(s) && MovedLines(Mended(s)) == MovedLines(s)
    ensures s.table != SKILL || SubSuffix(s.table).None?
  {
    hide Select;
  }

  lemma MendedRows(s: Section, table: Option<string>)
    ensures RowsOf(Mended(s), table) == RowsOf(s, table)
  {
    hide NonBlank;
    if Mended(s) != s {
      var body := s.lines[1..];
      assert Body(s) == body;
      if |s.lines| > 1 && s.lines[1] == "\n" {
        assert body == ["\n"] + s.lines[2..];
        NonBlankAppend(["\n"], s.lines[2..]);
        NonBlankNext([], "\n");
        NonBlankNothing();
        assert [] + ["\n"] == ["\n"] && [] + NonBlank(s.lines[2..]) == NonBlank(s.lines[2..]);
      }
    }
  }

  lemma {:induction false} MendedMeans(secs: seq<Section>, table: Option<string>)
    ensures Rows(MendedAll(secs), table) == Rows(secs, table)
  {
    hide *;
    if secs == [] {
      MendedNext([], Section(None, []));
    } else {
      var n := |secs| - 1;
      assert secs == secs[..n] + [secs[n]];
      MendedMeans(secs[..n], table);
      MendedNext(secs[..n], secs[n]);
      MendedRows(secs[n], table);
      RowsAdd(secs[..n], secs[n], table);
      RowsAdd(MendedAll(secs[..n]), Mended(secs[n]), table);
    }
  }

  lemma MendedHolds(secs: seq<Section>, table: Option<string>)
    ensures Holds(MendedAll(secs), table) == Holds(secs, table)
  {
    hide Rows, Select, MendedAll;
    MendedMeans(secs, SKILL);
    MendedMeans(secs, table);
    if ForgeSuffix(table).Some? { MendedMeans(secs, Some("skill." + ForgeSuffix(table).value)); }
  }

  lemma {:induction false} MendedForge(secs: seq<Section>)
    ensures Forge(MendedAll(secs)) == Forge(secs)
  {
    hide *;
    if secs == [] {
      MendedNext([], Section(None, []));
    } else {
      var n := |secs| - 1;
      assert secs == secs[..n] + [secs[n]];
      MendedForge(secs[..n]);
      MendedNext(secs[..n], secs[n]);
      MendedSame(secs[n]);
      ForgeNext(secs[..n], secs[n]);
      ForgeNext(MendedAll(secs[..n]), Mended(secs[n]));
    }
  }

  lemma {:induction false} MendedAssemble(secs: seq<Section>, forge: seq<string>)
    ensures Assemble(MendedAll(secs), forge) == Assemble(secs, forge)
  {
    hide *;
    if secs == [] {
      MendedNext([], Section(None, []));
    } else {
      var n := |secs| - 1;
      assert secs == secs[..n] + [secs[n]];
      MendedAssemble(secs[..n], forge);
      MendedNext(secs[..n], secs[n]);
      MendedSame(secs[n]);
      AssembleNext(secs[..n], secs[n], forge);
      AssembleNext(MendedAll(secs[..n]), Mended(secs[n]), forge);
    }
  }

  /** The text before the sub-tables are appended. */
  function Start(secs: seq<Section>): string {
    AddForge(Assemble(secs, Forge(secs)), Forge(secs))
  }

  lemma NewTexts(secs: seq<Section>)
    ensures NewText(secs) == AppendSubs(Start(secs), secs)
    ensures NewText(MendedAll(secs)) == AppendSubs(Start(secs), MendedAll(secs))
  {
    hide Forge, Assemble, AddForge, AppendSubs, MendedAll;
    MendedForge(secs);
    MendedAssemble(secs, Forge(secs));
  }

  // ----- The lines that are appended -----

  /** The lines of a renamed sub-table, as they are written. */
  function NewLines(s: Section): seq<string>
    requires SubSuffix(s.table).Some? && s.lines != []
  {
    var h := NewHeader(SubSuffix(s.table).value);
    if EndsLine(s.lines[0]) then [h + ['\n']] + s.lines[1..]
    else if |s.lines| == 1 then [h]
    else [h + s.lines[1]] + s.lines[2..]
  }

  lemma NewLinesText(s: Section)
    requires SubSuffix(s.table).Some? && s.lines != []
    ensures Join(SubLines(s)) == Join(NewLines(s))
  {
    hide SubSuffix, EndsLine;
    var h := NewHeader(SubSuffix(s.table).value);
    var rest := s.lines[1..];
    assert h + "" == h && h + "\n" == h + ['\n'];
    if !EndsLine(s.lines[0]) {
      assert SubLines(s) == [h] + rest;
      if |s.lines| > 1 {
        assert rest == [s.lines[1]] + s.lines[2..];
        JoinAppend([h], rest);
        JoinAppend([s.lines[1]], s.lines[2..]);
        JoinAppend([h + s.lines[1]], s.lines[2..]);
        JoinOne(h);
        JoinOne(s.lines[1]);
        JoinOne(h + s.lines[1]);
        Assoc(h, s.lines[1], Join(s.lines[2..]));
      } else {
        assert rest == [] && [h] + [] == [h];
      }
    }
  }

  lemma HeaderLine(x: string)
    requires x in PROVENANCE_SUBTABLES
    ensures var h := NewHeader(x);
            && NoBreak(h) && h != "" && SplitLines(h) == [h] && !Broken(h) && !EndsLine(h)
            && Proper(h + ['\n']) && EndsLine(h + ['\n']) && IsHeader(h + ['\n'])
              && TableName(h) == TableName(h + ['\n'])
  {
    var h := NewHeader(x);
    hide TableName, SkipName, SkipSpaces;
    SuffixHeader(x);
    SuffixLiterals(x);
    HeaderOf("forge." + x);
    TableEnd(h);
    assert h + "\n" == h + ['\n'];
    assert h[|h| - 1] == ']' && !IsBreak(']');
    LineEndReach(h, 0, |h|);
    assert h[..|h|] == h && h[|h|..] == "";
    SplitEmpty();
  }

  lemma {:induction false} SplitAppend(a: seq<string>, line: string)
    requires AllProper(a)
    ensures SplitLines(Join(a) + line) == a + SplitLines(line)
  {
    hide SplitLines, Proper;
    if a == [] {
      assert Join(a) + line == line && a + SplitLines(line) == SplitLines(line);
    } else {
      SplitAppend(a[1..], line);
      SplitFirst(a[0], Join(a[1..]) + line);
      assert Join(a) + line == a[0] + (Join(a[1..]) + line);
      assert [a[0]] + (a[1..] + SplitLines(line)) == a + SplitLines(line);
    }
  }

  lemma BrokenAppend(a: string, b: string)
    requires Broken(a)
    ensures SplitLines(a + b) == SplitLines(a) + SplitLines(b)
    ensures Broken(b) ==> Broken(a + b)
  {
    hide SplitLines, Join;
    SplitProper(a);
    JoinSplit(a);
    SplitAppend(SplitLines(a), b);
    if b != "" {
      assert (a + b)[|a + b| - 1] == b[|b| - 1];
    } else {
      assert a + b == a;
    }
  }

  /** A text whose last line is complete, or is a new header. */
  ghost predicate Whole(a: string) {
    Broken(a) || exists z, x :: HeaderEnds(a, z, x)
  }

  ghost predicate HeaderEnds(a: string, z: string, x: string) {
    Broken(z) && x in PROVENANCE_SUBTABLES && a == z + NewHeader(x)
  }

  function Completed(a: string): string { if Broken(a) then a else a + "\n" }

  lemma HeaderLines(a: string, z: string, x: string)
    requires HeaderEnds(a, z, x)
    ensures !Broken(a) && a != "" && !EndsLine(a)
    ensures SplitLines(a) == SplitLines(z) + [NewHeader(x)]
    ensures SplitLines(a + "\n") == SplitLines(z) + [NewHeader(x) + ['\n']]
  {
    hide SplitLines, NewHeader, TableName;
    var h := NewHeader(x);
    HeaderLine(x);
    BrokenAppend(z, h);
    assert a + "\n" == z + (h + ['\n']) && a[|a| - 1] == h[|h| - 1];
    BrokenAppend(z, h + ['\n']);
    OneLine(h + ['\n']);
  }

  lemma OneLine(line: string)
    requires Proper(line)
    ensures SplitLines(line) == [line]
  {
    assert line + "" == line;
    SplitFirst(line, "");
    SplitEmpty();
  }

  lemma WholeAgain(a: string)
    requires Whole(a)
    ensures SplitLines(EnsureNewline(a))
         == SplitLines(Completed(a)) + (if Broken(a) && EnsureNewline(a) != a then ["\n"] else [])
    ensures Broken(EnsureNewline(a)) && Broken(Completed(a))
  {
    hide SplitLines;
    if !Broken(a) {
      var z, x :| HeaderEnds(a, z, x);
      HeaderLines(a, z, x);
      assert (a + "\n")[|a|] == '\n' && IsBreak('\n');
    } else if EnsureNewline(a) != a {
      BreakMore(a);
      assert (a + "\n")[|a|] == '\n' && IsBreak('\n');
    } else {
      assert SplitLines(a) + [] == SplitLines(a);
    }
  }

  /** The lines of a renamed sub-table, the last one completed. */
  function FullLines(s: Section): (lines: seq<string>)
    requires SubSuffix(s.table).Some? && s.lines != []
    ensures lines != []
  {
    if |s.lines| == 1 then [NewHeader(SubSuffix(s.table).value) + ['\n']] else NewLines(s)
  }

  /** A sub-table that is renamed, as it is in a text that ends in a line break. */
  ghost predicate SubSection(s: Section) {
    SubSuffix(s.table).Some? && s.lines != [] && CleanLines(s.lines[1..])
  }

  lemma GluedProper(h: string, line: string)
    requires NoBreak(h) && Proper(line)
    ensures Proper(h + line)
  {
    var u, n := h + line, |h| + |line| - 1;
    assert u[n] == line[|line| - 1];
    forall i | 0 <= i < n ensures !IsBreak(u[..n][i]) {
      if i >= |h| { NoBreakAt(line[..|line| - 1], i - |h|); } else { NoBreakAt(h, i); }
    }
  }

  lemma NewProper(s: Section)
    requires SubSection(s)
    ensures AllProper(FullLines(s))
    ensures NewLines(s) != FullLines(s) ==>
              var h := NewHeader(SubSuffix(s.table).value); NewLines(s) == [h] && FullLines(s) == [h + ['\n']]
  {
    hide NoBreak, IsBreak, EndsLine, SubSuffix, IsHeader, NewHeader, Proper;
    BodyProper(s.lines);
    HeaderLine(SubSuffix(s.table).value);
    if |s.lines| > 1 { GluedProper(NewHeader(SubSuffix(s.table).value), s.lines[1]); }
  }

  lemma BodyProper(lines: seq<string>)
    requires lines != [] && CleanLines(lines[1..])
    ensures AllProper(lines[1..]) && (|lines| > 1 ==> AllProper(lines[2..]) && Proper(lines[1]))
  {
    hide IsHeader, Proper;
    if |lines| > 1 {
      CleanRest(lines);
    }
  }

  /** The lines of the text after one more sub-table. */
  lemma SubText(a: string, s: Section)
    requires Whole(a) && SubSection(s)
    ensures var c := EnsureNewline(a) + "\n" + Join(SubLines(s));
            && Whole(c)
            && SplitLines(c) == SplitLines(EnsureNewline(a)) + ["\n"] + NewLines(s)
            && SplitLines(Completed(c)) == SplitLines(EnsureNewline(a)) + ["\n"] + FullLines(s)
            && Completed(c) == EnsureNewline(a) + "\n" + Join(FullLines(s))
  {
    hide *;
    SubSectionIs(s);
    var b, x := EnsureNewline(a) + "\n", SubSuffix(s.table).value;
    NewLinesText(s);
    WholeAgain(a);
    BreakEnds(EnsureNewline(a));
    NewProper(s);
    var lines := FullLines(s);
    var c := b + Join(NewLines(s));
    SplitOfJoin(lines);
    BrokenAppend(b, Join(lines));
    ProperBroken(lines);
    if NewLines(s) == lines {
      WholeIs(c, b, x);
    } else {
      JoinOne(NewHeader(x));
      JoinOne(NewHeader(x) + ['\n']);
      HeaderEndsIs(c, b, x);
      HeaderLines(c, b, x);
      WholeIs(c, b, x);
      assert c + "\n" == b + (NewHeader(x) + ['\n']);
    }
  }

  lemma SubSectionIs(s: Section)
    requires SubSection(s)
    ensures SubSuffix(s.table).Some? && s.lines != [] && SubSuffix(s.table).value in PROVENANCE_SUBTABLES
  {
  }

  lemma BreakEnds(a: string)
    requires Broken(a)
    ensures Broken(a + "\n") && SplitLines(a + "\n") == SplitLines(a) + ["\n"]
  {
    hide SplitLines;
    BreakMore(a);
    assert (a + "\n")[|a|] == '\n' && IsBreak('\n');
  }

  lemma HeaderEndsIs(a: string, z: string, x: string)
    requires Broken(z) && x in PROVENANCE_SUBTABLES && a == z + NewHeader(x)
    ensures HeaderEnds(a, z, x)
  {
  }

  lemma WholeIs(c: string, z: string, x: string)
    ensures Broken(c) ==> Whole(c) && Completed(c) == c
    ensures HeaderEnds(c, z, x) ==> Whole(c)
    ensures !Broken(c) ==> Completed(c) == c + "\n"
  {
  }

  // ----- What rows are worth -----

  /** A row is worth the less the longer it is. */
  function Worth(row: string): (w: real)
    ensures w > 0.0
  {
    1.0 / (|row| as real + 1.0)
  }

  lemma LongerIsLess(a: string, b: string)
    requires |a| < |b|
    ensures Worth(b) < Worth(a)
  {
    Inverse(|a| as real + 1.0, |b| as real + 1.0);
  }

  lemma Inverse(x: real, y: real)
    requires 0.0 < x < y
    ensures 1.0 / y < 1.0 / x
  {
    var v := 1.0 / y;
    assert v * y == 1.0;
    assert v * x < v * y by { assert v * (y - x) > 0.0; }
    assert v < 1.0 / x;
  }

  function RowsWorth(rows: seq<string>): real {
    if rows == [] then 0.0 else RowsWorth(rows[..|rows| - 1]) + Worth(rows[|rows| - 1])
  }

  lemma {:induction false} RowsWorthAppend(a: seq<string>, b: seq<string>)
    ensures RowsWorth(a + b) == RowsWorth(a) + RowsWorth(b)
  {
    hide Worth;
    if b == [] {
      assert a + b == a;
    } else {
      assert (a + b)[..|a + b| - 1] == a + b[..|b| - 1];
      RowsWorthAppend(a, b[..|b| - 1]);
    }
  }

  function AllWorth(secs: seq<Section>): real {
    if secs == [] then 0.0 else AllWorth(secs[..|secs| - 1]) + RowsWorth(NonBlank(Body(secs[|secs| - 1])))
  }

  function Without(secs: seq<Section>, table: Option<string>): (r: seq<Section>)
    ensures |r| <= |secs|
  {
    if secs == [] then [] else
    Without(secs[..|secs| - 1], table) + (if secs[|secs| - 1].table == table then [] else [secs[|secs| - 1]])
  }

  lemma {:induction false} WithoutRows(secs: seq<Section>, table: Option<string>, other: Option<string>)
    ensures Rows(Without(secs, table), other) == if other == table then [] else Rows(secs, other)
  {
    if secs != [] {
      hide NonBlank, Body;
      var n := |secs| - 1;
      var prior, s := Without(secs[..n], table), secs[n];
      WithoutRows(secs[..n], table, other);
      RowsAdd(prior, s, other);
      assert prior + [] == prior && Rows(prior, other) + [] == Rows(prior, other);
      assert Rows(secs[..n], other) + [] == Rows(secs[..n], other);
    }
  }

  lemma {:induction false} WithoutWorth(secs: seq<Section>, table: Option<string>)
    ensures AllWorth(secs) == RowsWorth(Rows(secs, table)) + AllWorth(Without(secs, table))
  {
    if secs != [] {
      hide NonBlank, Body, Rows, RowsWorth, Without;
      var n := |secs| - 1;
      var s := secs[n];
      assert secs == secs[..n] + [s];
      WithoutWorth(secs[..n], table);
      RowsAdd(secs[..n], s, table);
      RowsWorthAppend(Rows(secs[..n], table), RowsOf(s, table));
      NoWorth();
      WithoutNext(secs[..n], s, table);
      AllWorthNext(Without(secs[..n], table), s);
    } else {
      NoWorth();
    }
  }

  lemma NoWorth()
    ensures RowsWorth([]) == 0.0 && AllWorth([]) == 0.0 && LinesWorth([]) == 0.0
    ensures forall table :: Rows([], table) == [] && Without([], table) == []
  {
  }

  lemma WithoutNext(secs: seq<Section>, s: Section, table: Option<string>)
    ensures Without(secs + [s], table) == if s.table == table then Without(secs, table) else Without(secs, table) + [s]
    ensures |Without(secs + [s], table)| <= |secs| + (if s.table == table then 0 else 1)
  {
    assert (secs + [s])[..|secs|] == secs;
    assert Without(secs, table) + [] == Without(secs, table);
  }

  lemma AllWorthNext(secs: seq<Section>, s: Section)
    ensures AllWorth(secs + [s]) == AllWorth(secs) + RowsWorth(NonBlank(Body(s)))
  {
    hide NonBlank, Body, RowsWorth;
    assert (secs + [s])[..|secs|] == secs;
  }

  lemma Shrinks(secs: seq<Section>)
    requires secs != []
    ensures |Without(secs, secs[|secs| - 1].table)| < |secs|
  {
    var n := |secs| - 1;
    assert secs == secs[..n] + [secs[n]];
    WithoutNext(secs[..n], secs[n], secs[n].table);
  }

  /** Where every table has the same rows, all rows together are worth the same. */
  lemma {:induction false} SameWorth(a: seq<Section>, b: seq<Section>)
    requires forall table :: Rows(a, table) == Rows(b, table)
    ensures AllWorth(a) == AllWorth(b)
    decreases |a| + |b|
  {
    hide Rows, RowsWorth, Without, AllWorth;
    if a != [] || b != [] {
      var table := if a != [] then a[|a| - 1].table else b[|b| - 1].table;
      if a != [] { Shrinks(a); } else { Shrinks(b); }
      WithoutWorth(a, table);
      WithoutWorth(b, table);
      forall other ensures Rows(Without(a, table), other) == Rows(Without(b, table), other) {
        WithoutRows(a, table, other);
        WithoutRows(b, table, other);
      }
      SameWorth(Without(a, table), Without(b, table));
    }
  }

  function LinesWorth(lines: seq<string>): real {
    if lines == [] then 0.0 else
    var line := lines[|lines| - 1];
    LinesWorth(lines[..|lines| - 1]) + (if IsHeader(line) || line == "\n" then 0.0 else Worth(line))
  }

  lemma LinesWorthNext(lines: seq<string>, line: string)
    ensures LinesWorth(lines + [line])
            == LinesWorth(lines) + (if IsHeader(line) || line == "\n" then 0.0 else Worth(line))
  {
    hide Worth, IsHeader;
    assert (lines + [line])[..|lines|] == lines;
  }

  lemma {:induction false} LinesWorthAppend(a: seq<string>, b: seq<string>)
    ensures LinesWorth(a + b) == LinesWorth(a) + LinesWorth(b)
  {
    hide Worth, IsHeader;
    if b == [] {
      assert a + b == a;
    } else {
      assert (a + b)[..|a + b| - 1] == a + b[..|b| - 1];
      LinesWorthAppend(a, b[..|b| - 1]);
    }
  }

  lemma LinesWorthOne(line: string)
    ensures LinesWorth([line]) == if IsHeader(line) || line == "\n" then 0.0 else Worth(line)
  {
    hide Worth, IsHeader;
    LinesWorthNext([], line);
    assert [] + [line] == [line];
  }

  /** All rows together are all lines but the headers and the blank ones. */
  lemma {:induction false} SectionsWorth(lines: seq<string>)
    requires NoneEmpty(lines)
    ensures AllWorth(Sections(lines)) == LinesWorth(lines)
  {
    hide *;
    if lines == [] {
      FirstWorth();
    } else {
      var n := |lines| - 1;
      var prior, line := lines[..n], lines[n];
      assert lines == prior + [line];
      NoneEmptyPrefix(prior, line);
      SectionsWorth(prior);
      SectionsMore(prior, line);
      LinesWorthNext(prior, line);
      SomeSections(prior);
      SectionsGood(prior);
      LastGood(Sections(prior));
      if IsHeader(line) {
        AllWorthNext(Sections(prior), Section(TableName(line), [line]));
        HeaderBody(line);
      } else {
        ExtendWorth(Sections(prior), line);
      }
    }
  }

  lemma NoneEmptyPrefix(lines: seq<string>, line: string)
    requires NoneEmpty(lines + [line])
    ensures NoneEmpty(lines)
  {
    assert forall i :: 0 <= i < |lines| ==> lines[i] == (lines + [line])[i];
  }

  lemma FirstWorth()
    ensures AllWorth(Sections([])) == 0.0 && LinesWorth([]) == 0.0
  {
    assert AllWorth([]) == 0.0 && [Section(None, [])][..0] == [];
  }

  lemma HeaderBody(line: string)
    requires IsHeader(line)
    ensures RowsWorth(NonBlank(Body(Section(TableName(line), [line])))) == 0.0
  {
    hide TableName;
  }

  lemma ExtendWorth(secs: seq<Section>, line: string)
    requires secs != [] && (secs[|secs| - 1].table.Some? ==> secs[|secs| - 1].lines != [])
    ensures AllWorth(Extend(secs, [line])) == AllWorth(secs) + (if line == "\n" then 0.0 else Worth(line))
  {
    hide NonBlank, RowsWorth, Worth, AllWorth, Body;
    var n := |secs| - 1;
    var s := secs[n];
    assert secs == secs[..n] + [s];
    AllWorthNext(secs[..n], s);
    AllWorthNext(secs[..n], s.(lines := s.lines + [line]));
    BodyNext(s, line);
    BodyWorth(Body(s), line);
  }

  lemma BodyNext(s: Section, line: string)
    requires s.table.Some? ==> s.lines != []
    ensures Body(s.(lines := s.lines + [line])) == Body(s) + [line]
  {
  }

  lemma BodyWorth(body: seq<string>, line: string)
    ensures RowsWorth(NonBlank(body + [line]))
         == RowsWorth(NonBlank(body)) + (if line == "\n" then 0.0 else Worth(line))
  {
    hide NonBlank, RowsWorth, Worth;
    NonBlankNext(body, line);
    RowsWorthAppend(NonBlank(body), if line == "\n" then [] else [line]);
    RowWorth(line);
    NoWorth();
  }

  lemma RowWorth(row: string)
    ensures RowsWorth([row]) == Worth(row)
  {
    hide Worth;
    assert [row][..0] == [];
  }

  // ----- What is lost -----

  ghost predicate SubSections(secs: seq<Section>) {
    forall i :: 0 <= i < |secs| && SubSuffix(secs[i].table).Some? ==> SubSection(secs[i])
  }

  function SubsWorth(secs: seq<Section>): real {
    if secs == [] then 0.0 else
    var s := secs[|secs| - 1];
    SubsWorth(secs[..|secs| - 1])
    + (if SubSuffix(s.table).Some? && s.lines != [] then LinesWorth(NewLines(s)) else 0.0)
  }

  lemma SubsWorthNext(secs: seq<Section>, s: Section)
    ensures SubsWorth(secs + [s])
         == SubsWorth(secs) + (if SubSuffix(s.table).Some? && s.lines != [] then LinesWorth(NewLines(s)) else 0.0)
    ensures SubsWorth([]) == 0.0
    ensures SubSections(secs + [s]) ==> SubSections(secs) && (SubSuffix(s.table).Some? ==> SubSection(s))
  {
    hide LinesWorth, SubSection, SubSuffix, NewLines;
    assert (secs + [s])[..|secs|] == secs && (secs + [s])[|secs|] == s;
    assert forall i :: 0 <= i < |secs| ==> secs[i] == (secs + [s])[i];
  }

  lemma WholeWorth(a: string)
    requires Whole(a)
    ensures LinesWorth(SplitLines(EnsureNewline(a))) == LinesWorth(SplitLines(a))
    ensures LinesWorth(["\n"]) == 0.0
  {
    hide SplitLines, LinesWorth, NewHeader, TableName, Worth, EnsureNewline;
    WholeAgain(a);
    LinesWorthAppend(SplitLines(Completed(a)), ["\n"]);
    LinesWorthOne("\n");
    assert SplitLines(Completed(a)) + [] == SplitLines(Completed(a));
    if !Broken(a) {
      var z, x :| HeaderEnds(a, z, x);
      HeaderLines(a, z, x);
      HeaderLine(x);
      LinesWorthAppend(SplitLines(z), [NewHeader(x)]);
      LinesWorthAppend(SplitLines(z), [NewHeader(x) + ['\n']]);
      LinesWorthOne(NewHeader(x));
      LinesWorthOne(NewHeader(x) + ['\n']);
    }
  }

  lemma {:induction false} AppendWorth(out: string, secs: seq<Section>)
    requires Broken(out) && SubSections(secs)
    ensures var text := AppendSubs(out, secs);
            Whole(text) && LinesWorth(SplitLines(text)) == LinesWorth(SplitLines(out)) + SubsWorth(secs)
  {
    hide *;
    if secs == [] {
      SubsWorthNext([], Section(None, []));
      AppendStart(out);
    } else {
      var n := |secs| - 1;
      var prior, s := secs[..n], secs[n];
      assert secs == prior + [s];
      SubsWorthNext(prior, s);
      AppendWorth(out, prior);
      AppendNext(out, prior, s);
      if SubSuffix(s.table).Some? {
        var a := AppendSubs(out, prior);
        SubText(a, s);
        SubSectionIs(s);
        WholeWorth(a);
        LinesWorthAppend(SplitLines(EnsureNewline(a)) + ["\n"], NewLines(s));
        LinesWorthAppend(SplitLines(EnsureNewline(a)), ["\n"]);
      }
    }
  }

  lemma AppendStart(out: string)
    ensures AppendSubs(out, []) == out && (Broken(out) ==> Whole(out) && Completed(out) == out)
  {
  }

  lemma MendedLines(s: Section)
    requires SubSection(s)
    ensures !RunsOn(s) ==> NewLines(Mended(s)) == FullLines(s)
    ensures RunsOn(s) ==>
              var h := NewHeader(SubSuffix(s.table).value);
              && NewLines(s) == [h + s.lines[1]] + s.lines[2..]
              && NewLines(Mended(s)) == [h + ['\n']] + ([s.lines[1]] + s.lines[2..])
              && !IsHeader(s.lines[1]) && s.lines[1] != "\n"
    ensures SubSuffix(Mended(s).table) == SubSuffix(s.table) && Mended(s).lines != []
  {
    hide SubSuffix, TableName, NewHeader, Proper;
    CleanRest(s.lines);
    var h := NewHeader(SubSuffix(s.table).value);
    if |s.lines| > 1 {
      assert s.lines[1..] == [s.lines[1]] + s.lines[2..];
      assert h + "\n" == h + ['\n'];
    }
  }

  /** A row that the header runs into is lost, or the worse for it. */
  lemma OneWorth(s: Section)
    requires SubSection(s)
    ensures LinesWorth(NewLines(s)) <= LinesWorth(NewLines(Mended(s)))
    ensures RunsOn(s) ==> LinesWorth(NewLines(s)) < LinesWorth(NewLines(Mended(s)))
  {
    hide *;
    SubSectionIs(s);
    MendedLines(s);
    NewProper(s);
    var h := NewHeader(SubSuffix(s.table).value);
    HeaderLine(SubSuffix(s.table).value);
    LinesWorthOne(h + ['\n']);
    if RunsOn(s) {
      RunsOnIs(s);
      var line, rest := s.lines[1], s.lines[2..];
      LinesWorthAppend([h + line], rest);
      LinesWorthAppend([h + ['\n']], [line] + rest);
      LinesWorthAppend([line], rest);
      LinesWorthOne(line);
      LinesWorthOne(h + line);
      LongerIsLess(line, h + line);
      assert Worth(line) > 0.0;
    } else {
      LinesWorthOne(h);
      HeaderTable(h);
    }
  }

  lemma RunsOnIs(s: Section)
    requires RunsOn(s)
    ensures SubSuffix(s.table).Some? && |s.lines| > 1
  {
  }

  lemma HeaderTable(h: string)
    requires TableName(h) == TableName(h + ['\n'])
    ensures IsHeader(h) == IsHeader(h + ['\n'])
  {
  }

  lemma {:induction false} LessWorth(secs: seq<Section>)
    requires SubSections(secs)
    ensures SubsWorth(secs) <= SubsWorth(MendedAll(secs))
    ensures !NoneRunsOn(secs) ==> SubsWorth(secs) < SubsWorth(MendedAll(secs))
  {
    hide *;
    if secs == [] {
      MendedNext([], Section(None, []));
      NothingRunsOn();
    } else {
      var n := |secs| - 1;
      var prior, s := secs[..n], secs[n];
      assert secs == prior + [s];
      SubsWorthNext(prior, s);
      LessWorth(prior);
      MendedNext(prior, s);
      SubsWorthNext(MendedAll(prior), Mended(s));
      MendedSame(s);
      RunsOnNext(prior, s);
      if SubSuffix(s.table).Some? {
        SubSectionIs(s);
        MendedLines(s);
        OneWorth(s);
      }
    }
  }

  lemma NothingRunsOn()
    ensures NoneRunsOn([])
  {
  }

  lemma RunsOnNext(secs: seq<Section>, s: Section)
    ensures NoneRunsOn(secs + [s]) <==> NoneRunsOn(secs) && !RunsOn(s)
    ensures SubSuffix(s.table).None? ==> !RunsOn(s)
  {
    hide EndsLine;
    assert (secs + [s])[|secs|] == s;
    assert forall i :: 0 <= i < |secs| ==> secs[i] == (secs + [s])[i];
  }

  // ----- The tables of the migrated file -----

  lemma {:induction false} AppendMended(out: string, secs: seq<Section>)
    requires Broken(out) && SubSections(secs) && NoneRunsOn(secs)
    ensures Whole(AppendSubs(out, secs)) && Completed(AppendSubs(out, secs)) == AppendSubs(out, MendedAll(secs))
  {
    hide *;
    if secs == [] {
      MendedNext([], Section(None, []));
      AppendStart(out);
    } else {
      var n := |secs| - 1;
      var prior, s := secs[..n], secs[n];
      assert secs == prior + [s];
      SubsWorthNext(prior, s);
      RunsOnNext(prior, s);
      AppendMended(out, prior);
      AppendNext(out, prior, s);
      AppendNext(out, MendedAll(prior), Mended(s));
      MendedNext(prior, s);
      MendedSame(s);
      if SubSuffix(s.table).Some? {
        SubText(AppendSubs(out, prior), s);
        SubSectionIs(s);
        MendedLines(s);
        NewLinesText(Mended(s));
        CompletedSame(AppendSubs(out, prior));
      }
    }
  }

  lemma CompletedSame(a: string)
    ensures EnsureNewline(Completed(a)) == EnsureNewline(a)
  {
    if !Broken(a) {
      assert a[|a| - 1] != '\n' && (a + "\n")[|a|] == '\n';
    }
  }

  /** A header that the last newline is missing from has the same table and no rows. */
  lemma WholeRows(a: string, table: Option<string>)
    requires Whole(a)
    ensures TextRows(EnsureNewline(a), table) == TextRows(a, table) == TextRows(Completed(a), table)
  {
    hide SplitLines, NewHeader, TableName, EnsureNewline, Rows, Sections, NonBlank;
    if Broken(a) {
      MoreRows(a, table);
    } else {
      var z, x :| HeaderEnds(a, z, x);
      HeaderLines(a, z, x);
      HeaderLine(x);
      var h, lines := NewHeader(x), SplitLines(z);
      SectionsMore(lines, h);
      SectionsMore(lines, h + ['\n']);
      RowsAdd(Sections(lines), Section(TableName(h), [h]), table);
      RowsAdd(Sections(lines), Section(TableName(h), [h + ['\n']]), table);
      assert [h][1..] == [] && [h + ['\n']][1..] == [];
      EnsureEnds(a);
    }
  }

  lemma EnsureEnds(a: string)
    requires !Broken(a)
    ensures EnsureNewline(a) == a + "\n"
  {
  }

  lemma SubSectionsOf(secs: seq<Section>)
    requires GoodSections(secs) && ProperSections(secs)
    ensures SubSections(secs)
  {
    hide GoodSection, AllProper, CleanLines, SubSuffix;
    forall i | 0 <= i < |secs| && SubSuffix(secs[i].table).Some? ensures SubSection(secs[i]) {
      SubNamed(secs[i].table);
      assert GoodSection(secs[i]) && AllProper(secs[i].lines);
      GoodBody(secs[i]);
    }
  }

  lemma SubNamed(table: Option<string>)
    ensures SubSuffix(table).Some? ==> table.Some?
  {
  }

  lemma StartBroken(secs: seq<Section>)
    requires CleanSections(MendedAll(secs)) && secs != []
    ensures Broken(Start(secs))
    ensures var m := MendedAll(secs);
            var out := WithForge(StayingOut(m, Forge(m)), Forge(m));
            Start(secs) == Join(Flat(out)) && CleanSections(out) && out != []
  {
    hide *;
    var m := MendedAll(secs);
    var forge := Forge(m);
    MendedForge(secs);
    MendedAssemble(secs, forge);
    MendedSome(secs);
    CleanEach(m);
    ForgeClean(m);
    StayingText(m, forge);
    StayingClean(m, forge);
    var r := StayingOut(m, forge);
    WithForgeClean(r, forge);
    ForgeText(r.0, forge);
    StartIs(secs, r, forge);
    CleanText(WithForge(r, forge));
    ProperBroken(Flat(WithForge(r, forge)));
  }

  lemma MendedSome(secs: seq<Section>)
    requires secs != []
    ensures MendedAll(secs) != []
  {
    hide Mended;
  }

  lemma StartIs(secs: seq<Section>, r: (seq<Section>, bool), forge: seq<string>)
    requires Assemble(secs, Forge(secs)) == (Join(Flat(r.0)), r.1) && forge == Forge(secs)
    requires Join(Flat(Gap(r.0) + [ForgeSection(forge)])) == EnsureNewline(Join(Flat(r.0))) + FORGE + Join(forge)
    ensures Start(secs) == Join(Flat(WithForge(r, forge)))
  {
    hide Assemble, Forge, Join, Flat, Gap, ForgeSection, EnsureNewline;
  }

  lemma MendedNoForge(secs: seq<Section>)
    requires NoForge(secs)
    ensures NoForge(MendedAll(secs))
  {
    hide Mended;
    forall i | 0 <= i < |secs| ensures Mended(secs[i]).table == secs[i].table { MendedSame(secs[i]); }
  }

  /** The mended sections are migrated as they should be. */
  lemma MendedText(secs: seq<Section>, table: Option<string>)
    requires CleanSections(MendedAll(secs)) && secs != [] && NoForge(secs)
    ensures TextRows(NewText(MendedAll(secs)), table) == Holds(secs, table)
  {
    hide *;
    MendedSome(secs);
    MendedNoForge(secs);
    MendedHolds(secs, table);
    SectionsKept(MendedAll(secs), table);
  }

  lemma AfterIs(t: string)
    requires Broken(t) && Planned(t).Changed()
    ensures var secs := Sections(SplitLines(t));
            && Planned(t).after == AppendSubs(Start(secs), secs) && secs != [] && NoForge(secs)
            && NewText(MendedAll(secs)) == AppendSubs(Start(secs), MendedAll(secs))
            && Broken(Start(secs)) && SubSections(secs) && CleanSections(MendedAll(secs))
              && SubSections(MendedAll(secs))
            && Whole(Planned(t).after)
  {
    hide *;
    var secs := Sections(SplitLines(t));
    PlanIs(t);
    TextMended(t);
    NewTexts(secs);
    SubSectionsOf(secs);
    CleanGood(MendedAll(secs));
    MigrationTables.CleanProper(MendedAll(secs));
    SubSectionsOf(MendedAll(secs));
    StartBroken(secs);
    SplitNoneEmpty(t);
    NoForgeSections(SplitLines(t));
    AppendWorth(Start(secs), secs);
  }

  /** Main result: every table of the migrated file holds exactly the rows it should, in order, if and only if
      no header of a renamed sub-table runs into the line below it. */
  lemma MeaningKept(t: string)
    requires Broken(t) && Planned(t).Changed()
    ensures (forall table :: TextRows(Planned(t).after, table) == TextHolds(t, table)) <==>
              NoneRunsOn(Sections(SplitLines(t)))
  {
    hide *;
    var secs := Sections(SplitLines(t));
    AfterIs(t);
    var a, b := Planned(t).after, NewText(MendedAll(secs));
    HoldsIs(t);
    forall table ensures TextRows(b, table) == TextHolds(t, table) { MendedText(secs, table); }
    if NoneRunsOn(secs) {
      AppendMended(Start(secs), secs);
      forall table ensures TextRows(a, table) == TextHolds(t, table) { WholeRows(a, table); }
    } else if forall table :: TextRows(a, table) == TextHolds(t, table) {
      SameTexts(a, b);
      AppendWorth(Start(secs), secs);
      AppendWorth(Start(secs), MendedAll(secs));
      LessWorth(secs);
    }
  }

  lemma HoldsIs(t: string)
    ensures forall table :: TextHolds(t, table) == Holds(Sections(SplitLines(t)), table)
  {
    hide Holds, Sections, SplitLines;
  }

  lemma SameTexts(a: string, b: string)
    requires forall table :: TextRows(a, table) == TextRows(b, table)
    ensures LinesWorth(SplitLines(a)) == LinesWorth(SplitLines(b))
  {
    hide SplitLines, LinesWorth, Rows, Sections;
    forall table ensures Rows(Sections(SplitLines(a)), table) == Rows(Sections(SplitLines(b)), table) {
      assert TextRows(a, table) == TextRows(b, table);
    }
    SameWorth(Sections(SplitLines(a)), Sections(SplitLines(b)));
    SplitNoneEmpty(a);
    SplitNoneEmpty(b);
    SectionsWorth(SplitLines(a));
    SectionsWorth(SplitLines(b));
  }

  /** The same for a file that does not end in a line break, when its last line is none that runs into what
      follows it. */
  lemma MeaningKeptAtEnd(t: string)
    requires !Broken(t) && Planned(t).Changed() && !Glued(Sections(SplitLines(t)))
    ensures (forall table :: TextRows(EnsureNewline(Planned(t).after), table) == TextHolds(t + "\n", table)) <==>
              NoneRunsOn(Sections(SplitLines(t + "\n")))
  {
    hide *;
    FinalNewline(t);
    ChangedAtEnd(t);
    NewlineAdded(t);
    MeaningKept(t + "\n");
    AfterIs(t + "\n");
    forall table ensures TextRows(EnsureNewline(Planned(t).after), table) == TextRows(Planned(t + "\n").after, table) {
      WholeRows(Planned(t + "\n").after, table);
    }
  }

  // ----- A file that loses a row -----

  /** What follows a header on its line. */
  lemma HeaderTail(name: string, tail: string)
    requires IsName(name) && name != ""
    ensures var line := ("[" + name + "]") + tail;
            TableName(line) == if SkipSpaces(line, |name| + 2) == |line| then Some(name) else None
  {
    hide SkipSpaces, SkipName, IsSpace, IsWord, IsName;
    var line, n := ("[" + name + "]") + tail, |name|;
    TailChars(name, tail);
    SpacesStop(line, 0);
    SpacesStop(line, 1);
    SpacesStop(line, n + 1);
  }

  lemma TailChars(name: string, tail: string)
    requires IsName(name) && name != ""
    ensures var line, n := ("[" + name + "]") + tail, |name|;
            && line[0] == '[' && line[n + 1] == ']' && line[1..n + 1] == name && SkipName(line, 1, true) == n + 1
            && !IsSpace('[') && !IsSpace(']') && !IsSpace(line[1])
  {
    var line, n := ("[" + name + "]") + tail, |name|;
    assert forall j :: 1 <= j < n + 1 ==> line[j] == name[j - 1];
    HeaderChars(name);
    SkipNameTo(line, 1, n + 1);
  }

  lemma SpacesStop(s: string, i: nat)
    requires i < |s| && !IsSpace(s[i])
    ensures SkipSpaces(s, i) == i
  {
  }

  const FF_HEADER := ("[" + "skill.metadata" + "]") + "\U{000C}"
  const FF_ROW := "a=1\n"
  const FF_GLUED := ("[" + "forge.metadata" + "]") + FF_ROW
  const METADATA := Some("forge.metadata")
  const PREAMBLE := Section(None, [])
  const FF_SECTION := Section(Some("skill.metadata"), [FF_HEADER, FF_ROW])

  lemma FormFeedNames()
    ensures IsName("skill.metadata") && IsName("forge.metadata")
    ensures NewHeader("metadata") + FF_ROW == FF_GLUED && "[" + "forge.metadata" + "]" == NewHeader("metadata")
  {
    assert IsName("skill.") && IsName("forge.") && IsName("metadata");
    assert "skill." + "metadata" == "skill.metadata" && "forge." + "metadata" == "forge.metadata";
  }

  lemma MetadataRenamed()
    ensures SubSuffix(Some("skill.metadata")) == Some("metadata") && SubSuffix(None) == None
    ensures ForgeSuffix(METADATA) == Some("metadata") && SubSuffix(METADATA) == None
    ensures METADATA != FORGE_TABLE && METADATA != SKILL && Some("skill.metadata") != SKILL
    ensures "skill." + "metadata" == "skill.metadata"
  {
    assert "metadata" == PROVENANCE_SUBTABLES[1];
    assert "skill.metadata"[6..] == "metadata" && "skill.metadata"[..6] == "skill.";
    assert "forge.metadata"[6..] == "metadata" && "forge.metadata"[..6] == "forge.";
  }

  lemma FormFeedHeader()
    ensures Proper(FF_HEADER) && !EndsLine(FF_HEADER) && TableName(FF_HEADER) == Some("skill.metadata")
  {
    var a, b := "[" + "skill.metadata" + "]", "\U{000C}";
    assert FF_HEADER == a + b && |FF_HEADER| == 17 && FF_HEADER[16] == '\U{000C}';
    assert SkipSpaces(FF_HEADER, 16) == SkipSpaces(FF_HEADER, 17) == 17;
    hide SkipSpaces, SkipName, NoBreak, IsName;
    FormFeedNames();
    HeaderOf("skill.metadata");
    HeaderTail("skill.metadata", b);
    SnocBody(a, '\U{000C}');
  }

  lemma FormFeedRow()
    ensures Proper(FF_ROW) && !IsHeader(FF_ROW) && FF_ROW != "\n"
  {
    hide SkipSpaces, SkipName, NoBreak;
    assert FF_ROW == "a=1" + ['\n'] && FF_ROW[0] == 'a';
    RowBreaks();
    ProperSnoc("a=1");
    SpacesStop(FF_ROW, 0);
  }

  lemma RowBreaks()
    ensures NoBreak("a=1")
  {
  }

  lemma FormFeedGlued()
    ensures Proper(FF_GLUED) && !IsHeader(FF_GLUED) && FF_GLUED != "\n"
  {
    hide SkipSpaces, SkipName, NoBreak, IsName, Proper;
    assert FF_GLUED[16] == 'a' && |FF_GLUED| == 20;
    FormFeedNames();
    HeaderOf("forge.metadata");
    HeaderTail("forge.metadata", FF_ROW);
    FormFeedRow();
    GluedProper("[" + "forge.metadata" + "]", FF_ROW);
    SpacesStop(FF_GLUED, 16);
  }

  /** The sections of the file and of the migrated one. */
  lemma FormFeedSections()
    ensures var t := FF_HEADER + FF_ROW;
            && Broken(t) && SplitLines(t) == [FF_HEADER, FF_ROW]
            && Sections(SplitLines(t)) == [PREAMBLE, FF_SECTION]
  {
    hide *;
    var h, r := FF_HEADER, FF_ROW;
    FormFeedHeader();
    FormFeedRow();
    SplitFirst(h, r);
    OneLine(r);
    ProperEnds(h, r);
    FlatEmpty();
    SectionsMore([], h);
    SectionsMore([h], r);
    assert [] + [h] == [h] && [h] + [r] == [h, r];
    HeaderSome(h, "skill.metadata");
    ExtendIs(h, r);
    PreambleIs();
  }

  lemma HeaderSome(line: string, name: string)
    requires TableName(line) == Some(name)
    ensures IsHeader(line)
  {
  }

  lemma ProperEnds(h: string, r: string)
    requires Proper(r)
    ensures Broken(h + r)
  {
    assert (h + r)[|h| + |r| - 1] == r[|r| - 1];
  }

  lemma ExtendIs(h: string, r: string)
    ensures var s := Section(Some("skill.metadata"), [h]);
            Extend([Section(None, [])] + [s], [r]) == [Section(None, []), s.(lines := [h, r])]
  {
    assert [h] + [r] == [h, r];
  }

  lemma FormFeedParts()
    ensures KeptLines(PREAMBLE) == [] && MovedLines(PREAMBLE) == [] && Join([]) == "" && SubSuffix(PREAMBLE.table).None?
    ensures KeptLines(FF_SECTION) == [] && MovedLines(FF_SECTION) == []
    ensures SubSuffix(FF_SECTION.table) == Some("metadata")
    ensures RunsOn(FF_SECTION) && NewLines(FF_SECTION) == [FF_GLUED] && Join(SubLines(FF_SECTION)) == Join([FF_GLUED])
  {
    hide SubSuffix, EndsLine, FF_HEADER, FF_ROW, FF_GLUED, NewHeader;
    FormFeedNames();
    FormFeedHeader();
    FormFeedRow();
    MetadataRenamed();
    NewLinesText(FF_SECTION);
  }

  lemma FormFeedText()
    ensures var secs := [PREAMBLE, FF_SECTION];
            && NewText(secs) == FORGE + "\n" + Join([FF_GLUED]) && Suffixes(secs) == ["metadata"] && !NoneRunsOn(secs)
  {
    hide *;
    var none: seq<Section> := [];
    FormFeedParts();
    assert [PREAMBLE] == none + [PREAMBLE] && [PREAMBLE, FF_SECTION] == [PREAMBLE] + [FF_SECTION];
    Nothing();
    ForgeNext(none, PREAMBLE);
    ForgeNext([PREAMBLE], FF_SECTION);
    AssembleNext(none, PREAMBLE, []);
    AssembleNext([PREAMBLE], FF_SECTION, []);
    AppendNext(FORGE, none, PREAMBLE);
    AppendNext(FORGE, [PREAMBLE], FF_SECTION);
    SuffixesNext(none, PREAMBLE);
    SuffixesNext([PREAMBLE], FF_SECTION);
    RunsOnNext([PREAMBLE], FF_SECTION);
    NewTexts([PREAMBLE, FF_SECTION]);
    NoSkillTable();
    assert Forge([PREAMBLE, FF_SECTION]) == [];
    StartOf([PREAMBLE, FF_SECTION]);
  }

  lemma Nothing()
    ensures Forge([]) == [] && Assemble([], []) == ("", false) && AppendSubs(FORGE, []) == FORGE && Suffixes([]) == []
    ensures EnsureNewline(FORGE) == FORGE && EnsureNewline("") == "" && Join([]) == ""
  {
  }

  lemma NoSkillTable()
    ensures PREAMBLE.table != SKILL && FF_SECTION.table != SKILL
  {
  }

  lemma StartOf(secs: seq<Section>)
    requires Forge(secs) == [] && Assemble(secs, []) == ("", false)
    ensures Start(secs) == FORGE
  {
    hide Forge, Assemble;
    Nothing();
    assert "" + FORGE + "" == FORGE;
  }

  lemma {:induction false} NoTable(secs: seq<Section>, table: Option<string>)
    requires forall i :: 0 <= i < |secs| ==> secs[i].table != table
    ensures Rows(secs, table) == []
  {
    if secs != [] { NoTable(secs[..|secs| - 1], table); }
  }

  lemma ForgeProper()
    ensures Proper("[forge]\n") && FORGE == "\n" + "[forge]\n"
  {
    hide NoBreak, IsBreak, TableName;
    ForgeHeader();
    ForgeLine();
  }

  lemma GluedLines()
    ensures SplitLines(FORGE + "\n" + Join([FF_GLUED])) == ["\n"] + ["[forge]\n"] + ["\n"] + [FF_GLUED]
  {
    hide *;
    FormFeedGlued();
    ForgeProper();
    BlankLine();
    SplitFirst("\n", "[forge]\n" + ("\n" + FF_GLUED));
    SplitFirst("[forge]\n", "\n" + FF_GLUED);
    SplitFirst("\n", FF_GLUED);
    OneLine(FF_GLUED);
    JoinOne(FF_GLUED);
    assert FORGE + "\n" + FF_GLUED == "\n" + ("[forge]\n" + ("\n" + FF_GLUED));
  }

  lemma GluedSections()
    ensures Sections(["\n"] + ["[forge]\n"] + ["\n"] + [FF_GLUED])
         == [Section(None, ["\n"]), Section(Some("forge"), ["[forge]\n", "\n", FF_GLUED])]
  {
    hide Sections, IsHeader, FF_GLUED, TableName;
    FormFeedGlued();
    ForgeHeader();
    BlankLine();
    HeaderSome("[forge]\n", "forge");
    FlatEmpty();
    SectionsMore([], "\n");
    SectionsMore(["\n"], "[forge]\n");
    SectionsMore(["\n"] + ["[forge]\n"], "\n");
    SectionsMore(["\n"] + ["[forge]\n"] + ["\n"], FF_GLUED);
    assert [] + ["\n"] == ["\n"];
    assert ["[forge]\n"] + ["\n"] + [FF_GLUED] == ["[forge]\n", "\n", FF_GLUED];
  }

  lemma MetadataHolds()
    ensures Holds([PREAMBLE, FF_SECTION], METADATA) == [FF_ROW]
  {
    hide FF_HEADER, FF_ROW, Rows, SubSuffix, ForgeSuffix, NonBlank;
    MetadataRenamed();
    FormFeedRow();
    var was := Some("skill.metadata");
    NoTable([PREAMBLE, FF_SECTION], METADATA);
    NoTable([PREAMBLE], was);
    RowsAdd([PREAMBLE], FF_SECTION, was);
    assert [PREAMBLE] + [FF_SECTION] == [PREAMBLE, FF_SECTION];
    assert Body(FF_SECTION) == [] + [FF_ROW];
    NonBlankNext([], FF_ROW);
    NonBlankNothing();
  }

  /** A header that ends in a form feed: the row below it is lost. */
  lemma RunsOnExample()
    ensures var t := FF_HEADER + FF_ROW;
            && Broken(t) && Planned(t).Changed() && !NoneRunsOn(Sections(SplitLines(t)))
            && TextHolds(t, METADATA) == [FF_ROW] && TextRows(Planned(t).after, METADATA) == []
  {
    hide *;
    var t := FF_HEADER + FF_ROW;
    FormFeedSections();
    FormFeedText();
    FormFeedHeader();
    FormFeedRow();
    PreambleIs();
    NoForgeHere();
    ChangedWhen(t);
    PlanIs(t);
    GluedLines();
    GluedSections();
    MetadataHolds();
    RowsHere(t);
  }

  lemma PreambleIs()
    ensures PREAMBLE == Section(None, []) && FF_SECTION == Section(Some("skill.metadata"), [FF_HEADER, FF_ROW])
    ensures "skill.metadata" != "forge"
  {
  }

  lemma NoForgeHere()
    ensures !HasForge([FF_HEADER, FF_ROW])
  {
    hide FF_HEADER, FF_ROW, TableName;
    FormFeedHeader();
    FormFeedRow();
    PreambleIs();
  }

  lemma RowsHere(t: string)
    requires Sections(SplitLines(Planned(t).after))
          == [Section(None, ["\n"]), Section(Some("forge"), ["[forge]\n", "\n", FF_GLUED])]
    requires Sections(SplitLines(t)) == [PREAMBLE, FF_SECTION]
    ensures TextRows(Planned(t).after, METADATA) == []
    ensures TextHolds(t, METADATA) == Holds([PREAMBLE, FF_SECTION], METADATA)
  {
    hide Sections, SplitLines, Planned, Rows, Holds, FF_GLUED;
    MetadataRenamed();
    NoTable(Sections(SplitLines(Planned(t).after)), METADATA);
  }
}
