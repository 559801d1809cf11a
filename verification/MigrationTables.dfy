/** What the migrated text means: which tables it has, and which lines each of them holds. */
module MigrationTables {
  import opened Text
  import opened Migration
  import opened MigrationRerun

  // ----- The output, bucketed again -----

  /** Appends a blank line to the last section. */
  function AddBlank(secs: seq<Section>): seq<Section> {
    if secs == [] then [] else
    var last := secs[|secs| - 1];
    secs[..|secs| - 1] + [last.(lines := last.lines + ["\n"])]
  }

  /** A blank line, after the end of the last line if it does not end in a newline. After another line
      break the newline put in makes a blank line of its own. */
  function Gap(secs: seq<Section>): seq<Section> {
    AddBlank(if EnsureNewline(Join(Flat(secs))) == Join(Flat(secs)) then secs else AddBlank(secs))
  }

  function ForgeSection(forge: seq<string>): Section {
    Section(Some("forge"), ["[forge]\n"] + forge)
  }

  function Put(r: (seq<Section>, bool), s: Section, forge: seq<string>): (seq<Section>, bool) {
    if SubSuffix(s.table).Some? then r
    else if s.table == SKILL && !r.1 then (Gap(r.0 + [s.(lines := KeptLines(s))]) + [ForgeSection(forge)], true)
    else (r.0 + [s.(lines := KeptLines(s))], r.1)
  }

  /** The sections that stay and, after the first [skill], [forge]. */
  function StayingOut(secs: seq<Section>, forge: seq<string>): (seq<Section>, bool) {
    if secs == [] then ([], false) else Put(StayingOut(secs[..|secs| - 1], forge), secs[|secs| - 1], forge)
  }

  function WithForge(r: (seq<Section>, bool), forge: seq<string>): seq<Section> {
    if r.1 then r.0 else Gap(r.0) + [ForgeSection(forge)]
  }

  /** The renamed sub-tables at the end. */
  function SubsOut(out: seq<Section>, secs: seq<Section>): seq<Section> {
    if secs == [] then out else
    var s := secs[|secs| - 1];
    var before := SubsOut(out, secs[..|secs| - 1]);
    match SubSuffix(s.table)
    case None => before
    case Some(x) => Gap(before) + [Section(Some("forge." + x), SubLines(s))]
  }

  /** The sections of the migrated text. */
  function OutSections(secs: seq<Section>): seq<Section> {
    var forge := Forge(secs);
    SubsOut(WithForge(StayingOut(secs, forge), forge), secs)
  }

  // ----- The new text is these sections -----

  ghost predicate ProperSections(secs: seq<Section>) {
    forall i :: 0 <= i < |secs| ==> AllProper(secs[i].lines)
  }

  lemma FlatSnoc(secs: seq<Section>, s: Section)
    ensures Flat(secs + [s]) == Flat(secs) + s.lines
  {
    assert (secs + [s])[..|secs|] == secs;
  }

  lemma BlankText(secs: seq<Section>)
    requires secs != []
    ensures Join(Flat(AddBlank(secs))) == Join(Flat(secs)) + "\n"
  {
    var last, rest := secs[|secs| - 1], secs[..|secs| - 1];
    assert secs == rest + [last];
    FlatSnoc(rest, last);
    FlatSnoc(rest, last.(lines := last.lines + ["\n"]));
    assert Flat(rest) + (last.lines + ["\n"]) == (Flat(rest) + last.lines) + ["\n"];
    JoinAppend(Flat(secs), ["\n"]);
    JoinOne("\n");
  }

  lemma FlatText(secs: seq<Section>, s: Section)
    ensures Join(Flat(secs + [s])) == Join(Flat(secs)) + Join(s.lines)
  {
    FlatSnoc(secs, s);
    JoinAppend(Flat(secs), s.lines);
  }

  lemma GapText(secs: seq<Section>)
    requires secs != []
    ensures Join(Flat(Gap(secs))) == EnsureNewline(Join(Flat(secs))) + "\n"
  {
    hide Join, Flat, AddBlank;
    BlankText(secs);
    AddBlankSome(secs);
    BlankText(AddBlank(secs));
  }

  lemma AddBlankSome(secs: seq<Section>)
    requires secs != []
    ensures AddBlank(secs) != []
  {
  }

  lemma {:induction false} FlatProper(secs: seq<Section>)
    requires ProperSections(secs)
    ensures AllProper(Flat(secs))
  {
    if secs != [] { FlatProper(secs[..|secs| - 1]); }
  }

  /** What is known of the sections of a text whose lines are all proper. */
  ghost predicate Clean(s: Section) {
    GoodSection(s) && AllProper(s.lines) && RenamedEnds(s)
  }

  /** The header of a sub-table that is renamed ends in a newline. After another line break it is written
      without one. */
  predicate RenamedEnds(s: Section) {
    SubSuffix(s.table).Some? && s.lines != [] ==> EndsLine(s.lines[0])
  }

  ghost predicate CleanSections(secs: seq<Section>) {
    && (forall i :: 0 <= i < |secs| ==> Clean(secs[i]))
    && (forall i :: 0 <= i < |secs| ==> (secs[i].table == None <==> i == 0))
  }

  /** Lines that may move to [forge]: proper, and no headers. */
  ghost predicate CleanLines(lines: seq<string>) {
    forall i :: 0 <= i < |lines| ==> Proper(lines[i]) && !IsHeader(lines[i])
  }

  lemma {:induction false} SelectClean(lines: seq<string>, moved: bool)
    requires CleanLines(lines)
    ensures CleanLines(Select(lines, moved))
  {
    if lines != [] { SelectClean(lines[..|lines| - 1], moved); }
  }

  lemma BlankLine()
    ensures Proper("\n") && !IsHeader("\n") && KeyName("\n") == None
  {
    assert SkipSpaces("\n", 0) == 1;
  }

  lemma CleanParts(s: Section)
    requires Clean(s)
    ensures SubSuffix(s.table).None? ==> Clean(s.(lines := KeptLines(s)))
    ensures CleanLines(MovedLines(s))
  {
    if s.table == SKILL {
      hide TableName, KeyName, Moves, IsBreak, EndsLine, NoBreak;
      SelectClean(s.lines[1..], true);
      SelectClean(s.lines[1..], false);
    }
  }

  lemma {:induction false} ForgeClean(secs: seq<Section>)
    requires forall i :: 0 <= i < |secs| ==> Clean(secs[i])
    ensures CleanLines(Forge(secs))
  {
    if secs != [] {
      hide Clean, MovedLines, IsHeader, Proper;
      ForgeClean(secs[..|secs| - 1]);
      CleanParts(secs[|secs| - 1]);
    }
  }

  lemma SuffixLiterals(x: string)
    requires x in PROVENANCE_SUBTABLES
    ensures IsName("forge." + x) && "forge." + x != ""
    ensures "[" + ("forge." + x) + "]" == "[forge." + x + "]"
    ensures "[" + ("forge." + x) + "]\n" == ("[forge." + x + "]") + ['\n']
  {
    hide TableName, NoBreak, SkipName, SkipSpaces;
    assert IsName("forge.") && IsName(x);
  }

  lemma ProperSnoc(body: string)
    requires NoBreak(body)
    ensures Proper(body + ['\n']) && EndsLine(body + ['\n'])
  {
    hide NoBreak;
    SnocBody(body, '\n');
  }

  /** The new header of a renamed sub-table is read back. */
  lemma SuffixHeader(x: string)
    requires x in PROVENANCE_SUBTABLES
    ensures var h := ("[forge." + x + "]") + ['\n']; Proper(h) && EndsLine(h) && TableName(h) == Some("forge." + x)
  {
    hide *;
    SuffixLiterals(x);
    HeaderOf("forge." + x);
    ProperSnoc("[forge." + x + "]");
  }

  lemma SubHeader(s: Section)
    requires Clean(s) && SubSuffix(s.table).Some?
    ensures s.lines != [] && CleanLines(s.lines[1..])
    ensures SubLines(s) == [("[forge." + SubSuffix(s.table).value + "]") + ['\n']] + s.lines[1..]
  {
    hide TableName, KeyName, IsBreak, NoBreak;
  }

  lemma HeadClean(table: Option<string>, header: string, body: seq<string>)
    requires table.Some? && TableName(header) == table && Proper(header) && EndsLine(header) && CleanLines(body)
    ensures Clean(Section(table, [header] + body))
  {
    hide TableName, NoBreak, IsBreak;
  }

  lemma SubClean(s: Section)
    requires Clean(s) && SubSuffix(s.table).Some?
    ensures Clean(Section(Some("forge." + SubSuffix(s.table).value), SubLines(s)))
  {
    hide *;
    var x := SubSuffix(s.table).value;
    SubHeader(s);
    SuffixHeader(x);
    HeadClean(Some("forge." + x), ("[forge." + x + "]") + ['\n'], s.lines[1..]);
  }

  lemma ForgeSectionClean(forge: seq<string>)
    requires CleanLines(forge)
    ensures Clean(ForgeSection(forge))
  {
    hide TableName, NoBreak, IsBreak, Clean, CleanLines;
    ForgeHeader();
    ForgeLine();
    assert Proper("[forge]\n");
    HeadClean(Some("forge"), "[forge]\n", forge);
  }

  lemma CleanAdd(secs: seq<Section>, s: Section)
    requires CleanSections(secs) && Clean(s) && (s.table == None <==> secs == [])
    ensures CleanSections(secs + [s])
  {
    hide Clean;
  }

  lemma BlankClean(s: Section)
    requires Clean(s)
    ensures Clean(s.(lines := s.lines + ["\n"]))
  {
    hide TableName, NoBreak, IsBreak;
    BlankLine();
  }

  lemma CleanBlank(secs: seq<Section>)
    requires CleanSections(secs) && secs != []
    ensures CleanSections(AddBlank(secs)) && AddBlank(secs) != []
  {
    hide Clean;
    BlankClean(secs[|secs| - 1]);
  }

  lemma CleanGap(secs: seq<Section>)
    requires CleanSections(secs) && secs != []
    ensures CleanSections(Gap(secs)) && Gap(secs) != []
  {
    hide CleanSections, AddBlank, EnsureNewline, Join, Flat;
    CleanBlank(secs);
    CleanBlank(AddBlank(secs));
  }

  lemma AddForgeClean(out: seq<Section>, forge: seq<string>)
    requires CleanSections(out) && out != [] && CleanLines(forge)
    ensures CleanSections(Gap(out) + [ForgeSection(forge)])
  {
    hide *;
    ForgeSectionClean(forge);
    CleanGap(out);
    ForgeNamed(forge);
    CleanAdd(Gap(out), ForgeSection(forge));
  }

  lemma ForgeNamed(forge: seq<string>)
    ensures ForgeSection(forge).table.Some?
  {
  }

  lemma {:induction false} StayingClean(secs: seq<Section>, forge: seq<string>)
    requires CleanSections(secs) && CleanLines(forge)
    ensures CleanSections(StayingOut(secs, forge).0) && (secs != [] ==> StayingOut(secs, forge).0 != [])
  {
    if secs != [] {
      hide Clean, CleanLines, Gap, ForgeSection, KeptLines;
      var n := |secs| - 1;
      StayingClean(secs[..n], forge);
      CleanParts(secs[n]);
      var out := StayingOut(secs[..n], forge).0;
      if SubSuffix(secs[n].table).None? {
        var s := secs[n].(lines := KeptLines(secs[n]));
        CleanAdd(out, s);
        AddForgeClean(out + [s], forge);
      }
    }
  }

  lemma CleanProper(secs: seq<Section>)
    requires CleanSections(secs)
    ensures ProperSections(secs)
  {
    hide GoodSection, AllProper;
  }

  lemma CleanText(secs: seq<Section>)
    requires CleanSections(secs)
    ensures AllProper(Flat(secs))
  {
    hide *;
    CleanProper(secs);
    FlatProper(secs);
  }

  lemma ForgeText(out: seq<Section>, forge: seq<string>)
    requires out != []
    ensures Join(Flat(Gap(out) + [ForgeSection(forge)])) == EnsureNewline(Join(Flat(out))) + FORGE + Join(forge)
  {
    hide *;
    GapText(out);
    FlatText(Gap(out), ForgeSection(forge));
    ForgeJoin(forge);
    ForgeLiterals();
    var x := EnsureNewline(Join(Flat(out)));
    assert x + "\n" + ("[forge]\n" + Join(forge)) == x + ("\n" + "[forge]\n") + Join(forge);
  }

  lemma ForgeJoin(forge: seq<string>)
    ensures Join(ForgeSection(forge).lines) == "[forge]\n" + Join(forge)
  {
    JoinAppend(["[forge]\n"], forge);
    JoinOne("[forge]\n");
  }

  lemma {:induction false} StayingText(secs: seq<Section>, forge: seq<string>)
    requires CleanSections(secs) && CleanLines(forge)
    ensures Join(Flat(StayingOut(secs, forge).0)) == Assemble(secs, forge).0
    ensures StayingOut(secs, forge).1 == Assemble(secs, forge).1
  {
    if secs != [] {
      hide Clean, CleanLines, Gap, ForgeSection, KeptLines, Join, Flat, EnsureNewline;
      var n := |secs| - 1;
      StayingText(secs[..n], forge);
      StayingClean(secs[..n], forge);
      CleanParts(secs[n]);
      var out := StayingOut(secs[..n], forge).0;
      if SubSuffix(secs[n].table).None? {
        var s := secs[n].(lines := KeptLines(secs[n]));
        FlatText(out, s);
        CleanAdd(out, s);
        ForgeText(out + [s], forge);
      } else {
        NothingKept(secs[n]);
      }
    } else {
      FlatNothing();
    }
  }

  lemma FlatNothing()
    ensures Join(Flat([])) == ""
  {
  }

  lemma NothingKept(s: Section)
    requires SubSuffix(s.table).Some?
    ensures Join(KeptLines(s)) == ""
  {
  }

  lemma SubStep(before: seq<Section>, s: Section)
    requires CleanSections(before) && before != [] && Clean(s) && s.table.Some?
    ensures CleanSections(Gap(before) + [s])
    ensures Join(Flat(Gap(before) + [s])) == EnsureNewline(Join(Flat(before))) + "\n" + Join(s.lines)
  {
    hide *;
    CleanGap(before);
    CleanAdd(Gap(before), s);
    GapText(before);
    FlatText(Gap(before), s);
  }

  function SubOut(s: Section): Section
    requires SubSuffix(s.table).Some?
  {
    Section(Some("forge." + SubSuffix(s.table).value), SubLines(s))
  }

  lemma SubsNext(out: seq<Section>, secs: seq<Section>, s: Section)
    ensures SubsOut(out, secs + [s]) ==
            if SubSuffix(s.table).Some? then Gap(SubsOut(out, secs)) + [SubOut(s)] else SubsOut(out, secs)
    ensures SubsOut(out, []) == out
  {
    hide Gap, SubLines;
    assert (secs + [s])[..|secs|] == secs;
  }

  lemma AppendNext(out: string, secs: seq<Section>, s: Section)
    ensures AppendSubs(out, secs + [s]) ==
            if SubSuffix(s.table).None? then AppendSubs(out, secs)
              else EnsureNewline(AppendSubs(out, secs)) + "\n" + Join(SubLines(s))
  {
    hide Join, SubLines, EnsureNewline;
    assert (secs + [s])[..|secs|] == secs;
  }

  lemma {:induction false} SubsText(out: seq<Section>, secs: seq<Section>)
    requires CleanSections(out) && out != [] && forall i :: 0 <= i < |secs| ==> Clean(secs[i])
    ensures CleanSections(SubsOut(out, secs)) && SubsOut(out, secs) != []
    ensures Join(Flat(SubsOut(out, secs))) == AppendSubs(Join(Flat(out)), secs)
  {
    hide *;
    if secs == [] {
      SubsNone(out, Join(Flat(out)));
    } else {
      var n := |secs| - 1;
      var prior, s := secs[..n], secs[n];
      assert secs == prior + [s];
      SubsText(out, prior);
      SubsNext(out, prior, s);
      AppendNext(Join(Flat(out)), prior, s);
      if SubSuffix(s.table).Some? {
        SubClean(s);
        SubOutIs(s);
        SubStep(SubsOut(out, prior), SubOut(s));
      }
    }
  }

  lemma SubsNone(out: seq<Section>, text: string)
    ensures SubsOut(out, []) == out && AppendSubs(text, []) == text
  {
  }

  lemma SubOutIs(s: Section)
    requires SubSuffix(s.table).Some?
    ensures SubOut(s) == Section(Some("forge." + SubSuffix(s.table).value), SubLines(s))
  {
  }

  /** The new text is the text of `OutSections`, every line ended by a newline. */
  lemma OutText(secs: seq<Section>)
    requires CleanSections(secs) && secs != []
    ensures CleanSections(OutSections(secs)) && OutSections(secs) != []
    ensures Join(Flat(OutSections(secs))) == NewText(secs)
  {
    hide Clean, CleanLines, Gap, ForgeSection, StayingOut, Assemble, SubsOut, AppendSubs, Join, Flat, Forge,
         EnsureNewline;
    var forge := Forge(secs);
    ForgeClean(secs);
    StayingText(secs, forge);
    StayingClean(secs, forge);
    var r := StayingOut(secs, forge);
    AddForgeClean(r.0, forge);
    ForgeText(r.0, forge);
    SubsText(WithForge(r, forge), secs);
  }

  // ----- Bucketing the lines of good sections gives them back -----

  function Extend(secs: seq<Section>, body: seq<string>): seq<Section>
    requires secs != []
  {
    var last := secs[|secs| - 1];
    secs[..|secs| - 1] + [last.(lines := last.lines + body)]
  }

  lemma ExtendMore(secs: seq<Section>, body: seq<string>, line: string)
    requires secs != []
    ensures Extend(secs, []) == secs && Extend(secs, body) != []
    ensures Extend(Extend(secs, body), [line]) == Extend(secs, body + [line])
  {
    var last := secs[|secs| - 1];
    assert last.lines + [] == last.lines;
    Assoc(last.lines, body, [line]);
  }

  lemma {:induction false} SectionsBody(lines: seq<string>, body: seq<string>)
    requires forall i :: 0 <= i < |body| ==> !IsHeader(body[i])
    ensures Sections(lines + body) == Extend(Sections(lines), body)
  {
    hide IsHeader, Sections, Extend;
    if body == [] {
      assert lines + body == lines;
      ExtendMore(Sections(lines), [], "");
    } else {
      var n := |body| - 1;
      SectionsBody(lines, body[..n]);
      SectionsMore(lines + body[..n], body[n]);
      ExtendMore(Sections(lines), body[..n], body[n]);
      assert body == body[..n] + [body[n]];
      Assoc(lines, body[..n], [body[n]]);
    }
  }

  lemma SectionsMore(lines: seq<string>, line: string)
    ensures var secs := Sections(lines);
            Sections(lines + [line])
              == (if IsHeader(line) then secs + [Section(TableName(line), [line])] else Extend(secs, [line]))
  {
    hide TableName;
    assert (lines + [line])[..|lines|] == lines;
  }

  lemma GoodHead(s: Section)
    requires GoodSection(s) && s.table.Some?
    ensures s.lines == [s.lines[0]] + s.lines[1..] && TableName(s.lines[0]) == s.table
    ensures forall i :: 0 <= i < |s.lines[1..]| ==> !IsHeader(s.lines[1..][i])
  {
    hide TableName;
  }

  lemma {:induction false} SectionsBack(secs: seq<Section>)
    requires GoodSections(secs) && secs != []
    ensures Sections(Flat(secs)) == secs
  {
    hide TableName, Sections, Flat;
    var n := |secs| - 1;
    var s := secs[n];
    assert secs == secs[..n] + [s] && GoodSection(s);
    FlatSnoc(secs[..n], s);
    if n == 0 {
      FlatEmpty();
      SectionsBody([], s.lines);
      assert [] + s.lines == s.lines;
    } else {
      assert GoodSections(secs[..n]);
      SectionsBack(secs[..n]);
      GoodHead(s);
      hide GoodSection;
      var f, h, b := Flat(secs[..n]), s.lines[0], s.lines[1..];
      SectionsMore(f, h);
      SectionsBody(f + [h], b);
      Assoc(f, [h], b);
    }
  }

  lemma FlatEmpty()
    ensures Flat([]) == [] && Sections([]) == [Section(None, [])]
  {
  }

  // ----- Which lines each table holds -----

  function Body(s: Section): seq<string> {
    if s.table.Some? && s.lines != [] then s.lines[1..] else s.lines
  }

  function NonBlank(lines: seq<string>): seq<string> {
    if lines == [] then [] else
    NonBlank(lines[..|lines| - 1]) + (if lines[|lines| - 1] == "\n" then [] else [lines[|lines| - 1]])
  }

  function RowsOf(s: Section, table: Option<string>): seq<string> {
    if s.table == table then NonBlank(Body(s)) else []
  }

  /** The lines below the headers of a table, in order, blank lines left out. */
  function Rows(secs: seq<Section>, table: Option<string>): seq<string> {
    if secs == [] then [] else Rows(secs[..|secs| - 1], table) + RowsOf(secs[|secs| - 1], table)
  }

  /** The sub-table of [forge] that takes the rows of a sub-table of [skill]. */
  function ForgeSuffix(table: Option<string>): (suffix: Option<string>)
    ensures suffix.Some? ==> table == Some("forge." + suffix.value) && suffix.value in PROVENANCE_SUBTABLES
  {
    if table.Some? && |table.value| >= 6 && table.value[..6] == "forge." && table.value[6..] in PROVENANCE_SUBTABLES
    then (assert table.value == "forge." + table.value[6..]; Some(table.value[6..])) else None
  }

  /** The rows that stay under the name they had. */
  function Remaining(secs: seq<Section>, table: Option<string>): seq<string> {
    if table == SKILL then Select(Rows(secs, table), false)
    else if SubSuffix(table).Some? then []
    else Rows(secs, table)
  }

  /** The rows that come from a sub-table of [skill]. */
  function Renaming(secs: seq<Section>, table: Option<string>): seq<string> {
    match ForgeSuffix(table)
    case Some(x) => Rows(secs, Some("skill." + x))
    case None => []
  }

  const FORGE_TABLE := Some("forge")

  /** What a table should hold after the migration: k of [skill] is k of [forge] when it is a provenance
      key, and [skill.requirements] and [skill.metadata] are sub-tables of [forge]. */
  function Holds(secs: seq<Section>, table: Option<string>): seq<string> {
    if table == FORGE_TABLE then Select(Rows(secs, SKILL), true)
    else Remaining(secs, table) + Renaming(secs, table)
  }

  lemma RowsAdd(secs: seq<Section>, s: Section, table: Option<string>)
    ensures Rows(secs + [s], table) == Rows(secs, table) + RowsOf(s, table)
  {
    hide RowsOf;
    assert (secs + [s])[..|secs|] == secs;
  }

  lemma NonBlankMore(lines: seq<string>)
    ensures NonBlank(lines + ["\n"]) == NonBlank(lines)
  {
    assert (lines + ["\n"])[..|lines|] == lines;
  }

  lemma BodyBlank(s: Section)
    requires s.table.Some? ==> s.lines != []
    ensures Body(s.(lines := s.lines + ["\n"])) == Body(s) + ["\n"]
  {
  }

  lemma RowsBlank(secs: seq<Section>, table: Option<string>)
    requires secs != [] && (secs[|secs| - 1].table.Some? ==> secs[|secs| - 1].lines != [])
    ensures Rows(AddBlank(secs), table) == Rows(secs, table)
  {
    hide NonBlank, Body, Rows;
    var last, rest := secs[|secs| - 1], secs[..|secs| - 1];
    assert secs == rest + [last];
    BodyBlank(last);
    NonBlankMore(Body(last));
    RowsAdd(rest, last, table);
    RowsAdd(rest, last.(lines := last.lines + ["\n"]), table);
  }

  lemma RowsGap(secs: seq<Section>, table: Option<string>)
    requires secs != [] && (secs[|secs| - 1].table.Some? ==> secs[|secs| - 1].lines != [])
    ensures Rows(Gap(secs), table) == Rows(secs, table)
  {
    hide Rows, EnsureNewline, Join, Flat;
    RowsBlank(secs, table);
    RowsBlank(AddBlank(secs), table);
  }

  lemma LastNonEmpty(secs: seq<Section>)
    requires CleanSections(secs) && secs != []
    ensures secs[|secs| - 1].table.Some? ==> secs[|secs| - 1].lines != []
  {
    hide AllProper, TableName;
    assert Clean(secs[|secs| - 1]);
  }

  lemma BlankMoves()
    ensures !Moves("\n")
  {
    BlankLine();
  }

  lemma {:induction false} SelectNonBlank(lines: seq<string>, moved: bool)
    ensures NonBlank(Select(lines, moved)) == Select(NonBlank(lines), moved)
  {
    if lines == [] {
    } else {
      hide Moves;
      var n := |lines| - 1;
      var a, b := Select(lines[..n], moved), NonBlank(lines[..n]);
      SelectNonBlank(lines[..n], moved);
      BlankMoves();
      NonBlankNext(a, lines[n]);
      SelectNext(b, lines[n], moved);
      assert a + [] == a && b + [] == b && NonBlank(a) + [] == NonBlank(a) && Select(b, moved) + [] == Select(b, moved);
    }
  }

  lemma NonBlankNext(lines: seq<string>, line: string)
    ensures NonBlank(lines + [line]) == NonBlank(lines) + (if line == "\n" then [] else [line])
  {
    assert (lines + [line])[..|lines|] == lines;
  }

  lemma {:induction false} SelectAppend(a: seq<string>, b: seq<string>, moved: bool)
    ensures Select(a + b, moved) == Select(a, moved) + Select(b, moved)
  {
    if b == [] {
      assert a + b == a;
    } else {
      hide Moves;
      var n := |b| - 1;
      assert (a + b)[..|a + b| - 1] == a + b[..n];
      SelectAppend(a, b[..n], moved);
    }
  }

  lemma {:induction false} NonBlankAppend(a: seq<string>, b: seq<string>)
    ensures NonBlank(a + b) == NonBlank(a) + NonBlank(b)
  {
    if b == [] {
      assert a + b == a;
    } else {
      var n := |b| - 1;
      assert (a + b)[..|a + b| - 1] == a + b[..n];
      NonBlankAppend(a, b[..n]);
    }
  }

  /** The rows of one section that stays. */
  lemma RowsKept(s: Section, table: Option<string>)
    requires Clean(s) && SubSuffix(s.table).None?
    ensures RowsOf(s.(lines := KeptLines(s)), table)
            == (if table == SKILL then Select(RowsOf(s, table), false) else RowsOf(s, table))
  {
    hide Clean, Select, NonBlank, Moves;
    SelectNothing();
    if s.table == SKILL {
      SkillLines(s);
      SelectNonBlank(s.lines[1..], false);
    }
  }

  lemma SkillLines(s: Section)
    requires Clean(s) && s.table.Some?
    ensures s.lines != []
  {
    hide AllProper, TableName;
  }

  lemma ForgeRows(forge: seq<string>, table: Option<string>)
    ensures RowsOf(ForgeSection(forge), table) == (if table == FORGE_TABLE then NonBlank(forge) else [])
  {
    assert (["[forge]\n"] + forge)[1..] == forge;
  }

  lemma RemainingNext(secs: seq<Section>, s: Section, table: Option<string>)
    ensures Remaining(secs + [s], table) ==
            Remaining(secs, table) + (if table == SKILL then Select(RowsOf(s, table), false)
                                      else if SubSuffix(table).Some? then [] else RowsOf(s, table))
  {
    hide Select, Rows, RowsOf;
    RowsAdd(secs, s, table);
    SelectAppend(Rows(secs, table), RowsOf(s, table), false);
  }

  predicate NoForge(secs: seq<Section>) {
    forall i :: 0 <= i < |secs| ==> secs[i].table != FORGE_TABLE
  }

  function KeptRows(s: Section, table: Option<string>): seq<string> {
    if SubSuffix(s.table).Some? then [] else if table == SKILL then Select(RowsOf(s, table), false)
      else RowsOf(s, table)
  }

  function ForgeOnly(table: Option<string>, inserted: bool, forge: seq<string>): seq<string> {
    if table == FORGE_TABLE && inserted then NonBlank(forge) else []
  }

  lemma PutRows(r: (seq<Section>, bool), s: Section, forge: seq<string>, table: Option<string>)
    requires CleanSections(r.0) && Clean(s) && CleanLines(forge) && (s.table == None <==> r.0 == [])
    ensures Rows(Put(r, s, forge).0, table) ==
            Rows(r.0, table) + KeptRows(s, table) + ForgeOnly(table, !r.1 && Put(r, s, forge).1, forge)
  {
    hide Clean, CleanSections, CleanLines, Gap, ForgeSection, KeptLines, Rows, RowsOf, NonBlank, SubSuffix, Select;
    if SubSuffix(s.table).None? {
      var k := s.(lines := KeptLines(s));
      CleanParts(s);
      RowsKept(s, table);
      RowsAdd(r.0, k, table);
      CleanAdd(r.0, k);
      LastNonEmpty(r.0 + [k]);
      RowsGap(r.0 + [k], table);
      ForgeRows(forge, table);
      RowsAdd(Gap(r.0 + [k]), ForgeSection(forge), table);
    }
    assert Rows(r.0, table) + KeptRows(s, table) + [] == Rows(r.0, table) + KeptRows(s, table);
    assert Rows(r.0, table) + [] == Rows(r.0, table);
  }

  /** One more section: what it adds to the remaining rows is what it keeps. */
  lemma RemainingKept(secs: seq<Section>, s: Section, table: Option<string>)
    ensures Remaining(secs + [s], table) == Remaining(secs, table) + KeptRows(s, table)
    ensures s.table != FORGE_TABLE && table == FORGE_TABLE ==> KeptRows(s, table) == []
  {
    hide Select, Rows, Remaining, SubSuffix;
    RemainingNext(secs, s, table);
    OtherSubs(s, table);
    assert Remaining(secs, table) + [] == Remaining(secs, table);
  }

  lemma OtherSubs(s: Section, table: Option<string>)
    ensures SubSuffix(s.table).Some? ==> (SubSuffix(table).Some? || RowsOf(s, table) == [])
    ensures SubSuffix(SKILL).None? && SubSuffix(FORGE_TABLE).None?
    ensures SubSuffix(table).Some? && SubSuffix(s.table).None? ==> RowsOf(s, table) == []
    ensures SubSuffix(s.table).Some? && table == SKILL ==> Select(RowsOf(s, table), false) == []
  {
  }

  lemma StayingNext(secs: seq<Section>, s: Section, forge: seq<string>)
    ensures StayingOut(secs + [s], forge) == Put(StayingOut(secs, forge), s, forge)
    ensures secs == [] ==> StayingOut(secs, forge) == ([], false)
  {
    hide Put;
    assert (secs + [s])[..|secs|] == secs;
  }

  lemma CleanPrefix(secs: seq<Section>, s: Section)
    requires CleanSections(secs + [s])
    ensures CleanSections(secs) && Clean(s) && (s.table == None <==> secs == [])
  {
    hide Clean;
    assert (secs + [s])[|secs|] == s;
    assert forall i :: 0 <= i < |secs| ==> (secs + [s])[i] == secs[i];
  }

  lemma NoForgePrefix(secs: seq<Section>, s: Section)
    requires NoForge(secs + [s])
    ensures NoForge(secs) && s.table != FORGE_TABLE
  {
    assert (secs + [s])[|secs|] == s;
    assert forall i :: 0 <= i < |secs| ==> (secs + [s])[i] == secs[i];
  }

  lemma NothingRows(forge: seq<string>, table: Option<string>)
    ensures Rows(StayingOut([], forge).0, table) == [] && Remaining([], table) == []
    ensures ForgeOnly(table, StayingOut([], forge).1, forge) == []
  {
  }

  lemma {:induction false} StayingRows(secs: seq<Section>, forge: seq<string>, table: Option<string>)
    requires CleanSections(secs) && CleanLines(forge) && NoForge(secs)
    ensures Rows(StayingOut(secs, forge).0, table)
            == Remaining(secs, table) + ForgeOnly(table, StayingOut(secs, forge).1, forge)
  {
    hide *;
    if secs == [] {
      NothingRows(forge, table);
    } else {
      var n := |secs| - 1;
      var prior, s, r := secs[..n], secs[n], StayingOut(secs[..n], forge);
      assert secs == prior + [s];
      StayingNext(prior, s, forge);
      CleanPrefix(prior, s);
      NoForgePrefix(prior, s);
      StayingRows(prior, forge, table);
      StayingClean(prior, forge);
      PutRows(r, s, forge, table);
      RemainingKept(prior, s, table);
      PutOnce(r, s, forge);
      ForgeOnce(Remaining(prior, table), KeptRows(s, table), table, r.1, Put(r, s, forge).1, forge);
    }
  }

  lemma ForgeOnce(m: seq<string>, k: seq<string>, table: Option<string>, before: bool, after: bool, forge: seq<string>)
    requires (table == FORGE_TABLE ==> k == []) && (before ==> after)
    ensures m + ForgeOnly(table, before, forge) + k + ForgeOnly(table, !before && after, forge)
            == m + k + ForgeOnly(table, after, forge)
  {
    hide NonBlank;
    assert m + [] == m && m + k + [] == m + k;
  }

  lemma PutOnce(r: (seq<Section>, bool), s: Section, forge: seq<string>)
    ensures r.1 ==> Put(r, s, forge).1
  {
  }

  lemma SuffixesMatch(s: Section, table: Option<string>)
    ensures SubSuffix(s.table).Some? ==>
              (table == Some("forge." + SubSuffix(s.table).value) <==> ForgeSuffix(table) == SubSuffix(s.table))
    ensures ForgeSuffix(table).Some? ==>
              (s.table == Some("skill." + ForgeSuffix(table).value) <==> SubSuffix(s.table) == ForgeSuffix(table))
  {
    hide NonBlank, Rows;
    if ForgeSuffix(table).Some? {
      SuffixOf("skill.", ForgeSuffix(table).value);
    }
    if SubSuffix(s.table).Some? {
      SuffixOf("forge.", SubSuffix(s.table).value);
    }
  }

  lemma SuffixOf(start: string, x: string)
    requires |start| == 6
    ensures |start + x| >= 6 && (start + x)[..6] == start && (start + x)[6..] == x
  {
  }

  lemma RenamingNext(secs: seq<Section>, s: Section, table: Option<string>)
    ensures Renaming(secs + [s], table) ==
            Renaming(secs, table)
            + (if SubSuffix(s.table).Some? && table == Some("forge." + SubSuffix(s.table).value) then NonBlank(Body(s))
               else [])
  {
    hide NonBlank, Rows, SubSuffix, ForgeSuffix, Body;
    SuffixesMatch(s, table);
    if ForgeSuffix(table).Some? {
      RowsAdd(secs, s, Some("skill." + ForgeSuffix(table).value));
    }
  }

  lemma SubBody(s: Section)
    requires Clean(s) && SubSuffix(s.table).Some?
    ensures Body(Section(Some("forge." + SubSuffix(s.table).value), SubLines(s))) == Body(s)
  {
    hide Clean;
    SubHeader(s);
  }

  lemma SubRows(before: seq<Section>, s: Section, table: Option<string>)
    requires CleanSections(before) && before != [] && Clean(s) && SubSuffix(s.table).Some?
    ensures Rows(Gap(before) + [SubOut(s)], table) ==
            Rows(before, table) + (if table == Some("forge." + SubSuffix(s.table).value) then NonBlank(Body(s)) else [])
  {
    hide Clean, CleanSections, Gap, SubLines, SubSuffix, Rows, Body, NonBlank;
    LastNonEmpty(before);
    RowsGap(before, table);
    RowsAdd(Gap(before), SubOut(s), table);
    SubBody(s);
  }

  lemma {:induction false} SubsRows(out: seq<Section>, secs: seq<Section>, table: Option<string>)
    requires CleanSections(out) && out != [] && forall i :: 0 <= i < |secs| ==> Clean(secs[i])
    ensures Rows(SubsOut(out, secs), table) == Rows(out, table) + Renaming(secs, table)
  {
    hide *;
    if secs == [] {
      RenamingNothing(table);
      SubsNext(out, [], Section(None, []));
    } else {
      var n := |secs| - 1;
      var prior, s := secs[..n], secs[n];
      assert secs == prior + [s];
      SubsRows(out, prior, table);
      SubsText(out, prior);
      SubsNext(out, prior, s);
      RenamingNext(prior, s, table);
      if SubSuffix(s.table).Some? { SubRows(SubsOut(out, prior), s, table); }
    }
  }

  lemma RenamingNothing(table: Option<string>)
    ensures Renaming([], table) == []
  {
  }

  /** The lines that move are the provenance rows of [skill]. */
  lemma {:induction false} ForgeAre(secs: seq<Section>)
    requires forall i :: 0 <= i < |secs| ==> Clean(secs[i])
    ensures NonBlank(Forge(secs)) == Select(Rows(secs, SKILL), true)
  {
    hide *;
    if secs == [] {
      NothingMoves();
    } else {
      var n := |secs| - 1;
      ForgeAre(secs[..n]);
      assert secs == secs[..n] + [secs[n]];
      ForgeMore(secs);
      RowsAdd(secs[..n], secs[n], SKILL);
      SelectAppend(Rows(secs[..n], SKILL), RowsOf(secs[n], SKILL), true);
      NonBlankAppend(Forge(secs[..n]), MovedLines(secs[n]));
      MovedRows(secs[n]);
    }
  }

  lemma NothingMoves()
    ensures NonBlank(Forge([])) == [] && Select(Rows([], SKILL), true) == []
  {
  }

  lemma ForgeMore(secs: seq<Section>)
    requires secs != []
    ensures Forge(secs) == Forge(secs[..|secs| - 1]) + MovedLines(secs[|secs| - 1])
  {
  }

  lemma MovedRows(s: Section)
    requires Clean(s)
    ensures NonBlank(MovedLines(s)) == Select(RowsOf(s, SKILL), true)
  {
    hide Clean, Select, NonBlank, Moves;
    SelectNothing();
    if s.table == SKILL {
      SkillLines(s);
      SelectNonBlank(s.lines[1..], true);
    } else {
      NonBlankNothing();
    }
  }

  lemma NonBlankNothing()
    ensures NonBlank([]) == []
  {
  }

  lemma {:induction false} RowsNone(secs: seq<Section>)
    requires NoForge(secs)
    ensures Rows(secs, FORGE_TABLE) == [] && Remaining(secs, FORGE_TABLE) == [] && Renaming(secs, FORGE_TABLE) == []
  {
    if secs != [] { RowsNone(secs[..|secs| - 1]); }
  }

  lemma WithForgeRows(r: (seq<Section>, bool), forge: seq<string>, table: Option<string>)
    requires CleanSections(r.0) && r.0 != []
    ensures Rows(WithForge(r, forge), table) == Rows(r.0, table) + ForgeOnly(table, !r.1, forge)
  {
    hide Clean, CleanSections, Gap, ForgeSection, Rows, RowsOf, NonBlank;
    if !r.1 {
      LastNonEmpty(r.0);
      RowsGap(r.0, table);
      ForgeRows(forge, table);
      RowsAdd(Gap(r.0), ForgeSection(forge), table);
    }
  }

  lemma OutRows(secs: seq<Section>, table: Option<string>)
    requires CleanSections(secs) && secs != [] && NoForge(secs)
    ensures Rows(OutSections(secs), table) == Holds(secs, table)
  {
    hide Clean, CleanLines, Gap, ForgeSection, StayingOut, SubsOut, Forge, Rows, Remaining, Renaming, NonBlank, Select,
         NoForge, ForgeOnly;
    var forge := Forge(secs);
    ForgeClean(secs);
    StayingClean(secs, forge);
    var r := StayingOut(secs, forge);
    AddForgeClean(r.0, forge);
    SubsRows(WithForge(r, forge), secs, table);
    WithForgeRows(r, forge, table);
    StayingRows(secs, forge, table);
    ForgeAre(secs);
    RowsNone(secs);
    ForgeRest(Remaining(secs, table), table, r.1, forge);
    ForgeOnlyIs(table, forge);
  }

  lemma ForgeRest(m: seq<string>, table: Option<string>, inserted: bool, forge: seq<string>)
    ensures m + ForgeOnly(table, inserted, forge) + ForgeOnly(table, !inserted, forge)
            == m + ForgeOnly(table, true, forge)
  {
    hide NonBlank;
  }

  lemma ForgeOnlyIs(table: Option<string>, forge: seq<string>)
    ensures ForgeOnly(table, true, forge) == if table == FORGE_TABLE then NonBlank(forge) else []
  {
    hide NonBlank;
  }
}
