/** The migration of SKILL.toml files to the [forge] layout: a plan for one text. */
module Migration {
  import opened Text

  const PROVENANCE_KEYS: seq<string> := ["source", "owner", "language", "license", "stars", "updated_at"]
  const PROVENANCE_SUBTABLES: seq<string> := ["requirements", "metadata"]

  datatype Plan = Plan(before: string, after: string, movedKeys: seq<string>, movedSubtables: seq<string>,
                       alreadyMigrated: bool, note: Option<string>)
  {
    predicate Changed() { before != after }
  }

  const ALREADY := "[forge] table already present — skipping (idempotent re-run)"
  const NOTHING := "no SkillForge provenance fields found — file unchanged"

  // ----- Lines -----

  predicate IsWord(c: char) { 'A' <= c <= 'Z' || 'a' <= c <= 'z' || '0' <= c <= '9' || c == '_' || c == '-' }

  function SkipSpaces(s: string, i: nat): (j: nat)
    ensures i <= j && (i <= |s| ==> j <= |s|)
    decreases |s| - i
  {
    if i < |s| && IsSpace(s[i]) then SkipSpaces(s, i + 1) else i
  }

  function SkipName(s: string, i: nat, dots: bool): (j: nat)
    ensures i <= j && (i <= |s| ==> j <= |s|)
    decreases |s| - i
  {
    if i < |s| && (IsWord(s[i]) || (dots && s[i] == '.')) then SkipName(s, i + 1, dots) else i
  }

  /** The name in a table header line, `^\s*\[\s*([A-Za-z0-9_.\-]+)\s*\]\s*$`. A line with double
      brackets is no table header. */
  function TableName(line: string): Option<string> {
    var open := SkipSpaces(line, 0);
    if !(open < |line| && line[open] == '[') then None else
    var from := SkipSpaces(line, open + 1);
    var to := SkipName(line, from, true);
    var close := SkipSpaces(line, to);
    if from < to && close < |line| && line[close] == ']' && SkipSpaces(line, close + 1) == |line|
    then Some(line[from..to]) else None
  }

  /** The key of a line `key = ...`, `^\s*([A-Za-z0-9_-]+)\s*=`. */
  function KeyName(line: string): Option<string> {
    var from := SkipSpaces(line, 0);
    var to := SkipName(line, from, false);
    var equals := SkipSpaces(line, to);
    if from < to && equals < |line| && line[equals] == '=' then Some(line[from..to]) else None
  }

  predicate IsHeader(line: string) { TableName(line).Some? }

  /** A line of [skill] that moves to [forge]. */
  predicate Moves(line: string) {
    KeyName(line).Some? && KeyName(line).value in PROVENANCE_KEYS
  }

  predicate EndsLine(s: string) { s != "" && s[|s| - 1] == '\n' }

  // ----- Sections -----

  /** A table (or the preamble before the first one) with its lines, the header included. */
  datatype Section = Section(table: Option<string>, lines: seq<string>)

  function Sections(lines: seq<string>): (secs: seq<Section>)
    ensures secs != []
  {
    if lines == [] then [Section(None, [])] else
    var n := |lines| - 1;
    var secs := Sections(lines[..n]);
    if IsHeader(lines[n]) then secs + [Section(TableName(lines[n]), [lines[n]])]
    else
      var last := secs[|secs| - 1];
      secs[..|secs| - 1] + [last.(lines := last.lines + [lines[n]])]
  }

  const SKILL := Some("skill")

  /** The suffix of a sub-table of [skill] that is renamed. */
  function SubSuffix(table: Option<string>): (suffix: Option<string>)
    ensures suffix.Some? ==> table == Some("skill." + suffix.value) && suffix.value in PROVENANCE_SUBTABLES
  {
    if table.Some? && |table.value| >= 6 && table.value[..6] == "skill." && table.value[6..] in PROVENANCE_SUBTABLES
    then (assert table.value == "skill." + table.value[6..]; Some(table.value[6..])) else None
  }

  function Select(lines: seq<string>, moved: bool): seq<string> {
    if lines == [] then [] else
    Select(lines[..|lines| - 1], moved) + (if Moves(lines[|lines| - 1]) == moved then [lines[|lines| - 1]] else [])
  }

  function KeptLines(s: Section): seq<string> {
    if s.table == SKILL then (if s.lines == [] then [] else [s.lines[0]] + Select(s.lines[1..], false))
    else if SubSuffix(s.table).Some? then [] else s.lines
  }

  function MovedLines(s: Section): seq<string> {
    if s.table == SKILL && s.lines != [] then Select(s.lines[1..], true) else []
  }

  function RenamedHeader(suffix: string, header: string): string {
    "[forge." + suffix + "]" + (if EndsLine(header) then "\n" else "")
  }

  function SubLines(s: Section): seq<string> {
    var suffix := SubSuffix(s.table);
    if suffix.None? || s.lines == [] then [] else [RenamedHeader(suffix.value, s.lines[0])] + s.lines[1..]
  }

  /** All that moves to [forge], in order. */
  function Forge(secs: seq<Section>): seq<string> {
    if secs == [] then [] else Forge(secs[..|secs| - 1]) + MovedLines(secs[|secs| - 1])
  }

  function Suffixes(secs: seq<Section>): seq<string> {
    if secs == [] then [] else
    Suffixes(secs[..|secs| - 1]) + (match SubSuffix(secs[|secs| - 1].table) case None => [] case Some(x) => [x])
  }

  function Keys(lines: seq<string>): seq<string> {
    if lines == [] then [] else
    Keys(lines[..|lines| - 1]) + (match KeyName(lines[|lines| - 1]) case None => [] case Some(x) => [x])
  }

  // ----- The new text -----

  function EnsureNewline(s: string): string {
    if s != "" && !EndsLine(s) then s + "\n" else s
  }

  const FORGE := "\n[forge]\n"

  /** The sections that stay, with [forge] put in after the first [skill]; and whether it was. */
  function Assemble(secs: seq<Section>, forge: seq<string>): (string, bool) {
    if secs == [] then ("", false) else
    var s := secs[|secs| - 1];
    var (out, inserted) := Assemble(secs[..|secs| - 1], forge);
    var more := out + Join(KeptLines(s));
    if s.table == SKILL && !inserted then (EnsureNewline(more) + FORGE + Join(forge), true) else (more, inserted)
  }

  function AddForge(r: (string, bool), forge: seq<string>): string {
    if r.1 then r.0 else EnsureNewline(r.0) + FORGE + Join(forge)
  }

  /** The renamed sub-tables, each after a blank line, at the end. */
  function AppendSubs(out: string, secs: seq<Section>): string {
    if secs == [] then out else
    var s := secs[|secs| - 1];
    var before := AppendSubs(out, secs[..|secs| - 1]);
    if SubSuffix(s.table).None? then before else EnsureNewline(before) + "\n" + Join(SubLines(s))
  }

  function NewText(secs: seq<Section>): string {
    var forge := Forge(secs);
    AppendSubs(AddForge(Assemble(secs, forge), forge), secs)
  }

  predicate HasForge(lines: seq<string>) {
    exists i :: 0 <= i < |lines| && TableName(lines[i]) == Some("forge")
  }

  function Planned(content: string): Plan {
    var lines := SplitLines(content);
    var secs := Sections(lines);
    var keys, suffixes := Keys(Forge(secs)), Suffixes(secs);
    if HasForge(lines) then Plan(content, content, [], [], true, Some(ALREADY))
    else if keys == [] && suffixes == [] then Plan(content, content, [], [], false, Some(NOTHING))
    else Plan(content, NewText(secs), keys, suffixes, false, None)
  }

  // ----- Joining -----

  lemma {:induction false} JoinAppend(a: seq<string>, b: seq<string>)
    ensures Join(a + b) == Join(a) + Join(b)
  {
    if a == [] {
      assert a + b == b;
    } else {
      assert (a + b)[1..] == a[1..] + b;
      JoinAppend(a[1..], b);
    }
  }

  lemma JoinOne(x: string)
    ensures Join([x]) == x
  {
    assert Join([x]) == x + Join([]);
  }

  predicate NoneEmpty(lines: seq<string>) {
    forall i :: 0 <= i < |lines| ==> lines[i] != ""
  }

  lemma {:induction false} LastLine(out: seq<string>)
    requires NoneEmpty(out) && out != []
    ensures Join(out) != "" && EndsLine(Join(out)) == EndsLine(out[|out| - 1])
  {
    var n := |out| - 1;
    assert out == out[..n] + [out[n]];
    JoinAppend(out[..n], [out[n]]);
    JoinOne(out[n]);
  }

  lemma {:induction false} SplitNoneEmpty(t: string)
    ensures NoneEmpty(SplitLines(t))
  {
    if t != "" { SplitNoneEmpty(t[LineEnd(t, 0)..]); }
  }

  // ----- Properties of the sections -----

  /** A named section starts with its header; no other line of it is one. */
  ghost predicate GoodSection(s: Section) {
    && NoneEmpty(s.lines)
    && (s.table.Some? ==> s.lines != [] && TableName(s.lines[0]) == s.table)
    && (forall i :: (if s.table.Some? then 1 else 0) <= i < |s.lines| ==> !IsHeader(s.lines[i]))
  }

  /** The preamble comes first and is the only section without a name. */
  ghost predicate GoodSections(secs: seq<Section>) {
    && (forall i :: 0 <= i < |secs| ==> GoodSection(secs[i]))
    && (forall i :: 0 <= i < |secs| ==> (secs[i].table == None <==> i == 0))
  }

  lemma GoodStart(secs: seq<Section>, line: string)
    requires GoodSections(secs) && secs != [] && line != "" && IsHeader(line)
    ensures GoodSections(secs + [Section(TableName(line), [line])])
  {
    hide TableName;
    assert GoodSection(Section(TableName(line), [line]));
  }

  lemma GoodExtend(secs: seq<Section>, line: string)
    requires GoodSections(secs) && secs != [] && line != "" && !IsHeader(line)
    ensures var last := secs[|secs| - 1];
            GoodSections(secs[..|secs| - 1] + [last.(lines := last.lines + [line])])
  {
    hide TableName;
    var last := secs[|secs| - 1];
    assert GoodSection(last);
    assert GoodSection(last.(lines := last.lines + [line]));
  }

  lemma {:induction false} SectionsGood(lines: seq<string>)
    requires NoneEmpty(lines)
    ensures GoodSections(Sections(lines))
  {
    if lines != [] {
      var n := |lines| - 1;
      assert NoneEmpty(lines[..n]) && lines[n] != "";
      hide GoodSections, TableName, NoneEmpty;
      SectionsGood(lines[..n]);
      if IsHeader(lines[n]) {
        GoodStart(Sections(lines[..n]), lines[n]);
      } else {
        GoodExtend(Sections(lines[..n]), lines[n]);
      }
    } else {
      assert GoodSections([Section(None, [])]);
    }
  }

  function Flat(secs: seq<Section>): seq<string> {
    if secs == [] then [] else Flat(secs[..|secs| - 1]) + secs[|secs| - 1].lines
  }

  lemma {:induction false} FlatSections(lines: seq<string>)
    ensures Flat(Sections(lines)) == lines
  {
    if lines != [] {
      var n := |lines| - 1;
      FlatSections(lines[..n]);
      var prior, secs := Sections(lines[..n]), Sections(lines);
      assert lines == lines[..n] + [lines[n]];
      if IsHeader(lines[n]) {
        assert secs[..|secs| - 1] == prior;
      } else {
        assert secs[..|secs| - 1] == prior[..|prior| - 1];
      }
    }
  }

  // ----- The planner -----

  /** First loop: bucket the lines by table. */
  method Bucket(lines: seq<string>) returns (sections: seq<Section>)
    ensures sections == Sections(lines)
  {
    sections := [];
    var currentTable: Option<string> := None;
    var currentBuf: seq<string> := [];
    for i := 0 to |lines|
      invariant sections + [Section(currentTable, currentBuf)] == Sections(lines[..i])
    {
      var line := lines[i];
      assert lines[..i + 1][..i] == lines[..i];
      var m := TableName(line);
      if m.Some? {
        sections := sections + [Section(currentTable, currentBuf)];
        currentTable := m;
        currentBuf := [line];
      } else {
        currentBuf := currentBuf + [line];
      }
    }
    assert lines[..|lines|] == lines;
    sections := sections + [Section(currentTable, currentBuf)];
  }

  /** The sections that stay, with the lines they keep. */
  function Staying(secs: seq<Section>): seq<Section> {
    if secs == [] then [] else
    var s := secs[|secs| - 1];
    Staying(secs[..|secs| - 1]) + (if SubSuffix(s.table).Some? then [] else [s.(lines := KeptLines(s))])
  }

  function Renamed(secs: seq<Section>): seq<(string, seq<string>)> {
    if secs == [] then [] else
    var s := secs[|secs| - 1];
    Renamed(secs[..|secs| - 1]) + (match SubSuffix(s.table) case None => [] case Some(x) => [(x, SubLines(s))])
  }

  lemma SelectNext(lines: seq<string>, line: string, moved: bool)
    ensures Select(lines + [line], moved) == Select(lines, moved) + (if Moves(line) == moved then [line] else [])
  {
    assert (lines + [line])[..|lines|] == lines;
  }

  lemma KeysNext(lines: seq<string>, line: string)
    requires KeyName(line).Some?
    ensures Keys(lines + [line]) == Keys(lines) + [KeyName(line).value]
  {
    assert (lines + [line])[..|lines|] == lines;
  }

  /** The inner loop over a [skill] section. */
  method SplitSkill(buf: seq<string>) returns (kept: seq<string>, moved: seq<string>, keys: seq<string>)
    requires buf != []
    ensures kept == [buf[0]] + Select(buf[1..], false) && moved == Select(buf[1..], true) && keys == Keys(moved)
  {
    hide Select, Keys, KeyName;
    kept, moved, keys := [buf[0]], [], [];
    SelectNothing();
    assert buf[1..1] == [];
    for i := 1 to |buf|
      invariant kept == [buf[0]] + Select(buf[1..i], false) && moved == Select(buf[1..i], true) && keys == Keys(moved)
    {
      var line := buf[i];
      assert buf[1..i + 1] == buf[1..i] + [line];
      SelectNext(buf[1..i], line, true);
      SelectNext(buf[1..i], line, false);
      var keyM := KeyName(line);
      if keyM.Some? && keyM.value in PROVENANCE_KEYS {
        KeysNext(moved, line);
        moved := moved + [line];
        keys := keys + [keyM.value];
      } else {
        kept := kept + [line];
      }
    }
    assert buf[1..|buf|] == buf[1..];
  }

  lemma SelectNothing()
    ensures Select([], true) == [] && Select([], false) == [] && Keys([]) == []
  {
  }

  lemma {:induction false} KeysAppend(a: seq<string>, b: seq<string>)
    ensures Keys(a + b) == Keys(a) + Keys(b)
  {
    if b == [] {
      assert a + b == a;
    } else {
      assert (a + b)[..|a + b| - 1] == a + b[..|b| - 1];
      KeysAppend(a, b[..|b| - 1]);
    }
  }

  /** Second loop: decide for each section what stays and what moves. */
  method Partition(sections: seq<Section>)
    returns (newSections: seq<Section>, forgeKeysLines: seq<string>, forgeSubtables: seq<(string, seq<string>)>,
             movedKeys: seq<string>, movedSubtables: seq<string>)
    requires GoodSections(sections)
    ensures newSections == Staying(sections) && forgeKeysLines == Forge(sections)
    ensures forgeSubtables == Renamed(sections) && movedSubtables == Suffixes(sections)
    ensures movedKeys == Keys(forgeKeysLines)
  {
    newSections, forgeKeysLines, forgeSubtables, movedKeys, movedSubtables := [], [], [], [], [];
    for i := 0 to |sections|
      invariant newSections == Staying(sections[..i]) && forgeKeysLines == Forge(sections[..i])
      invariant forgeSubtables == Renamed(sections[..i]) && movedSubtables == Suffixes(sections[..i])
      invariant movedKeys == Keys(forgeKeysLines)
    {
      var (table, buf) := (sections[i].table, sections[i].lines);
      assert sections[..i + 1][..i] == sections[..i];
      if table.None? {
        newSections := newSections + [Section(table, buf)];
        continue;
      }
      if table == SKILL {
        var kept, moved, keys := SplitSkill(buf);
        KeysAppend(forgeKeysLines, moved);
        forgeKeysLines := forgeKeysLines + moved;
        movedKeys := movedKeys + keys;
        newSections := newSections + [Section(table, kept)];
        continue;
      }
      if |table.value| >= 6 && table.value[..6] == "skill." {
        var suffix := table.value[6..];
        if suffix in PROVENANCE_SUBTABLES {
          var renamedHeader := "[forge." + suffix + "]" + (if EndsLine(buf[0]) then "\n" else "");
          forgeSubtables := forgeSubtables + [(suffix, [renamedHeader] + buf[1..])];
          movedSubtables := movedSubtables + [suffix];
          continue;
        }
      }
      newSections := newSections + [Section(table, buf)];
    }
    assert sections[..|sections|] == sections;
  }

  // ----- Assembling the output -----

  /** `Assemble`, over the sections that stay. */
  function AssembleStaying(news: seq<Section>, forge: seq<string>): (string, bool) {
    if news == [] then ("", false) else
    var s := news[|news| - 1];
    var (out, inserted) := AssembleStaying(news[..|news| - 1], forge);
    var more := out + Join(s.lines);
    if s.table == SKILL && !inserted then (EnsureNewline(more) + FORGE + Join(forge), true) else (more, inserted)
  }

  lemma {:induction false} StayingAssembles(secs: seq<Section>, forge: seq<string>)
    ensures AssembleStaying(Staying(secs), forge) == Assemble(secs, forge)
  {
    if secs != [] {
      var s, rest := secs[|secs| - 1], secs[..|secs| - 1];
      StayingAssembles(rest, forge);
      if SubSuffix(s.table).Some? {
        assert Staying(rest) + [] == Staying(rest);
        assert Assemble(rest, forge).0 + Join([]) == Assemble(rest, forge).0;
      } else {
        var news := Staying(secs);
        assert news[..|news| - 1] == Staying(rest);
      }
    }
  }

  function AppendRenamed(out: string, renamed: seq<(string, seq<string>)>): string {
    if renamed == [] then out else
    EnsureNewline(AppendRenamed(out, renamed[..|renamed| - 1])) + "\n" + Join(renamed[|renamed| - 1].1)
  }

  lemma {:induction false} RenamedAppends(out: string, secs: seq<Section>)
    ensures AppendRenamed(out, Renamed(secs)) == AppendSubs(out, secs)
  {
    if secs != [] {
      var s, rest := secs[|secs| - 1], secs[..|secs| - 1];
      RenamedAppends(out, rest);
      if SubSuffix(s.table).None? {
        assert Renamed(rest) + [] == Renamed(rest);
      } else {
        var r := Renamed(secs);
        assert r[..|r| - 1] == Renamed(rest);
      }
    }
  }

  /** What the planner appends keeps its lines non-empty. */
  ghost predicate NoneEmptySections(news: seq<Section>) {
    forall i :: 0 <= i < |news| ==> NoneEmpty(news[i].lines)
  }

  lemma {:induction false} SelectNoneEmpty(lines: seq<string>, moved: bool)
    requires NoneEmpty(lines)
    ensures NoneEmpty(Select(lines, moved))
  {
    if lines != [] { SelectNoneEmpty(lines[..|lines| - 1], moved); }
  }

  lemma SectionParts(s: Section)
    requires NoneEmpty(s.lines)
    ensures NoneEmpty(KeptLines(s)) && NoneEmpty(MovedLines(s)) && NoneEmpty(SubLines(s))
  {
    if s.lines != [] {
      hide Moves;
      SelectNoneEmpty(s.lines[1..], true);
      SelectNoneEmpty(s.lines[1..], false);
    }
  }

  lemma {:induction false} PartsNoneEmpty(secs: seq<Section>)
    requires forall i :: 0 <= i < |secs| ==> NoneEmpty(secs[i].lines)
    ensures NoneEmptySections(Staying(secs)) && NoneEmpty(Forge(secs))
    ensures forall i :: 0 <= i < |Renamed(secs)| ==> NoneEmpty(Renamed(secs)[i].1)
  {
    if secs != [] {
      hide KeptLines, MovedLines, SubLines;
      PartsNoneEmpty(secs[..|secs| - 1]);
      SectionParts(secs[|secs| - 1]);
    }
  }

  /** The test before something is appended, on the list of lines and on the text they make. */
  method Terminate(out: seq<string>) returns (more: seq<string>)
    requires NoneEmpty(out)
    ensures NoneEmpty(more) && Join(more) == EnsureNewline(Join(out))
  {
    more := out;
    if out != [] {
      LastLine(out);
      if !EndsLine(out[|out| - 1]) {
        more := out + ["\n"];
        JoinAppend(out, ["\n"]);
        JoinOne("\n");
      }
    }
  }

  /** Third part: the new lines. */
  method AssembleOutput(newSections: seq<Section>, forgeKeysLines: seq<string>,
                        forgeSubtables: seq<(string, seq<string>)>)
    returns (after: string)
    requires NoneEmptySections(newSections) && NoneEmpty(forgeKeysLines)
    requires forall i :: 0 <= i < |forgeSubtables| ==> NoneEmpty(forgeSubtables[i].1)
    requires AssembleStaying(newSections, forgeKeysLines).1 || forgeKeysLines != [] || forgeSubtables != []
    ensures after == AppendRenamed(AddForge(AssembleStaying(newSections, forgeKeysLines), forgeKeysLines),
            forgeSubtables)
  {
    hide Join, EnsureNewline;
    var outLines: seq<string> := [];
    var insertedForge := false;
    JoinNothing();
    for i := 0 to |newSections|
      invariant NoneEmpty(outLines)
      invariant (Join(outLines), insertedForge) == AssembleStaying(newSections[..i], forgeKeysLines)
    {
      var (table, buf) := (newSections[i].table, newSections[i].lines);
      assert newSections[..i + 1][..i] == newSections[..i];
      JoinAppend(outLines, buf);
      outLines := outLines + buf;
      if table == SKILL && !insertedForge {
        outLines := Terminate(outLines);
        ForgeAppend(outLines, forgeKeysLines);
        outLines := outLines + [FORGE] + forgeKeysLines;
        insertedForge := true;
      }
    }
    assert newSections[..|newSections|] == newSections;
    if !insertedForge && (forgeKeysLines != [] || forgeSubtables != []) {
      outLines := Terminate(outLines);
      ForgeAppend(outLines, forgeKeysLines);
      outLines := outLines + [FORGE] + forgeKeysLines;
    }
    ghost var base := Join(outLines);
    for i := 0 to |forgeSubtables|
      invariant NoneEmpty(outLines) && Join(outLines) == AppendRenamed(base, forgeSubtables[..i])
    {
      var subBuf := forgeSubtables[i].1;
      assert forgeSubtables[..i + 1][..i] == forgeSubtables[..i];
      outLines := Terminate(outLines);
      JoinAppend(outLines, ["\n"]);
      JoinOne("\n");
      JoinAppend(outLines + ["\n"], subBuf);
      outLines := outLines + ["\n"] + subBuf;
    }
    assert forgeSubtables[..|forgeSubtables|] == forgeSubtables;
    after := Join(outLines);
  }

  lemma JoinNothing()
    ensures Join([]) == ""
  {
  }

  lemma ForgeAppend(out: seq<string>, forge: seq<string>)
    requires NoneEmpty(out) && NoneEmpty(forge)
    ensures Join(out + [FORGE] + forge) == Join(out) + FORGE + Join(forge) && NoneEmpty(out + [FORGE] + forge)
  {
    JoinAppend(out, [FORGE]);
    JoinOne(FORGE);
    JoinAppend(out + [FORGE], forge);
  }

  lemma GoodNoneEmpty(secs: seq<Section>)
    requires GoodSections(secs)
    ensures forall i :: 0 <= i < |secs| ==> NoneEmpty(secs[i].lines)
  {
    assert forall i :: 0 <= i < |secs| ==> GoodSection(secs[i]);
  }

  method PlanMigration(content: string) returns (plan: Plan)
    ensures plan == Planned(content)
  {
    hide Sections, Forge, Suffixes, Keys, Assemble, AssembleStaying, AppendSubs, AppendRenamed, Staying, Renamed,
         GoodSections, NoneEmptySections, NoneEmpty;
    var lines := SplitLines(content);
    SplitNoneEmpty(content);
    for i := 0 to |lines|
      invariant forall j :: 0 <= j < i ==> TableName(lines[j]) != Some("forge")
    {
      if TableName(lines[i]) == Some("forge") {
        return Plan(content, content, [], [], true, Some(ALREADY));
      }
    }
    var sections := Bucket(lines);
    SectionsGood(lines);
    var newSections, forgeKeysLines, forgeSubtables, movedKeys, movedSubtables := Partition(sections);
    if movedKeys == [] && movedSubtables == [] {
      return Plan(content, content, [], [], false, Some(NOTHING));
    }
    GoodNoneEmpty(sections);
    PartsNoneEmpty(sections);
    SomethingMoves(sections);
    StayingAssembles(sections, forgeKeysLines);
    RenamedAppends(AddForge(Assemble(sections, forgeKeysLines), forgeKeysLines), sections);
    var after := AssembleOutput(newSections, forgeKeysLines, forgeSubtables);
    plan := Plan(content, after, movedKeys, movedSubtables, false, None);
  }

  /** Something is written to [forge] whenever something moves. */
  lemma {:induction false} SomethingMoves(secs: seq<Section>)
    ensures Keys(Forge(secs)) != [] ==> Forge(secs) != []
    ensures Suffixes(secs) != [] ==> Renamed(secs) != []
  {
    if secs != [] { SomethingMoves(secs[..|secs| - 1]); }
  }
}
