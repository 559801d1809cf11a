/** The sections that the SKILL.toml migration writes, read back from the text: each table holds the rows it
    should, when the headers of the renamed sub-tables end in newlines. */
module MigrationMeaning {
  import opened Text
  import opened Migration
  import opened MigrationRerun
  import opened MigrationTables

  lemma {:induction false} ProperParts(secs: seq<Section>)
    requires AllProper(Flat(secs))
    ensures ProperSections(secs)
  {
    if secs == [] {
    } else {
      hide Proper;
      var n := |secs| - 1;
      var f, s := Flat(secs[..n]), secs[n];
      forall i | 0 <= i < |f| ensures Proper(f[i]) { assert (f + s.lines)[i] == f[i]; }
      forall i | 0 <= i < |s.lines| ensures Proper(s.lines[i]) { assert (f + s.lines)[|f| + i] == s.lines[i]; }
      ProperParts(secs[..n]);
    }
  }

  lemma GoodIsClean(secs: seq<Section>)
    requires GoodSections(secs) && ProperSections(secs) && SubsEnd(secs)
    ensures CleanSections(secs)
  {
    hide GoodSection, AllProper, RenamedEnds;
  }

  /** The headers of the sub-tables that are renamed end in a newline. */
  predicate SubsEnd(secs: seq<Section>) {
    forall i :: 0 <= i < |secs| ==> RenamedEnds(secs[i])
  }

  /** The sections of a text whose lines all have their line breaks. */
  lemma TextClean(t: string)
    requires Broken(t) && SubsEnd(Sections(SplitLines(t)))
    ensures CleanSections(Sections(SplitLines(t)))
  {
    hide *;
    var lines := SplitLines(t);
    SplitProper(t);
    SplitNoneEmpty(t);
    SectionsGood(lines);
    FlatSections(lines);
    ProperParts(Sections(lines));
    GoodIsClean(Sections(lines));
  }

  lemma {:induction false} HeaderIn(secs: seq<Section>, i: nat)
    requires i < |secs| && GoodSection(secs[i]) && secs[i].table.Some?
    ensures secs[i].lines != [] && secs[i].lines[0] in Flat(secs) && TableName(secs[i].lines[0]) == secs[i].table
  {
    hide TableName;
    if i < |secs| - 1 { HeaderIn(secs[..|secs| - 1], i); }
  }

  lemma NoForgeSections(lines: seq<string>)
    requires NoneEmpty(lines) && !HasForge(lines)
    ensures NoForge(Sections(lines))
  {
    hide Sections, TableName, Flat, GoodSection;
    SectionsGood(lines);
    FlatSections(lines);
    var secs := Sections(lines);
    forall i | 0 <= i < |secs| && secs[i].table == FORGE_TABLE ensures false {
      HeaderIn(secs, i);
    }
  }

  lemma CleanGood(secs: seq<Section>)
    requires CleanSections(secs)
    ensures GoodSections(secs)
  {
    hide GoodSection, AllProper;
  }

  function TextRows(t: string, table: Option<string>): seq<string> {
    Rows(Sections(SplitLines(t)), table)
  }

  function TextHolds(t: string, table: Option<string>): seq<string> {
    Holds(Sections(SplitLines(t)), table)
  }

  /** The sections of the new text, read from the text. */
  lemma NewSections(t: string)
    requires Broken(t) && SubsEnd(Sections(SplitLines(t)))
    ensures var secs := Sections(SplitLines(t)); Sections(SplitLines(NewText(secs))) == OutSections(secs)
  {
    hide *;
    TextClean(t);
    var secs := Sections(SplitLines(t));
    var out := OutSections(secs);
    SomeSections(SplitLines(t));
    OutText(secs);
    CleanText(out);
    SplitOfJoin(Flat(out));
    CleanGood(out);
    SectionsBack(out);
  }

  lemma SomeSections(lines: seq<string>)
    ensures Sections(lines) != []
  {
  }

  lemma PlanIs(t: string)
    requires Planned(t).Changed()
    ensures !HasForge(SplitLines(t)) && Planned(t).after == NewText(Sections(SplitLines(t)))
  {
    hide HasForge, NewText, Sections, SplitLines, Keys, Forge, Suffixes;
  }

  /** Every table of the new text holds exactly the rows it should, in order, where the headers of the renamed
      sub-tables end in newlines. */
  lemma SectionsKept(secs: seq<Section>, table: Option<string>)
    requires CleanSections(secs) && secs != [] && NoForge(secs)
    ensures TextRows(NewText(secs), table) == Holds(secs, table)
  {
    hide Sections, SplitLines, OutSections, Rows, Holds, NewText, CleanSections, NoForge, Flat;
    var out := OutSections(secs);
    OutText(secs);
    CleanText(out);
    SplitOfJoin(Flat(out));
    CleanGood(out);
    SectionsBack(out);
    OutRows(secs, table);
  }

  lemma OutIs(secs: seq<Section>)
    ensures OutSections(secs) == SubsOut(WithForge(StayingOut(secs, Forge(secs)), Forge(secs)), secs)
  {
    hide StayingOut, WithForge, SubsOut, Forge;
  }

  lemma CleanEach(secs: seq<Section>)
    requires CleanSections(secs)
    ensures forall i :: 0 <= i < |secs| ==> Clean(secs[i])
  {
    hide Clean;
  }

  lemma WithForgeClean(r: (seq<Section>, bool), forge: seq<string>)
    requires CleanSections(r.0) && r.0 != [] && CleanLines(forge)
    ensures CleanSections(WithForge(r, forge)) && WithForge(r, forge) != []
  {
    hide CleanSections, CleanLines, AddBlank;
    AddForgeClean(r.0, forge);
  }
}
