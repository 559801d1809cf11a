/** A file that the migration breaks, although no line of it is misread: a header stands inside a string over
    several lines, the migration ends [skill] there and writes [forge] into the string. And one that it
    migrates rightly. */
module MigrationExample {
  import opened Text
  import opened Migration
  import opened MigrationRerun
  import opened MigrationTables
  import opened MigrationMeaning
  import opened MigrationFinalLine
  import opened TomlReading
  import opened MigrationToml
  import opened MigrationLayout
  import opened MigrationSound
  import opened MigrationRows
  import TomlLexer

  const OPEN_LINE := "d" + ['='] + "\"\"\"\n"
  const HIDDEN_LINE := ['['] + "tools" + [']'] + "\n"
  const CLOSE_LINE := "\"\"\"\n"
  const LINES := [SKILL_LINE, SOURCE_LINE, OPEN_LINE, HIDDEN_LINE, CLOSE_LINE]

  /** Inside the string. */
  const LONG := Place(0, LongString(false), true)

  // ----- Single lines -----

  lemma {:induction false} PlainScan(line: string, i: nat)
    requires i <= |line| && forall j :: i <= j < |line| ==> line[j] !in "\"'#[]{}"
    ensures Scan(line, i, 0, Nowhere) == LineEnds(line, 0, Nowhere)
    decreases |line| - i
  {
    if i < |line| {
      assert line[i] !in "\"'#[]{}";
      PlainScan(line, i + 1);
    }
  }

  lemma {:induction false} NoEnd(line: string, i: nat)
    requires i <= |line| && forall j :: i <= j < |line| ==> line[j] != '"' && line[j] != '\\'
    ensures TomlLexer.MultiEnd(line, i, false) == None
    decreases |line| - i
  {
    if i < |line| { NoEnd(line, i + 1); }
  }

  lemma StaysLong(line: string)
    requires EndsLine(line) && forall j :: 0 <= j < |line| ==> line[j] != '"' && line[j] != '\\'
    ensures Next(LONG, line) == LONG
  {
    hide TomlHeader;
    NoEnd(line, 0);
    assert LineEnds(line, 0, LongString(false)) == LONG;
  }

  lemma SourceChars()
    ensures forall j :: 0 <= j < |SOURCE_LINE| ==> SOURCE_LINE[j] !in "\"'#[]{}" && SOURCE_LINE[j] != '\\'
    ensures EndsLine(SOURCE_LINE) && '"' in "\"'#[]{}"
  {
    LiteralsAre();
    assert "\"'#[]{}"[0] == '"';
  }

  lemma SourceNext()
    ensures Next(TOP, SOURCE_LINE) == TOP && Next(LONG, SOURCE_LINE) == LONG
  {
    hide TomlHeader, TableName, Moves, SOURCE_LINE, EndsLine, Scan;
    ExampleLines();
    SourceChars();
    PlainScan(SOURCE_LINE, 0);
    StaysLong(SOURCE_LINE);
    assert LineEnds(SOURCE_LINE, 0, Nowhere) == TOP;
  }

  lemma OpenNext()
    ensures Next(TOP, OPEN_LINE) == LONG
    ensures TomlHeader(OPEN_LINE) == None && TableName(OPEN_LINE) == None && !Moves(OPEN_LINE)
    ensures TomlKey(OPEN_LINE) == Some(["d"]) && "d" !in PROVENANCE_KEYS
  {
    hide TomlHeader, TomlKey, TableName, KeyName;
    var s := OPEN_LINE;
    KeyRead("d", "\"\"\"\n");
    assert |s| == 6 && s[0] == 'd' && s[1] == '=' && s[2] == s[3] == s[4] == '"' && s[5] == '\n';
    NoEnd(s, 5);
    assert Scan(s, 5, 0, LongString(false)) == LineEnds(s, 0, LongString(false)) == LONG;
    assert TomlLexer.Three(s, 2, false) && !TomlLexer.Three(s, 1, false) && !TomlLexer.Three(s, 0, false);
    assert Scan(s, 2, 0, Nowhere) == LONG;
    assert Scan(s, 1, 0, Nowhere) == LONG;
  }

  lemma HiddenNext()
    ensures Next(LONG, HIDDEN_LINE) == LONG && Next(LONG, "[forge]\n") == LONG && Next(LONG, "\n") == LONG
    ensures TableName(HIDDEN_LINE) == Some("tools") && !Moves(HIDDEN_LINE)
  {
    hide TomlHeader, TableName, Next;
    HeaderRead("tools", "\n");
    HeaderNoKeys(HIDDEN_LINE);
    assert HIDDEN_LINE == "[tools]\n";
    StaysLong(HIDDEN_LINE);
    StaysLong("[forge]\n");
    StaysLong("\n");
  }

  lemma CloseNext()
    ensures Next(LONG, CLOSE_LINE) == TOP && TableName(CLOSE_LINE) == None && !Moves(CLOSE_LINE)
  {
    var s := CLOSE_LINE;
    assert |s| == 4 && s[0] == s[1] == s[2] == '"' && s[3] == '\n';
    assert TomlLexer.QuoteRun(s, 3, '"') == 0 && TomlLexer.QuoteRun(s, 2, '"') == 1;
    assert TomlLexer.QuoteRun(s, 1, '"') == 2 && TomlLexer.QuoteRun(s, 0, '"') == 3;
    assert TomlLexer.Three(s, 0, false) && TomlLexer.MultiEnd(s, 0, false) == Some(3);
    PlainScan(s, 3);
  }

  // ----- The file -----

  lemma ExampleIs()
    ensures |LINES| == 5 && LINES[0] == SKILL_LINE && LINES[1] == SOURCE_LINE && LINES[2] == OPEN_LINE
    ensures LINES[3] == HIDDEN_LINE && LINES[4] == CLOSE_LINE
  {
  }

  /** How TOML reads it. */
  lemma ExamplePlaces()
    ensures |LINES| == 5 && PlaceAt(LINES, 0) == PlaceAt(LINES, 1) == PlaceAt(LINES, 2) == PlaceAt(LINES, 5) == TOP
    ensures PlaceAt(LINES, 3) == PlaceAt(LINES, 4) == LONG
  {
    hide *;
    ExampleIs();
    ExampleLines();
    HeaderNext(SKILL_LINE);
    SourceNext();
    OpenNext();
    HiddenNext();
    CloseNext();
    BaseNext(LINES, 0);
    BaseNext(LINES, 1);
    BaseNext(LINES, 2);
    BaseNext(LINES, 3);
    BaseNext(LINES, 4);
  }

  /** What the migration takes the lines for. */
  lemma ExampleTables()
    ensures |LINES| == 5 && TableAt(LINES, 0) == None
    ensures TableAt(LINES, 1) == TableAt(LINES, 2) == TableAt(LINES, 3) == SKILL
    ensures TableAt(LINES, 4) == TableAt(LINES, 5) == Some("tools")
    ensures !Closed(LINES, 0) && !Closed(LINES, 1) && !Closed(LINES, 2) && !Closed(LINES, 3)
    ensures Closed(LINES, 4) && Closed(LINES, 5)
  {
    hide *;
    ExampleIs();
    ExampleLines();
    OpenNext();
    HiddenNext();
    CloseNext();
    TableStart(LINES);
    NothingStays(LINES);
    TableNext(LINES, 0);
    TableNext(LINES, 1);
    TableNext(LINES, 2);
    TableNext(LINES, 3);
    TableNext(LINES, 4);
    HeaderKinds();
  }

  lemma HeaderKinds()
    ensures IsHeader(SKILL_LINE) && !IsHeader(SOURCE_LINE) && !IsHeader(OPEN_LINE) && IsHeader(HIDDEN_LINE)
    ensures !IsHeader(CLOSE_LINE)
  {
    hide TableName, SKILL_LINE, SOURCE_LINE, OPEN_LINE, HIDDEN_LINE, CLOSE_LINE;
    ExampleLines();
    OpenNext();
    HiddenNext();
    CloseNext();
  }

  /** Only the provenance key moves, as it should. */
  lemma ExampleGoes(k: nat)
    requires k < |LINES|
    ensures Goes(LINES, k) <==> k == 1
    ensures Moved(TomlMarks(LINES), k) <==> k == 1
    ensures !InSub(LINES, k) && (Stays(LINES, k) <==> k != 1)
  {
    hide *;
    ExampleIs();
    ExampleTables();
    HeaderKinds();
    ExampleLines();
    OpenNext();
    HiddenNext();
    CloseNext();
    NamesNoSubs();
    InSubIs(LINES, k);
    GoesIf(LINES, k);
    Kinds(LINES, k);
    ExampleMarks();
    ExampleMoved(TomlMarks(LINES), k);
  }

  lemma GoesIf(lines: seq<string>, k: nat)
    requires k < |lines|
    ensures Goes(lines, k) <==> !IsHeader(lines[k]) && Moves(lines[k]) && TableAt(lines, k) == SKILL
  {
    hide TableName, Moves, TableAt;
  }

  lemma NamesNoSubs()
    ensures SubSuffix(None).None? && SubSuffix(SKILL).None? && SubSuffix(Some("tools")).None? && Some("tools") != SKILL
  {
  }

  lemma ExampleMarks()
    ensures TomlMarks(LINES) == [Table(true), Key(true), Key(false), More, More]
  {
    hide *;
    ExampleIs();
    ExamplePlaces();
    MarksAre(LINES, 0);
    MarksAre(LINES, 1);
    MarksAre(LINES, 2);
    MarksAre(LINES, 3);
    MarksAre(LINES, 4);
    ExampleLines();
    OpenNext();
    LongIs();
    MarkIs(LINES, 0);
    MarkIs(LINES, 1);
    MarkIs(LINES, 2);
    MarkIs(LINES, 3);
    MarkIs(LINES, 4);
  }

  lemma LongIs()
    ensures LONG != TOP
  {
  }

  lemma MarkIs(lines: seq<string>, k: nat)
    requires k < |lines|
    ensures PlaceAt(lines, k) != TOP ==> TomlMark(lines, k) == More
    ensures PlaceAt(lines, k) == TOP && TomlHeader(lines[k]) == Some(Header(false, ["skill"])) ==>
              TomlMark(lines, k) == Table(true)
    ensures PlaceAt(lines, k) == TOP && TomlHeader(lines[k]) == None && TomlKey(lines[k]).Some? ==>
              var path := TomlKey(lines[k]).value;
              TomlMark(lines, k) == Key(path != [] && path[0] in PROVENANCE_KEYS)
  {
    hide PlaceAt, TomlHeader, TomlKey;
  }

  lemma ExampleMoved(marks: seq<Mark>, k: nat)
    requires marks == [Table(true), Key(true), Key(false), More, More] && k < 5
    ensures Moved(marks, k) <==> k == 1
  {
    assert InSkill(marks, 1);
    assert !Belongs(marks, 2) && !Belongs(marks, 3) && !Belongs(marks, 4);
  }

  /** The file meets every condition of `MovesRight`, and not that of `RightlyWhen`. */
  lemma ExampleUnsound()
    ensures !Misread(LINES) && !Sound(LINES)
  {
    hide *;
    ExampleIs();
    forall k | 0 <= k < |LINES| ensures Goes(LINES, k) <==> Moved(TomlMarks(LINES), k) { ExampleGoes(k); }
    GoesRightOf(LINES);
    GoesRightIs(LINES);
    ExampleTables();
    HeaderKinds();
    SeamIs(LINES, 3);
    ExamplePlaces();
    LongIs();
    SubHere(LINES, 3);
    SoundAt(LINES, 3);
  }

  lemma GoesRightOf(lines: seq<string>)
    requires forall k :: 0 <= k < |lines| ==> (Goes(lines, k) <==> Moved(TomlMarks(lines), k))
    ensures GoesRight(lines)
  {
    hide Goes, Moved, TomlMarks;
  }

  lemma SoundAt(lines: seq<string>, k: nat)
    requires k < |lines| && Seam(lines, k) && !HeaderHere(lines, k)
    ensures !Sound(lines)
  {
    hide Seam, HeaderHere, Misread, PlaceAt;
  }

  // ----- The migrated file -----

  const AFTER := [SKILL_LINE, OPEN_LINE, "\n", "[forge]\n", SOURCE_LINE, HIDDEN_LINE, CLOSE_LINE]

  lemma ExampleProperLines()
    ensures AllProper(LINES) && forall k :: 0 <= k < |LINES| ==> EndsLine(LINES[k])
  {
    hide Proper, SKILL_LINE, SOURCE_LINE, OPEN_LINE, HIDDEN_LINE, CLOSE_LINE, EndsLine;
    ExampleProper();
    ExampleIs();
    OthersProper();
    ExampleLines();
    SourceChars();
    forall k | 0 <= k < |LINES| ensures Proper(LINES[k]) && EndsLine(LINES[k]) {
      assert k == 0 || k == 1 || k == 2 || k == 3 || k == 4;
    }
  }

  lemma OthersProper()
    ensures Proper(OPEN_LINE) && Proper(HIDDEN_LINE) && Proper(CLOSE_LINE)
    ensures EndsLine(OPEN_LINE) && EndsLine(HIDDEN_LINE) && EndsLine(CLOSE_LINE)
  {
    hide Proper;
    ProperLine("d=\"\"\"");
    ProperLine("[tools]");
    ProperLine("\"\"\"");
    assert OPEN_LINE == "d=\"\"\"" + "\n" && HIDDEN_LINE == "[tools]" + "\n" && CLOSE_LINE == "\"\"\"" + "\n";
  }

  lemma {:induction false} EndingSubs(lines: seq<string>, n: nat)
    requires n <= |lines| && NoneEmpty(lines) && forall k :: 0 <= k < |lines| ==> EndsLine(lines[k])
    ensures SubsEnd(Buckets(lines, n))
  {
    hide *;
    if n == 0 {
      NoBuckets(lines);
      NoSubsEnd();
    } else {
      EndingSubs(lines, n - 1);
      NextLast(lines, n - 1);
      LastTable(lines, n - 1);
      EndsNext(Buckets(lines, n - 1), Buckets(lines, n), lines[n - 1]);
    }
  }

  lemma ExamplePicked()
    ensures Forge(Sections(LINES)) == [SOURCE_LINE]
  {
    hide *;
    var re := ReMarks(LINES);
    ExampleIs();
    ExampleProperLines();
    ProperNoneEmpty(LINES);
    WhatMoves(LINES);
    PickedNone(LINES);
    forall k | 0 <= k < |LINES| ensures Moved(re, k) <==> k == 1 {
      ExampleGoes(k);
      GoesIs(LINES, k);
    }
    PickedStep(LINES, re, 0);
    PickedStep(LINES, re, 1);
    PickedStep(LINES, re, 2);
    PickedStep(LINES, re, 3);
    PickedStep(LINES, re, 4);
    assert [] + [SOURCE_LINE] == [SOURCE_LINE];
  }

  lemma PickedStep(lines: seq<string>, marks: seq<Mark>, n: nat)
    requires n < |lines| == |marks|
    ensures Picked(lines, marks, n + 1)
         == if Moved(marks, n) then Picked(lines, marks, n) + [lines[n]] else Picked(lines, marks, n)
  {
    hide Moved;
    assert Picked(lines, marks, n) + [] == Picked(lines, marks, n);
  }

  lemma ProperNoneEmpty(lines: seq<string>)
    requires AllProper(lines)
    ensures NoneEmpty(lines)
  {
    hide NoBreak, IsBreak;
  }

  lemma ExampleNoForge()
    ensures !HasForge(LINES)
  {
    hide *;
    ExampleIs();
    ExampleLines();
    OpenNext();
    HiddenNext();
    CloseNext();
    NotForge();
    NoForgeIf(LINES);
  }

  lemma NotForge()
    ensures SKILL != Some("forge") && Some("tools") != Some("forge") && None != Some("forge")
  {
  }

  lemma NoForgeIf(lines: seq<string>)
    requires forall k :: 0 <= k < |lines| ==> TableName(lines[k]) != Some("forge")
    ensures !HasForge(lines)
  {
    hide TableName;
  }

  lemma ExampleChanged()
    ensures var t := Join(LINES);
            && SplitLines(t) == LINES && Complete(t) && Planned(t).Changed() && SubsEnd(Sections(LINES)) && Broken(t)
  {
    hide *;
    ExampleProperLines();
    ProperNoneEmpty(LINES);
    SplitOfJoin(LINES);
    ExampleNoForge();
    ExamplePicked();
    ExampleLines();
    OneKey(SOURCE_LINE);
    ChangedWhen(Join(LINES));
    EndingSubs(LINES, |LINES|);
    AllBuckets(LINES);
    ExampleIs();
    CompleteOf(LINES);
    CompleteLines(Join(LINES));
  }

  lemma CompleteOf(lines: seq<string>)
    requires lines != [] && NoneEmpty(lines) && EndsLine(lines[|lines| - 1])
    ensures Complete(Join(lines))
  {
    LastLineEnds(lines);
  }

  /** The order of the new lines. */
  lemma ExampleLayout()
    ensures Layout(LINES) == [Line(0), Line(2), Blank, NewForge, Line(1), Line(3), Line(4)]
  {
    hide *;
    ExampleIs();
    ExampleTables();
    forall k | 0 <= k < |LINES|
      ensures (Goes(LINES, k) <==> k == 1) && !InSub(LINES, k) && (Stays(LINES, k) <==> k != 1)
    {
      ExampleGoes(k);
    }
    ExampleGoing();
    ExampleStay();
    ForgeItemsIs(LINES);
    AppendedStart(LINES);
    AppendedIs(LINES, 0);
    AppendedIs(LINES, 1);
    AppendedIs(LINES, 2);
    AppendedIs(LINES, 3);
    AppendedIs(LINES, 4);
    LayoutIs(LINES);
  }

  lemma ExampleGoing()
    requires |LINES| == 5 && forall k :: 0 <= k < |LINES| ==> (Goes(LINES, k) <==> k == 1)
    ensures Going(LINES, 5) == [Line(1)]
  {
    hide *;
    NoGoing(LINES);
    GoingOne(LINES, 0);
    GoingOne(LINES, 1);
    GoingOne(LINES, 2);
    GoingOne(LINES, 3);
    GoingOne(LINES, 4);
  }

  lemma ExampleStay()
    requires |LINES| == 5 && forall k :: 0 <= k < |LINES| ==> (Stays(LINES, k) <==> k != 1)
    requires Going(LINES, 5) == [Line(1)]
    ensures StayItems(LINES, 5) == [Line(0), Line(2), Blank, NewForge, Line(1), Line(3), Line(4)]
  {
    hide *;
    ExampleTables();
    NothingStays(LINES);
    StaysIs(LINES, 0);
    StaysIs(LINES, 1);
    StaysIs(LINES, 2);
    StaysIs(LINES, 3);
    StaysIs(LINES, 4);
    var xs := StayItems(LINES, 3);
    assert xs == [Line(0), Line(2)];
    ForgePartIs(LINES, xs);
    ExampleGap();
  }

  lemma ExampleGap()
    ensures Gapped(LINES, [Line(0), Line(2)]) == [Line(0), Line(2), Blank]
  {
    hide *;
    ExampleIs();
    OthersProper();
    ExampleLines();
    TextsSnoc(LINES, [], Line(0));
    TextsSnoc(LINES, [Line(0)], Line(2));
    TextOne(LINES, Blank);
    LineText(LINES, 0);
    LineText(LINES, 2);
    assert [] + [Line(0)] == [Line(0)] && [Line(0)] + [Line(2)] == [Line(0), Line(2)];
    JoinAppend([] + [SKILL_LINE], [OPEN_LINE]);
    JoinOne(OPEN_LINE);
    LastEnds(Join([] + [SKILL_LINE]), OPEN_LINE);
    GapOne(LINES, [Line(0), Line(2)]);
  }

  lemma LastEnds(a: string, line: string)
    requires EndsLine(line)
    ensures EnsureNewline(a + line) == a + line
  {
    assert (a + line)[|a| + |line| - 1] == line[|line| - 1];
  }

  lemma GapOne(lines: seq<string>, xs: seq<Item>)
    requires EnsureNewline(Join(ItemTexts(lines, xs))) == Join(ItemTexts(lines, xs))
    ensures Gapped(lines, xs) == xs + [Blank]
  {
    hide Join, ItemTexts, EnsureNewline;
  }

  lemma ExampleAfter()
    ensures SplitLines(Planned(Join(LINES)).after) == AFTER
  {
    hide *;
    var xs := [Line(0), Line(2), Blank, NewForge, Line(1), Line(3), Line(4)];
    ExampleChanged();
    NewLines(Join(LINES));
    ExampleLayout();
    ExampleIs();
    ExampleTexts(xs);
  }

  lemma ExampleTexts(xs: seq<Item>)
    requires xs == [Line(0), Line(2), Blank, NewForge, Line(1), Line(3), Line(4)]
    ensures ItemTexts(LINES, xs) == AFTER
  {
    hide SKILL_LINE, SOURCE_LINE, OPEN_LINE, HIDDEN_LINE, CLOSE_LINE, ItemTexts;
    forall n | 0 <= n < 7 ensures ItemTexts(LINES, xs)[n] == ItemText(LINES, xs[n]) { TextsPrefix(LINES, xs, n); }
  }

  lemma AfterLines()
    ensures |AFTER| == 7 && AFTER[0] == SKILL_LINE && AFTER[1] == OPEN_LINE && AFTER[2] == "\n"
    ensures AFTER[3] == "[forge]\n" && AFTER[4] == SOURCE_LINE && AFTER[5] == HIDDEN_LINE && AFTER[6] == CLOSE_LINE
  {
  }

  /** TOML has no [forge] in it. */
  lemma AfterPlaces()
    ensures !HasTomlForge(AFTER)
  {
    hide *;
    AfterLines();
    ExampleLines();
    HeaderNext(SKILL_LINE);
    SourceNext();
    OpenNext();
    HiddenNext();
    LongIs();
    BaseNext(AFTER, 0);
    BaseNext(AFTER, 1);
    BaseNext(AFTER, 2);
    BaseNext(AFTER, 3);
    BaseNext(AFTER, 4);
    BaseNext(AFTER, 5);
    forall k | 0 <= k < |AFTER| ensures !TomlForge(AFTER, k) {
      ForgeHere(AFTER, k);
      SkillIsNot();
    }
    NoForgeAtAll(AFTER);
  }

  lemma SkillIsNot()
    ensures Some(Header(false, ["skill"])) != Some(FORGE_HEADER) && None != Some(FORGE_HEADER)
  {
    assert ["skill"][0] != ["forge"][0] by { assert "skill"[0] != "forge"[0]; }
  }

  lemma NoForgeAtAll(lines: seq<string>)
    requires forall k :: 0 <= k < |lines| ==> !TomlForge(lines, k)
    ensures !HasTomlForge(lines)
  {
    hide TomlForge;
  }

  /** The header of another table inside a string: no line is misread, but [forge] is written into the string,
      so that TOML has none in the migrated file. */
  lemma HeaderInString()
    ensures SplitLines(Join(LINES)) == LINES && Complete(Join(LINES)) && Planned(Join(LINES)).Changed()
    ensures !Misread(LINES) && !Sound(LINES) && !Rightly(Join(LINES))
    ensures SplitLines(Planned(Join(LINES)).after) == AFTER && !HasTomlForge(AFTER)
  {
    hide *;
    ExampleChanged();
    ExampleUnsound();
    RightlyWhen(Join(LINES));
    ExampleAfter();
    AfterPlaces();
  }

  // ----- A file that is migrated rightly -----

  const SHORT := [SKILL_LINE, SOURCE_LINE]

  lemma ShortIs()
    ensures |SHORT| == 2 && SHORT[0] == SKILL_LINE && SHORT[1] == SOURCE_LINE
  {
  }

  lemma ShortProper()
    ensures AllProper(SHORT) && SplitLines(Join(SHORT)) == SHORT && Complete(Join(SHORT)) && NoneEmpty(SHORT)
  {
    hide *;
    ShortIs();
    ExampleProper();
    ExampleLines();
    SourceChars();
    forall k | 0 <= k < |SHORT| ensures Proper(SHORT[k]) {
    }
    ProperAll(SHORT);
    ProperNoneEmpty(SHORT);
    SplitOfJoin(SHORT);
    CompleteOf(SHORT);
  }

  lemma ProperAll(lines: seq<string>)
    requires forall k :: 0 <= k < |lines| ==> Proper(lines[k])
    ensures AllProper(lines)
  {
    hide Proper;
  }

  lemma ShortPlaces()
    ensures |SHORT| == 2 && PlaceAt(SHORT, 0) == PlaceAt(SHORT, 1) == PlaceAt(SHORT, 2) == TOP
    ensures TableAt(SHORT, 0) == None && TableAt(SHORT, 1) == TableAt(SHORT, 2) == SKILL
    ensures !Closed(SHORT, 0) && !Closed(SHORT, 1) && !Closed(SHORT, 2)
  {
    hide *;
    ShortIs();
    ExampleLines();
    HeaderNext(SKILL_LINE);
    SourceNext();
    HeaderKinds();
    BaseNext(SHORT, 0);
    BaseNext(SHORT, 1);
    TableStart(SHORT);
    NothingStays(SHORT);
    TableNext(SHORT, 0);
    TableNext(SHORT, 1);
  }

  lemma ShortGoes(k: nat)
    requires k < |SHORT|
    ensures (Goes(SHORT, k) <==> k == 1) && (Moved(TomlMarks(SHORT), k) <==> k == 1)
    ensures !Seam(SHORT, k) && !TomlSub(SHORT, k)
  {
    hide *;
    ShortIs();
    ShortPlaces();
    HeaderKinds();
    ExampleLines();
    NamesNoSubs();
    GoesIf(SHORT, k);
    InSubIs(SHORT, k);
    if k > 0 { InSubIs(SHORT, k - 1); }
    SeamIs(SHORT, k);
    MarksAre(SHORT, k);
    MarksAre(SHORT, 0);
    MarkIs(SHORT, 0);
    MarkIs(SHORT, k);
    ShortMoved(TomlMarks(SHORT), k);
    SubHere(SHORT, k);
    NoSubPath(SHORT, k);
    HereIs(SHORT, k);
  }

  lemma ShortMoved(marks: seq<Mark>, k: nat)
    requires |marks| == 2 && marks[0] == Table(true) && k < 2 && marks[k] == (if k == 0 then Table(true) else Key(true))
    ensures Moved(marks, k) <==> k == 1
  {
    assert InSkill(marks, 1);
  }

  lemma NoSubPath(lines: seq<string>, k: nat)
    requires k < |lines|
    ensures TomlSub(lines, k) ==> TomlHeader(lines[k]).Some? && TomlHeader(lines[k]) != Some(Header(false, ["skill"]))
  {
    hide TomlHeader, PlaceAt;
  }

  /** A file with [skill] and one provenance key. */
  lemma PlainFile()
    ensures SplitLines(Join(SHORT)) == SHORT && Complete(Join(SHORT)) && Planned(Join(SHORT)).Changed()
    ensures Sound(SHORT) && Rightly(Join(SHORT))
  {
    hide *;
    ShortProper();
    ShortIs();
    ShortPlaces();
    forall k | 0 <= k < |SHORT|
      ensures (Goes(SHORT, k) <==> Moved(TomlMarks(SHORT), k)) && !Seam(SHORT, k) && !TomlSub(SHORT, k)
    {
      ShortGoes(k);
    }
    GoesRightOf(SHORT);
    SoundOf(SHORT);
    SoundFits(SHORT);
    ShortChanged();
    RightlyWhen(Join(SHORT));
  }

  lemma SoundOf(lines: seq<string>)
    requires GoesRight(lines) && PlaceAt(lines, |lines|) == TOP
    requires forall k :: 0 <= k < |lines| ==> !Seam(lines, k) && !TomlSub(lines, k)
    ensures Fits(lines)
  {
    hide GoesRight, PlaceAt, Seam, TomlSub, HeaderHere, TableName;
  }

  lemma ShortChanged()
    ensures Planned(Join(SHORT)).Changed()
  {
    hide *;
    var re := ReMarks(SHORT);
    ShortIs();
    ShortProper();
    WhatMoves(SHORT);
    PickedNone(SHORT);
    forall k | 0 <= k < |SHORT| ensures Moved(re, k) <==> k == 1 {
      ShortGoes(k);
      GoesIs(SHORT, k);
    }
    PickedStep(SHORT, re, 0);
    PickedStep(SHORT, re, 1);
    assert [] + [SOURCE_LINE] == [SOURCE_LINE];
    ExampleLines();
    NotForge();
    NoForgeIf(SHORT);
    OneKey(SOURCE_LINE);
    ChangedWhen(Join(SHORT));
  }
}
