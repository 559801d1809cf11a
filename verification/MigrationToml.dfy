/** The migration reads a file line by line with two patterns: exactly when they agree with TOML's own
    reading about what moves. */
module MigrationToml {
  import opened Text
  import opened Migration
  import opened MigrationRerun
  import opened MigrationTables
  import opened MigrationMeaning
  import opened MigrationFinalLine
  import opened TomlReading

  // ----- What a line is -----

  /** What a line is to a reader: the header of a table, [skill] or another; the line of a key, one that
      is to move or another; the continuation of the value above; or nothing of these. */
  datatype Mark = Table(skill: bool) | Key(moves: bool) | More | Other

  /** To the migration. */
  function ReMark(line: string): Mark {
    if IsHeader(line) then Table(TableName(line) == SKILL) else if Moves(line) then Key(true) else Other
  }

  /** To TOML. */
  function TomlMark(lines: seq<string>, k: nat): Mark
    requires k < |lines|
  {
    if PlaceAt(lines, k) != TOP then More
    else match TomlHeader(lines[k])
      case Some(h) => Table(h == Header(false, ["skill"]))
      case None =>
        match TomlKey(lines[k])
        case Some(path) => Key(path != [] && path[0] in PROVENANCE_KEYS)
        case None => Other
  }

  function ReMarks(lines: seq<string>): (marks: seq<Mark>)
    ensures |marks| == |lines|
  {
    seq(|lines|, k requires 0 <= k < |lines| => ReMark(lines[k]))
  }

  function TomlMarks(lines: seq<string>): (marks: seq<Mark>)
    ensures |marks| == |lines|
  {
    seq(|lines|, k requires 0 <= k < |lines| => TomlMark(lines, k))
  }

  /** The nearest header above line `k` is [skill]. */
  predicate InSkill(marks: seq<Mark>, k: nat)
    requires k <= |marks|
  {
    k > 0 && if marks[k - 1].Table? then marks[k - 1].skill else InSkill(marks, k - 1)
  }

  /** Line `k` is the line of a key that is to move, or goes on with its value. */
  predicate Belongs(marks: seq<Mark>, k: nat)
    requires k < |marks|
  {
    match marks[k]
    case Key(moves) => moves
    case More => k > 0 && Belongs(marks, k - 1)
    case _ => false
  }

  /** Line `k` is to move to [forge]. */
  predicate Moved(marks: seq<Mark>, k: nat)
    requires k < |marks|
  {
    Belongs(marks, k) && InSkill(marks, k)
  }

  /** The lines that are to move, of the first `n`. */
  function Picked(lines: seq<string>, marks: seq<Mark>, n: nat): seq<string>
    requires |marks| == |lines| && n <= |lines|
  {
    if n == 0 then [] else Picked(lines, marks, n - 1) + (if Moved(marks, n - 1) then [lines[n - 1]] else [])
  }

  // ----- What the migration moves -----

  lemma ReMarkIs(lines: seq<string>, k: nat)
    requires k < |lines|
    ensures ReMarks(lines)[k] == ReMark(lines[k])
    ensures Belongs(ReMarks(lines), k) <==> !IsHeader(lines[k]) && Moves(lines[k])
  {
    hide TableName, Moves;
  }

  /** The first `n` lines: what moves of them, and whether [skill] is open after them. */
  lemma {:induction false} PickedSoFar(lines: seq<string>, n: nat)
    requires n <= |lines| && NoneEmpty(lines)
    ensures Forge(Sections(lines[..n])) == Picked(lines, ReMarks(lines), n)
    ensures var secs := Sections(lines[..n]);
            && (secs[|secs| - 1].table == SKILL <==> InSkill(ReMarks(lines), n))
            && (secs[|secs| - 1].table.Some? ==> secs[|secs| - 1].lines != [])
  {
    hide *;
    if n == 0 {
      assert lines[..0] == [];
      PickedNone(lines);
    } else {
      var prior, line := lines[..n - 1], lines[n - 1];
      assert lines[..n] == prior + [line];
      PickedSoFar(lines, n - 1);
      SomeSections(prior);
      SectionsMore(prior, line);
      ReMarkIs(lines, n - 1);
      PickedMore(lines, n - 1);
      LastForge(Sections(prior), line);
    }
  }

  lemma PickedNone(lines: seq<string>)
    ensures Sections([]) == [Section(None, [])] && Forge([Section(None, [])]) == []
    ensures Picked(lines, ReMarks(lines), 0) == [] && !InSkill(ReMarks(lines), 0) && SKILL != None
  {
    hide ReMarks;
  }

  lemma PickedMore(lines: seq<string>, n: nat)
    requires n < |lines|
    ensures var marks := ReMarks(lines);
            && Picked(lines, marks, n + 1)
              == Picked(lines, marks, n) + (if Belongs(marks, n) && InSkill(marks, n) then [lines[n]] else [])
            && (InSkill(marks, n + 1) <==>
              if IsHeader(lines[n]) then TableName(lines[n]) == SKILL else InSkill(marks, n))
  {
    hide TableName, Moves, Belongs;
  }

  /** One more line: what it adds to what moves. */
  lemma LastForge(secs: seq<Section>, line: string)
    requires secs != [] && (secs[|secs| - 1].table.Some? ==> secs[|secs| - 1].lines != [])
    ensures IsHeader(line) ==> Forge(secs + [Section(TableName(line), [line])]) == Forge(secs)
    ensures !IsHeader(line) ==>
              Forge(Extend(secs, [line]))
                == Forge(secs) + (if secs[|secs| - 1].table == SKILL && Moves(line) then [line] else [])
    ensures Extend(secs, [line]) != []
    ensures var more := Extend(secs, [line]);
            more[|more| - 1].table == secs[|secs| - 1].table && more[|more| - 1].lines != []
  {
    hide TableName, Moves, Select;
    var n := |secs| - 1;
    var last := secs[n];
    assert secs == secs[..n] + [last];
    var s := Section(TableName(line), [line]);
    assert (secs + [s])[..n + 1] == secs;
    SelectNothing();
    assert [line][1..] == [];
    var more := last.(lines := last.lines + [line]);
    assert (secs[..n] + [more])[..n] == secs[..n];
    if last.table == SKILL {
      assert more.lines[1..] == last.lines[1..] + [line];
      SelectNext(last.lines[1..], line, true);
    }
  }

  /** What the migration moves, read off the lines. */
  lemma WhatMoves(lines: seq<string>)
    requires NoneEmpty(lines)
    ensures Forge(Sections(lines)) == Picked(lines, ReMarks(lines), |lines|)
  {
    hide *;
    PickedSoFar(lines, |lines|);
    assert lines[..|lines|] == lines;
  }

  // ----- Where the two readings agree -----

  predicate IsBare(w: string) {
    w != "" && forall i :: 0 <= i < |w| ==> IsWord(w[i])
  }

  lemma {:induction false} NameRun(s: string, i: nat, dots: bool)
    requires i <= |s|
    ensures var e := SkipName(s, i, dots);
            && (forall j :: i <= j < e ==> IsWord(s[j]) || (dots && s[j] == '.'))
            && (e < |s| ==> !IsWord(s[e]) && (dots ==> s[e] != '.'))
    decreases |s| - i
  {
    if i < |s| && (IsWord(s[i]) || (dots && s[i] == '.')) { NameRun(s, i + 1, dots); }
  }

  lemma {:induction false} BareRun(s: string, i: nat, e: nat, dots: bool)
    requires i <= e <= |s| && (forall j :: i <= j < e ==> IsWord(s[j]))
    requires e < |s| ==> !IsWord(s[e]) && (dots ==> s[e] != '.')
    ensures SkipName(s, i, dots) == e
    decreases e - i
  {
    if i < e { BareRun(s, i + 1, e, dots); }
  }

  /** Blanks are spaces; the other spaces are none of a blank, a bracket, a dot, or part of a name. */
  lemma {:induction false} BlanksSpaces(s: string, i: nat)
    requires i <= |s|
    ensures var b, e := SkipBlanks(s, i), SkipSpaces(s, i);
            && i <= b <= e <= |s| && (b < e ==> IsSpace(s[b])) && (e < |s| ==> !IsSpace(s[e]))
            && (b == e || SkipSpaces(s, b) == e)
    decreases |s| - i
  {
    if i < |s| && (s[i] == ' ' || s[i] == '\t') {
      BlanksSpaces(s, i + 1);
    } else {
      SpacesStop(s, i);
    }
  }

  lemma {:induction false} SpacesStop(s: string, i: nat)
    requires i <= |s|
    ensures var e := SkipSpaces(s, i); e <= |s| && (e < |s| ==> !IsSpace(s[e]))
    decreases |s| - i
  {
    if i < |s| && IsSpace(s[i]) { SpacesStop(s, i + 1); }
  }

  lemma NotSpaces()
    ensures !IsSpace('[') && !IsSpace(']') && !IsSpace('.') && !IsSpace('#') && !IsSpace('"') && !IsSpace('\'')
    ensures !IsSpace('=')
    ensures forall c :: IsSpace(c) ==> !IsWord(c)
  {
  }

  /** The pieces of a line that the header pattern matches. */
  lemma TableParts(line: string) returns (open: nat, from: nat, stop: nat, close: nat)
    requires TableName(line).Some?
    ensures open == SkipSpaces(line, 0) && open < |line| && line[open] == '['
    ensures from == SkipSpaces(line, open + 1) && stop == SkipName(line, from, true) && from < stop <= |line|
    ensures close == SkipSpaces(line, stop) && close < |line| && line[close] == ']'
    ensures TableName(line) == Some(line[from..stop]) && SkipSpaces(line, close + 1) == |line|
  {
    hide SkipSpaces, SkipName;
    open := SkipSpaces(line, 0);
    from := SkipSpaces(line, open + 1);
    stop := SkipName(line, from, true);
    close := SkipSpaces(line, stop);
  }

  /** A name with its dots. */
  function Dotted(path: seq<string>): string {
    if path == [] then "" else if |path| == 1 then path[0] else path[0] + (['.'] + Dotted(path[1..]))
  }

  predicate AllBare(path: seq<string>) {
    path != [] && forall i :: 0 <= i < |path| ==> IsBare(path[i])
  }

  /** Such a name has its parts from its dots. */
  lemma {:induction false} DottedUnique(p: seq<string>, q: seq<string>)
    requires AllBare(p) && AllBare(q) && Dotted(p) == Dotted(q)
    ensures p == q
    decreases |p|
  {
    NotWords();
    hide IsWord;
    FirstDot(p);
    FirstDot(q);
    assert p[0] == Dotted(p)[..|p[0]|] && q[0] == Dotted(q)[..|q[0]|];
    if |p| > 1 {
      assert Dotted(p)[|p[0]| + 1..] == Dotted(p[1..]) && Dotted(q)[|p[0]| + 1..] == Dotted(q[1..]);
      DottedUnique(p[1..], q[1..]);
    }
    assert p == [p[0]] + p[1..] && q == [q[0]] + q[1..];
  }

  lemma FirstDot(p: seq<string>)
    requires AllBare(p)
    ensures p[0] <= Dotted(p) && (|p| == 1 <==> |Dotted(p)| == |p[0]|) && (|p| > 1 ==> Dotted(p)[|p[0]|] == '.')
  {
  }

  /** A name that both read, from `from` on. */
  lemma {:induction false} NamesAgree(line: string, from: nat, stop: nat, close: nat)
    requires from <= stop <= close < |line| && line[close] == ']' && close == SkipSpaces(line, stop)
    requires forall j :: from <= j < stop ==> IsWord(line[j]) || line[j] == '.'
    requires !IsWord(line[stop]) && line[stop] != '.'
    requires DottedKey(line, from).Some? && DottedKey(line, from).value.1 < |line|
    requires line[DottedKey(line, from).value.1] == ']'
    ensures AllBare(DottedKey(line, from).value.0) && Dotted(DottedKey(line, from).value.0) == line[from..stop]
    decreases |line| - from
  {
    hide *;
    var e := SkipName(line, from, false);
    NameStarts(line, from, stop, close);
    KeyStep(line, from);
    if e < stop {
      NamesAgree(line, e + 1, stop, close);
      assert line[from..stop] == line[from..e] + (['.'] + line[e + 1..stop]);
      ConsDotted(line[from..e], DottedKey(line, e + 1).value.0);
    } else {
      OneDotted(line[from..e]);
    }
  }

  /** Both read the same first part. */
  lemma NameStarts(line: string, from: nat, stop: nat, close: nat)
    requires from <= stop <= close < |line| && line[close] == ']' && close == SkipSpaces(line, stop)
    requires forall j :: from <= j < stop ==> IsWord(line[j]) || line[j] == '.'
    requires !IsWord(line[stop]) && line[stop] != '.'
    requires DottedKey(line, from).Some?
    ensures var e := SkipName(line, from, false);
            && SkipBlanks(line, from) == from && from < e <= stop && IsBare(line[from..e]) && line[from] !in "\"'"
            && (e < stop ==> line[e] == '.' && SkipBlanks(line, e) == e)
            && (e == stop ==> SkipBlanks(line, e) < |line| && line[SkipBlanks(line, e)] != '.')
  {
    hide *;
    NotSpaces();
    NotWords();
    forall j | stop <= j < close ensures IsSpace(line[j]) { AllSpaces(line, stop, j); }
    var b, e := SkipBlanks(line, from), SkipName(line, from, false);
    BlanksAre(line, from);
    NameRun(line, from, false);
    NameRun(line, b, false);
    KeySimple(line, from);
    assert b <= close;
    assert b == from && from < e <= stop;
    BareIs(line, from, e);
    BlanksAre(line, e);
    BlankHere(line, e);
    if e == stop { assert SkipBlanks(line, e) <= close; }
  }

  lemma BareIs(line: string, from: nat, e: nat)
    requires from < e <= |line| && forall j :: from <= j < e ==> IsWord(line[j])
    ensures IsBare(line[from..e])
  {
    hide IsWord;
  }

  lemma KeySimple(line: string, from: nat)
    requires DottedKey(line, from).Some?
    ensures var b := SkipBlanks(line, from);
            b < |line| && (line[b] in "\"'" || b < SkipName(line, b, false))
  {
    hide SkipName, SkipBlanks, QuotedRest;
  }

  lemma KeyStep(line: string, from: nat)
    requires from < |line| && SkipBlanks(line, from) == from && line[from] !in "\"'"
    requires from < SkipName(line, from, false)
    ensures var e := SkipName(line, from, false);
            var dot := SkipBlanks(line, e);
            if dot < |line| && line[dot] == '.' then
              (match DottedKey(line, dot + 1)
               case None => DottedKey(line, from) == None
               case Some((xs, end)) => DottedKey(line, from) == Some(([line[from..e]] + xs, end)))
            else DottedKey(line, from) == Some(([line[from..e]], dot))
  {
    hide SkipName, SkipBlanks, QuotedRest;
  }

  lemma OneDotted(x: string)
    requires IsBare(x)
    ensures AllBare([x]) && Dotted([x]) == x
  {
  }

  lemma ConsDotted(x: string, xs: seq<string>)
    requires IsBare(x) && AllBare(xs)
    ensures AllBare([x] + xs) && Dotted([x] + xs) == x + (['.'] + Dotted(xs))
  {
    assert ([x] + xs)[1..] == xs;
  }

  lemma {:induction false} BlanksAre(s: string, i: nat)
    requires i <= |s|
    ensures var e := SkipBlanks(s, i);
            (forall j :: i <= j < e ==> IsSpace(s[j]) && !IsWord(s[j])) && (i < e ==> s[i] == ' ' || s[i] == '\t')
    decreases |s| - i
  {
    if i < |s| && (s[i] == ' ' || s[i] == '\t') { BlanksAre(s, i + 1); }
  }

  lemma {:induction false} AllSpaces(s: string, i: nat, j: nat)
    requires i <= |s| && i <= j < SkipSpaces(s, i)
    ensures j < |s| && IsSpace(s[j])
    decreases |s| - i
  {
    if i < j { AllSpaces(s, i + 1, j); }
  }

  lemma BlankHere(s: string, i: nat)
    requires i < |s|
    ensures s[i] != ' ' && s[i] != '\t' ==> SkipBlanks(s, i) == i
  {
  }

  lemma FirstSpace(s: string, i: nat)
    ensures i < SkipSpaces(s, i) ==> i < |s| && IsSpace(s[i])
  {
  }

  lemma NotWords()
    ensures !IsWord('[') && !IsWord(']') && !IsWord('.') && !IsWord('"') && !IsWord('\'') && !IsWord('=')
  {
  }

  /** A line that both read as the header of a table has the same name for both. */
  lemma HeadersAgree(line: string)
    requires TableName(line).Some? && TomlHeader(line).Some?
    ensures var h := TomlHeader(line).value;
            !h.element && AllBare(h.path) && TableName(line) == Some(Dotted(h.path))
  {
    hide *;
    var open, from, stop, close := TableParts(line);
    NotSpaces();
    NotWords();
    BlanksSpaces(line, 0);
    BlanksSpaces(line, open + 1);
    NameRun(line, from, true);
    StopBefore(line, stop, close);
    FirstSpace(line, open + 1);
    HeaderStarts(line, open, from);
    NamesAgree(line, from, stop, close);
  }

  lemma StopBefore(line: string, stop: nat, close: nat)
    requires close == SkipSpaces(line, stop) && close < |line|
    ensures stop <= close
  {
  }

  /** The name starts at the same place for both. */
  lemma HeaderStarts(line: string, open: nat, from: nat)
    requires TomlHeader(line).Some? && open < from < |line| && line[open] == '['
    requires forall c :: IsSpace(c) ==> !IsWord(c) && c !in "[].\"'"
    requires SkipBlanks(line, 0) <= open && (SkipBlanks(line, 0) < open ==> IsSpace(line[SkipBlanks(line, 0)]))
    requires open + 1 < from ==> IsSpace(line[open + 1])
    requires var b := SkipBlanks(line, open + 1); open + 1 <= b <= from && (b < from ==> IsSpace(line[b]))
    requires IsWord(line[from]) || line[from] == '.'
    ensures !TomlHeader(line).value.element && DottedKey(line, from).Some?
    ensures DottedKey(line, from).value.0 == TomlHeader(line).value.path
    ensures DottedKey(line, from).value.1 < |line| && line[DottedKey(line, from).value.1] == ']'
  {
    NotWords();
    var b := SkipBlanks(line, open + 1);
    NameRun(line, b, false);
    BlanksTwice(line, open + 1);
    hide SkipSpaces, SkipName, SkipBlanks, IsSpace, IsWord, QuotedRest, Trailing;
    assert SkipBlanks(line, 0) == open && line[open + 1] != '[';
    assert b == from;
  }

  lemma {:induction false} BlanksTwice(s: string, i: nat)
    requires i <= |s|
    ensures SkipBlanks(s, SkipBlanks(s, i)) == SkipBlanks(s, i)
    decreases |s| - i
  {
    if i < |s| && (s[i] == ' ' || s[i] == '\t') { BlanksTwice(s, i + 1); }
  }

  /** So the two agree on every name without quotes. */
  lemma SameName(line: string, path: seq<string>)
    requires TableName(line).Some? && TomlHeader(line).Some? && AllBare(path)
    ensures TableName(line) == Some(Dotted(path)) <==> TomlHeader(line) == Some(Header(false, path))
  {
    hide *;
    HeadersAgree(line);
    var h := TomlHeader(line).value;
    assert h == Header(h.element, h.path);
    if TableName(line) == Some(Dotted(path)) { DottedUnique(h.path, path); }
  }

  lemma Bares()
    ensures AllBare(["skill"]) && AllBare(["forge"])
    ensures SKILL == Some(Dotted(["skill"])) && FORGE_TABLE == Some(Dotted(["forge"]))
    ensures IsBare("skill") && IsBare("forge") && SKILL == Some("skill") && FORGE_TABLE == Some("forge")
  {
  }

  lemma MarksAre(lines: seq<string>, k: nat)
    requires k < |lines|
    ensures ReMarks(lines)[k] == ReMark(lines[k]) && TomlMarks(lines)[k] == TomlMark(lines, k)
  {
    hide ReMark, TomlMark;
  }

  /** When both take a line for a header they agree about [skill]. */
  lemma TablesAgree(lines: seq<string>, k: nat)
    requires k < |lines| && ReMarks(lines)[k].Table? && TomlMarks(lines)[k].Table?
    ensures ReMarks(lines)[k] == TomlMarks(lines)[k]
  {
    hide TableName, TomlHeader, PlaceAt, TomlKey, Moves, IsBare;
    MarksAre(lines, k);
    Bares();
    SameName(lines[k], ["skill"]);
  }

  // ----- When the right lines move -----

  /** A provenance key that is quoted or has dots: it is none to the pattern. */
  predicate Dressed(line: string) {
    && TomlKey(line).Some? && TomlKey(line).value[0] in PROVENANCE_KEYS
    && (|TomlKey(line).value| > 1 || (var i := SkipBlanks(line, 0); i < |line| && line[i] in "\"'"))
  }

  /** A provenance key with other spaces than blanks before its equals sign: it is none to TOML. */
  predicate Spaced(line: string) {
    && Moves(line)
    && exists i :: 0 <= i < |line| && IsSpace(line[i]) && line[i] != ' ' && line[i] != '\t' && '=' !in line[..i]
  }

  /** Line `k` is misread as a key: it goes on with the value of a provenance key of [skill] and does not look
      like such a key itself; it goes on with another value and looks like such a key; it is such a key, but
      quoted or with dots; or it is none for its spaces. */
  predicate KeyMisread(lines: seq<string>, k: nat)
    requires k < |lines|
  {
    var re, toml := ReMarks(lines), TomlMarks(lines);
    if PlaceAt(lines, k) != TOP then
      || (Belongs(toml, k) && InSkill(toml, k) && re[k] != Key(true))
      || (!Belongs(toml, k) && InSkill(re, k) && re[k] == Key(true))
    else
      || (Dressed(lines[k]) && InSkill(toml, k))
      || (Spaced(lines[k]) && InSkill(re, k))
  }

  /** Only one of the two takes line `j` for a header, and so one has [skill] open after it and the other
      has not. */
  predicate HeaderSplit(lines: seq<string>, j: nat)
    requires j < |lines|
  {
    var re, toml := ReMarks(lines), TomlMarks(lines);
    re[j].Table? != toml[j].Table? && InSkill(re, j + 1) != InSkill(toml, j + 1)
  }

  /** Neither takes one of the lines from `j` up to `k` for a header. */
  predicate NoHeaders(lines: seq<string>, j: nat, k: nat)
    requires j <= k <= |lines|
  {
    forall i :: j <= i < k ==> !ReMarks(lines)[i].Table? && !TomlMarks(lines)[i].Table?
  }

  /** A line is misread as a key; or one that is to move for both stands below a header that only one of
      them sees. */
  ghost predicate Misread(lines: seq<string>) {
    || (exists k :: 0 <= k < |lines| && KeyMisread(lines, k))
    || (exists j, k :: 0 <= j < k < |lines| && HeaderSplit(lines, j) && NoHeaders(lines, j + 1, k)
                       && Belongs(ReMarks(lines), k) && Belongs(TomlMarks(lines), k))
  }

  lemma {:induction false} AllBlanks(s: string, i: nat, j: nat)
    requires i <= |s| && i <= j < SkipBlanks(s, i)
    ensures j < |s| && (s[j] == ' ' || s[j] == '\t')
    decreases |s| - i
  {
    if i < j { AllBlanks(s, i + 1, j); }
  }

  lemma {:induction false} BlanksStop(s: string, i: nat)
    requires i <= |s|
    ensures var e := SkipBlanks(s, i); e < |s| ==> s[e] != ' ' && s[e] != '\t'
    decreases |s| - i
  {
    if i < |s| && (s[i] == ' ' || s[i] == '\t') { BlanksStop(s, i + 1); }
  }

  /** The pieces of a line that the pattern for keys matches. */
  lemma KeyParts(line: string) returns (from: nat, stop: nat, equals: nat)
    requires KeyName(line).Some?
    ensures from == SkipSpaces(line, 0) && stop == SkipName(line, from, false) && from < stop <= |line|
    ensures equals == SkipSpaces(line, stop) && equals < |line| && line[equals] == '='
    ensures KeyName(line) == Some(line[from..stop])
  {
    hide SkipSpaces, SkipName;
    from := SkipSpaces(line, 0);
    stop := SkipName(line, from, false);
    equals := SkipSpaces(line, stop);
  }

  /** To TOML a line that the pattern takes for a key has this key, or none if its spaces are not blanks. */
  lemma KeysAgree(line: string)
    requires KeyName(line).Some?
    ensures TomlKey(line).Some? ==> TomlKey(line) == Some([KeyName(line).value])
    ensures var (from, stop) := (SkipSpaces(line, 0), SkipName(line, SkipSpaces(line, 0), false));
            TomlKey(line).Some? <==> SkipBlanks(line, 0) == from && SkipBlanks(line, stop) == SkipSpaces(line, stop)
  {
    var from, stop, equals := KeyParts(line);
    NotSpaces();
    BlanksSpaces(line, 0);
    BlanksSpaces(line, stop);
    NameRun(line, from, false);
    NameRun(line, SkipBlanks(line, 0), false);
    WordIs(line[from]);
    hide SkipSpaces, SkipName, SkipBlanks, IsSpace, IsWord, Escape, QuotedRest;
  }

  /** That is so exactly when another space than a blank stands before the equals sign. */
  lemma SpacedIs(line: string)
    requires Moves(line)
    ensures Spaced(line) <==> TomlKey(line).None?
  {
    hide Moves, TomlKey, KeyName, SkipSpaces, SkipName, SkipBlanks, IsSpace, IsWord;
    MovesIs(line);
    var from, stop, equals := KeyParts(line);
    KeysAgree(line);
    NotSpaces();
    BlanksSpaces(line, 0);
    BlanksSpaces(line, stop);
    BlanksStop(line, 0);
    BlanksStop(line, stop);
    NameRun(line, from, false);
    var b, d := SkipBlanks(line, 0), SkipBlanks(line, stop);
    forall i | 0 <= i < equals ensures line[i] != '=' {
      EqualsFirst(line, from, stop, equals, i);
    }
    if b < from {
      assert IsSpace(line[b]) && '=' !in line[..b];
    } else if d < equals {
      assert IsSpace(line[d]) && '=' !in line[..d];
    }
    forall i | equals < i <= |line| ensures '=' in line[..i] { EqualsIn(line, equals, i); }
    if i :| 0 <= i < |line| && IsSpace(line[i]) && line[i] != ' ' && line[i] != '\t' && '=' !in line[..i] {
      if i < b { AllBlanks(line, 0, i); }
      if stop <= i < d { AllBlanks(line, stop, i); }
    }
  }

  lemma EqualsIn(line: string, equals: nat, i: nat)
    requires equals < i <= |line| && line[equals] == '='
    ensures '=' in line[..i]
  {
    assert line[..i][equals] == '=';
  }

  lemma MovesIs(line: string)
    ensures Moves(line) <==> KeyName(line).Some? && KeyName(line).value in PROVENANCE_KEYS
  {
  }

  lemma EqualsFirst(line: string, from: nat, stop: nat, equals: nat, i: nat)
    requires from == SkipSpaces(line, 0) && from < stop == SkipName(line, from, false) <= |line|
    requires equals == SkipSpaces(line, stop) && equals < |line| && i < equals
    ensures line[i] != '='
  {
    hide SkipSpaces, SkipName, IsSpace, IsWord;
    NotSpaces();
    NotWords();
    if i < from {
      AllSpaces(line, 0, i);
    } else if i < stop {
      NameRun(line, from, false);
    } else {
      AllSpaces(line, stop, i);
    }
  }

  /** A key to TOML that is none to the pattern has dots or quotes. */
  lemma DressedIs(line: string)
    requires TomlKey(line).Some?
    ensures var i := SkipBlanks(line, 0);
            KeyName(line).None? <==> |TomlKey(line).value| > 1 || (i < |line| && line[i] in "\"'")
  {
    var b := SkipBlanks(line, 0);
    var stop := SkipName(line, b, false);
    NotSpaces();
    NotWords();
    BlanksSpaces(line, 0);
    SpaceHere(line, b);
    NameRun(line, b, false);
    if b < stop {
      WordIs(line[b]);
      BlanksSpaces(line, stop);
      SpaceHere(line, SkipBlanks(line, stop));
    }
    hide SkipSpaces, SkipName, SkipBlanks, IsSpace, IsWord, Escape, QuotedRest;
  }

  lemma SpaceHere(s: string, i: nat)
    ensures i < |s| && !IsSpace(s[i]) ==> SkipSpaces(s, i) == i
  {
  }

  lemma HeaderNoKeys(line: string)
    ensures TomlHeader(line).Some? ==> KeyName(line) == None
    ensures IsHeader(line) ==> KeyName(line) == None
  {
    hide IsSpace, IsWord, DottedKey, Trailing;
    NotSpaces();
    NotWords();
    BlanksSpaces(line, 0);
    SpaceHere(line, SkipBlanks(line, 0));
  }

  /** The two differ about a key, and the one that sees it has [skill] open, exactly when it is misread. */
  lemma KeySplit(lines: seq<string>, k: nat)
    requires k < |lines|
    ensures var re, toml := ReMarks(lines), TomlMarks(lines);
            KeyMisread(lines, k) <==>
              Belongs(re, k) != Belongs(toml, k) && InSkill(if Belongs(re, k) then re else toml, k)
  {
    hide TableName, KeyName, TomlHeader, TomlKey, Spaced, Dressed, Moves, InSkill, PlaceAt, ReMarks, TomlMarks;
    var line, re, toml := lines[k], ReMarks(lines), TomlMarks(lines);
    MarksAre(lines, k);
    ReMarkIs(lines, k);
    MovesIs(line);
    HeaderNoKeys(line);
    assert Belongs(re, k) <==> re[k] == Key(true);
    if PlaceAt(lines, k) == TOP {
      if Moves(line) {
        SpacedIs(line);
        KeysAgree(line);
      } else {
        NotMoving(line);
      }
      DressedLine(line);
      KeySome(line);
      assert Belongs(re, k) <==> Moves(line);
      assert Belongs(toml, k) <==> TomlKey(line).Some? && TomlKey(line).value[0] in PROVENANCE_KEYS;
      assert TomlKey(line).Some? && KeyName(line).Some? ==> TomlKey(line) == Some([KeyName(line).value]) by {
        if KeyName(line).Some? { KeysAgree(line); }
      }
    } else {
      assert toml[k] == More;
    }
  }

  lemma NotMoving(line: string)
    requires !Moves(line)
    ensures !Spaced(line)
  {
  }

  lemma DressedLine(line: string)
    ensures Dressed(line) <==>
              TomlKey(line).Some? && TomlKey(line).value != [] && TomlKey(line).value[0] in PROVENANCE_KEYS
              && KeyName(line).None?
    ensures TomlKey(line).Some? ==> TomlHeader(line).None?
  {
    KeySome(line);
    if TomlKey(line).Some? { DressedIs(line); }
    hide KeyName;
  }

  lemma KeySome(line: string)
    ensures TomlKey(line).Some? ==> TomlKey(line).value != [] && TomlHeader(line).None?
  {
  }

  lemma {:induction false} StaysOpen(lines: seq<string>, j: nat, k: nat)
    requires j <= k <= |lines| && NoHeaders(lines, j, k)
    ensures InSkill(ReMarks(lines), k) == InSkill(ReMarks(lines), j)
    ensures InSkill(TomlMarks(lines), k) == InSkill(TomlMarks(lines), j)
    decreases k - j
  {
    hide ReMarks, TomlMarks;
    if j < k { StaysOpen(lines, j, k - 1); }
  }

  /** If they differ about [skill] there is a header that only one of them sees. */
  lemma {:induction false} FindSplit(lines: seq<string>, k: nat) returns (j: nat)
    requires k <= |lines| && InSkill(ReMarks(lines), k) != InSkill(TomlMarks(lines), k)
    ensures j < k && HeaderSplit(lines, j) && NoHeaders(lines, j + 1, k)
  {
    hide ReMarks, TomlMarks;
    var re, toml := ReMarks(lines), TomlMarks(lines);
    j := k - 1;
    if re[j].Table? && toml[j].Table? {
      TablesAgree(lines, j);
    } else if !re[j].Table? && !toml[j].Table? {
      j := FindSplit(lines, k - 1);
    }
  }

  /** Main result: the migration moves exactly the lines that TOML has for the provenance keys of [skill],
      their continuations included, if and only if none is misread. */
  lemma MovesRight(lines: seq<string>)
    ensures (forall k :: 0 <= k < |lines| ==> (Moved(ReMarks(lines), k) <==> Moved(TomlMarks(lines), k))) <==>
              !Misread(lines)
  {
    hide ReMarks, TomlMarks, Belongs, KeyMisread;
    var re, toml := ReMarks(lines), TomlMarks(lines);
    if k :| 0 <= k < |lines| && Moved(re, k) != Moved(toml, k) {
      if Belongs(re, k) && Belongs(toml, k) {
        var j := FindSplit(lines, k);
      } else {
        KeySplit(lines, k);
      }
    }
    if Misread(lines) {
      if k :| 0 <= k < |lines| && KeyMisread(lines, k) {
        KeySplit(lines, k);
        assert Moved(re, k) != Moved(toml, k);
      } else {
        var j, k :| 0 <= j < k < |lines| && HeaderSplit(lines, j) && NoHeaders(lines, j + 1, k) && Belongs(re, k)
          && Belongs(toml, k);
        StaysOpen(lines, j + 1, k);
        assert Moved(re, k) != Moved(toml, k);
      }
    }
  }

  // ----- The guard -----

  /** TOML has a [forge] here. */
  predicate TomlForge(lines: seq<string>, k: nat)
    requires k < |lines|
  {
    PlaceAt(lines, k) == TOP && TomlHeader(lines[k]) == Some(Header(false, ["forge"]))
  }

  ghost predicate HasTomlForge(lines: seq<string>) {
    exists k :: 0 <= k < |lines| && TomlForge(lines, k)
  }

  /** A file that has a [forge] is migrated all the same exactly when its header has a form that the pattern
      does not match, as with a comment behind it, and no other line looks like that header. */
  lemma GuardMisses(lines: seq<string>)
    requires HasTomlForge(lines)
    ensures !HasForge(lines) <==>
            && (forall k :: 0 <= k < |lines| && TomlForge(lines, k) ==> !IsHeader(lines[k]))
            && (forall k :: 0 <= k < |lines| && TableName(lines[k]) == Some("forge") ==> TomlForge(lines, k))
  {
    hide TableName, TomlHeader, PlaceAt, IsBare;
    Bares();
    forall k | 0 <= k < |lines| && TomlForge(lines, k) && IsHeader(lines[k])
      ensures TableName(lines[k]) == Some("forge")
    {
      SameName(lines[k], ["forge"]);
    }
  }

  lemma NewForgeIs()
    ensures TomlHeader("[forge]\n") == Some(Header(false, ["forge"])) && TableName("[forge]\n") == Some("forge")
  {
    hide TomlHeader, TableName;
    HeaderRead("forge", "\n");
    assert ['['] + "forge" + [']'] + "\n" == "[forge]\n";
  }

  // ----- Reading single lines -----

  /** The places in a header that is written without blanks. */
  lemma HeaderPlaces(name: string, tail: string)
    requires IsBare(name)
    ensures var line, n := ['['] + name + [']'] + tail, |name| + 2;
            && 2 < n <= |line| && line[0] == '[' && IsWord(line[1]) && line[n - 1] == ']' && line[1..n - 1] == name
            && SkipName(line, 1, true) == SkipName(line, 1, false) == n - 1
            && SkipSpaces(line, 0) == 0 && SkipSpaces(line, 1) == 1 && SkipSpaces(line, n - 1) == n - 1
            && SkipBlanks(line, 0) == 0 && SkipBlanks(line, 1) == 1 && SkipBlanks(line, n - 1) == n - 1
  {
    var line, n := ['['] + name + [']'] + tail, |name| + 2;
    assert line[0] == '[' && line[n - 1] == ']' && line[1..n - 1] == name;
    assert forall j :: 1 <= j < n - 1 ==> line[j] == name[j - 1];
    BareRun(line, 1, n - 1, true);
    BareRun(line, 1, n - 1, false);
    NotSpaces();
    assert IsWord(line[1]) && !IsSpace(line[1]);
    WordIs(line[1]);
    hide SkipName, IsSpace, IsWord;
  }

  /** A header that is written without blanks, and what follows it on its line. */
  lemma HeaderRead(name: string, tail: string)
    requires IsBare(name)
    ensures var line, n := ['['] + name + [']'] + tail, |name| + 2;
            && (Trailing(line, n) ==> TomlHeader(line) == Some(Header(false, [name])))
            && TableName(line) == (if SkipSpaces(line, n) == |line| then Some(name) else None)
  {
    var line := ['['] + name + [']'] + tail;
    hide SkipName, SkipSpaces, SkipBlanks, IsSpace, IsWord, IsBare, Trailing;
    HeaderPlaces(name, tail);
    WordIs(line[1]);
  }

  lemma WordIs(c: char)
    requires IsWord(c)
    ensures c != ' ' && c != '\t' && c != '[' && c != '"' && c != '\'' && c != '.'
  {
  }

  /** A line `key=...`. */
  lemma KeyRead(name: string, tail: string)
    requires IsBare(name)
    ensures var line := name + ['='] + tail;
            KeyName(line) == Some(name) && TomlKey(line) == Some([name]) && TomlHeader(line) == None
              && TableName(line) == None
  {
    var line, n := name + ['='] + tail, |name|;
    assert line[n] == '=' && line[0..n] == name;
    assert forall j :: 0 <= j < n ==> IsWord(line[j]) by { assert forall j :: 0 <= j < n ==> line[j] == name[j]; }
    BareRun(line, 0, n, false);
    NotSpaces();
    assert !IsSpace(line[0]) && !IsSpace(line[n]);
    WordIs(line[0]);
    hide SkipName, IsSpace, IsWord;
    assert SkipSpaces(line, 0) == 0 && SkipSpaces(line, n) == n;
    assert SkipBlanks(line, 0) == 0 && SkipBlanks(line, n) == n;
  }

  // ----- Examples -----

  const SKILL_LINE := ['['] + "skill" + [']'] + "\n"
  const TOOLS_LINE := ['['] + "tools" + [']'] + " # c\n"
  const FORGE_LINE := ['['] + "forge" + [']'] + " # c\n"
  const SOURCE_LINE := "source" + ['='] + "1\n"

  lemma LiteralsAre()
    ensures SKILL_LINE == "[skill]\n" && TOOLS_LINE == "[tools] # c\n" && FORGE_LINE == "[forge] # c\n"
    ensures SOURCE_LINE == "source=1\n"
  {
  }

  lemma CommentedRead(name: string)
    requires IsBare(name)
    ensures var line := ['['] + name + [']'] + " # c\n";
            TomlHeader(line) == Some(Header(false, [name])) && TableName(line) == None
  {
    hide TomlHeader, TableName;
    var line, n := ['['] + name + [']'] + " # c\n", |name| + 2;
    assert line[n] == ' ' && line[n + 1] == '#';
    NotSpaces();
    assert SkipBlanks(line, n + 1) == n + 1 && SkipSpaces(line, n + 1) == n + 1;
    HeaderRead(name, " # c\n");
  }

  lemma ExampleLines()
    ensures TomlHeader(SKILL_LINE) == Some(Header(false, ["skill"])) && TableName(SKILL_LINE) == SKILL
    ensures TomlHeader(TOOLS_LINE) == Some(Header(false, ["tools"])) && TableName(TOOLS_LINE) == None
    ensures TomlHeader(FORGE_LINE) == Some(Header(false, ["forge"])) && TableName(FORGE_LINE) == None
    ensures TomlHeader(SOURCE_LINE) == None && TomlKey(SOURCE_LINE) == Some(["source"])
    ensures TableName(SOURCE_LINE) == None
    ensures Moves(SOURCE_LINE) && "source" in PROVENANCE_KEYS
    ensures EndsLine(SKILL_LINE) && EndsLine(TOOLS_LINE) && EndsLine(FORGE_LINE)
  {
    hide TomlHeader, TableName, TomlKey, KeyName;
    assert PROVENANCE_KEYS[0] == "source";
    HeaderRead("skill", "\n");
    CommentedRead("tools");
    CommentedRead("forge");
    KeyRead("source", "1\n");
  }

  lemma MovedOf(marks: seq<Mark>)
    requires |marks| == 3 && marks[0] == Table(true) && marks[2] == Key(true)
    ensures marks[1] == Other ==> Moved(marks, 2)
    ensures marks[1] == Table(false) ==> !Moved(marks, 2)
  {
    assert InSkill(marks, 1);
  }

  /** A header with a comment behind it is none to the migration: the key below it moves, although TOML has
      it in [tools]. */
  lemma CommentedHeader()
    ensures var lines := [SKILL_LINE, TOOLS_LINE, SOURCE_LINE];
            Moved(ReMarks(lines), 2) && !Moved(TomlMarks(lines), 2)
  {
    hide TomlHeader, TableName, TomlKey, KeyName, SKILL_LINE, TOOLS_LINE, SOURCE_LINE, FORGE_LINE, ReMarks, TomlMarks,
         Moved, Scan, Next, EndsLine;
    var lines := [SKILL_LINE, TOOLS_LINE, SOURCE_LINE];
    ExampleLines();
    MarksAre(lines, 0);
    MarksAre(lines, 1);
    MarksAre(lines, 2);
    HeaderNext(SKILL_LINE);
    HeaderNext(TOOLS_LINE);
    assert PlaceAt(lines, 0) == TOP && PlaceAt(lines, 1) == TOP && PlaceAt(lines, 2) == TOP;
    assert !Moves(TOOLS_LINE) by { HeaderNoKey(); }
    MovedOf(ReMarks(lines));
    MovedOf(TomlMarks(lines));
  }

  lemma HeaderNoKey()
    ensures !Moves(TOOLS_LINE)
  {
    assert TOOLS_LINE[0] == '[';
  }

  lemma ForgeUnread()
    ensures var lines := [FORGE_LINE, SKILL_LINE, SOURCE_LINE]; HasTomlForge(lines) && !HasForge(lines)
  {
    hide TomlHeader, TableName, SKILL_LINE, SOURCE_LINE, FORGE_LINE;
    var lines := [FORGE_LINE, SKILL_LINE, SOURCE_LINE];
    ExampleLines();
    assert TomlForge(lines, 0);
    Bares();
  }

  lemma ProperLine(body: string)
    requires NoBreak(body)
    ensures Proper(body + "\n")
  {
    ProperSnoc(body);
    assert body + "\n" == body + ['\n'];
  }

  lemma ExampleProper()
    ensures Proper(SKILL_LINE) && Proper(FORGE_LINE) && Proper(SOURCE_LINE)
  {
    LiteralsAre();
    hide Proper, SKILL_LINE, FORGE_LINE, SOURCE_LINE;
    ProperLine("[skill]");
    ProperLine("[forge] # c");
    ProperLine("source=1");
    assert "[skill]" + "\n" == "[skill]\n" && "[forge] # c" + "\n" == "[forge] # c\n"
           && "source=1" + "\n" == "source=1\n";
  }

  lemma SourcePicked()
    ensures var lines := [FORGE_LINE, SKILL_LINE, SOURCE_LINE]; Picked(lines, ReMarks(lines), 3) == [SOURCE_LINE]
  {
    hide TomlHeader, TableName, TomlKey, KeyName, SKILL_LINE, FORGE_LINE, SOURCE_LINE, ReMarks;
    var lines := [FORGE_LINE, SKILL_LINE, SOURCE_LINE];
    ExampleLines();
    MarksAre(lines, 0);
    MarksAre(lines, 1);
    MarksAre(lines, 2);
    assert !Moved(ReMarks(lines), 0) && !Moved(ReMarks(lines), 1) && InSkill(ReMarks(lines), 2);
    assert Picked(lines, ReMarks(lines), 0) == [] && Picked(lines, ReMarks(lines), 1) == [];
    assert Picked(lines, ReMarks(lines), 2) == [];
    assert [] + [SOURCE_LINE] == [SOURCE_LINE];
  }

  /** Nor is a commented header of [forge] one: this file is migrated, and gets a second [forge]. */
  lemma CommentedForge()
    ensures var t := Join([FORGE_LINE, SKILL_LINE, SOURCE_LINE]); HasTomlForge(SplitLines(t)) && Planned(t).Changed()
  {
    hide *;
    var lines := [FORGE_LINE, SKILL_LINE, SOURCE_LINE];
    ExampleProper();
    AllThree(lines);
    SplitOfJoin(lines);
    SplitNoneEmpty(Join(lines));
    ForgeUnread();
    WhatMoves(lines);
    SourcePicked();
    ExampleLines();
    OneKey(SOURCE_LINE);
    ChangedWhen(Join(lines));
  }

  lemma AllThree(lines: seq<string>)
    requires |lines| == 3 && Proper(lines[0]) && Proper(lines[1]) && Proper(lines[2])
    ensures AllProper(lines)
  {
    hide Proper;
  }

  lemma OneKey(line: string)
    requires Moves(line)
    ensures Keys([line]) != []
  {
    hide KeyName;
  }
}
