/** Where the lines of a file are after its migration: every line of the new text is a line of the old one, a
    renamed header, or one that is put in. */
module MigrationLayout {
  import opened Text
  import opened Migration
  import opened MigrationRerun
  import opened MigrationTables
  import opened MigrationMeaning
  import opened MigrationToml

  datatype Item = Line(k: nat) | Renamed(k: nat) | Blank | NewForge

  function ItemText(lines: seq<string>, x: Item): string {
    match x
    case Line(k) => if k < |lines| then lines[k] else ""
    case Renamed(k) =>
      if k < |lines| && SubSuffix(TableName(lines[k])).Some?
      then RenamedHeader(SubSuffix(TableName(lines[k])).value, lines[k]) else ""
    case Blank => "\n"
    case NewForge => "[forge]\n"
  }

  function ItemTexts(lines: seq<string>, xs: seq<Item>): (texts: seq<string>)
    ensures |texts| == |xs|
  {
    if xs == [] then [] else ItemTexts(lines, xs[..|xs| - 1]) + [ItemText(lines, xs[|xs| - 1])]
  }

  // ----- What the migration takes a line for -----

  /** The table that it has open before line `k`. */
  function TableAt(lines: seq<string>, k: nat): Option<string>
    requires k <= |lines|
  {
    if k == 0 then None else if IsHeader(lines[k - 1]) then TableName(lines[k - 1]) else TableAt(lines, k - 1)
  }

  /** Line `k` is in a sub-table that is renamed, perhaps as its header. */
  predicate InSub(lines: seq<string>, k: nat)
    requires k < |lines|
  {
    SubSuffix(TableAt(lines, k + 1)).Some?
  }

  /** Line `k` is moved to [forge]. */
  predicate Goes(lines: seq<string>, k: nat)
    requires k < |lines|
  {
    !IsHeader(lines[k]) && Moves(lines[k]) && TableAt(lines, k) == SKILL
  }

  predicate Stays(lines: seq<string>, k: nat)
    requires k < |lines|
  {
    !InSub(lines, k) && !Goes(lines, k)
  }

  /** A header before line `k` has closed a [skill]. */
  predicate Closed(lines: seq<string>, k: nat)
    requires k <= |lines|
  {
    k > 0 && (Closed(lines, k - 1) || (IsHeader(lines[k - 1]) && TableAt(lines, k - 1) == SKILL))
  }

  // ----- The new order -----

  function Going(lines: seq<string>, n: nat): seq<Item>
    requires n <= |lines|
  {
    if n == 0 then [] else Going(lines, n - 1) + (if Goes(lines, n - 1) then [Line(n - 1)] else [])
  }

  /** A blank line is put in, and before it what a line without a newline lacks. */
  function Gapped(lines: seq<string>, xs: seq<Item>): seq<Item> {
    xs + (if EnsureNewline(Join(ItemTexts(lines, xs))) == Join(ItemTexts(lines, xs)) then [Blank] else [Blank, Blank])
  }

  function ForgePart(lines: seq<string>, xs: seq<Item>): seq<Item> {
    Gapped(lines, xs) + ([NewForge] + Going(lines, |lines|))
  }

  /** What the lines before `n` leave in place; [forge] is put in where the first [skill] is closed. */
  function StayItems(lines: seq<string>, n: nat): seq<Item>
    requires n <= |lines|
  {
    if n == 0 then [] else
    var xs := StayItems(lines, n - 1);
    (if Closed(lines, n) && !Closed(lines, n - 1) then ForgePart(lines, xs) else xs)
      + (if Stays(lines, n - 1) then [Line(n - 1)] else [])
  }

  function ForgeItems(lines: seq<string>): seq<Item> {
    if Closed(lines, |lines|) then StayItems(lines, |lines|) else ForgePart(lines, StayItems(lines, |lines|))
  }

  /** The sub-tables among the lines before `n` are appended. */
  function Appended(lines: seq<string>, n: nat): seq<Item>
    requires n <= |lines|
  {
    if n == 0 then ForgeItems(lines) else
    var xs := Appended(lines, n - 1);
    if !InSub(lines, n - 1) then xs
    else if IsHeader(lines[n - 1]) then Gapped(lines, xs) + [Renamed(n - 1)]
    else xs + [Line(n - 1)]
  }

  function Layout(lines: seq<string>): seq<Item> {
    Appended(lines, |lines|)
  }

  // ----- These are the lines of the new text -----

  lemma TextsSnoc(lines: seq<string>, xs: seq<Item>, x: Item)
    ensures ItemTexts(lines, xs + [x]) == ItemTexts(lines, xs) + [ItemText(lines, x)]
  {
    hide ItemText;
    assert (xs + [x])[..|xs|] == xs;
  }

  lemma {:induction false} TextsAppend(lines: seq<string>, xs: seq<Item>, ys: seq<Item>)
    ensures ItemTexts(lines, xs + ys) == ItemTexts(lines, xs) + ItemTexts(lines, ys)
  {
    hide ItemText;
    if ys == [] {
      assert xs + ys == xs;
    } else {
      var n := |ys| - 1;
      assert xs + ys == (xs + ys[..n]) + [ys[n]] && ys == ys[..n] + [ys[n]];
      TextsAppend(lines, xs, ys[..n]);
      TextsSnoc(lines, xs + ys[..n], ys[n]);
      TextsSnoc(lines, ys[..n], ys[n]);
      Assoc(ItemTexts(lines, xs), ItemTexts(lines, ys[..n]), [ItemText(lines, ys[n])]);
    }
  }

  lemma TextOne(lines: seq<string>, x: Item)
    ensures ItemTexts(lines, [x]) == [ItemText(lines, x)] && ItemTexts(lines, []) == []
  {
    hide ItemText;
    assert [x][..0] == [];
  }

  lemma FlatBlank(secs: seq<Section>)
    requires secs != []
    ensures Flat(AddBlank(secs)) == Flat(secs) + ["\n"]
  {
    var last, rest := secs[|secs| - 1], secs[..|secs| - 1];
    assert secs == rest + [last];
    FlatSnoc(rest, last);
    FlatSnoc(rest, last.(lines := last.lines + ["\n"]));
    Assoc(Flat(rest), last.lines, ["\n"]);
  }

  lemma GapTexts(lines: seq<string>, secs: seq<Section>, xs: seq<Item>)
    requires secs != [] && Flat(secs) == ItemTexts(lines, xs)
    ensures Flat(Gap(secs)) == ItemTexts(lines, Gapped(lines, xs))
  {
    hide ItemTexts, Flat, AddBlank, EnsureNewline, Join;
    FlatBlank(secs);
    AddBlankSome(secs);
    FlatBlank(AddBlank(secs));
    TextOne(lines, Blank);
    TextsSnoc(lines, xs, Blank);
    TextsSnoc(lines, xs + [Blank], Blank);
    assert xs + [Blank, Blank] == (xs + [Blank]) + [Blank];
  }

  // ----- Bucketing -----

  /** Where the section that is open before line `n` starts. */
  function Start(lines: seq<string>, n: nat): (a: nat)
    requires n <= |lines|
    ensures a <= n
  {
    if n == 0 then 0 else if IsHeader(lines[n - 1]) then n - 1 else Start(lines, n - 1)
  }

  function Buckets(lines: seq<string>, n: nat): (secs: seq<Section>)
    requires n <= |lines|
    ensures secs != []
  {
    Sections(lines[..n])
  }

  lemma BucketsNext(lines: seq<string>, n: nat)
    requires n < |lines|
    ensures var secs, line := Buckets(lines, n), lines[n];
            Buckets(lines, n + 1)
            == (if IsHeader(line) then secs + [Section(TableName(line), [line])] else Extend(secs, [line]))
  {
    hide TableName, Sections;
    assert lines[..n + 1] == lines[..n] + [lines[n]];
    SectionsMore(lines[..n], lines[n]);
  }

  function Last(secs: seq<Section>): Section
    requires secs != []
  {
    secs[|secs| - 1]
  }

  function Front(secs: seq<Section>): seq<Section>
    requires secs != []
  {
    secs[..|secs| - 1]
  }

  lemma NextLast(lines: seq<string>, n: nat)
    requires n < |lines|
    ensures var secs, more, line := Buckets(lines, n), Buckets(lines, n + 1), lines[n];
            && (IsHeader(line) ==> Front(more) == secs && Last(more) == Section(TableName(line), [line]))
            && (!IsHeader(line) ==> Front(more) == Front(secs)
                                    && Last(more) == Last(secs).(lines := Last(secs).lines + [line]))
  {
    hide TableName, Sections;
    BucketsNext(lines, n);
  }

  lemma {:induction false} LastTable(lines: seq<string>, n: nat)
    requires n <= |lines|
    ensures Last(Buckets(lines, n)).table == TableAt(lines, n)
    ensures TableAt(lines, n).Some? ==> Last(Buckets(lines, n)).lines != []
    ensures Front(Buckets(lines, n)) != [] || TableAt(lines, n) == None
  {
    hide TableName, Buckets;
    if n > 0 {
      LastTable(lines, n - 1);
      NextLast(lines, n - 1);
    } else {
      NoBuckets(lines);
    }
  }

  lemma NoBuckets(lines: seq<string>)
    ensures Buckets(lines, 0) == [Section(None, [])]
  {
    assert lines[..0] == [];
  }

  /** One more line of a section. */
  lemma KeptMore(s: Section, line: string)
    requires s.table.Some? ==> s.lines != []
    requires !IsHeader(line)
    ensures KeptLines(s.(lines := s.lines + [line]))
         == KeptLines(s) + (if SubSuffix(s.table).Some? || (s.table == SKILL && Moves(line)) then [] else [line])
    ensures MovedLines(s.(lines := s.lines + [line]))
            == MovedLines(s) + (if s.table == SKILL && Moves(line) then [line] else [])
    ensures SubSuffix(s.table).Some? ==> SubLines(s.(lines := s.lines + [line])) == SubLines(s) + [line]
  {
    hide Moves, Select, TableName;
    SelectNothing();
    var more := s.lines + [line];
    if s.lines != [] {
      assert more[1..] == s.lines[1..] + [line] && more[0] == s.lines[0];
      SelectNext(s.lines[1..], line, true);
      SelectNext(s.lines[1..], line, false);
    }
  }

  lemma KeptHead(line: string)
    ensures var s := Section(TableName(line), [line]);
            && KeptLines(s) == (if SubSuffix(s.table).Some? then [] else [line]) && MovedLines(s) == []
            && (SubSuffix(s.table).Some? ==> SubLines(s) == [RenamedHeader(SubSuffix(s.table).value, line)])
  {
    hide TableName, Select;
    SelectNothing();
    assert [line][1..] == [];
  }

  // ----- The lines that go -----

  lemma {:induction false} GoingTexts(lines: seq<string>, n: nat)
    requires n <= |lines|
    ensures Forge(Buckets(lines, n)) == ItemTexts(lines, Going(lines, n))
  {
    hide *;
    if n == 0 {
      NoGoing(lines);
    } else {
      GoingTexts(lines, n - 1);
      GoingMore(lines, n - 1);
      NextLast(lines, n - 1);
      LastTable(lines, n - 1);
      ForgeLast(Buckets(lines, n - 1), Buckets(lines, n), lines[n - 1]);
      LineText(lines, n - 1);
      TextsSnoc(lines, Going(lines, n - 1), Line(n - 1));
    }
  }

  lemma LineText(lines: seq<string>, k: nat)
    requires k < |lines|
    ensures ItemText(lines, Line(k)) == lines[k]
  {
  }

  lemma NoGoing(lines: seq<string>)
    ensures Forge(Buckets(lines, 0)) == [] && Going(lines, 0) == [] && ItemTexts(lines, []) == []
  {
    NoBuckets(lines);
    hide Buckets;
  }

  lemma GoingMore(lines: seq<string>, n: nat)
    requires n < |lines|
    ensures Going(lines, n + 1)
         == (if !IsHeader(lines[n]) && Moves(lines[n]) && TableAt(lines, n) == SKILL then Going(lines, n) + [Line(n)]
             else Going(lines, n))
  {
    hide Moves, TableName;
  }

  lemma ForgeLast(secs: seq<Section>, more: seq<Section>, line: string)
    requires secs != [] && more != [] && (Last(secs).table.Some? ==> Last(secs).lines != [])
    requires if IsHeader(line) then Front(more) == secs && Last(more) == Section(TableName(line), [line])
             else Front(more) == Front(secs) && Last(more) == Last(secs).(lines := Last(secs).lines + [line])
    ensures Forge(more) == Forge(secs)
            + (if !IsHeader(line) && Last(secs).table == SKILL && Moves(line) then [line] else [])
  {
    hide Moves, TableName, MovedLines;
    assert Forge(more) == Forge(Front(more)) + MovedLines(Last(more));
    if IsHeader(line) {
      KeptHead(line);
    } else {
      KeptMore(Last(secs), line);
      assert Forge(secs) == Forge(Front(secs)) + MovedLines(Last(secs));
    }
  }

  // ----- The lines that stay -----

  /** Before line `n` is read: what is written of the sections that are closed, and whether [forge] is. */
  function Written(lines: seq<string>, n: nat): (seq<Section>, bool)
    requires n <= |lines|
  {
    StayingOut(Front(Buckets(lines, n)), Forge(Buckets(lines, |lines|)))
  }

  lemma WrittenNext(lines: seq<string>, n: nat)
    requires n < |lines|
    ensures IsHeader(lines[n]) ==>
              Written(lines, n + 1) == Put(Written(lines, n), Last(Buckets(lines, n)), Forge(Buckets(lines, |lines|)))
    ensures !IsHeader(lines[n]) ==> Written(lines, n + 1) == Written(lines, n)
  {
    hide TableName, Buckets, Forge, Put;
    NextLast(lines, n);
    if IsHeader(lines[n]) {
      var secs := Buckets(lines, n);
      assert secs == Front(secs) + [Last(secs)];
      StayingNext(Front(secs), Last(secs), Forge(Buckets(lines, |lines|)));
    }
  }

  lemma {:induction false} WrittenSome(lines: seq<string>, n: nat)
    requires n <= |lines|
    ensures Written(lines, n).0 != [] || TableAt(lines, n) == None
    ensures Written(lines, n).1 <==> Closed(lines, n)
  {
    hide *;
    if n == 0 {
      NothingWritten(lines);
    } else {
      WrittenSome(lines, n - 1);
      WrittenNext(lines, n - 1);
      LastTable(lines, n - 1);
      TableNext(lines, n - 1);
      PutSome(Written(lines, n - 1), Last(Buckets(lines, n - 1)), Forge(Buckets(lines, |lines|)));
    }
  }

  lemma TableNext(lines: seq<string>, n: nat)
    requires n < |lines|
    ensures TableAt(lines, n + 1) == (if IsHeader(lines[n]) then TableName(lines[n]) else TableAt(lines, n))
    ensures Closed(lines, n + 1) <==> Closed(lines, n) || (IsHeader(lines[n]) && TableAt(lines, n) == SKILL)
    ensures SubSuffix(None).None? && SKILL != None && SubSuffix(SKILL).None?
    ensures IsHeader(lines[n]) ==> TableName(lines[n]).Some?
  {
    hide TableName;
  }

  lemma NothingWritten(lines: seq<string>)
    ensures Written(lines, 0) == ([], false) && !Closed(lines, 0) && TableAt(lines, 0) == None
  {
    NoBuckets(lines);
    hide Buckets;
  }

  lemma PutSome(r: (seq<Section>, bool), s: Section, forge: seq<string>)
    ensures SubSuffix(s.table).None? ==> Put(r, s, forge).0 != []
    ensures r.0 != [] ==> Put(r, s, forge).0 != []
    ensures Put(r, s, forge).1 <==> r.1 || s.table == SKILL
  {
    hide Gap;
  }

  /** What closing a section writes. */
  lemma PutTexts(lines: seq<string>, r: (seq<Section>, bool), s: Section, xs: seq<Item>)
    requires Flat(r.0) + KeptLines(s) == ItemTexts(lines, xs)
    ensures var forge := Forge(Buckets(lines, |lines|));
            Flat(Put(r, s, forge).0) == ItemTexts(lines, if s.table == SKILL && !r.1 then ForgePart(lines, xs) else xs)
  {
    var forge := Forge(Buckets(lines, |lines|));
    hide ItemTexts, Flat, Gap, Gapped, KeptLines, Going, Buckets, Forge;
    if SubSuffix(s.table).Some? {
      SubsKeep(s);
      assert Flat(r.0) + [] == Flat(r.0);
    } else {
      var k := s.(lines := KeptLines(s));
      FlatSnoc(r.0, k);
      if s.table == SKILL && !r.1 {
        ForgeTexts(lines, r.0 + [k], xs);
      }
    }
  }

  lemma SubsKeep(s: Section)
    requires SubSuffix(s.table).Some?
    ensures KeptLines(s) == [] && s.table != SKILL
  {
  }

  lemma ForgeTexts(lines: seq<string>, secs: seq<Section>, xs: seq<Item>)
    requires secs != [] && Flat(secs) == ItemTexts(lines, xs)
    ensures Flat(Gap(secs) + [ForgeSection(Forge(Buckets(lines, |lines|)))]) == ItemTexts(lines, ForgePart(lines, xs))
  {
    hide ItemTexts, Flat, Gap, Gapped, Going, Buckets, Forge;
    GapTexts(lines, secs, xs);
    FlatSnoc(Gap(secs), ForgeSection(Forge(Buckets(lines, |lines|))));
    GoingTexts(lines, |lines|);
    TextOne(lines, NewForge);
    TextsAppend(lines, [NewForge], Going(lines, |lines|));
    TextsAppend(lines, Gapped(lines, xs), [NewForge] + Going(lines, |lines|));
  }

  lemma StayingMore(lines: seq<string>, n: nat)
    requires n < |lines|
    ensures var xs := if Closed(lines, n + 1)
            && !Closed(lines, n) then ForgePart(lines, StayItems(lines, n)) else StayItems(lines, n);
            StayItems(lines, n + 1) == xs + (if Stays(lines, n) then [Line(n)] else [])
    ensures Stays(lines, n) <==>
              && SubSuffix(TableAt(lines, n + 1)).None?
              && !(!IsHeader(lines[n]) && Moves(lines[n]) && TableAt(lines, n) == SKILL)
  {
    hide TableAt, Closed, ForgePart, Moves, TableName;
  }

  lemma {:induction false} StayingTexts(lines: seq<string>, n: nat)
    requires n <= |lines|
    ensures Flat(Written(lines, n).0) + KeptLines(Last(Buckets(lines, n))) == ItemTexts(lines, StayItems(lines, n))
  {
    hide *;
    if n == 0 {
      NoStaying(lines);
    } else {
      var k := n - 1;
      var s, line := Last(Buckets(lines, k)), lines[k];
      StayingTexts(lines, k);
      WrittenNext(lines, k);
      WrittenSome(lines, k);
      NextLast(lines, k);
      LastTable(lines, k);
      TableNext(lines, k);
      StayingMore(lines, k);
      LineText(lines, k);
      if IsHeader(line) {
        PutTexts(lines, Written(lines, k), s, StayItems(lines, k));
        KeptHead(line);
        var xs := if s.table == SKILL
          && !Closed(lines, k) then ForgePart(lines, StayItems(lines, k)) else StayItems(lines, k);
        TextsSnoc(lines, xs, Line(k));
        assert ItemTexts(lines, xs) + [] == ItemTexts(lines, xs) && xs + [] == xs;
      } else {
        KeptMore(s, line);
        TextsSnoc(lines, StayItems(lines, k), Line(k));
        Assoc(Flat(Written(lines, k).0), KeptLines(s), [line]);
        assert KeptLines(s) + [] == KeptLines(s) && StayItems(lines, k) + [] == StayItems(lines, k);
      }
    }
  }

  lemma NoStaying(lines: seq<string>)
    ensures Flat(Written(lines, 0).0) + KeptLines(Last(Buckets(lines, 0))) == [] && StayItems(lines, 0) == []
    ensures ItemTexts(lines, []) == []
  {
    NoBuckets(lines);
    hide Buckets;
  }

  lemma WithForgeTexts(lines: seq<string>)
    ensures var secs := Buckets(lines, |lines|);
            var forge := Forge(secs);
            && WithForge(StayingOut(secs, forge), forge) != []
            && Flat(WithForge(StayingOut(secs, forge), forge)) == ItemTexts(lines, ForgeItems(lines))
  {
    hide *;
    var n := |lines|;
    var secs := Buckets(lines, n);
    var forge, s, r := Forge(secs), Last(secs), Written(lines, n);
    FrontLast(secs);
    StayingNext(Front(secs), s, forge);
    WrittenIs(lines);
    StayingTexts(lines, n);
    WrittenSome(lines, n);
    LastTable(lines, n);
    PutTexts(lines, r, s, StayItems(lines, n));
    PutSome(r, s, forge);
    NoSubs();
    var q := Put(r, s, forge);
    WithForgeIs(lines, q, forge);
    if !q.1 {
      ForgeTexts(lines, q.0, StayItems(lines, n));
    }
  }

  lemma WrittenIs(lines: seq<string>)
    ensures var secs := Buckets(lines, |lines|); Written(lines, |lines|) == StayingOut(Front(secs), Forge(secs))
  {
    hide Buckets, Forge, StayingOut;
  }

  lemma WithForgeIs(lines: seq<string>, r: (seq<Section>, bool), forge: seq<string>)
    ensures r.1 ==> WithForge(r, forge) == r.0
    ensures !r.1 ==> WithForge(r, forge) == Gap(r.0) + [ForgeSection(forge)]
    ensures ForgeItems(lines)
         == if Closed(lines, |lines|) then StayItems(lines, |lines|) else ForgePart(lines, StayItems(lines, |lines|))
  {
    hide Gap, ForgeSection, Closed, Staying, ForgePart;
  }

  lemma NoSubs()
    ensures SubSuffix(None).None?
  {
  }

  // ----- The sub-tables -----

  lemma AppendedNext(lines: seq<string>, n: nat)
    requires n < |lines|
    ensures Appended(lines, n + 1)
         == (if SubSuffix(TableAt(lines, n + 1)).None? then Appended(lines, n)
             else if IsHeader(lines[n]) then Gapped(lines, Appended(lines, n)) + [Renamed(n)]
             else Appended(lines, n) + [Line(n)])
    ensures Appended(lines, 0) == ForgeItems(lines)
  {
    hide TableAt, TableName, Gapped, ForgeItems;
  }

  lemma SubsMore(out: seq<Section>, secs: seq<Section>, more: seq<Section>, line: string)
    requires secs != [] && more != [] && !IsHeader(line) && (Last(secs).table.Some? ==> Last(secs).lines != [])
    requires Front(more) == Front(secs) && Last(more) == Last(secs).(lines := Last(secs).lines + [line])
    ensures Flat(SubsOut(out, more))
         == Flat(SubsOut(out, secs)) + (if SubSuffix(Last(secs).table).Some? then [line] else [])
    ensures SubsOut(out, secs) != [] ==> SubsOut(out, more) != []
  {
    hide TableName, SubLines, Gap, Flat, SubSuffix;
    var prior, s, s' := Front(secs), Last(secs), Last(more);
    assert secs == prior + [s] && more == prior + [s'];
    SubsNext(out, prior, s);
    SubsNext(out, prior, s');
    if SubSuffix(s.table).Some? {
      KeptMore(s, line);
      FlatSnoc(Gap(SubsOut(out, prior)), SubOut(s));
      FlatSnoc(Gap(SubsOut(out, prior)), SubOut(s'));
      Assoc(Flat(Gap(SubsOut(out, prior))), SubLines(s), [line]);
    } else {
      assert Flat(SubsOut(out, secs)) + [] == Flat(SubsOut(out, secs));
    }
  }

  lemma RenamedText(lines: seq<string>, k: nat)
    requires k < |lines| && SubSuffix(TableName(lines[k])).Some?
    ensures ItemText(lines, Renamed(k)) == RenamedHeader(SubSuffix(TableName(lines[k])).value, lines[k])
  {
    hide TableName, SubSuffix;
  }

  lemma {:induction false} AppendedTexts(lines: seq<string>, out: seq<Section>, n: nat)
    requires n <= |lines| && out != [] && Flat(out) == ItemTexts(lines, ForgeItems(lines))
    ensures Flat(SubsOut(out, Buckets(lines, n))) == ItemTexts(lines, Appended(lines, n))
    ensures SubsOut(out, Buckets(lines, n)) != []
  {
    hide *;
    if n == 0 {
      NoAppended(lines, out);
    } else {
      var k := n - 1;
      var line, secs, more := lines[k], Buckets(lines, k), Buckets(lines, n);
      AppendedTexts(lines, out, k);
      AppendedNext(lines, k);
      NextLast(lines, k);
      LastTable(lines, k);
      TableNext(lines, k);
      if IsHeader(line) {
        assert more == secs + [Section(TableName(line), [line])] by { FrontLast(more); }
        SubsNext(out, secs, Section(TableName(line), [line]));
        if SubSuffix(TableName(line)).Some? {
          KeptHead(line);
          SubOutIs(Section(TableName(line), [line]));
          GapTexts(lines, SubsOut(out, secs), Appended(lines, k));
          FlatSnoc(Gap(SubsOut(out, secs)), SubOut(Section(TableName(line), [line])));
          RenamedText(lines, k);
          TextsSnoc(lines, Gapped(lines, Appended(lines, k)), Renamed(k));
        }
      } else {
        SubsMore(out, secs, more, line);
        LineText(lines, k);
        TextsSnoc(lines, Appended(lines, k), Line(k));
        assert Flat(SubsOut(out, secs)) + [] == Flat(SubsOut(out, secs));
      }
    }
  }

  lemma FrontLast(secs: seq<Section>)
    requires secs != []
    ensures secs == Front(secs) + [Last(secs)]
  {
  }

  lemma NoAppended(lines: seq<string>, out: seq<Section>)
    ensures SubsOut(out, Buckets(lines, 0)) == out && Appended(lines, 0) == ForgeItems(lines)
  {
    hide ForgeItems;
    NoBuckets(lines);
    hide Buckets;
    NoSubs();
    var none: seq<Section> := [];
    SubsNext(out, none, Section(None, []));
    assert none + [Section(None, [])] == [Section(None, [])];
  }

  /** Main result: the sections that the migration writes hold these lines. */
  lemma LayoutTexts(lines: seq<string>)
    ensures Flat(OutSections(Sections(lines))) == ItemTexts(lines, Layout(lines))
  {
    hide *;
    var secs := Buckets(lines, |lines|);
    AllBuckets(lines);
    OutIs(secs);
    WithForgeTexts(lines);
    AppendedTexts(lines, WithForge(StayingOut(secs, Forge(secs)), Forge(secs)), |lines|);
    LayoutIs(lines);
  }

  lemma AllBuckets(lines: seq<string>)
    ensures Buckets(lines, |lines|) == Sections(lines)
  {
    hide Sections;
    assert lines[..|lines|] == lines;
  }

  lemma LayoutIs(lines: seq<string>)
    ensures Layout(lines) == Appended(lines, |lines|)
  {
  }

  /** So they are the lines of the new text, unless a renamed header runs into the line below it. */
  lemma NewLines(t: string)
    requires Broken(t) && SubsEnd(Sections(SplitLines(t))) && Planned(t).Changed()
    ensures SplitLines(Planned(t).after) == ItemTexts(SplitLines(t), Layout(SplitLines(t)))
  {
    hide *;
    PlanIs(t);
    NewSections(t);
    LayoutTexts(SplitLines(t));
    FlatSections(SplitLines(Planned(t).after));
  }
}
