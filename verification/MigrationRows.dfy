/** What TOML reads in a rightly migrated file: every line as before and below the header it is to stand below;
    and the rows of [forge]. */
module MigrationRows {
  import opened Text
  import opened Migration
  import opened MigrationRerun
  import opened MigrationTables
  import opened MigrationMeaning
  import opened MigrationFinalLine
  import opened TomlReading
  import opened MigrationToml
  import opened MigrationLayout
  import opened MigrationSound

  // ----- The reading of the new lines, line by line -----

  /** The item at a line of the new text. */
  function ItemAt(xs: seq<Item>, h: Option<nat>): Option<Item> {
    if h.Some? && h.value < |xs| then Some(xs[h.value]) else None
  }

  lemma TextsPrefix(lines: seq<string>, xs: seq<Item>, n: nat)
    requires n <= |xs|
    ensures ItemTexts(lines, xs)[..n] == ItemTexts(lines, xs[..n])
    ensures n < |xs| ==> ItemTexts(lines, xs)[n] == ItemText(lines, xs[n])
  {
    hide ItemText;
    TextsAppend(lines, xs[..n], xs[n..]);
    assert xs[..n] + xs[n..] == xs;
    if n < |xs| {
      TextsAppend(lines, [xs[n]], xs[n + 1..]);
      TextOne(lines, xs[n]);
      assert [xs[n]] + xs[n + 1..] == xs[n..];
    }
  }

  /** The items are read as TOML reads the lines. */
  lemma {:induction false} RunReads(lines: seq<string>, xs: seq<Item>, n: nat)
    requires n <= |xs|
    ensures var texts := ItemTexts(lines, xs);
            && Run(lines, xs[..n]).place == PlaceAt(texts, n)
            && Run(lines, xs[..n]).owner == ItemAt(xs, HeaderAt(texts, n))
  {
    hide ItemTexts, ItemText, Next, TomlHeader;
    if n > 0 {
      RunReads(lines, xs, n - 1);
      TextsPrefix(lines, xs, n - 1);
      assert xs[..n] == xs[..n - 1] + [xs[n - 1]];
      RunSnoc(lines, xs[..n - 1], xs[n - 1]);
    } else {
      assert xs[..0] == [];
    }
  }

  lemma RightOf(lines: seq<string>, xs: seq<Item>, j: nat)
    requires j < |xs| && AllRight(lines, xs)
    ensures Right(lines, xs[..j], xs[j])
  {
    hide AllRight, Right;
    assert xs == xs[..j] + ([xs[j]] + xs[j + 1..]);
    RightAt(lines, xs[..j], xs[j], xs[j + 1..]);
  }

  /** In a rightly migrated file TOML reads line `j`, where line `k` of the old file is now, as it read it
      there; and it stands below the header that it is to stand below. */
  lemma ReadAsBefore(t: string, j: nat)
    requires Rightly(t)
    requires j < |Layout(SplitLines(t))| && Layout(SplitLines(t))[j].Line?
    ensures var lines, after := SplitLines(t), SplitLines(Planned(t).after);
            var k := Layout(lines)[j].k;
            && j < |after| && k < |lines| && after[j] == lines[k] && PlaceAt(after, j) == PlaceAt(lines, k)
            && (HeaderHere(after, j) <==> HeaderHere(lines, k))
            && (!HeaderHere(lines, k) ==> ItemAt(Layout(lines), HeaderAt(after, j)) == Wanted(lines, k))
  {
    hide *;
    var lines, after := SplitLines(t), SplitLines(Planned(t).after);
    var xs := Layout(lines);
    var k := xs[j].k;
    RightlyIs(t);
    RightIs(lines);
    TextsPrefix(lines, xs, j);
    RunReads(lines, xs, j);
    RightOf(lines, xs, j);
    LineIs(lines, xs[..j], xs[j]);
    LineText(lines, k);
    LineNoSub(lines, xs[..j], k);
    HereIs(after, j);
    HereIs(lines, k);
  }

  lemma LineIs(lines: seq<string>, xs: seq<Item>, x: Item)
    requires x.Line? && Right(lines, xs, x)
    ensures x == Line(x.k) && x.k < |lines|
  {
    hide Run, PlaceAt, HeaderHere, TomlSub, Wanted;
  }

  lemma HereIs(lines: seq<string>, k: nat)
    requires k < |lines|
    ensures HeaderHere(lines, k) <==> PlaceAt(lines, k) == TOP && TomlHeader(lines[k]).Some?
  {
    hide PlaceAt, TomlHeader;
  }

  // ----- The rows of [forge] -----

  /** The lines below the header `h`, but for blank ones, of the first `n`. */
  function TomlRows(lines: seq<string>, h: Header, n: nat): seq<string>
    requires n <= |lines|
  {
    if n == 0 then [] else
    var above := HeaderAt(lines, n - 1);
    TomlRows(lines, h, n - 1) +
    (if !HeaderHere(lines, n - 1) && above.Some? && TomlHeader(lines[above.value]) == Some(h)
        && !(PlaceAt(lines, n - 1) == TOP && lines[n - 1] == "\n")
     then [lines[n - 1]] else [])
  }

  const FORGE_HEADER := Header(false, ["forge"])

  /** The lines among the items that are to move. */
  function MovedTexts(lines: seq<string>, xs: seq<Item>): seq<string> {
    if xs == [] then [] else
    var x := xs[|xs| - 1];
    MovedTexts(lines, xs[..|xs| - 1])
    + (if x.Line? && x.k < |lines| && Moved(TomlMarks(lines), x.k) then [lines[x.k]] else [])
  }

  /** The header of a line that is not to move is none of [forge]. */
  lemma OtherHeader(lines: seq<string>, k: nat)
    requires k <= |lines| && Fits(lines) && AllProper(lines) && !HasTomlForge(lines) && Base(lines, k).Some?
    ensures TomlHeader(ItemText(lines, Base(lines, k).value)) != Some(FORGE_HEADER)
  {
    hide *;
    BaseIs(lines, k);
    var h := HeaderAt(lines, k).value;
    NoForgeAt(lines, h);
    LineText(lines, h);
    if TomlSub(lines, h) {
      FitsAt(lines, h);
      SubSeen(lines, h);
      ProperAt(lines, h);
      SubEnds(lines, h);
      SubPathIs(lines, h);
      RenamedRead(lines, h, TomlHeader(lines[h]).value.path[1]);
      TwoIsNotOne(TomlHeader(lines[h]).value.path[1]);
    }
  }

  lemma TwoIsNotOne(x: string)
    ensures Header(false, ["forge", x]) != FORGE_HEADER
  {
    assert |["forge", x]| != |["forge"]|;
  }

  lemma SubPathIs(lines: seq<string>, k: nat)
    requires k < |lines| && TomlSub(lines, k)
    ensures TomlHeader(lines[k]).Some? && |TomlHeader(lines[k]).value.path| == 2
    ensures TomlHeader(lines[k]).value.path[1] in PROVENANCE_SUBTABLES
  {
    hide TomlHeader, PlaceAt;
  }

  lemma BaseIs(lines: seq<string>, k: nat)
    requires k <= |lines| && Base(lines, k).Some?
    ensures HeaderAt(lines, k).Some?
    ensures var h := HeaderAt(lines, k).value;
            h < |lines| && HeaderHere(lines, h)
              && Base(lines, k) == Some(if TomlSub(lines, h) then Renamed(h) else Line(h))
  {
    hide HeaderHere, TomlSub;
  }

  lemma NoForgeAt(lines: seq<string>, k: nat)
    requires k < |lines| && !HasTomlForge(lines) && HeaderHere(lines, k)
    ensures TomlHeader(lines[k]) != Some(FORGE_HEADER) && TomlHeader(lines[k]).Some?
  {
    hide PlaceAt, TomlHeader;
    assert !TomlForge(lines, k);
  }

  /** One more line of the new text. */
  lemma RowsStep(lines: seq<string>, xs: seq<Item>, n: nat)
    requires n < |xs| && AllRight(lines, xs) && Fits(lines) && AllProper(lines) && !HasTomlForge(lines)
    ensures var texts := ItemTexts(lines, xs);
            TomlRows(texts, FORGE_HEADER, n + 1)
            == TomlRows(texts, FORGE_HEADER, n)
               + (if xs[n].Line? && xs[n].k < |lines| && Moved(TomlMarks(lines), xs[n].k) then [lines[xs[n].k]] else [])
  {
    hide *;
    var texts, x := ItemTexts(lines, xs), xs[n];
    RightOf(lines, xs, n);
    TextsPrefix(lines, xs, n);
    RunReads(lines, xs, n);
    HereIs(texts, n);
    RowsNext(texts, n);
    BlankNext();
    NewForgeRead();
    HeaderAtIs(texts, n);
    if x.Line? {
      LineIs(lines, xs[..n], x);
      var k := x.k;
      LineText(lines, k);
      LineNoSub(lines, xs[..n], k);
      HereIs(lines, k);
      WantedIs(lines, k);
      MovedWhole(lines, k);
      NoBlankMoves(lines, k);
      var above := HeaderAt(texts, n);
      if above.Some? { TextsPrefix(lines, xs, above.value); }
      if Base(lines, k).Some? { OtherHeader(lines, k); }
      ItemAtIs(xs, above);
      ForgeText(lines);
    } else {
      OthersRight(lines, xs[..n], x);
      ForgeText(lines);
    }
  }

  lemma ItemAtIs(xs: seq<Item>, h: Option<nat>)
    ensures ItemAt(xs, h) == if h.Some? && h.value < |xs| then Some(xs[h.value]) else None
  {
  }

  lemma ForgeText(lines: seq<string>)
    ensures ItemText(lines, NewForge) == "[forge]\n" && ItemText(lines, Blank) == "\n"
    ensures FORGE_HEADER == Header(false, ["forge"])
  {
  }

  lemma OthersRight(lines: seq<string>, xs: seq<Item>, x: Item)
    requires !x.Line? && Right(lines, xs, x)
    ensures Run(lines, xs).place == TOP && (x.Renamed? ==> TomlHeader(ItemText(lines, x)).Some?)
    ensures x.Renamed? || x == Blank || x == NewForge
  {
    hide Run, TomlHeader, PlaceAt, ItemText;
  }

  lemma NoBlankMoves(lines: seq<string>, k: nat)
    requires k < |lines| && Fits(lines)
    ensures Moved(TomlMarks(lines), k) ==> lines[k] != "\n"
  {
    hide *;
    FitsParts(lines);
    GoesAt(lines, k);
    if Goes(lines, k) { GoesMoves(lines, k); }
    BlankMoves();
  }

  lemma RowsNext(lines: seq<string>, n: nat)
    requires n < |lines|
    ensures var above := HeaderAt(lines, n);
            TomlRows(lines, FORGE_HEADER, n + 1)
            == TomlRows(lines, FORGE_HEADER, n) +
               (if !HeaderHere(lines, n) && above.Some? && TomlHeader(lines[above.value]) == Some(FORGE_HEADER)
                   && !(PlaceAt(lines, n) == TOP && lines[n] == "\n")
                then [lines[n]] else [])
  {
    hide HeaderHere, TomlHeader, PlaceAt, HeaderAt;
  }

  lemma HeaderAtIs(lines: seq<string>, n: nat)
    requires n <= |lines|
    ensures HeaderAt(lines, n).Some? ==> HeaderAt(lines, n).value < n
  {
    hide HeaderHere;
  }

  lemma GoesMoves(lines: seq<string>, k: nat)
    requires k < |lines| && Goes(lines, k)
    ensures Moves(lines[k])
  {
    hide Moves, TableAt, TableName;
  }

  lemma MovedSnoc(lines: seq<string>, xs: seq<Item>, x: Item)
    ensures MovedTexts(lines, xs + [x])
         == MovedTexts(lines, xs)
            + (if x.Line? && x.k < |lines| && Moved(TomlMarks(lines), x.k) then [lines[x.k]] else [])
    ensures MovedTexts(lines, []) == []
  {
    hide Moved, TomlMarks;
    assert (xs + [x])[..|xs|] == xs;
  }

  lemma {:induction false} MovedAppend(lines: seq<string>, xs: seq<Item>, ys: seq<Item>)
    ensures MovedTexts(lines, xs + ys) == MovedTexts(lines, xs) + MovedTexts(lines, ys)
  {
    hide *;
    if ys == [] {
      MovedSnoc(lines, [], Blank);
      assert xs + ys == xs && MovedTexts(lines, xs) + [] == MovedTexts(lines, xs);
    } else {
      var n := |ys| - 1;
      assert xs + ys == (xs + ys[..n]) + [ys[n]] && ys == ys[..n] + [ys[n]];
      MovedAppend(lines, xs, ys[..n]);
      MovedSnoc(lines, xs + ys[..n], ys[n]);
      MovedSnoc(lines, ys[..n], ys[n]);
    }
  }

  lemma MovedGap(lines: seq<string>, xs: seq<Item>)
    ensures MovedTexts(lines, Gapped(lines, xs)) == MovedTexts(lines, xs)
  {
    hide MovedTexts, ItemTexts, EnsureNewline, Join;
    MovedSnoc(lines, xs, Blank);
    MovedSnoc(lines, xs + [Blank], Blank);
    assert xs + [Blank, Blank] == (xs + [Blank]) + [Blank];
    assert MovedTexts(lines, xs) + [] == MovedTexts(lines, xs);
  }

  lemma PickedOne(lines: seq<string>, n: nat)
    requires n < |lines|
    ensures Picked(lines, TomlMarks(lines), n + 1)
         == Picked(lines, TomlMarks(lines), n) + (if Moved(TomlMarks(lines), n) then [lines[n]] else [])
    ensures Picked(lines, TomlMarks(lines), 0) == []
  {
    hide Moved, TomlMarks;
  }

  lemma {:induction false} MovedGoing(lines: seq<string>, n: nat)
    requires n <= |lines| && GoesRight(lines)
    ensures MovedTexts(lines, Going(lines, n)) == Picked(lines, TomlMarks(lines), n)
  {
    hide *;
    if n == 0 {
      NoGoing(lines);
      MovedSnoc(lines, [], Blank);
      PickedZero(lines);
    } else {
      MovedGoing(lines, n - 1);
      GoingOne(lines, n - 1);
      GoesAt(lines, n - 1);
      PickedOne(lines, n - 1);
      MovedSnoc(lines, Going(lines, n - 1), Line(n - 1));
      assert Picked(lines, TomlMarks(lines), n - 1) + [] == Picked(lines, TomlMarks(lines), n - 1);
    }
  }

  lemma PickedZero(lines: seq<string>)
    ensures Picked(lines, TomlMarks(lines), 0) == []
  {
    hide TomlMarks;
  }

  lemma MovedForge(lines: seq<string>, xs: seq<Item>)
    requires GoesRight(lines) && MovedTexts(lines, xs) == []
    ensures MovedTexts(lines, ForgePart(lines, xs)) == Picked(lines, TomlMarks(lines), |lines|)
  {
    hide *;
    MovedGap(lines, xs);
    MovedSnoc(lines, Gapped(lines, xs), NewForge);
    ForgePartIs(lines, xs);
    MovedAppend(lines, Gapped(lines, xs) + [NewForge], Going(lines, |lines|));
    MovedGoing(lines, |lines|);
    assert [] + Picked(lines, TomlMarks(lines), |lines|) == Picked(lines, TomlMarks(lines), |lines|);
  }

  lemma {:induction false} MovedStay(lines: seq<string>, n: nat)
    requires n <= |lines| && GoesRight(lines)
    ensures MovedTexts(lines, StayItems(lines, n))
         == if Closed(lines, n) then Picked(lines, TomlMarks(lines), |lines|) else []
  {
    hide *;
    if n == 0 {
      NothingStays(lines);
      MovedSnoc(lines, [], Blank);
    } else {
      var k := n - 1;
      MovedStay(lines, k);
      StaysIs(lines, k);
      GoesAt(lines, k);
      Kinds(lines, k);
      TableNext(lines, k);
      var xs := StayItems(lines, k);
      var ys := if Closed(lines, n) && !Closed(lines, k) then ForgePart(lines, xs) else xs;
      if Closed(lines, n) && !Closed(lines, k) { MovedForge(lines, xs); }
      assert ys + [] == ys;
      MovedSnoc(lines, ys, Line(k));
      assert MovedTexts(lines, ys) + [] == MovedTexts(lines, ys);
    }
  }

  lemma NothingStays(lines: seq<string>)
    ensures StayItems(lines, 0) == [] && !Closed(lines, 0)
  {
  }

  lemma {:induction false} MovedLayout(lines: seq<string>, n: nat)
    requires n <= |lines| && GoesRight(lines)
    ensures MovedTexts(lines, Appended(lines, n)) == Picked(lines, TomlMarks(lines), |lines|)
  {
    hide *;
    if n == 0 {
      AppendedStart(lines);
      ForgeItemsIs(lines);
      MovedStay(lines, |lines|);
      if !Closed(lines, |lines|) { MovedForge(lines, StayItems(lines, |lines|)); }
    } else {
      var k := n - 1;
      var xs := Appended(lines, k);
      MovedLayout(lines, k);
      AppendedIs(lines, k);
      GoesAt(lines, k);
      Kinds(lines, k);
      MovedGap(lines, xs);
      MovedSnoc(lines, Gapped(lines, xs), Renamed(k));
      MovedSnoc(lines, xs, Line(k));
      assert MovedTexts(lines, xs) + [] == MovedTexts(lines, xs);
    }
  }

  lemma {:induction false} RowsMoved(lines: seq<string>, xs: seq<Item>, n: nat)
    requires n <= |xs| && AllRight(lines, xs) && Fits(lines) && AllProper(lines) && !HasTomlForge(lines)
    ensures TomlRows(ItemTexts(lines, xs), FORGE_HEADER, n) == MovedTexts(lines, xs[..n])
  {
    hide *;
    if n == 0 {
      assert xs[..0] == [];
      MovedSnoc(lines, [], Blank);
      NoRows(ItemTexts(lines, xs));
    } else {
      RowsMoved(lines, xs, n - 1);
      RowsStep(lines, xs, n - 1);
      MovedSnoc(lines, xs[..n - 1], xs[n - 1]);
      assert xs[..n] == xs[..n - 1] + [xs[n - 1]];
    }
  }

  lemma NoRows(lines: seq<string>)
    ensures TomlRows(lines, FORGE_HEADER, 0) == []
  {
  }

  /** Main result: under the condition TOML reads in the [forge] of the migrated file exactly the lines that
      it had for the provenance keys of [skill], in order. */
  lemma ForgeGetsItsOwn(t: string)
    requires Complete(t) && Planned(t).Changed() && Sound(SplitLines(t)) && !HasTomlForge(SplitLines(t))
    ensures var lines, after := SplitLines(t), SplitLines(Planned(t).after);
            TomlRows(after, FORGE_HEADER, |after|) == Picked(lines, TomlMarks(lines), |lines|)
  {
    hide *;
    var lines := SplitLines(t);
    var xs := Layout(lines);
    CompleteLines(t);
    SoundFits(lines);
    RightlyWhen(t);
    RightlyIs(t);
    RightIs(lines);
    RowsMoved(lines, xs, |xs|);
    assert xs[..|xs|] == xs;
    LayoutIs(lines);
    MovedLayout(lines, |lines|);
  }

  // ----- A second [forge] -----

  lemma {:induction false} StayIn(lines: seq<string>, k: nat, n: nat)
    requires k < n <= |lines| && Stays(lines, k)
    ensures Line(k) in StayItems(lines, n)
  {
    hide *;
    StaysIs(lines, n - 1);
    if k < n - 1 {
      StayIn(lines, k, n - 1);
      ForgePartIs(lines, StayItems(lines, n - 1));
      GapIn(lines, StayItems(lines, n - 1), Line(k));
    }
  }

  lemma GapIn(lines: seq<string>, xs: seq<Item>, x: Item)
    requires x in xs
    ensures x in Gapped(lines, xs)
  {
    hide ItemTexts, EnsureNewline, Join;
  }

  lemma {:induction false} AppendIn(lines: seq<string>, x: Item, n: nat, m: nat)
    requires n <= m <= |lines| && x in Appended(lines, n)
    ensures x in Appended(lines, m)
    decreases m
  {
    hide *;
    if n < m {
      AppendIn(lines, x, n, m - 1);
      AppendedIs(lines, m - 1);
      GapIn(lines, Appended(lines, m - 1), x);
    }
  }

  /** Every line that neither moves nor is renamed is in the new text. */
  lemma LineIn(lines: seq<string>, k: nat)
    requires k < |lines| && (Stays(lines, k) || (InSub(lines, k) && !IsHeader(lines[k])))
    ensures Line(k) in Layout(lines)
  {
    hide *;
    LayoutIs(lines);
    if Stays(lines, k) {
      StayIn(lines, k, |lines|);
      ForgeItemsIs(lines);
      ForgePartIs(lines, StayItems(lines, |lines|));
      GapIn(lines, StayItems(lines, |lines|), Line(k));
      AppendedStart(lines);
      AppendIn(lines, Line(k), 0, |lines|);
    } else {
      AppendedIs(lines, k);
      AppendIn(lines, Line(k), k + 1, |lines|);
    }
  }

  lemma {:induction false} ForgeInStay(lines: seq<string>, n: nat)
    requires n <= |lines| && Closed(lines, n)
    ensures NewForge in StayItems(lines, n)
  {
    hide *;
    ClosedIs(lines, n);
    StaysIs(lines, n - 1);
    ForgePartIs(lines, StayItems(lines, n - 1));
    if Closed(lines, n - 1) { ForgeInStay(lines, n - 1); }
  }

  lemma ForgeIn(lines: seq<string>)
    ensures NewForge in Layout(lines)
  {
    hide *;
    ForgeItemsIs(lines);
    ForgePartIs(lines, StayItems(lines, |lines|));
    if Closed(lines, |lines|) { ForgeInStay(lines, |lines|); }
    AppendedStart(lines);
    AppendIn(lines, NewForge, 0, |lines|);
    LayoutIs(lines);
  }

  lemma ForgeKind(lines: seq<string>, k: nat)
    requires k < |lines| && TomlForge(lines, k) && Fits(lines)
    ensures Stays(lines, k) || (InSub(lines, k) && !IsHeader(lines[k]))
  {
    hide *;
    ForgeHere(lines, k);
    Kinds(lines, k);
    Turns(lines, k);
    FitsAt(lines, k);
    if TomlSub(lines, k) {
      SubPathIs(lines, k);
      TwoIsNotOne("");
    }
  }

  lemma ForgeHere(lines: seq<string>, k: nat)
    requires k < |lines|
    ensures TomlForge(lines, k) <==> PlaceAt(lines, k) == TOP && TomlHeader(lines[k]) == Some(FORGE_HEADER)
    ensures TomlForge(lines, k) ==> HeaderHere(lines, k) && !TomlSub(lines, k)
  {
    hide PlaceAt, TomlHeader;
  }

  /** The new header of [forge] is one to TOML. */
  lemma AddedForge(t: string, i: nat)
    requires Rightly(t) && i < |Layout(SplitLines(t))| && Layout(SplitLines(t))[i] == NewForge
    ensures var after := SplitLines(Planned(t).after); i < |after| && TomlForge(after, i)
  {
    hide *;
    var lines, after := SplitLines(t), SplitLines(Planned(t).after);
    var xs := Layout(lines);
    RightlyIs(t);
    RightIs(lines);
    TextsPrefix(lines, xs, i);
    RunReads(lines, xs, i);
    RightOf(lines, xs, i);
    OthersRight(lines, xs[..i], xs[i]);
    ForgeText(lines);
    NewForgeRead();
    ForgeHere(after, i);
  }

  lemma IndexOf(xs: seq<Item>, x: Item) returns (i: nat)
    requires x in xs
    ensures i < |xs| && xs[i] == x
  {
    i :| 0 <= i < |xs| && xs[i] == x;
  }

  /** A file in which TOML has a [forge] already, and that is migrated all the same and rightly else, gets a
      second one, which TOML forbids. */
  lemma SecondForge(t: string) returns (i: nat, j: nat)
    requires Complete(t) && Planned(t).Changed() && Sound(SplitLines(t)) && HasTomlForge(SplitLines(t))
    ensures var after := SplitLines(Planned(t).after);
            i < |after| && j < |after| && i != j && TomlForge(after, i) && TomlForge(after, j)
  {
    var lines := SplitLines(t);
    var k :| 0 <= k < |lines| && TomlForge(lines, k);
    hide *;
    SoundFits(lines);
    RightlyWhen(t);
    ForgeKind(lines, k);
    LineIn(lines, k);
    ForgeIn(lines);
    i := IndexOf(Layout(lines), NewForge);
    j := IndexOf(Layout(lines), Line(k));
    AddedForge(t, i);
    ReadAsBefore(t, j);
    ForgeHere(lines, k);
    ForgeHere(SplitLines(Planned(t).after), j);
  }
}
