/** When a migrated file is right by TOML's own reading: every line is read in it as it was in the file before,
    below the same header, but that the provenance keys of [skill] are below [forge] and the sub-tables of
    [skill] that are renamed below their new headers. */
module MigrationSound {
  import opened Text
  import opened Migration
  import opened MigrationRerun
  import opened MigrationTables
  import opened MigrationMeaning
  import opened TomlReading
  import opened MigrationToml
  import opened MigrationLayout

  // ----- TOML's reading of the new lines -----

  /** What TOML has read: where it is, and which line was the last header. */
  datatype State = State(place: Place, owner: Option<Item>)

  function Step(lines: seq<string>, s: State, x: Item): State {
    var text := ItemText(lines, x);
    State(Next(s.place, text), if s.place == TOP && TomlHeader(text).Some? then Some(x) else s.owner)
  }

  function Run(lines: seq<string>, xs: seq<Item>): State {
    if xs == [] then State(TOP, None) else Step(lines, Run(lines, xs[..|xs| - 1]), xs[|xs| - 1])
  }

  lemma RunSnoc(lines: seq<string>, xs: seq<Item>, x: Item)
    ensures Run(lines, xs + [x]) == Step(lines, Run(lines, xs), x)
  {
    hide Step;
    assert (xs + [x])[..|xs|] == xs;
  }

  /** A sub-table of [skill] that is to become one of [forge]. */
  predicate SubPath(h: Header) {
    !h.element && |h.path| == 2 && h.path[0] == "skill" && h.path[1] in PROVENANCE_SUBTABLES
  }

  predicate TomlSub(lines: seq<string>, k: nat)
    requires k < |lines|
  {
    HeaderHere(lines, k) && SubPath(TomlHeader(lines[k]).value)
  }

  /** The header that line `k` stands below, as an item of the new text. */
  function Base(lines: seq<string>, k: nat): Option<Item>
    requires k <= |lines|
  {
    match HeaderAt(lines, k)
    case None => None
    case Some(h) => Some(if TomlSub(lines, h) then Renamed(h) else Line(h))
  }

  /** The header that it is to stand below. */
  function Wanted(lines: seq<string>, k: nat): Option<Item>
    requires k < |lines|
  {
    if Moved(TomlMarks(lines), k) then Some(NewForge) else Base(lines, k)
  }

  /** After the items `xs`, `x` is read right: an old line as it was read before, below the header it is to
      stand below, and right behind the line whose value it goes on with; a renamed header for the right
      table; and what is put in outside of all values. */
  predicate Right(lines: seq<string>, xs: seq<Item>, x: Item) {
    var s := Run(lines, xs);
    match x
    case Line(k) =>
      && k < |lines| && s.place == PlaceAt(lines, k)
      && (if HeaderHere(lines, k) then !TomlSub(lines, k) else s.owner == Wanted(lines, k))
      && (s.place != TOP ==> 0 < k && xs != [] && xs[|xs| - 1] == Line(k - 1))
    case Renamed(k) =>
      && k < |lines| && s.place == TOP && TomlSub(lines, k)
      && TomlHeader(ItemText(lines, x)) == Some(Header(false, ["forge", TomlHeader(lines[k]).value.path[1]]))
    case _ => s.place == TOP
  }

  predicate AllRight(lines: seq<string>, xs: seq<Item>) {
    xs == [] || (AllRight(lines, xs[..|xs| - 1]) && Right(lines, xs[..|xs| - 1], xs[|xs| - 1]))
  }

  lemma RightSnoc(lines: seq<string>, xs: seq<Item>, x: Item)
    ensures AllRight(lines, xs + [x]) <==> AllRight(lines, xs) && Right(lines, xs, x)
    ensures Run(lines, xs + [x]) == Step(lines, Run(lines, xs), x)
  {
    hide Right, Step;
    assert (xs + [x])[..|xs|] == xs;
  }

  lemma {:induction false} RightPrefix(lines: seq<string>, xs: seq<Item>, ys: seq<Item>)
    requires AllRight(lines, xs + ys)
    ensures AllRight(lines, xs)
  {
    hide Right;
    if ys == [] {
      assert xs + ys == xs;
    } else {
      var n := |ys| - 1;
      assert xs + ys == (xs + ys[..n]) + [ys[n]];
      RightSnoc(lines, xs + ys[..n], ys[n]);
      RightPrefix(lines, xs, ys[..n]);
    }
  }

  lemma RightAt(lines: seq<string>, xs: seq<Item>, x: Item, ys: seq<Item>)
    requires AllRight(lines, xs + ([x] + ys))
    ensures AllRight(lines, xs) && Right(lines, xs, x)
  {
    hide Right;
    assert xs + ([x] + ys) == (xs + [x]) + ys;
    RightPrefix(lines, xs + [x], ys);
    RightSnoc(lines, xs, x);
  }

  /** What moves is what TOML has for the provenance keys of [skill]. */
  predicate GoesRight(lines: seq<string>) {
    forall k :: 0 <= k < |lines| ==> (Goes(lines, k) <==> Moved(TomlMarks(lines), k))
  }

  /** The migrated file is right. */
  predicate Rightly(t: string) {
    var lines := SplitLines(t);
    && GoesRight(lines)
    && SplitLines(Planned(t).after) == ItemTexts(lines, Layout(lines))
    && AllRight(lines, Layout(lines)) && Run(lines, Layout(lines)).place == TOP
  }

  // ----- The condition -----

  /** A line that the migration takes for a header and cuts the file at: that of a sub-table it renames, the
      one after such a sub-table, or the one after the first [skill]. */
  predicate Seam(lines: seq<string>, k: nat)
    requires k < |lines|
  {
    && IsHeader(lines[k])
    && (InSub(lines, k) || (k > 0 && InSub(lines, k - 1)) || (Closed(lines, k + 1) && !Closed(lines, k)))
  }

  /** No value is open at the end of the file, no line is misread, the file is cut at headers only, and the
      header of each sub-table to be renamed is seen. */
  ghost predicate Sound(lines: seq<string>) {
    && PlaceAt(lines, |lines|) == TOP
    && !Misread(lines)
    && (forall k :: 0 <= k < |lines| && Seam(lines, k) ==> HeaderHere(lines, k))
    && (forall k :: 0 <= k < |lines| && TomlSub(lines, k) ==> IsHeader(lines[k]))
  }

  // ----- Single lines -----

  lemma {:induction false} InSkillIs(lines: seq<string>, k: nat)
    requires k <= |lines|
    ensures InSkill(ReMarks(lines), k) <==> TableAt(lines, k) == SKILL
  {
    hide TableName, Moves;
    if k > 0 {
      InSkillIs(lines, k - 1);
      MarksAre(lines, k - 1);
    }
  }

  lemma GoesIs(lines: seq<string>, k: nat)
    requires k < |lines|
    ensures Goes(lines, k) <==> Moved(ReMarks(lines), k)
  {
    hide TableName, Moves, Belongs, InSkill, ReMarks;
    InSkillIs(lines, k);
    ReMarkIs(lines, k);
  }

  lemma GoesRightIs(lines: seq<string>)
    ensures GoesRight(lines) <==> !Misread(lines)
  {
    hide Goes, Moved, Misread, ReMarks, TomlMarks;
    forall k | 0 <= k < |lines| ensures Goes(lines, k) <==> Moved(ReMarks(lines), k) { GoesIs(lines, k); }
    MovesRight(lines);
  }

  /** A stretch of lines that move begins and ends outside of all values, and holds no header. */
  lemma MovedWhole(lines: seq<string>, k: nat)
    requires k < |lines|
    ensures var toml := TomlMarks(lines);
            && (Moved(toml, k) ==> !HeaderHere(lines, k))
            && (k > 0 && Moved(toml, k) != Moved(toml, k - 1) ==> PlaceAt(lines, k) == TOP)
  {
    hide TomlHeader, TomlKey, PlaceAt, TomlMarks;
    MarksAre(lines, k);
    if k > 0 && PlaceAt(lines, k) != TOP {
      var toml := TomlMarks(lines);
      assert toml[k] == More;
      assert Belongs(toml, k) == Belongs(toml, k - 1);
      assert toml[k - 1].Table? ==> !Belongs(toml, k - 1);
    }
  }

  /** A line that is read from [TOP] on ends there, if TOML has a header on it. */
  lemma HeaderEnds(lines: seq<string>, k: nat)
    requires k < |lines| && HeaderHere(lines, k) && EndsLine(lines[k])
    ensures PlaceAt(lines, k + 1) == TOP
  {
    hide TomlHeader, Next;
    HeaderNext(lines[k]);
  }

  lemma BaseNext(lines: seq<string>, k: nat)
    requires k < |lines|
    ensures Base(lines, k + 1)
         == (if HeaderHere(lines, k) then Some(if TomlSub(lines, k) then Renamed(k) else Line(k)) else Base(lines, k))
    ensures PlaceAt(lines, k + 1) == Next(PlaceAt(lines, k), lines[k])
    ensures PlaceAt(lines, 0) == TOP && Base(lines, 0) == None
  {
    hide HeaderHere, TomlSub, Next;
  }

  /** The header of a sub-table that both see is the same for both. */
  lemma SubSeen(lines: seq<string>, k: nat)
    requires k < |lines| && IsHeader(lines[k]) && HeaderHere(lines, k)
    ensures InSub(lines, k) <==> TomlSub(lines, k)
    ensures TomlSub(lines, k) ==>
              SubSuffix(TableName(lines[k])) == Some(TomlHeader(lines[k]).value.path[1])
  {
    hide TableName, TomlHeader, PlaceAt;
    HeadersAgree(lines[k]);
    var h := TomlHeader(lines[k]).value;
    hide HeaderHere;
    if |h.path| == 2 && h.path[0] == "skill" { TwoParts(h.path); }
    var suffix := SubSuffix(TableName(lines[k]));
    if suffix.Some? {
      SubBare(suffix.value);
      DottedUnique(h.path, ["skill", suffix.value]);
    }
  }

  /** The migration renames the header on line `k`. */
  predicate Renames(lines: seq<string>, k: nat)
    requires k < |lines|
  {
    IsHeader(lines[k]) && InSub(lines, k)
  }

  /** The headers that are renamed are those that TOML has for the sub-tables, if and only if none of them
      stands inside a value, and each of those is one that the pattern sees. */
  lemma RenamesRight(lines: seq<string>)
    ensures (forall k :: 0 <= k < |lines| ==> (Renames(lines, k) <==> TomlSub(lines, k))) <==>
              && (forall k :: 0 <= k < |lines| && Renames(lines, k) ==> HeaderHere(lines, k))
              && (forall k :: 0 <= k < |lines| && TomlSub(lines, k) ==> IsHeader(lines[k]))
  {
    hide InSub, TableName, HeaderHere, TomlHeader;
    forall k | 0 <= k < |lines|
      ensures IsHeader(lines[k]) && HeaderHere(lines, k) ==> (InSub(lines, k) <==> TomlSub(lines, k))
    {
      if IsHeader(lines[k]) && HeaderHere(lines, k) { SubSeen(lines, k); }
    }
  }

  lemma TwoParts(path: seq<string>)
    requires |path| == 2 && path[0] == "skill"
    ensures Dotted(path) == "skill." + path[1]
    ensures (SubSuffix(Some(Dotted(path))).Some? <==> path[1] in PROVENANCE_SUBTABLES)
    ensures SubSuffix(Some(Dotted(path))).Some? ==> SubSuffix(Some(Dotted(path))).value == path[1]
  {
    assert Dotted(path[1..]) == path[1];
    assert "skill" + (['.'] + path[1]) == "skill." + path[1];
    assert ("skill." + path[1])[6..] == path[1] && ("skill." + path[1])[..6] == "skill.";
  }

  lemma SubBare(x: string)
    requires x in PROVENANCE_SUBTABLES
    ensures IsBare(x) && AllBare(["skill", x]) && Dotted(["skill", x]) == "skill." + x
    ensures AllBare(["forge", x]) && Dotted(["forge", x]) == "forge." + x
  {
    assert IsBare("skill") && IsBare("forge") && IsBare(x);
    assert ["skill", x][1..] == [x] && ["forge", x][1..] == [x];
    assert "skill" + (['.'] + x) == "skill." + x && "forge" + (['.'] + x) == "forge." + x;
  }

  // ----- The condition makes it right -----

  lemma GapRight(lines: seq<string>, xs: seq<Item>)
    requires AllRight(lines, xs) && Run(lines, xs).place == TOP
    ensures AllRight(lines, Gapped(lines, xs)) && Run(lines, Gapped(lines, xs)) == Run(lines, xs)
  {
    hide AllRight, Run, ItemTexts, EnsureNewline, Join, Next, TomlHeader;
    BlankNext();
    RightSnoc(lines, xs, Blank);
    RightSnoc(lines, xs + [Blank], Blank);
    assert xs + [Blank, Blank] == (xs + [Blank]) + [Blank];
  }

  /** The last of the items is line `n - 1`, and what follows is read where line `n` was. */
  predicate EndsWith(lines: seq<string>, xs: seq<Item>, n: nat)
    requires n <= |lines|
  {
    n > 0 && xs != [] && xs[|xs| - 1] == Line(n - 1) && Run(lines, xs).place == PlaceAt(lines, n)
  }

  lemma LineRight(lines: seq<string>, xs: seq<Item>, k: nat)
    requires k < |lines| && AllRight(lines, xs) && Right(lines, xs, Line(k))
    ensures AllRight(lines, xs + [Line(k)]) && EndsWith(lines, xs + [Line(k)], k + 1)
    ensures Run(lines, xs + [Line(k)]).owner == if HeaderHere(lines, k) then Some(Line(k)) else Run(lines, xs).owner
  {
    hide AllRight, Run, TomlHeader, Next, TomlSub, Wanted;
    RightSnoc(lines, xs, Line(k));
    BaseNext(lines, k);
  }

  lemma {:induction false} GoingRight(lines: seq<string>, xs: seq<Item>, n: nat)
    requires n <= |lines| && GoesRight(lines) && AllRight(lines, xs) && Run(lines, xs) == State(TOP, Some(NewForge))
    ensures var ys := xs + Going(lines, n);
            && AllRight(lines, ys) && Run(lines, ys).owner == Some(NewForge)
            && (if n > 0 && Goes(lines, n - 1) then EndsWith(lines, ys, n) else Run(lines, ys).place == TOP)
  {
    hide *;
    if n == 0 {
      NoGoing(lines);
      assert xs + [] == xs;
    } else {
      var k := n - 1;
      var ys := xs + Going(lines, k);
      GoingRight(lines, xs, k);
      GoingOne(lines, k);
      GoesAt(lines, k);
      if Goes(lines, k) {
        MovedWhole(lines, k);
        if k > 0 { GoesAt(lines, k - 1); } else { BaseNext(lines, 0); }
        if k > 0 && Goes(lines, k - 1) { EndsIs(lines, ys, k); }
        GoesLine(lines, ys, k);
        LineRight(lines, ys, k);
        assert xs + (Going(lines, k) + [Line(k)]) == ys + [Line(k)];
      } else if k > 0 && Goes(lines, k - 1) {
        GoesAt(lines, k - 1);
        MovedWhole(lines, k);
        EndsIs(lines, ys, k);
      }
    }
  }

  lemma EndsIs(lines: seq<string>, xs: seq<Item>, n: nat)
    requires n <= |lines| && EndsWith(lines, xs, n)
    ensures n > 0 && xs != [] && xs[|xs| - 1] == Line(n - 1) && Run(lines, xs).place == PlaceAt(lines, n)
  {
    hide Run, PlaceAt;
  }

  lemma GoesAt(lines: seq<string>, k: nat)
    requires k < |lines| && GoesRight(lines)
    ensures Goes(lines, k) <==> Moved(TomlMarks(lines), k)
    ensures Goes(lines, k) ==> !IsHeader(lines[k]) && !Stays(lines, k)
  {
    hide Moved, TomlMarks, TableAt, Moves, TableName;
  }

  lemma GoingOne(lines: seq<string>, n: nat)
    requires n < |lines|
    ensures Going(lines, n + 1) == if Goes(lines, n) then Going(lines, n) + [Line(n)] else Going(lines, n)
  {
    hide Goes;
    assert Going(lines, n) + [] == Going(lines, n);
  }

  /** A line that moves, in its place below [forge]. */
  lemma GoesLine(lines: seq<string>, xs: seq<Item>, k: nat)
    requires k < |lines| && Moved(TomlMarks(lines), k) && !HeaderHere(lines, k)
    requires Run(lines, xs).owner == Some(NewForge) && Run(lines, xs).place == PlaceAt(lines, k)
    requires PlaceAt(lines, k) == TOP || (k > 0 && xs != [] && xs[|xs| - 1] == Line(k - 1))
    ensures Right(lines, xs, Line(k))
  {
    hide Moved, TomlMarks, Run, HeaderHere, PlaceAt;
  }

  lemma ForgeRight(lines: seq<string>, xs: seq<Item>)
    requires GoesRight(lines) && PlaceAt(lines, |lines|) == TOP
    requires AllRight(lines, xs) && Run(lines, xs).place == TOP
    ensures AllRight(lines, ForgePart(lines, xs)) && Run(lines, ForgePart(lines, xs)) == State(TOP, Some(NewForge))
  {
    hide *;
    var gap, n := Gapped(lines, xs), |lines|;
    GapRight(lines, xs);
    ForgeHead(lines, gap);
    GoingRight(lines, gap + [NewForge], n);
    ForgePartIs(lines, xs);
    if n > 0 && Goes(lines, n - 1) { EndsIs(lines, gap + [NewForge] + Going(lines, n), n); }
    var s := Run(lines, ForgePart(lines, xs));
    assert s == State(s.place, s.owner);
  }

  lemma ForgePartIs(lines: seq<string>, xs: seq<Item>)
    ensures ForgePart(lines, xs) == (Gapped(lines, xs) + [NewForge]) + Going(lines, |lines|)
  {
    hide Gapped, Going;
  }

  lemma ForgeHead(lines: seq<string>, xs: seq<Item>)
    requires AllRight(lines, xs) && Run(lines, xs).place == TOP
    ensures AllRight(lines, xs + [NewForge]) && Run(lines, xs + [NewForge]) == State(TOP, Some(NewForge))
  {
    hide AllRight, Run, TomlHeader, Next;
    NewForgeRead();
    HeaderNext("[forge]\n");
    RightSnoc(lines, xs, NewForge);
  }

  lemma NewForgeRead()
    ensures TomlHeader("[forge]\n") == Some(Header(false, ["forge"])) && EndsLine("[forge]\n")
  {
    hide TomlHeader;
    NewForgeIs();
  }

  /** The condition, in terms of what goes. */
  predicate Fits(lines: seq<string>) {
    && GoesRight(lines) && PlaceAt(lines, |lines|) == TOP
    && (forall k :: 0 <= k < |lines| && Seam(lines, k) ==> HeaderHere(lines, k))
    && (forall k :: 0 <= k < |lines| && TomlSub(lines, k) ==> IsHeader(lines[k]))
  }

  lemma SoundFits(lines: seq<string>)
    ensures Sound(lines) <==> Fits(lines)
  {
    hide GoesRight, Misread, Seam, TomlSub, HeaderHere, PlaceAt, TableName;
    GoesRightIs(lines);
  }

  lemma FitsAt(lines: seq<string>, k: nat)
    requires k < |lines| && Fits(lines)
    ensures Seam(lines, k) ==> HeaderHere(lines, k) && PlaceAt(lines, k) == TOP
    ensures TomlSub(lines, k) ==> IsHeader(lines[k]) && HeaderHere(lines, k)
    ensures Goes(lines, k) <==> Moved(TomlMarks(lines), k)
    ensures Goes(lines, k) ==> !HeaderHere(lines, k)
    ensures k > 0 && Goes(lines, k) != Goes(lines, k - 1) ==> PlaceAt(lines, k) == TOP
  {
    hide Seam, Goes, Moved, TomlMarks, TomlHeader, PlaceAt, TableName;
    GoesAt(lines, k);
    MovedWhole(lines, k);
    if k > 0 { GoesAt(lines, k - 1); }
  }

  /** What the migration takes line `k` for. */
  lemma Kinds(lines: seq<string>, k: nat)
    requires k < |lines|
    ensures Stays(lines, k) <==> !InSub(lines, k) && !Goes(lines, k)
    ensures Goes(lines, k) ==> !InSub(lines, k) && !IsHeader(lines[k])
    ensures !IsHeader(lines[k]) ==> (InSub(lines, k) <==> k > 0 && InSub(lines, k - 1))
    ensures Goes(lines, k) ==> k > 0 && !InSub(lines, k - 1)
    ensures InSub(lines, k) != (k > 0 && InSub(lines, k - 1)) ==> Seam(lines, k)
    ensures IsHeader(lines[k]) && InSub(lines, k) ==> Seam(lines, k)
    ensures Closed(lines, k + 1) && !Closed(lines, k) ==> Seam(lines, k)
  {
    hide TableName, Moves, TableAt, Closed, SubSuffix;
    NoSubs();
    TableNext(lines, k);
    TableStart(lines);
  }

  lemma TableStart(lines: seq<string>)
    ensures TableAt(lines, 0) == None
  {
  }

  /** Where what stays meets what does not, no value is cut. */
  lemma Turns(lines: seq<string>, k: nat)
    requires k < |lines| && Fits(lines)
    ensures Stays(lines, k) != (k > 0 && Stays(lines, k - 1)) ==> PlaceAt(lines, k) == TOP
    ensures InSub(lines, k) != (k > 0 && InSub(lines, k - 1)) ==> HeaderHere(lines, k) && PlaceAt(lines, k) == TOP
    ensures Stays(lines, k) && HeaderHere(lines, k) ==> !TomlSub(lines, k)
    ensures InSub(lines, k) && IsHeader(lines[k]) ==> TomlSub(lines, k)
    ensures InSub(lines, k) && !IsHeader(lines[k]) ==> !TomlSub(lines, k)
  {
    hide *;
    FitsAt(lines, k);
    Kinds(lines, k);
    if k > 0 { Kinds(lines, k - 1); } else { BaseNext(lines, 0); }
    if IsHeader(lines[k]) && HeaderHere(lines, k) { SubSeen(lines, k); }
    SubHere(lines, k);
  }

  lemma SubHere(lines: seq<string>, k: nat)
    requires k < |lines|
    ensures TomlSub(lines, k) ==> HeaderHere(lines, k)
    ensures HeaderHere(lines, k) ==> PlaceAt(lines, k) == TOP
  {
    hide PlaceAt, TomlHeader;
  }

  /** What has been written before line `n`, while the condition holds. */
  predicate StayState(lines: seq<string>, n: nat, xs: seq<Item>)
    requires n <= |lines|
  {
    && AllRight(lines, xs)
    && (if n > 0 && Stays(lines, n - 1) then EndsWith(lines, xs, n) else Run(lines, xs).place == TOP)
    && ((n > 0 && InSub(lines, n - 1)) || Run(lines, xs).owner == Base(lines, n))
  }

  lemma StayIs(lines: seq<string>, n: nat, xs: seq<Item>)
    requires n <= |lines|
    ensures StayState(lines, n, xs) <==>
              && AllRight(lines, xs)
              && (if n > 0 && Stays(lines, n - 1) then EndsWith(lines, xs, n) else Run(lines, xs).place == TOP)
              && ((n > 0 && InSub(lines, n - 1)) || Run(lines, xs).owner == Base(lines, n))
  {
  }

  /** A line that stays, in its place. */
  lemma StayLine(lines: seq<string>, xs: seq<Item>, k: nat)
    requires k < |lines| && !Moved(TomlMarks(lines), k)
    requires Run(lines, xs).place == PlaceAt(lines, k)
    requires if HeaderHere(lines, k) then !TomlSub(lines, k) else Run(lines, xs).owner == Base(lines, k)
    requires PlaceAt(lines, k) == TOP || (k > 0 && xs != [] && xs[|xs| - 1] == Line(k - 1))
    ensures Right(lines, xs, Line(k))
  {
    hide Moved, TomlMarks, Run, HeaderHere, PlaceAt, Base, TomlSub;
  }

  lemma {:induction false} StayRight(lines: seq<string>, n: nat)
    requires n <= |lines| && Fits(lines)
    ensures StayState(lines, n, StayItems(lines, n))
  {
    hide *;
    if n == 0 {
      NothingRight(lines);
    } else {
      var k := n - 1;
      StayRight(lines, k);
      StayStep(lines, k);
    }
  }

  lemma NothingRight(lines: seq<string>)
    ensures StayState(lines, 0, StayItems(lines, 0))
  {
    BaseNextStart(lines);
  }

  lemma BaseNextStart(lines: seq<string>)
    ensures Base(lines, 0) == None && Run(lines, []) == State(TOP, None)
  {
  }

  lemma StayStep(lines: seq<string>, k: nat)
    requires k < |lines| && Fits(lines) && StayState(lines, k, StayItems(lines, k))
    ensures StayState(lines, k + 1, StayItems(lines, k + 1))
  {
    hide *;
    var xs := StayItems(lines, k);
    StayIs(lines, k, xs);
    StayIs(lines, k + 1, StayItems(lines, k + 1));
    Turns(lines, k);
    Kinds(lines, k);
    FitsAt(lines, k);
    FitsParts(lines);
    StayingMore(lines, k);
    StaysIs(lines, k);
    BaseNext(lines, k);
    if k > 0 && Stays(lines, k - 1) { EndsIs(lines, xs, k); }
    var seam := Closed(lines, k + 1) && !Closed(lines, k);
    var ys := if seam then ForgePart(lines, xs) else xs;
    if seam { ForgeRight(lines, xs); }
    assert ys + [] == ys;
    if Stays(lines, k) {
      StayLine(lines, ys, k);
      LineRight(lines, ys, k);
    }
  }

  lemma StaysIs(lines: seq<string>, k: nat)
    requires k < |lines|
    ensures StayItems(lines, k + 1)
         == (if Closed(lines, k + 1)
           && !Closed(lines, k) then ForgePart(lines, StayItems(lines, k)) else StayItems(lines, k))
            + (if Stays(lines, k) then [Line(k)] else [])
  {
    hide Closed, Stays, ForgePart;
  }

  lemma FitsParts(lines: seq<string>)
    requires Fits(lines)
    ensures GoesRight(lines) && PlaceAt(lines, |lines|) == TOP
  {
    hide GoesRight, PlaceAt;
  }

  lemma WithForgeRight(lines: seq<string>)
    requires Fits(lines)
    ensures AllRight(lines, ForgeItems(lines)) && Run(lines, ForgeItems(lines)).place == TOP
  {
    hide *;
    var n := |lines|;
    var xs := StayItems(lines, n);
    StayRight(lines, n);
    StayIs(lines, n, xs);
    FitsParts(lines);
    if n > 0 && Stays(lines, n - 1) { EndsIs(lines, xs, n); }
    WithForgeOf(lines);
    if !Closed(lines, n) { ForgeRight(lines, xs); }
  }

  lemma WithForgeOf(lines: seq<string>)
    ensures ForgeItems(lines)
         == if Closed(lines, |lines|) then StayItems(lines, |lines|) else ForgePart(lines, StayItems(lines, |lines|))
  {
    hide Closed, StayItems, ForgePart;
  }

  // ----- The sub-tables -----

  predicate SubState(lines: seq<string>, n: nat, xs: seq<Item>)
    requires n <= |lines|
  {
    && AllRight(lines, xs)
    && (if n > 0 && InSub(lines, n - 1) then
          && Run(lines, xs) == State(PlaceAt(lines, n), Base(lines, n))
          && (PlaceAt(lines, n) == TOP || EndsWith(lines, xs, n))
        else Run(lines, xs).place == TOP)
  }

  lemma SubIs(lines: seq<string>, n: nat, xs: seq<Item>)
    requires n <= |lines|
    ensures SubState(lines, n, xs) <==>
              && AllRight(lines, xs)
              && (if n > 0 && InSub(lines, n - 1) then
                    && Run(lines, xs) == State(PlaceAt(lines, n), Base(lines, n))
                    && (PlaceAt(lines, n) == TOP || EndsWith(lines, xs, n))
                  else Run(lines, xs).place == TOP)
  {
  }

  lemma StateIs(s: State)
    ensures s == State(s.place, s.owner)
  {
  }

  /** The renamed header is read back. */
  lemma RenamedRight(lines: seq<string>, xs: seq<Item>, k: nat)
    requires k < |lines| && AllRight(lines, xs) && Run(lines, xs).place == TOP
    requires IsHeader(lines[k]) && TomlSub(lines, k) && EndsLine(lines[k])
    ensures AllRight(lines, xs + [Renamed(k)]) && Run(lines, xs + [Renamed(k)]) == State(TOP, Some(Renamed(k)))
    ensures PlaceAt(lines, k + 1) == TOP && Base(lines, k + 1) == Some(Renamed(k))
  {
    SubHere(lines, k);
    SubSeen(lines, k);
    HeaderEnds(lines, k);
    BaseNext(lines, k);
    var x := TomlHeader(lines[k]).value.path[1];
    RenamedRead(lines, k, x);
    hide AllRight, Run, TomlHeader, Next, ItemText, PlaceAt, TableName, Base;
    HeaderNext(ItemText(lines, Renamed(k)));
    RightSnoc(lines, xs, Renamed(k));
  }

  lemma RenamedRead(lines: seq<string>, k: nat, x: string)
    requires k < |lines| && SubSuffix(TableName(lines[k])) == Some(x) && EndsLine(lines[k]) && x in PROVENANCE_SUBTABLES
    ensures var text := ItemText(lines, Renamed(k));
            TomlHeader(text) == Some(Header(false, ["forge", x])) && EndsLine(text)
  {
    hide TableName, SubSuffix, TomlHeader;
    RenamedText(lines, k);
    ForgeSubRead(x);
    assert "[forge." + x + "]" + "\n" == ("[forge." + x + "]") + ['\n'];
  }

  lemma ForgeSubRead(x: string)
    requires x in PROVENANCE_SUBTABLES
    ensures TomlHeader(("[forge." + x + "]") + ['\n']) == Some(Header(false, ["forge", x]))
    ensures EndsLine(("[forge." + x + "]") + ['\n'])
  {
    hide *;
    var line := ("[forge." + x + "]") + ['\n'];
    SuffixHeader(x);
    SubBare(x);
    SubReads(x);
    SameName(line, ["forge", x]);
  }

  /** The places in the header of a sub-table. */
  lemma SubPlaces(x: string)
    requires IsBare(x)
    ensures var line, n := ("[forge." + x + "]") + ['\n'], |x|;
            && |line| == n + 9 && line[0] == '[' && IsWord(line[1]) && line[6] == '.' && IsWord(line[7])
            && line[7 + n] == ']' && line[8 + n] == '\n'
            && SkipName(line, 1, false) == 6 && SkipName(line, 7, false) == 7 + n
  {
    var line, n := ("[forge." + x + "]") + ['\n'], |x|;
    assert line[1..6] == "forge" && line[7..7 + n] == x;
    assert forall j :: 7 <= j < 7 + n ==> line[j] == x[j - 7];
    BareRun(line, 1, 6, false);
    BareRun(line, 7, 7 + n, false);
  }

  lemma SubReads(x: string)
    requires IsBare(x)
    ensures TomlHeader(("[forge." + x + "]") + ['\n']).Some?
  {
    hide SkipName, SkipBlanks, DottedKey, IsWord, IsBare;
    var line, n := ("[forge." + x + "]") + ['\n'], |x|;
    SubPlaces(x);
    WordIs(line[1]);
    WordIs(line[7]);
    BlankHere(line, 0);
    BlankHere(line, 1);
    BlankHere(line, 6);
    BlankHere(line, 7);
    BlankHere(line, 7 + n);
    BlankHere(line, 8 + n);
    KeyStep(line, 1);
    KeyStep(line, 7);
  }

  lemma AppendStep(lines: seq<string>, k: nat)
    requires k < |lines| && Fits(lines) && AllProper(lines)
    requires SubState(lines, k, Appended(lines, k))
    ensures SubState(lines, k + 1, Appended(lines, k + 1))
  {
    hide *;
    var xs := Appended(lines, k);
    SubIs(lines, k, xs);
    SubIs(lines, k + 1, Appended(lines, k + 1));
    Turns(lines, k);
    Kinds(lines, k);
    FitsAt(lines, k);
    AppendedIs(lines, k);
    BaseNext(lines, k);
    SubHere(lines, k);
    if InSub(lines, k) {
      if IsHeader(lines[k]) {
        GapRight(lines, xs);
        ProperAt(lines, k);
        SubEnds(lines, k);
        RenamedRight(lines, Gapped(lines, xs), k);
      } else {
        if PlaceAt(lines, k) != TOP { EndsIs(lines, xs, k); }
        StayLine(lines, xs, k);
        LineRight(lines, xs, k);
        EndsIs(lines, xs + [Line(k)], k + 1);
        StateIs(Run(lines, xs + [Line(k)]));
      }
    }
  }

  lemma AppendedIs(lines: seq<string>, n: nat)
    requires n < |lines|
    ensures Appended(lines, n + 1)
         == (if !InSub(lines, n) then Appended(lines, n)
             else if IsHeader(lines[n]) then Gapped(lines, Appended(lines, n)) + [Renamed(n)]
             else Appended(lines, n) + [Line(n)])
  {
    hide InSub, TableName, Gapped, ForgeItems;
  }

  /** The headers of the sub-tables to be renamed end in a newline: TOML has no other end of a line. */
  lemma SubEnds(lines: seq<string>, k: nat)
    requires k < |lines| && IsHeader(lines[k]) && HeaderHere(lines, k) && Proper(lines[k])
    ensures EndsLine(lines[k])
  {
    hide PlaceAt;
    HeaderEndsLine(lines[k]);
  }

  lemma ProperAt(lines: seq<string>, k: nat)
    requires k < |lines| && AllProper(lines)
    ensures Proper(lines[k])
  {
    hide Proper;
  }

  lemma HeaderEndsLine(line: string)
    requires IsHeader(line) && TomlHeader(line).Some? && Proper(line)
    ensures EndsLine(line)
  {
    hide *;
    IsHeaderIs(line);
    HeadersAgree(line);
    var open, from, stop, close := TableParts(line);
    NotSpaces();
    NotWords();
    NameRun(line, from, true);
    forall j | 0 <= j < |line| && line[j] == ']' ensures j == close { OnlyBracket(line, open, from, stop, close, j); }
    HeaderTail(line, close);
    TrailingIs(line, close + 1);
    var e := SkipBlanks(line, close + 1);
    BlanksAre(line, close + 1);
    ProperLast(line);
    forall j | close < j < |line| ensures IsSpace(line[j]) { AllSpaces(line, close + 1, j); }
    if e >= |line| {
      BlanksLast(line, close + 1);
    }
  }

  lemma IsHeaderIs(line: string)
    ensures IsHeader(line) <==> TableName(line).Some?
  {
    hide TableName;
  }

  lemma TrailingIs(s: string, i: nat)
    ensures var e := SkipBlanks(s, i);
            Trailing(s, i) <==> e >= |s| || s[e] == '#' || (s[e] == '\n' && e + 1 == |s|)
  {
    hide SkipBlanks;
  }

  lemma BlanksLast(line: string, i: nat)
    requires i <= |line| && SkipBlanks(line, i) >= |line| && line != "" && IsBreak(line[|line| - 1])
    ensures i == |line|
  {
    if i < |line| { AllBlanks(line, i, |line| - 1); }
  }

  lemma ProperLast(line: string)
    requires Proper(line)
    ensures line != "" && IsBreak(line[|line| - 1]) && !IsBreak(']')
    ensures EndsLine(line) <==> line[|line| - 1] == '\n'
  {
  }

  lemma OnlyBracket(line: string, open: nat, from: nat, stop: nat, close: nat, j: nat)
    requires open == SkipSpaces(line, 0) && open < |line| && line[open] == '['
    requires from == SkipSpaces(line, open + 1) && from < stop <= |line|
    requires forall j :: from <= j < stop ==> IsWord(line[j]) || line[j] == '.'
    requires close == SkipSpaces(line, stop) && close < |line| && SkipSpaces(line, close + 1) == |line|
    requires j < |line| && line[j] == ']'
    ensures j == close
  {
    hide SkipSpaces, IsSpace, IsWord;
    NotSpaces();
    NotWords();
    if j < open { AllSpaces(line, 0, j); }
    if open < j < from { AllSpaces(line, open + 1, j); }
    if stop <= j < close { AllSpaces(line, stop, j); }
    if close < j { AllSpaces(line, close + 1, j); }
  }

  lemma HeaderTail(line: string, close: nat)
    requires TomlHeader(line).Some? && !TomlHeader(line).value.element
    requires forall j :: 0 <= j < |line| && line[j] == ']' ==> j == close
    ensures close < |line| && Trailing(line, close + 1)
  {
    hide DottedKey, Trailing;
  }

  lemma {:induction false} AppendRight(lines: seq<string>, n: nat)
    requires n <= |lines| && Fits(lines) && AllProper(lines)
    ensures SubState(lines, n, Appended(lines, n))
  {
    hide *;
    if n == 0 {
      WithForgeRight(lines);
      AppendedStart(lines);
      SubIs(lines, 0, ForgeItems(lines));
    } else {
      AppendRight(lines, n - 1);
      AppendStep(lines, n - 1);
    }
  }

  lemma AppendedStart(lines: seq<string>)
    ensures Appended(lines, 0) == ForgeItems(lines)
  {
    hide ForgeItems;
  }

  lemma LayoutRight(lines: seq<string>)
    requires Fits(lines) && AllProper(lines)
    ensures AllRight(lines, Layout(lines)) && Run(lines, Layout(lines)).place == TOP
  {
    hide *;
    AppendRight(lines, |lines|);
    SubIs(lines, |lines|, Appended(lines, |lines|));
    LayoutIs(lines);
    FitsParts(lines);
    StateIs(Run(lines, Layout(lines)));
  }

  lemma FitsSub(lines: seq<string>, k: nat)
    requires k < |lines| && Fits(lines) && AllProper(lines)
    ensures IsHeader(lines[k]) && SubSuffix(TableName(lines[k])).Some? ==> EndsLine(lines[k])
  {
    hide *;
    if IsHeader(lines[k]) && SubSuffix(TableName(lines[k])).Some? {
      TableNext(lines, k);
      InSubIs(lines, k);
      Turns(lines, k);
      SubHere(lines, k);
      ProperAt(lines, k);
      SubEnds(lines, k);
    }
  }

  lemma InSubIs(lines: seq<string>, k: nat)
    requires k < |lines|
    ensures InSub(lines, k) <==> SubSuffix(TableAt(lines, k + 1)).Some?
  {
    hide TableAt, SubSuffix;
  }

  lemma {:induction false} FitsEnds(lines: seq<string>, n: nat)
    requires n <= |lines| && Fits(lines) && AllProper(lines)
    ensures SubsEnd(Buckets(lines, n))
  {
    hide *;
    if n == 0 {
      NoBuckets(lines);
      NoSubsEnd();
    } else {
      FitsEnds(lines, n - 1);
      FitsSub(lines, n - 1);
      NextLast(lines, n - 1);
      LastTable(lines, n - 1);
      IsHeaderIs(lines[n - 1]);
      EndsNext(Buckets(lines, n - 1), Buckets(lines, n), lines[n - 1]);
    }
  }

  lemma NoSubsEnd()
    ensures SubsEnd([Section(None, [])])
  {
  }

  lemma EndsNext(secs: seq<Section>, more: seq<Section>, line: string)
    requires secs != [] && more != [] && SubsEnd(secs) && (Last(secs).table.Some? ==> Last(secs).lines != [])
    requires IsHeader(line) && SubSuffix(TableName(line)).Some? ==> EndsLine(line)
    requires if IsHeader(line) then Front(more) == secs && Last(more) == Section(TableName(line), [line])
             else Front(more) == Front(secs) && Last(more) == Last(secs).(lines := Last(secs).lines + [line])
    ensures SubsEnd(more)
  {
    hide TableName, SubSuffix;
    NoSubs();
    forall i | 0 <= i < |more| ensures RenamedEnds(more[i]) {
      if i < |more| - 1 {
        assert more[i] == Front(more)[i];
        assert IsHeader(line) ==> more[i] == secs[i];
        assert !IsHeader(line) ==> more[i] == secs[i];
      } else if !IsHeader(line) {
        assert RenamedEnds(secs[|secs| - 1]);
        assert Last(more).lines[0] == (Last(secs).lines + [line])[0];
      }
    }
  }

  // ----- A right file meets the condition -----

  lemma {:induction false} AppendedPrefix(lines: seq<string>, n: nat, m: nat)
    requires n <= m <= |lines| && AllRight(lines, Appended(lines, m))
    ensures AllRight(lines, Appended(lines, n))
    decreases m
  {
    hide *;
    if n < m {
      var k := m - 1;
      AppendedIs(lines, k);
      var xs := Appended(lines, k);
      if InSub(lines, k) {
        if IsHeader(lines[k]) {
          RightPrefix(lines, Gapped(lines, xs), [Renamed(k)]);
          GapPrefix(lines, xs);
        } else {
          RightPrefix(lines, xs, [Line(k)]);
        }
      }
      AppendedPrefix(lines, n, k);
    }
  }

  lemma GapPrefix(lines: seq<string>, xs: seq<Item>)
    requires AllRight(lines, Gapped(lines, xs))
    ensures AllRight(lines, xs) && Run(lines, xs).place == TOP
  {
    hide AllRight, Run, ItemTexts, EnsureNewline, Join;
    var ys: seq<Item> := if Gapped(lines, xs) == xs + [Blank] then [] else [Blank];
    assert Gapped(lines, xs) == xs + ([Blank] + ys);
    RightAt(lines, xs, Blank, ys);
  }

  lemma ForgePrefix(lines: seq<string>, xs: seq<Item>)
    requires AllRight(lines, ForgePart(lines, xs))
    ensures AllRight(lines, xs) && Run(lines, xs).place == TOP
  {
    hide *;
    ForgePartIs(lines, xs);
    RightPrefix(lines, Gapped(lines, xs) + [NewForge], Going(lines, |lines|));
    RightPrefix(lines, Gapped(lines, xs), [NewForge]);
    GapPrefix(lines, xs);
  }

  lemma {:induction false} StayPrefix(lines: seq<string>, n: nat, m: nat)
    requires n <= m <= |lines| && AllRight(lines, StayItems(lines, m))
    ensures AllRight(lines, StayItems(lines, n))
    decreases m
  {
    hide *;
    if n < m {
      var k := m - 1;
      StaysIs(lines, k);
      var xs := StayItems(lines, k);
      var seam := Closed(lines, k + 1) && !Closed(lines, k);
      RightPrefix(lines, if seam then ForgePart(lines, xs) else xs, if Stays(lines, k) then [Line(k)] else []);
      if seam { ForgePrefix(lines, xs); }
      StayPrefix(lines, n, k);
    }
  }

  lemma AllStays(lines: seq<string>)
    requires AllRight(lines, ForgeItems(lines))
    ensures AllRight(lines, StayItems(lines, |lines|))
  {
    hide *;
    ForgeItemsIs(lines);
    if !Closed(lines, |lines|) { ForgePrefix(lines, StayItems(lines, |lines|)); }
  }

  lemma ForgeItemsIs(lines: seq<string>)
    ensures ForgeItems(lines)
         == if Closed(lines, |lines|) then StayItems(lines, |lines|) else ForgePart(lines, StayItems(lines, |lines|))
  {
    hide Closed, StayItems, ForgePart;
  }

  /** Everything up to line `k` is right. */
  predicate RightFile(lines: seq<string>) {
    GoesRight(lines) && AllRight(lines, Layout(lines)) && Run(lines, Layout(lines)).place == TOP
  }

  lemma RightParts(lines: seq<string>, k: nat)
    requires RightFile(lines) && k <= |lines|
    ensures GoesRight(lines) && AllRight(lines, Appended(lines, k)) && AllRight(lines, StayItems(lines, k))
    ensures AllRight(lines, ForgeItems(lines)) && Run(lines, Appended(lines, |lines|)).place == TOP
  {
    hide *;
    RightIs(lines);
    LayoutIs(lines);
    AppendedPrefix(lines, k, |lines|);
    AppendedPrefix(lines, 0, |lines|);
    AppendedStart(lines);
    AllStays(lines);
    StayPrefix(lines, k, |lines|);
  }

  lemma RightIs(lines: seq<string>)
    requires RightFile(lines)
    ensures GoesRight(lines) && AllRight(lines, Layout(lines)) && Run(lines, Layout(lines)).place == TOP
  {
    hide GoesRight, AllRight, Run, Layout;
  }

  /** A line that stays is right behind the items before it. */
  lemma StayAt(lines: seq<string>, k: nat)
    requires RightFile(lines) && k < |lines| && Stays(lines, k)
    ensures var xs := StayItems(lines, k);
            var ys := if Closed(lines, k + 1) && !Closed(lines, k) then ForgePart(lines, xs) else xs;
            AllRight(lines, ys) && Right(lines, ys, Line(k))
  {
    hide *;
    var xs := StayItems(lines, k);
    var ys := if Closed(lines, k + 1) && !Closed(lines, k) then ForgePart(lines, xs) else xs;
    RightParts(lines, k + 1);
    StaysIs(lines, k);
    RightSnoc(lines, ys, Line(k));
  }

  lemma SubAt(lines: seq<string>, k: nat)
    requires RightFile(lines) && k < |lines| && InSub(lines, k)
    ensures IsHeader(lines[k]) ==> TomlSub(lines, k) && HeaderHere(lines, k)
    ensures !IsHeader(lines[k]) ==> !TomlSub(lines, k)
    ensures !IsHeader(lines[k]) ==> Right(lines, Appended(lines, k), Line(k)) && AllRight(lines, Appended(lines, k))
  {
    hide *;
    RightParts(lines, k + 1);
    AppendedIs(lines, k);
    SubHere(lines, k);
    var xs := Appended(lines, k);
    if IsHeader(lines[k]) {
      RightSnoc(lines, Gapped(lines, xs), Renamed(k));
      RenamedSub(lines, Gapped(lines, xs), k);
    } else {
      RightSnoc(lines, xs, Line(k));
      LineNoSub(lines, xs, k);
    }
  }

  lemma RenamedSub(lines: seq<string>, xs: seq<Item>, k: nat)
    requires k < |lines| && Right(lines, xs, Renamed(k))
    ensures TomlSub(lines, k)
  {
    hide TomlSub, Run;
  }

  lemma LineNoSub(lines: seq<string>, xs: seq<Item>, k: nat)
    requires k < |lines| && Right(lines, xs, Line(k))
    ensures !TomlSub(lines, k)
    ensures Run(lines, xs).place == PlaceAt(lines, k)
    ensures PlaceAt(lines, k) != TOP ==> xs != [] && xs[|xs| - 1] == Line(k - 1)
    ensures !HeaderHere(lines, k) ==> Run(lines, xs).owner == Wanted(lines, k)
  {
    hide Run, PlaceAt, TomlHeader, Wanted;
  }

  /** Below [forge] nothing else is. */
  lemma {:induction false} GoingOwner(lines: seq<string>, xs: seq<Item>, n: nat)
    requires n <= |lines| && GoesRight(lines) && AllRight(lines, xs + Going(lines, n))
    requires Run(lines, xs).owner == Some(NewForge)
    ensures Run(lines, xs + Going(lines, n)).owner == Some(NewForge)
  {
    hide *;
    if n == 0 {
      NoGoing(lines);
      assert xs + [] == xs;
    } else {
      var k := n - 1;
      GoingOne(lines, k);
      if Goes(lines, k) {
        var ys := xs + Going(lines, k);
        assert xs + (Going(lines, k) + [Line(k)]) == ys + [Line(k)];
        RightSnoc(lines, ys, Line(k));
        GoingOwner(lines, xs, k);
        GoesAt(lines, k);
        MovedWhole(lines, k);
        LineRight(lines, ys, k);
      } else {
        GoingOwner(lines, xs, k);
      }
    }
  }

  lemma ForgeOwner(lines: seq<string>, xs: seq<Item>)
    requires GoesRight(lines) && AllRight(lines, ForgePart(lines, xs))
    ensures Run(lines, ForgePart(lines, xs)).owner == Some(NewForge)
  {
    hide *;
    ForgePrefix(lines, xs);
    ForgePartIs(lines, xs);
    GapRight(lines, xs);
    ForgeHead(lines, Gapped(lines, xs));
    GoingOwner(lines, Gapped(lines, xs) + [NewForge], |lines|);
  }

  predicate StayOwner(lines: seq<string>, o: Option<Item>) {
    o == None || o == Some(NewForge) || (o.value.Line? && o.value.k < |lines| && Stays(lines, o.value.k))
  }

  lemma {:induction false} StayOwners(lines: seq<string>, n: nat)
    requires RightFile(lines) && n <= |lines|
    ensures StayOwner(lines, Run(lines, StayItems(lines, n)).owner)
  {
    hide *;
    if n == 0 {
      NoOwner(lines);
    } else {
      var k := n - 1;
      StayOwners(lines, k);
      RightParts(lines, n);
      StaysIs(lines, k);
      var xs := StayItems(lines, k);
      var seam := Closed(lines, k + 1) && !Closed(lines, k);
      var ys := if seam then ForgePart(lines, xs) else xs;
      assert ys + [] == ys;
      RightPrefix(lines, ys, if Stays(lines, k) then [Line(k)] else []);
      if seam { ForgeOwner(lines, xs); }
      if Stays(lines, k) {
        RightSnoc(lines, ys, Line(k));
        LineRight(lines, ys, k);
      }
      OwnerIs(lines, k);
    }
  }

  lemma OwnerIs(lines: seq<string>, k: nat)
    requires k < |lines|
    ensures StayOwner(lines, Some(NewForge)) && StayOwner(lines, None)
    ensures StayOwner(lines, Some(Line(k))) <==> Stays(lines, k)
  {
    hide Stays;
  }

  lemma NoOwner(lines: seq<string>)
    ensures StayOwner(lines, Run(lines, StayItems(lines, 0)).owner)
  {
  }

  /** Behind a sub-table that is renamed, TOML has a header in it. */
  lemma {:induction false} SubBase(lines: seq<string>, k: nat)
    requires RightFile(lines) && 0 < k <= |lines| && InSub(lines, k - 1)
    ensures Base(lines, k).Some? && !StayOwner(lines, Base(lines, k)) && Base(lines, k) != Some(NewForge)
  {
    hide *;
    var j := k - 1;
    SubAt(lines, j);
    BaseNext(lines, j);
    Kinds(lines, j);
    SubHere(lines, j);
    OwnerIs(lines, j);
    RenamedNoStay(lines, j);
    if !HeaderHere(lines, j) { SubBase(lines, j); }
  }

  lemma RenamedNoStay(lines: seq<string>, k: nat)
    ensures !StayOwner(lines, Some(Renamed(k)))
  {
    hide Stays;
  }

  lemma BaseKinds(lines: seq<string>, k: nat)
    requires k <= |lines|
    ensures Base(lines, k) != Some(NewForge)
  {
    hide TomlSub, HeaderAt;
  }

  /** The file is cut at headers only. */
  lemma SeamRight(lines: seq<string>, k: nat)
    requires RightFile(lines) && k < |lines| && Seam(lines, k)
    ensures HeaderHere(lines, k)
  {
    hide *;
    SeamIs(lines, k);
    Kinds(lines, k);
    if InSub(lines, k) {
      SubAt(lines, k);
    } else {
      var xs := StayItems(lines, k);
      RightParts(lines, k);
      StayAt(lines, k);
      GoesAt(lines, k);
      WantedIs(lines, k);
      BaseKinds(lines, k);
      if Closed(lines, k + 1) && !Closed(lines, k) {
        ForgeOwner(lines, xs);
        LineNoSub(lines, ForgePart(lines, xs), k);
      } else {
        StayOwners(lines, k);
        SubBase(lines, k);
        LineNoSub(lines, xs, k);
      }
    }
  }

  lemma SeamIs(lines: seq<string>, k: nat)
    requires k < |lines|
    ensures Seam(lines, k) <==>
              && IsHeader(lines[k])
              && (InSub(lines, k) || (k > 0 && InSub(lines, k - 1)) || (Closed(lines, k + 1) && !Closed(lines, k)))
  {
    hide TableName, InSub, Closed;
  }

  lemma WantedIs(lines: seq<string>, k: nat)
    requires k < |lines|
    ensures Wanted(lines, k) == if Moved(TomlMarks(lines), k) then Some(NewForge) else Base(lines, k)
  {
    hide Moved, TomlMarks, Base;
  }

  /** The header of each sub-table to be renamed is seen. */
  lemma SubsSeen(lines: seq<string>, k: nat)
    requires RightFile(lines) && k < |lines| && TomlSub(lines, k)
    ensures IsHeader(lines[k])
  {
    hide *;
    Kinds(lines, k);
    SubHere(lines, k);
    if !IsHeader(lines[k]) {
      if InSub(lines, k) {
        SubAt(lines, k);
      } else if Stays(lines, k) {
        StayAt(lines, k);
        var xs := StayItems(lines, k);
        LineNoSub(lines, if Closed(lines, k + 1) && !Closed(lines, k) then ForgePart(lines, xs) else xs, k);
      } else {
        RightParts(lines, k);
        GoesAt(lines, k);
        MovedWhole(lines, k);
      }
    }
  }

  // ----- The end of the file -----

  lemma LastLine(lines: seq<string>, xs: seq<Item>, k: nat)
    requires k < |lines| && AllRight(lines, xs + [Line(k)])
    ensures Run(lines, xs + [Line(k)]).place == PlaceAt(lines, k + 1)
  {
    hide *;
    RightSnoc(lines, xs, Line(k));
    LineRight(lines, xs, k);
    EndsIs(lines, xs + [Line(k)], k + 1);
  }

  /** What comes before the sub-tables is read to its end. */
  lemma {:induction false} TopAfter(lines: seq<string>, m: nat)
    requires m <= |lines| && AllRight(lines, Appended(lines, m))
    ensures Run(lines, ForgeItems(lines)).place == TOP
            || (Appended(lines, m) == ForgeItems(lines) && forall j :: 0 <= j < m ==> !InSub(lines, j))
  {
    hide *;
    if m == 0 {
      AppendedStart(lines);
    } else {
      var k := m - 1;
      AppendedPrefix(lines, k, m);
      TopAfter(lines, k);
      AppendedIs(lines, k);
      Kinds(lines, k);
      if InSub(lines, k) && IsHeader(lines[k]) {
        RightPrefix(lines, Gapped(lines, Appended(lines, k)), [Renamed(k)]);
        GapPrefix(lines, Appended(lines, k));
      }
    }
  }

  lemma ForgeTop(lines: seq<string>)
    requires RightFile(lines)
    ensures Run(lines, ForgeItems(lines)).place == TOP
  {
    hide *;
    RightParts(lines, |lines|);
    TopAfter(lines, |lines|);
  }

  /** The lines that move are followed by a line that is not one of them, or by nothing that stays. */
  lemma {:induction false} BlockTop(lines: seq<string>, m: nat) returns (xs: seq<Item>)
    requires RightFile(lines) && m <= |lines| && Closed(lines, m) && Goes(lines, |lines| - 1)
    ensures AllRight(lines, ForgePart(lines, xs))
    ensures StayItems(lines, m) == ForgePart(lines, xs) || Run(lines, ForgePart(lines, xs)).place == TOP
  {
    hide *;
    ClosedIs(lines, m);
    var k := m - 1;
    RightParts(lines, m);
    StaysIs(lines, k);
    ClosedIs(lines, k);
    if Closed(lines, k) {
      xs := BlockTop(lines, k);
    } else {
      xs := StayItems(lines, k);
      RightPrefix(lines, ForgePart(lines, xs), if Stays(lines, k) then [Line(k)] else []);
    }
    var ys := if Closed(lines, k) then StayItems(lines, k) else ForgePart(lines, xs);
    assert ys + [] == ys;
    if ys == ForgePart(lines, xs) && Stays(lines, k) {
      RightSnoc(lines, ys, Line(k));
      LineNoSub(lines, ys, k);
      ForgeLast(lines, xs);
    }
  }

  lemma ClosedIs(lines: seq<string>, m: nat)
    requires m <= |lines|
    ensures Closed(lines, m) ==> m > 0
  {
  }

  lemma ForgeLast(lines: seq<string>, xs: seq<Item>)
    requires |lines| > 0 && Goes(lines, |lines| - 1)
    ensures ForgePart(lines, xs) == (Gapped(lines, xs) + [NewForge] + Going(lines, |lines| - 1)) + [Line(|lines| - 1)]
    ensures var ys := ForgePart(lines, xs); ys != [] && ys[|ys| - 1] == Line(|lines| - 1)
  {
    hide *;
    ForgePartIs(lines, xs);
    GoingOne(lines, |lines| - 1);
    Assoc(Gapped(lines, xs) + [NewForge], Going(lines, |lines| - 1), [Line(|lines| - 1)]);
  }

  /** No value is open at the end of the file. */
  lemma EndRight(lines: seq<string>)
    requires RightFile(lines) && (lines != [] ==> EndsLine(lines[|lines| - 1]))
    ensures PlaceAt(lines, |lines|) == TOP
  {
    hide *;
    if lines == [] {
      BaseNextStartAt(lines);
    } else {
      var n := |lines|;
      var k := n - 1;
      RightParts(lines, n);
      Kinds(lines, k);
      ForgeTop(lines);
      ForgeItemsIs(lines);
      if InSub(lines, k) {
        SubAt(lines, k);
        AppendedIs(lines, k);
        if IsHeader(lines[k]) { HeaderEnds(lines, k); } else { LastLine(lines, Appended(lines, k), k); }
      } else if Stays(lines, k) {
        StaysIs(lines, k);
        StayAt(lines, k);
        var xs := StayItems(lines, k);
        LastLine(lines, if Closed(lines, n) && !Closed(lines, k) then ForgePart(lines, xs) else xs, k);
        if !Closed(lines, n) { ForgePrefix(lines, StayItems(lines, n)); }
      } else {
        var xs := StayItems(lines, n);
        if Closed(lines, n) { xs := BlockTop(lines, n); }
        ForgeLast(lines, xs);
        LastLine(lines, Gapped(lines, xs) + [NewForge] + Going(lines, k), k);
      }
    }
  }

  lemma BaseNextStartAt(lines: seq<string>)
    ensures PlaceAt(lines, 0) == TOP
  {
  }

  // ----- The main result -----

  /** A text whose last line has its newline, as TOML's lines have. */
  predicate Complete(t: string) { t == "" || EndsLine(t) }

  lemma CompleteLines(t: string)
    requires Complete(t)
    ensures Broken(t) && AllProper(SplitLines(t))
    ensures SplitLines(t) != [] ==> EndsLine(SplitLines(t)[|SplitLines(t)| - 1])
  {
    hide SplitLines, AllProper;
    NewlineBreaks();
    SplitProper(t);
    JoinSplit(t);
    SplitNoneEmpty(t);
    var lines := SplitLines(t);
    if lines != [] { EndsWithText(lines, t); }
  }

  lemma EndsWithText(lines: seq<string>, t: string)
    requires lines != [] && NoneEmpty(lines) && Join(lines) == t && Complete(t)
    ensures EndsLine(lines[|lines| - 1])
  {
    LastLineEnds(lines);
  }

  lemma LastLineEnds(lines: seq<string>)
    requires lines != [] && NoneEmpty(lines)
    ensures Join(lines) != "" && EndsLine(Join(lines)) == EndsLine(lines[|lines| - 1])
  {
    Migration.LastLine(lines);
  }

  lemma NewlineBreaks()
    ensures IsBreak('\n')
  {
  }

  /** Main result: the migration of a file is right by TOML's reading of the new text if and only if no
      value is open at the end of the file, none of its lines is misread, it is cut at lines only that are
      headers for TOML, and the pattern sees the header of each sub-table that is to be renamed. */
  lemma RightlyWhen(t: string)
    requires Complete(t) && Planned(t).Changed()
    ensures Rightly(t) <==> Sound(SplitLines(t))
  {
    hide *;
    var lines := SplitLines(t);
    CompleteLines(t);
    SoundFits(lines);
    RightlyIs(t);
    if Sound(lines) {
      FitsParts(lines);
      LayoutRight(lines);
      FitsEnds(lines, |lines|);
      AllBuckets(lines);
      NewLines(t);
    }
    if Rightly(t) {
      EndRight(lines);
      forall k | 0 <= k < |lines| && Seam(lines, k) ensures HeaderHere(lines, k) { SeamRight(lines, k); }
      forall k | 0 <= k < |lines| && TomlSub(lines, k) ensures IsHeader(lines[k]) { SubsSeen(lines, k); }
      FitsOf(lines);
    }
  }

  lemma RightlyIs(t: string)
    ensures var lines := SplitLines(t);
            Rightly(t) <==> RightFile(lines) && SplitLines(Planned(t).after) == ItemTexts(lines, Layout(lines))
    ensures RightFile(SplitLines(t)) <==>
              && GoesRight(SplitLines(t)) && AllRight(SplitLines(t), Layout(SplitLines(t)))
              && Run(SplitLines(t), Layout(SplitLines(t))).place == TOP
  {
    hide GoesRight, AllRight, Run, Layout, SplitLines, Planned, ItemTexts;
  }

  lemma FitsOf(lines: seq<string>)
    requires RightFile(lines) && PlaceAt(lines, |lines|) == TOP
    requires forall k :: 0 <= k < |lines| && Seam(lines, k) ==> HeaderHere(lines, k)
    requires forall k :: 0 <= k < |lines| && TomlSub(lines, k) ==> IsHeader(lines[k])
    ensures Fits(lines)
  {
    hide GoesRight, AllRight, Run, Layout, Seam, TomlSub, HeaderHere, PlaceAt, TableName;
  }
}
