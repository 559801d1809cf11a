/** No line is lost in the SKILL.toml migration: the lines of the new file, counted. */
module MigrationLines {
  import opened Text
  import opened Migration
  import opened MigrationRerun
  import opened MigrationTables
  import opened MigrationMeaning
  import opened MigrationFinalLine
  import opened MigrationKept

  function Bag(secs: seq<Section>): multiset<string> {
    multiset(Flat(secs))
  }

  function Blanks(n: nat): multiset<string> {
    if n == 0 then multiset{} else Blanks(n - 1) + multiset{"\n"}
  }

  /** The bags of all lines that stay, and of all lines of the sub-tables that are renamed. */
  function StayBag(secs: seq<Section>): multiset<string> {
    if secs == [] then multiset{} else StayBag(secs[..|secs| - 1]) + multiset(KeptLines(secs[|secs| - 1]))
  }

  function SubBag(secs: seq<Section>): multiset<string> {
    if secs == [] then multiset{} else
    var s := secs[|secs| - 1];
    SubBag(secs[..|secs| - 1]) + (if SubSuffix(s.table).Some? then multiset(s.lines) else multiset{})
  }

  /** What the header of a renamed sub-table is written from: with it goes the line it runs into. */
  function Before(s: Section): multiset<string> {
    if s.lines == [] then multiset{}
    else if |s.lines| > 1 && !EndsLine(s.lines[0]) then multiset{s.lines[0], s.lines[1]}
    else multiset{s.lines[0]}
  }

  /** The headers of the renamed sub-tables, as they were. */
  function HeadersBefore(secs: seq<Section>): multiset<string> {
    if secs == [] then multiset{} else
    var s := secs[|secs| - 1];
    HeadersBefore(secs[..|secs| - 1]) + (if SubSuffix(s.table).Some? then Before(s) else multiset{})
  }

  /** The same headers, as they are written. */
  function HeadersAfter(secs: seq<Section>): multiset<string> {
    if secs == [] then multiset{} else
    var s := secs[|secs| - 1];
    HeadersAfter(secs[..|secs| - 1])
    + (if SubSuffix(s.table).Some? && s.lines != [] then multiset{FullLines(s)[0]} else multiset{})
  }

  lemma BagAdd(secs: seq<Section>, s: Section)
    ensures Bag(secs + [s]) == Bag(secs) + multiset(s.lines)
  {
    FlatSnoc(secs, s);
  }

  lemma BagBlank(secs: seq<Section>)
    requires secs != []
    ensures Bag(AddBlank(secs)) == Bag(secs) + multiset{"\n"}
  {
    hide Bag;
    var last, rest := secs[|secs| - 1], secs[..|secs| - 1];
    assert secs == rest + [last];
    BagAdd(rest, last);
    BagAdd(rest, last.(lines := last.lines + ["\n"]));
  }

  /** All these lines end in a newline. */
  ghost predicate Ending(m: multiset<string>) {
    forall l :: l in m ==> EndsLine(l)
  }

  lemma EndingText(secs: seq<Section>)
    requires Ending(Bag(secs))
    ensures EnsureNewline(Join(Flat(secs))) == Join(Flat(secs))
  {
    var lines := Flat(secs);
    if lines != [] {
      assert forall i :: 0 <= i < |lines| ==> lines[i] in Bag(secs);
      LastLine(lines);
    }
  }

  /** A gap is one blank line, or two after a line break that is not a newline. */
  lemma BagGap(secs: seq<Section>) returns (n: nat)
    requires secs != []
    ensures Bag(Gap(secs)) == Bag(secs) + Blanks(n) && 1 <= n <= 2
    ensures Ending(Bag(secs)) ==> n == 1
  {
    hide *;
    if Ending(Bag(secs)) { EndingText(secs); }
    var ends := EnsureNewline(Join(Flat(secs))) == Join(Flat(secs));
    n := if ends then 1 else 2;
    GapIs(secs);
    FewBlanks();
    BagBlank(secs);
    AddBlankSome(secs);
    BagBlank(AddBlank(secs));
    Thrice(Bag(secs), multiset{"\n"});
  }

  lemma GapIs(secs: seq<Section>)
    ensures Gap(secs)
         == if EnsureNewline(Join(Flat(secs))) == Join(Flat(secs)) then AddBlank(secs) else AddBlank(AddBlank(secs))
  {
    hide AddBlank, EnsureNewline, Join, Flat;
  }

  lemma FewBlanks()
    ensures Blanks(1) == multiset{"\n"} && Blanks(2) == multiset{"\n"} + multiset{"\n"}
  {
    assert Blanks(0) == multiset{} && Blanks(1) == Blanks(0) + multiset{"\n"}
           && Blanks(2) == Blanks(1) + multiset{"\n"};
  }

  lemma Thrice(a: multiset<string>, b: multiset<string>)
    ensures a + b + b == a + (b + b)
  {
  }

  lemma {:induction false} SelectBag(lines: seq<string>)
    ensures multiset(Select(lines, false)) + multiset(Select(lines, true)) == multiset(lines)
  {
    if lines != [] {
      hide Moves;
      var n := |lines| - 1;
      assert lines == lines[..n] + [lines[n]];
      SelectBag(lines[..n]);
    }
  }

  lemma KeptMoved(s: Section)
    requires s.table.Some? ==> s.lines != []
    ensures SubSuffix(s.table).None? ==> multiset(KeptLines(s)) + multiset(MovedLines(s)) == multiset(s.lines)
    ensures SubSuffix(s.table).Some? ==> KeptLines(s) == [] && MovedLines(s) == []
  {
    hide Select;
    if s.table == SKILL {
      assert s.lines == [s.lines[0]] + s.lines[1..];
      SelectBag(s.lines[1..]);
    }
  }

  lemma BagsNext(secs: seq<Section>, s: Section)
    ensures StayBag(secs + [s]) == StayBag(secs) + multiset(KeptLines(s))
    ensures SubBag(secs + [s]) == SubBag(secs) + (if SubSuffix(s.table).Some? then multiset(s.lines) else multiset{})
    ensures Forge(secs + [s]) == Forge(secs) + MovedLines(s)
  {
    hide SubSuffix, KeptLines, MovedLines;
    assert (secs + [s])[..|secs|] == secs;
  }

  lemma {:induction false} BagParts(secs: seq<Section>)
    requires GoodSections(secs)
    ensures StayBag(secs) + multiset(Forge(secs)) + SubBag(secs) == Bag(secs)
  {
    hide *;
    if secs == [] {
      StayNothing([]);
      NothingForge();
    } else {
      var n := |secs| - 1;
      var prior, s := secs[..n], secs[n];
      assert secs == prior + [s];
      GoodNext(prior, s);
      BagParts(prior);
      BagAdd(prior, s);
      BagsNext(prior, s);
      KeptMoved(s);
      var sub := if SubSuffix(s.table).Some? then multiset(s.lines) else multiset{};
      assert multiset(KeptLines(s)) + multiset(MovedLines(s)) + sub == multiset(s.lines);
      Sums(StayBag(prior), multiset(Forge(prior)), SubBag(prior), multiset(KeptLines(s)), multiset(MovedLines(s)), sub);
    }
  }

  lemma NothingForge()
    ensures Forge([]) == []
  {
  }

  lemma Sums(a: multiset<string>, b: multiset<string>, c: multiset<string>, x: multiset<string>, y: multiset<string>,
             z: multiset<string>)
    ensures (a + x) + (b + y) + (c + z) == (a + b + c) + (x + y + z)
  {
  }

  lemma GoodNext(secs: seq<Section>, s: Section)
    requires GoodSections(secs + [s])
    ensures GoodSections(secs) && (s.table.Some? ==> s.lines != [])
  {
    hide TableName, NoneEmpty;
    assert (secs + [s])[|secs|] == s;
    assert forall i :: 0 <= i < |secs| ==> secs[i] == (secs + [s])[i];
    assert GoodSection(s);
  }

  function ForgeBag(forge: seq<string>, n: nat): multiset<string> {
    Blanks(n) + multiset{"[forge]\n"} + multiset(forge)
  }

  lemma PutBag(r: (seq<Section>, bool), s: Section, forge: seq<string>) returns (n: nat)
    ensures Bag(Put(r, s, forge).0)
         == Bag(r.0) + multiset(KeptLines(s)) + (if !r.1 && Put(r, s, forge).1 then ForgeBag(forge, n) else multiset{})
    ensures r.1 ==> Put(r, s, forge).1
    ensures 1 <= n <= 2 && (Ending(Bag(r.0) + multiset(KeptLines(s))) ==> n == 1)
  {
    hide *;
    n := 1;
    PutIs(r, s, forge);
    if SubSuffix(s.table).None? {
      var k := s.(lines := KeptLines(s));
      BagAdd(r.0, k);
      if s.table == SKILL && !r.1 {
        n := BagGap(r.0 + [k]);
        BagAdd(Gap(r.0 + [k]), ForgeSection(forge));
        ForgeBagIs(forge, n);
        ForgeLines(forge);
        assert Bag(r.0 + [k]) + Blanks(n) + (multiset{"[forge]\n"} + multiset(forge))
               == Bag(r.0 + [k]) + (Blanks(n) + multiset{"[forge]\n"} + multiset(forge));
      }
    }
  }

  lemma PutIs(r: (seq<Section>, bool), s: Section, forge: seq<string>)
    ensures var k := s.(lines := KeptLines(s));
            Put(r, s, forge) == if SubSuffix(s.table).Some? then r
                                else if s.table == SKILL && !r.1 then (Gap(r.0 + [k]) + [ForgeSection(forge)], true)
                                else (r.0 + [k], r.1)
    ensures SubSuffix(s.table).Some? ==> KeptLines(s) == []
  {
    hide Gap, ForgeSection;
  }

  lemma ForgeLines(forge: seq<string>)
    ensures multiset(ForgeSection(forge).lines) == multiset{"[forge]\n"} + multiset(forge)
  {
    assert multiset(["[forge]\n"] + forge) == multiset{"[forge]\n"} + multiset(forge);
  }

  lemma StayNothing(forge: seq<string>)
    ensures StayBag([]) == multiset{} && Bag([]) == multiset{} && StayingOut([], forge) == ([], false)
    ensures SubBag([]) == multiset{}
  {
  }

  lemma {:induction false} StayingBag(secs: seq<Section>, forge: seq<string>) returns (n: nat)
    ensures Bag(StayingOut(secs, forge).0)
            == StayBag(secs) + (if StayingOut(secs, forge).1 then ForgeBag(forge, n) else multiset{})
    ensures 1 <= n <= 2 && (Ending(StayBag(secs)) ==> n == 1)
  {
    hide *;
    if secs == [] {
      StayNothing(forge);
      n := 1;
    } else {
      var m := |secs| - 1;
      var prior, s := secs[..m], secs[m];
      assert secs == prior + [s];
      n := StayingBag(prior, forge);
      StayingNext(prior, s, forge);
      var k := PutBag(StayingOut(prior, forge), s, forge);
      BagsNext(prior, s);
      EndingPart(StayBag(prior), multiset(KeptLines(s)));
      assert StayBag(prior) + multiset{} == StayBag(prior);
      if !StayingOut(prior, forge).1 { n := k; }
    }
  }

  lemma EndingPart(a: multiset<string>, b: multiset<string>)
    ensures Ending(a + b) <==> Ending(a) && Ending(b)
  {
    hide EndsLine;
    assert forall l :: l in a + b <==> l in a || l in b;
  }

  lemma WithForgeBag(r: (seq<Section>, bool), forge: seq<string>) returns (n: nat)
    requires r.0 != []
    ensures Bag(WithForge(r, forge)) == Bag(r.0) + (if r.1 then multiset{} else ForgeBag(forge, n))
    ensures 1 <= n <= 2 && (Ending(Bag(r.0)) ==> n == 1)
  {
    hide Bag, Gap, Ending, Blanks;
    n := BagGap(r.0);
    BagAdd(Gap(r.0), ForgeSection(forge));
    assert multiset(["[forge]\n"] + forge) == multiset{"[forge]\n"} + multiset(forge);
  }

  lemma HeadersNext(secs: seq<Section>, s: Section)
    ensures SubSuffix(s.table).Some? && s.lines != [] ==>
              && HeadersBefore(secs + [s]) == HeadersBefore(secs) + Before(s)
              && HeadersAfter(secs + [s]) == HeadersAfter(secs) + multiset{FullLines(s)[0]}
              && |Suffixes(secs + [s])| == |Suffixes(secs)| + 1
              && Blanks(|Suffixes(secs)| + 1) == Blanks(|Suffixes(secs)|) + multiset{"\n"}
    ensures SubSuffix(s.table).None? ==>
              && HeadersBefore(secs + [s]) == HeadersBefore(secs) && HeadersAfter(secs + [s]) == HeadersAfter(secs)
              && Suffixes(secs + [s]) == Suffixes(secs)
    ensures HeadersBefore([]) == multiset{} && HeadersAfter([]) == multiset{} && Suffixes([]) == []
    ensures SubBag([]) == multiset{} && Blanks(0) == multiset{} && Blanks(1) == multiset{"\n"}
  {
    hide SubSuffix, Before, FullLines;
    assert (secs + [s])[..|secs|] == secs;
    assert Blanks(1) == Blanks(0) + multiset{"\n"};
  }

  lemma SubLinesBag(s: Section)
    requires SubSection(s)
    ensures multiset(FullLines(s)) + Before(s) == multiset(s.lines) + multiset{FullLines(s)[0]}
  {
    hide SubSuffix, CleanLines, NewHeader;
    assert s.lines == [s.lines[0]] + s.lines[1..];
    if |s.lines| > 1 {
      assert s.lines[1..] == [s.lines[1]] + s.lines[2..];
      assert FullLines(s) == [FullLines(s)[0]] + FullLines(s)[1..];
    }
  }

  lemma Balance(a: multiset<string>, b: multiset<string>, c: multiset<string>, d: multiset<string>, e: multiset<string>,
                x: multiset<string>, h: multiset<string>, l: multiset<string>, g: multiset<string>, w: multiset<string>)
    requires a + b == c + d + e && x + h == l + g
    ensures (a + w + x) + (b + h) == (c + l) + (d + g) + (e + w)
  {
    forall k: string ensures ((a + w + x) + (b + h))[k] == ((c + l) + (d + g) + (e + w))[k] {
      assert (a + b)[k] == (c + d + e)[k] && (x + h)[k] == (l + g)[k];
    }
  }

  lemma {:induction false} BlanksAdd(n: nat, k: nat)
    ensures Blanks(n) + Blanks(k) == Blanks(n + k)
  {
    if k > 0 {
      BlanksAdd(n, k - 1);
      assert Blanks(n + k) == Blanks(n + (k - 1)) + multiset{"\n"};
    } else {
      assert Blanks(n) + Blanks(0) == Blanks(n);
    }
  }

  lemma {:induction false} BlanksEnd(n: nat)
    ensures Ending(Blanks(n))
  {
    if n > 0 { BlanksEnd(n - 1); }
  }

  lemma {:induction false} HeadersEnd(secs: seq<Section>)
    requires SubSections(secs) && Ending(SubBag(secs))
    ensures Ending(HeadersAfter(secs))
  {
    hide *;
    if secs == [] {
      HeadersNext([], Section(None, []));
      NoneEnding();
    } else {
      var n := |secs| - 1;
      var prior, s := secs[..n], secs[n];
      assert secs == prior + [s];
      SubsWorthNext(prior, s);
      BagsNext(prior, s);
      HeadersNext(prior, s);
      EndingPart(SubBag(prior), if SubSuffix(s.table).Some? then multiset(s.lines) else multiset{});
      HeadersEnd(prior);
      if SubSuffix(s.table).Some? {
        SubSectionIs(s);
        FirstEnds(s);
        EndingPart(HeadersAfter(prior), multiset{FullLines(s)[0]});
      }
    }
  }

  lemma NoneEnding()
    ensures Ending(multiset{})
  {
  }

  lemma FirstEnds(s: Section)
    requires SubSuffix(s.table).Some? && s.lines != [] && Ending(multiset(s.lines))
    ensures Ending(multiset{FullLines(s)[0]})
  {
    hide SubSuffix, NewHeader;
    assert s.lines[0] in multiset(s.lines);
  }

  lemma EndingSome(a: multiset<string>, b: multiset<string>, m: multiset<string>)
    requires a + b == m && Ending(m)
    ensures Ending(a)
  {
    EndingPart(a, b);
  }

  /** The lines of a text that ends in a line break and in which all lines end in newlines. */
  lemma EndingWhole(a: string)
    requires Ending(multiset(SplitLines(Completed(a))))
    ensures Broken(a) ==> EnsureNewline(a) == a
  {
    hide SplitLines;
    if Broken(a) {
      JoinSplit(a);
      SplitNoneEmpty(a);
      var lines := SplitLines(a);
      if lines != [] {
        assert lines[|lines| - 1] in multiset(lines);
        LastLine(lines);
      } else {
        assert Join([]) == "";
      }
    }
  }

  /** One more sub-table. */
  lemma SubBagText(a: string, s: Section) returns (k: nat)
    requires Whole(a) && SubSection(s)
    ensures var c := EnsureNewline(a) + "\n" + Join(SubLines(s));
            && Whole(c) && multiset(SplitLines(Completed(c)))
              == multiset(SplitLines(Completed(a))) + Blanks(k) + multiset(FullLines(s))
    ensures 1 <= k <= 2 && (Ending(multiset(SplitLines(Completed(a)))) ==> k == 1)
  {
    hide *;
    SubText(a, s);
    SubSectionIs(s);
    WholeAgain(a);
    HeadersNext([], s);
    BlanksAdd(1, 1);
    if Ending(multiset(SplitLines(Completed(a)))) { EndingWhole(a); }
    k := if Broken(a) && EnsureNewline(a) != a then 2 else 1;
    assert multiset(["\n"]) == multiset{"\n"};
  }

  lemma {:induction false} SubsBag(out: string, secs: seq<Section>) returns (n: nat)
    requires Broken(out) && SubSections(secs)
    ensures Whole(AppendSubs(out, secs))
    ensures multiset(SplitLines(Completed(AppendSubs(out, secs)))) + HeadersBefore(secs)
         == multiset(SplitLines(out)) + SubBag(secs) + HeadersAfter(secs) + Blanks(n)
    ensures |Suffixes(secs)| <= n <= 2 * |Suffixes(secs)|
    ensures Ending(multiset(SplitLines(out))) && Ending(SubBag(secs)) ==> n == |Suffixes(secs)|
  {
    hide *;
    if secs == [] {
      HeadersNext([], Section(None, []));
      AppendStart(out);
      n := 0;
    } else {
      var m := |secs| - 1;
      var prior, s := secs[..m], secs[m];
      assert secs == prior + [s];
      SubsWorthNext(prior, s);
      n := SubsBag(out, prior);
      BagsNext(prior, s);
      HeadersNext(prior, s);
      AppendNext(out, prior, s);
      assert SubBag(prior) + multiset{} == SubBag(prior);
      if SubSuffix(s.table).Some? {
        SubSectionIs(s);
        var a := AppendSubs(out, prior);
        var k := SubBagText(a, s);
        SubLinesBag(s);
        Balance(multiset(SplitLines(Completed(a))), HeadersBefore(prior), multiset(SplitLines(out)) + SubBag(prior),
                HeadersAfter(prior), Blanks(n), multiset(FullLines(s)), Before(s), multiset(s.lines),
                multiset{FullLines(s)[0]}, Blanks(k));
        BlanksAdd(n, k);
        EndingPart(SubBag(prior), multiset(s.lines));
        AllEnd(out, prior, n);
        n := n + k;
      }
    }
  }

  lemma AllEnd(out: string, secs: seq<Section>, n: nat)
    requires SubSections(secs)
    requires multiset(SplitLines(Completed(AppendSubs(out, secs)))) + HeadersBefore(secs)
          == multiset(SplitLines(out)) + SubBag(secs) + HeadersAfter(secs) + Blanks(n)
    ensures Ending(multiset(SplitLines(out))) && Ending(SubBag(secs)) ==>
              Ending(multiset(SplitLines(Completed(AppendSubs(out, secs)))))
  {
    hide *;
    var first := multiset(SplitLines(out));
    if Ending(first) && Ending(SubBag(secs)) {
      BlanksEnd(n);
      HeadersEnd(secs);
      EndingPart(first, SubBag(secs));
      EndingPart(first + SubBag(secs), HeadersAfter(secs));
      EndingPart(first + SubBag(secs) + HeadersAfter(secs), Blanks(n));
      EndingSome(multiset(SplitLines(Completed(AppendSubs(out, secs)))), HeadersBefore(secs),
                 first + SubBag(secs) + HeadersAfter(secs) + Blanks(n));
    }
  }

  lemma {:induction false} StayMended(secs: seq<Section>)
    ensures StayBag(MendedAll(secs)) == StayBag(secs)
  {
    hide *;
    if secs == [] {
      MendedNext([], Section(None, []));
    } else {
      var n := |secs| - 1;
      assert secs == secs[..n] + [secs[n]];
      StayMended(secs[..n]);
      MendedNext(secs[..n], secs[n]);
      MendedSame(secs[n]);
      BagsNext(secs[..n], secs[n]);
      BagsNext(MendedAll(secs[..n]), Mended(secs[n]));
    }
  }

  /** The lines before the sub-tables are appended. */
  lemma StartBag(secs: seq<Section>) returns (n: nat)
    requires CleanSections(MendedAll(secs)) && secs != []
    ensures multiset(SplitLines(Start(secs))) == StayBag(secs) + ForgeBag(Forge(secs), n)
    ensures 1 <= n <= 2 && (Ending(StayBag(secs)) ==> n == 1)
  {
    hide *;
    var m := MendedAll(secs);
    var forge := Forge(m);
    var r := StayingOut(m, forge);
    MendedForge(secs);
    MendedSome(secs);
    StartBroken(secs);
    CleanEach(m);
    ForgeClean(m);
    StayingClean(m, forge);
    StayMended(secs);
    var a := StayingBag(m, forge);
    var b := WithForgeBag(r, forge);
    var with := WithForge(r, forge);
    n := if r.1 then a else b;
    ForgeOnce(StayBag(secs), Bag(r.0), Bag(with), r.1, forge, a, b);
    BagIs(with);
    CleanText(with);
    SplitOfJoin(Flat(with));
  }

  lemma ForgeOnce(stay: multiset<string>, staying: multiset<string>, with: multiset<string>, inserted: bool,
                  forge: seq<string>, a: nat, b: nat)
    requires staying == stay + (if inserted then ForgeBag(forge, a) else multiset{})
    requires with == staying + (if inserted then multiset{} else ForgeBag(forge, b))
    ensures with == stay + ForgeBag(forge, if inserted then a else b)
    ensures !inserted ==> staying == stay
  {
    hide ForgeBag;
  }

  lemma ForgeBagIs(forge: seq<string>, n: nat)
    ensures ForgeBag(forge, n) == Blanks(n) + multiset{"[forge]\n"} + multiset(forge)
  {
    hide Blanks;
  }

  lemma ForgeEnd()
    ensures Ending(multiset{"[forge]\n"})
  {
  }

  /** No line is lost: the lines of the new file, its last one completed, are those of the old one, with the
      headers of the renamed sub-tables written anew (and a line that one of them runs into as a part of it), one
      `[forge]` header, and a blank line before it and before each of them: one, or two where the line before
      ends in another line break than the newline. */
  lemma NoLineLost(t: string) returns (n: nat)
    requires Broken(t) && Planned(t).Changed()
    ensures var secs := Sections(SplitLines(t));
            multiset(SplitLines(Completed(Planned(t).after))) + HeadersBefore(secs) ==
            multiset(SplitLines(t)) + HeadersAfter(secs) + multiset{"[forge]\n"} + Blanks(n)
    ensures |Planned(t).movedSubtables| < n <= 2 * (|Planned(t).movedSubtables| + 1)
    ensures (forall l :: l in SplitLines(t) ==> EndsLine(l)) ==> n == |Planned(t).movedSubtables| + 1
  {
    hide *;
    var secs := Sections(SplitLines(t));
    AfterIs(t);
    PlanSuffixes(t);
    TextMended(t);
    var forge := Forge(secs);
    var f := StartBag(secs);
    var k := SubsBag(Start(secs), secs);
    n := f + k;
    BagParts(secs);
    FlatSections(SplitLines(t));
    BagIs(secs);
    BlanksAdd(f, k);
    ForgeBagIs(forge, f);
    EndingLines(SplitLines(t));
    EndingPart(StayBag(secs), multiset(forge));
    EndingPart(StayBag(secs) + multiset(forge), SubBag(secs));
    ForgeEnd();
    BlanksEnd(f);
    EndingPart(Blanks(f), multiset{"[forge]\n"});
    EndingPart(Blanks(f) + multiset{"[forge]\n"}, multiset(forge));
    EndingPart(StayBag(secs), ForgeBag(forge, f));
  }

  lemma EndingLines(lines: seq<string>)
    ensures (forall l :: l in lines ==> EndsLine(l)) ==> Ending(multiset(lines))
  {
  }

  lemma BagIs(secs: seq<Section>)
    ensures Bag(secs) == multiset(Flat(secs))
  {
  }

  /** No line is lost when the file does not end in a line break, either; its last line, and that of the
      migrated file, are completed for the comparison. */
  lemma NoLineLostAtEnd(t: string) returns (n: nat)
    requires !Broken(t) && Planned(t).Changed()
    requires !Glued(Sections(SplitLines(t)))
    ensures var secs := Sections(SplitLines(t + "\n"));
            multiset(SplitLines(EnsureNewline(Planned(t).after))) + HeadersBefore(secs) ==
            multiset(SplitLines(t + "\n")) + HeadersAfter(secs) + multiset{"[forge]\n"} + Blanks(n)
    ensures |Planned(t).movedSubtables| < n <= 2 * (|Planned(t).movedSubtables| + 1) + 1
  {
    hide *;
    FinalNewline(t);
    ChangedAtEnd(t);
    NewlineAdded(t);
    SameSubtables(t);
    n := NoLineLost(t + "\n");
    AfterIs(t + "\n");
    var after := Planned(t + "\n").after;
    WholeAgain(after);
    HeadersNext([], Section(None, []));
    if Broken(after) && EnsureNewline(after) != after {
      BlanksAdd(n, 1);
      var lines, secs := SplitLines(Completed(after)), Sections(SplitLines(t + "\n"));
      assert multiset(lines + ["\n"]) == multiset(lines) + multiset{"\n"};
      assert multiset(lines) + multiset{"\n"} + HeadersBefore(secs)
             == multiset(lines) + HeadersBefore(secs) + multiset{"\n"};
      n := n + 1;
    }
  }

  lemma SameSubtables(t: string)
    requires !Broken(t) && Planned(t).Changed() && Planned(t + "\n").Changed()
    ensures Planned(t + "\n").movedSubtables == Planned(t).movedSubtables
  {
    hide *;
    SplitEnd(t);
    var lines := SplitLines(t);
    var rest, line := lines[..|lines| - 1], lines[|lines| - 1];
    assert lines == rest + [line];
    var prior, table, body := LastSection(rest, line);
    SameMoves(prior, table, body, line);
    PlanSuffixes(t);
    PlanSuffixes(t + "\n");
  }

  lemma PlanSuffixes(t: string)
    requires Planned(t).Changed()
    ensures Planned(t).movedSubtables == Suffixes(Sections(SplitLines(t)))
  {
    hide HasForge, NewText, Sections, SplitLines, Keys, Forge, Suffixes;
  }
}
