/** Where the scanner for Rust and the language part: an apostrophe that opens no character literal. */
module RustLimits {
  import opened Text
  import opened Printing
  import opened RustLexer
  import opened RustRoundTrip

  /** A lone apostrophe (a lifetime, say) is passed by exactly when no other one that is not escaped
      follows within twelve characters on its line. */
  lemma TickExact(t: string, p: nat, rest: string)
    requires Reads(t, p, "'", rest)
    ensures CharEnd(t, p) == p + 1 <==> forall i :: 0 <= i ==> !ClosesTick(rest, i)
  {
    TickWindow(t, p, rest);
  }

  lemma {:induction false} CloseIs(t: string, open: nat, q: nat, stop: nat)
    requires open < q <= stop < |t| && stop - open <= 12 && t[stop] == '\''
    requires forall i :: q <= i < stop ==> !IsBreak(t[i]) && t[i] != '\\' && t[i] != '\''
    ensures CharClose(t, open, q, false) == Some(stop + 1)
    decreases stop - q
  {
    if q < stop { CloseIs(t, open, q + 1, stop); }
  }

  /** Whatever stands between two such apostrophes is not looked at. */
  lemma TickHides(t: string, p: nat, body: string, rest: string, id: nat)
    requires Reads(t, p, "'" + body + "'", rest) && |body| <= 11
    requires forall i :: 0 <= i < |body| ==> !IsBreak(body[i]) && body[i] != '\\' && body[i] != '\''
    ensures Spans(t, p, Code, id) == Spans(t, p + |body| + 2, Code, id)
  {
    var w := "'" + body + "'";
    var stop := p + |body| + 1;
    assert t[p + 0] == w[0] && t[p + (|body| + 1)] == w[|body| + 1];
    forall i | p + 1 <= i < stop ensures !IsBreak(t[i]) && t[i] != '\\' && t[i] != '\'' {
      assert t[p + (i - p)] == w[i - p] == body[i - p - 1];
    }
    CloseIs(t, p, p + 1, stop);
    QuoteSpans(t, p, id);
  }

  /** So a comment after a lifetime can be missed: here there is one, by the token list, and none is found. */
  lemma CommentAfterLifetime()
    ensures var xs := [Tick, Plain("a, "), LineComment(" it's")];
            TokenSpans(xs, 0, 0) != [] && AllSpans(Print(xs)) == []
  {
    var xs := [Tick, Plain("a, "), LineComment(" it's")];
    var body, rest := "a, // it", "s";
    var t := "'" + body + "'" + rest;
    PrintExample();
    TickHides(t, 0, body, rest, 0);
    EndOfLine(t, 10, 0);
  }

  lemma PrintExample()
    ensures var xs := [Tick, Plain("a, "), LineComment(" it's")];
            Print(xs) == "'" + "a, // it" + "'" + "s" && TokenSpans(xs, 0, 0) != []
  {
    var c, b := [LineComment(" it's")], [Plain("a, "), LineComment(" it's")];
    assert b[1..] == c && c[1..] == [];
    assert Print(c) == PrintToken(c[0]) + Print([]);
    assert Print(b) == "a, " + Print(c);
    assert [Tick, Plain("a, "), LineComment(" it's")][1..] == b;
  }

  lemma EndOfLine(t: string, p: nat, id: nat)
    requires |t| == p + 1 && t[p] == 's'
    ensures Spans(t, p, Code, id) == []
  {
    assert RawOpen(t, p) == None;
    assert Spans(t, p, Code, id) == Spans(t, p + 1, Code, id);
  }

  lemma TwoWindow()
    ensures Window("a, 'b>", 0) == 4
  {
    hide Window;
    var s := "a, 'b>";
    assert forall i :: 0 <= i < 3 ==> s[i] != '\'' && !IsBreak(s[i]);
    assert s[3] == '\'' && !IsEscaped(s, 3) && NoBreak(s[..3]);
    assert ClosesTick(s, 3) && forall i :: 0 <= i < 3 ==> !ClosesTick(s, i);
  }

  lemma TwoPrint()
    ensures Print([Plain("b>")]) == "b>" && Print([Tick, Plain("b>")]) == "'b>"
    ensures Print([Plain("a, "), Tick, Plain("b>")]) == "a, 'b>"
  {
    var d, c, b := [Plain("b>")], [Tick, Plain("b>")], [Plain("a, "), Tick, Plain("b>")];
    assert b[1..] == c && c[1..] == d && d[1..] == [];
    assert Print(d) == "b>" + Print([]);
    assert Print(c) == "'" + Print(d);
    assert Print(b) == "a, " + Print(c);
  }

  lemma TwoPlain()
    ensures WellToken(Plain("b>"))
  {
  }

  /** Where only code stands between two apostrophes nothing is lost: `'a, 'b>` is well-formed. */
  lemma TwoLifetimes()
    ensures WellFormed([Tick, Plain("a, "), Tick, Plain("b>")])
  {
    hide Print, Window, WellToken;
    var d, c, b := [Plain("b>")], [Tick, Plain("b>")], [Plain("a, "), Tick, Plain("b>")];
    var all := [Tick] + b;
    assert all == [Tick, Plain("a, "), Tick, Plain("b>")] && all[1..] == b;
    assert b[1..] == c && c[1..] == d && d[1..] == [];
    TwoPlain();
    assert Skips(d, 0) && Skips(c, 1) && Skips(b, 4);
    TwoPrint();
    TwoWindow();
    assert WellToken(Tick) by { TickWell(); }
    assert WellFormed(all);
  }

  lemma TickWell()
    ensures WellToken(Tick)
  {
  }
}
