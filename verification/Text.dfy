/** Lines of text as the scanners see them, and the comments they report.

    A text is what Python's text-mode `read` returns, so carriage returns have already
    been translated; `SplitLines` is `str.splitlines(keepends=True)` on such a text. */
module Text {

  datatype Option<+T> = None | Some(value: T)

  datatype Family = RustLine | RustBlock | HashLine | NixBlock

  datatype Comment = Comment(path: string, line: nat, source: string, text: string,
                             family: Family, blockId: Option<nat>, continues: bool)

  // ----- Characters -----

  /** The characters that end a line for `str.splitlines` (other than carriage return). */
  predicate IsBreak(c: char) {
    || c == '\n' || '\U{000B}' <= c <= '\U{000C}' || '\U{001C}' <= c <= '\U{001E}'
    || c == '\U{0085}' || '\U{2028}' <= c <= '\U{2029}'
  }

  /** `str.isspace` on one character; also what `\s` matches. */
  predicate IsSpace(c: char) {
    || '\U{0009}' <= c <= '\U{000D}' || '\U{001C}' <= c <= '\U{0020}' || c == '\U{0085}'
    || c == '\U{00A0}' || c == '\U{1680}' || '\U{2000}' <= c <= '\U{200A}'
    || '\U{2028}' <= c <= '\U{2029}' || c == '\U{202F}' || c == '\U{205F}' || c == '\U{3000}'
  }

  predicate NoBreak(s: string) {
    forall i :: 0 <= i < |s| ==> !IsBreak(s[i])
  }

  // ----- Lines -----

  /** The position just after the first line break at or after `p`, or the end of the text. */
  function LineEnd(t: string, p: nat): (e: nat)
    requires p <= |t|
    ensures p <= e <= |t| && (p < |t| ==> p < e)
    decreases |t| - p
  {
    if p == |t| then p else if IsBreak(t[p]) then p + 1 else LineEnd(t, p + 1)
  }

  function SplitLines(t: string): (lines: seq<string>) {
    if t == "" then [] else
    var e := LineEnd(t, 0);
    [t[..e]] + SplitLines(t[e..])
  }

  function Join(lines: seq<string>): string {
    if lines == [] then "" else lines[0] + Join(lines[1..])
  }

  /** The absolute position at which line `k` (counting from 0) starts. */
  function Offset(lines: seq<string>, k: nat): nat
    requires k <= |lines|
  {
    if k == 0 then 0 else |lines[0]| + Offset(lines[1..], k - 1)
  }

  /** `lines` is what `splitlines` produces for some text. */
  ghost predicate IsSplit(lines: seq<string>) {
    SplitLines(Join(lines)) == lines
  }

  lemma {:induction false} JoinSplit(t: string)
    ensures Join(SplitLines(t)) == t
  {
    if t != "" {
      var e := LineEnd(t, 0);
      JoinSplit(t[e..]);
      assert SplitLines(t)[1..] == SplitLines(t[e..]);
    }
  }

  /** The number (from 1) and the content of the line that holds position `p`. */
  function Locate(t: string, p: nat): (nat, string)
    requires p < |t|
    decreases |t|
  {
    var e := LineEnd(t, 0);
    if p < e then (1, t[..e]) else
    var rest := Locate(t[e..], p - e);
    (rest.0 + 1, rest.1)
  }

  /** `str.rstrip("\n")` */
  function StripNewlines(s: string): (r: string)
    ensures |r| <= |s| && r == s[..|r|]
  {
    if s != "" && s[|s| - 1] == '\n' then StripNewlines(s[..|s| - 1]) else s
  }

  /** A reported comment; `line` is the line it is on. */
  function Add(path: string, line: string, number: nat, text: string, family: Family, blockId: Option<nat>): Comment {
    Comment(path, number, StripNewlines(line), text, family, blockId, false)
  }

  // ----- Searching -----

  /** `s.startswith(w, i)`, for a word of two, three or four characters, or any word */
  predicate At2(s: string, i: nat, a: char, b: char) {
    i + 1 < |s| && s[i] == a && s[i + 1] == b
  }

  predicate At3(s: string, i: nat, a: char, b: char, c: char) {
    i + 2 < |s| && s[i] == a && s[i + 1] == b && s[i + 2] == c
  }

  predicate At4(s: string, i: nat, a: char, b: char, c: char, d: char) {
    i + 3 < |s| && s[i] == a && s[i + 1] == b && s[i + 2] == c && s[i + 3] == d
  }

  predicate At(s: string, i: nat, w: string) {
    i + |w| <= |s| && forall j :: 0 <= j < |w| ==> s[i + j] == w[j]
  }

  /** `s.find(w, p)`, with `None` for -1 */
  function Find(s: string, w: string, p: nat): (r: Option<nat>)
    ensures r.Some? ==> p <= r.value && At(s, r.value, w) && forall q :: p <= q < r.value ==> !At(s, q, w)
    ensures r.None? ==> forall q :: p <= q ==> !At(s, q, w)
    decreases |s| - p
  {
    if p + |w| > |s| then None else if At(s, p, w) then Some(p) else Find(s, w, p + 1)
  }

  lemma Assoc<T>(a: seq<T>, b: seq<T>, c: seq<T>)
    ensures (a + b) + c == a + (b + c)
  {
  }

  // ----- One line inside its text -----

  /** `line` is line number `k + 1` of `t` and starts at position `off`. */
  ghost predicate OnLine(t: string, off: nat, line: string, k: nat) {
    && 0 < |line| && off + |line| <= |t|
    && (forall i {:trigger line[i]} :: 0 <= i < |line| ==> t[off + i] == line[i])
    && (forall i {:trigger line[i]} :: 0 <= i < |line| - 1 ==> !IsBreak(line[i]))
    && (off + |line| < |t| ==> IsBreak(line[|line| - 1]))
    && (forall q :: off <= q < off + |line| ==> Locate(t, q) == (k + 1, line))
  }

  lemma {:induction false} LineEndReach(t: string, p: nat, e: nat)
    requires p < e <= |t|
    requires forall i :: p <= i < e - 1 ==> !IsBreak(t[i])
    requires e < |t| ==> IsBreak(t[e - 1])
    ensures LineEnd(t, p) == e
    decreases e - p
  {
    if IsBreak(t[p]) {
    } else if p + 1 < e {
      LineEndReach(t, p + 1, e);
    }
  }

  lemma {:induction false} LineEndScan(t: string, p: nat)
    requires p < |t|
    ensures var e := LineEnd(t, p);
            && (forall i :: p <= i < e - 1 ==> !IsBreak(t[i]))
            && (e < |t| ==> IsBreak(t[e - 1]))
    decreases |t| - p
  {
    if !IsBreak(t[p]) && p + 1 < |t| {
      LineEndScan(t, p + 1);
    }
  }

  lemma FirstLine(t: string)
    requires t != ""
    ensures OnLine(t, 0, t[..LineEnd(t, 0)], 0)
  {
    LineEndScan(t, 0);
  }

  lemma SplitHead(lines: seq<string>)
    requires IsSplit(lines) && lines != []
    ensures Join(lines) != ""
    ensures LineEnd(Join(lines), 0) == |lines[0]| && lines[0] == Join(lines)[..|lines[0]|]
    ensures IsSplit(lines[1..])
  {
    var t := Join(lines);
    var e := LineEnd(t, 0);
    var split := SplitLines(t);
    assert split[0] == t[..e] && split[1..] == SplitLines(t[e..]);
    assert t[e..] == Join(lines[1..]);
  }

  /** A line of the tail of a text is a line of the text. */
  lemma OnLineShift(head: string, t: string, off: nat, line: string, k: nat)
    requires OnLine(t, off, line, k)
    requires head != "" && LineEnd(head + t, 0) == |head|
    ensures OnLine(head + t, |head| + off, line, k + 1)
  {
    var u := head + t;
    assert u[|head|..] == t;
    forall q | |head| + off <= q < |head| + off + |line|
      ensures Locate(u, q) == (k + 2, line)
    {
      assert Locate(t, q - |head|) == (k + 1, line);
    }
  }

  lemma {:induction false} OffsetNext(lines: seq<string>, k: nat)
    requires k < |lines|
    ensures Offset(lines, k + 1) == Offset(lines, k) + |lines[k]|
  {
    if k > 0 {
      OffsetNext(lines[1..], k - 1);
    }
  }

  lemma {:induction false} LineAt(lines: seq<string>, k: nat)
    requires IsSplit(lines) && k < |lines|
    ensures OnLine(Join(lines), Offset(lines, k), lines[k], k)
    decreases k
  {
    SplitHead(lines);
    if k == 0 {
      FirstLine(Join(lines));
    } else {
      LineAtNext(lines[0], lines[1..], k);
      assert lines == [lines[0]] + lines[1..];
    }
  }

  lemma {:induction false} LineAtNext(head: string, tail: seq<string>, k: nat)
    requires IsSplit(tail) && 0 < k <= |tail|
    requires head != "" && LineEnd(head + Join(tail), 0) == |head|
    ensures OnLine(head + Join(tail), |head| + Offset(tail, k - 1), tail[k - 1], k)
    decreases k, 0
  {
    hide OnLine, IsSplit, LineEnd, Join;
    LineAt(tail, k - 1);
    OnLineShift(head, Join(tail), Offset(tail, k - 1), tail[k - 1], k - 1);
  }

  lemma {:induction false} OffsetEnd(lines: seq<string>)
    ensures Offset(lines, |lines|) == |Join(lines)|
  {
    if lines != [] { OffsetEnd(lines[1..]); }
  }

  /** Inside a line, the end of the line is the end of the line of the whole text. */
  lemma LineEndLocal(t: string, off: nat, line: string, k: nat, i: nat)
    requires OnLine(t, off, line, k) && i < |line|
    ensures LineEnd(t, off + i) == off + |line|
  {
    forall q | off + i <= q < off + |line| - 1 ensures !IsBreak(t[q]) {
      assert t[q] == line[q - off];
    }
    assert t[off + |line| - 1] == line[|line| - 1];
    LineEndReach(t, off + i, off + |line|);
  }

  lemma NoBreakAt(w: string, j: nat)
    requires NoBreak(w) && j < |w|
    ensures !IsBreak(w[j])
  {
  }

  /** What follows a line begins a new one: the character after the last character of a line
      comes after a line break. So a word without breaks starts at a place of a line exactly
      when it starts there in the whole text: no look-ahead crosses a line end. */
  lemma AtLocal(t: string, off: nat, line: string, k: nat, i: nat, w: string)
    requires OnLine(t, off, line, k) && i < |line| && NoBreak(w)
    ensures At(t, off + i, w) == At(line, i, w)
  {
    if At(line, i, w) {
      forall j | 0 <= j < |w| ensures t[off + i + j] == w[j] {
        assert line[i + j] == w[j];
      }
    }
    if At(t, off + i, w) {
      var last := |line| - 1;
      if i + |w| > |line| {
        NoBreakAt(w, last - i);
        assert false;
      }
      forall j | 0 <= j < |w| ensures line[i + j] == w[j] {
        assert t[off + (i + j)] == line[i + j];
      }
    }
  }

  lemma CharLocal(t: string, off: nat, line: string, k: nat, i: nat)
    requires OnLine(t, off, line, k) && i < |line|
    ensures t[off + i] == line[i]
  {
  }

  lemma At2Local(t: string, off: nat, line: string, k: nat, i: nat, a: char, b: char)
    requires OnLine(t, off, line, k) && i < |line| && !IsBreak(a)
    ensures At2(t, off + i, a, b) == At2(line, i, a, b)
  {
    assert t[off + i] == line[i];
    if i + 1 < |line| {
      assert t[off + i + 1] == line[i + 1];
    }
  }

  lemma FindIs(s: string, w: string, p: nat, e: nat)
    requires p <= e && At(s, e, w) && forall q :: p <= q < e ==> !At(s, q, w)
    ensures Find(s, w, p) == Some(e)
  {
  }

  lemma {:induction false} FindSkip(s: string, w: string, p: nat, e: nat)
    requires p <= e && forall q :: p <= q < e ==> !At(s, q, w)
    ensures Find(s, w, p) == Find(s, w, e)
    decreases e - p
  {
    if p < e {
      FindSkip(s, w, p + 1, e);
    }
  }

  lemma FindLocal(t: string, off: nat, line: string, k: nat, i: nat, w: string)
    requires OnLine(t, off, line, k) && i <= |line| && NoBreak(w) && w != ""
    ensures Find(line, w, i).Some? ==> Find(t, w, off + i) == Some(off + Find(line, w, i).value)
    ensures Find(line, w, i).None? ==> Find(t, w, off + i) == Find(t, w, off + |line|)
  {
    var found := Find(line, w, i);
    var stop := if found.Some? then found.value else |line|;
    forall q | off + i <= q < off + stop
      ensures !At(t, q, w)
    {
      AtLocal(t, off, line, k, q - off, w);
    }
    FindSkip(t, w, off + i, off + stop);
    if found.Some? {
      AtLocal(t, off, line, k, stop, w);
    }
  }

  lemma SliceLocal(t: string, off: nat, line: string, k: nat, start: nat, i: nat)
    requires OnLine(t, off, line, k) && start <= i <= |line|
    ensures t[off + start..off + i] == line[start..i]
  {
    forall j | 0 <= j < i - start ensures t[off + start..off + i][j] == line[start..i][j] {
      assert t[off + (start + j)] == line[start + j];
    }
  }

  // ----- Comments as stretches of the whole text -----

  /** A comment found in the whole text: the stretch from `start` to `stop`. */
  datatype Span = Span(start: nat, stop: nat, family: Family, blockId: Option<nat>)

  predicate SpanIn(t: string, s: Span) {
    s.start <= s.stop <= |t|
  }

  function Piece(path: string, t: string, s: Span, start: nat, stop: nat): Comment
    requires start <= stop <= |t| && start < |t|
  {
    var (number, line) := Locate(t, start);
    Add(path, line, number, t[start..stop], s.family, s.blockId)
  }

  /** The pieces of a comment, one for each line it touches. */
  function Cut(path: string, t: string, s: Span): (pieces: seq<Comment>)
    requires SpanIn(t, s)
    decreases |t| - s.start
  {
    if s.start == s.stop then [] else
    var e := LineEnd(t, s.start);
    var stop := if e < s.stop then e else s.stop;
    [Piece(path, t, s, s.start, stop)] + Cut(path, t, s.(start := stop))
  }

  function CutAll(path: string, t: string, spans: seq<Span>): seq<Comment>
    requires forall s :: s in spans ==> SpanIn(t, s)
  {
    if spans == [] then [] else Cut(path, t, spans[0]) + CutAll(path, t, spans[1..])
  }

  /** Where the reported text of a line comment starting at `p` ends. */
  function LineCommentEnd(t: string, p: nat): (e: nat)
    requires p < |t|
    ensures p <= e <= |t|
  {
    var e := LineEnd(t, p);
    p + |StripNewlines(t[p..e])|
  }

  lemma CutCons(path: string, t: string, s: Span, rest: seq<Span>)
    requires SpanIn(t, s) && forall r :: r in rest ==> SpanIn(t, r)
    ensures CutAll(path, t, [s] + rest) == Cut(path, t, s) + CutAll(path, t, rest)
  {
    assert ([s] + rest)[1..] == rest;
  }

  lemma CutOnLine(path: string, t: string, s: Span)
    requires SpanIn(t, s) && s.start < s.stop <= LineEnd(t, s.start)
    ensures Cut(path, t, s) == [Piece(path, t, s, s.start, s.stop)]
  {
    assert Cut(path, t, s.(start := s.stop)) == [];
  }

  lemma StripKeeps(s: string)
    requires s != "" && s[0] != '\n'
    ensures StripNewlines(s) != ""
  {
  }

  lemma StripOne(s: string)
    requires s != "" && forall i :: 0 <= i < |s| - 1 ==> s[i] != '\n'
    ensures StripNewlines(s) == if s[|s| - 1] == '\n' then s[..|s| - 1] else s
  {
  }

  /** A comment that runs to the end of its line is reported as one piece, without the newline. */
  lemma LineCommentCut(path: string, t: string, off: nat, line: string, k: nat, i: nat, family: Family, rest: seq<Span>)
    requires OnLine(t, off, line, k) && i < |line| && line[i] != '\n'
    requires forall r :: r in rest ==> SpanIn(t, r)
    ensures CutAll(path, t, [Span(off + i, LineCommentEnd(t, off + i), family, None)] + rest)
         == [Add(path, line, k + 1, StripNewlines(line[i..]), family, None)] + CutAll(path, t, rest)
  {
    hide CutAll, Cut, LineEnd, StripNewlines, Locate;
    var text := StripNewlines(line[i..]);
    LineEndLocal(t, off, line, k, i);
    SliceLocal(t, off, line, k, i, |line|);
    assert line[i..|line|] == line[i..];
    StripKeeps(line[i..]);
    assert text == line[i..i + |text|];
    SliceLocal(t, off, line, k, i, i + |text|);
    var s := Span(off + i, off + i + |text|, family, None);
    CutOnLine(path, t, s);
    CutCons(path, t, s, rest);
  }

  /** A comment that reaches `i` on this line, or goes on after it, contributes one piece here. */
  lemma FirstPiece(path: string, t: string, off: nat, line: string, k: nat, start: nat, i: nat, s: Span)
    requires OnLine(t, off, line, k) && start < i <= |line| && SpanIn(t, s) && s.start == off + start
    requires s.stop == off + i || (off + i <= s.stop && i == |line|)
    ensures Cut(path, t, s)
            == [Add(path, line, k + 1, line[start..i], s.family, s.blockId)] + Cut(path, t, s.(start := off + i))
  {
    hide *;
    LineEndLocal(t, off, line, k, start);
    SliceLocal(t, off, line, k, start, i);
    LocateLocal(t, off, line, k, start);
    CutFirst(path, t, s);
  }

  lemma LocateLocal(t: string, off: nat, line: string, k: nat, i: nat)
    requires OnLine(t, off, line, k) && i < |line|
    ensures Locate(t, off + i) == (k + 1, line) && off + |line| <= |t|
  {
    hide Locate;
  }

  lemma CutFirst(path: string, t: string, s: Span)
    requires SpanIn(t, s) && s.start < s.stop
    ensures var e := LineEnd(t, s.start);
            var stop := if e < s.stop then e else s.stop;
            var (number, line) := Locate(t, s.start);
            Cut(path, t, s) == [Add(path, line, number, t[s.start..stop], s.family, s.blockId)]
              + Cut(path, t, s.(start := stop))
  {
    hide LineEnd, Locate, Add;
  }

  /** Cutting a comment into lines loses nothing: the pieces joined are the comment. */
  lemma {:induction false} CutTiles(path: string, t: string, s: Span)
    requires SpanIn(t, s)
    ensures Texts(Cut(path, t, s)) == t[s.start..s.stop]
    ensures forall c :: c in Cut(path, t, s) ==> c.blockId == s.blockId && c.family == s.family && c.text != ""
    decreases |t| - s.start
  {
    if s.start < s.stop {
      var e := LineEnd(t, s.start);
      var stop := if e < s.stop then e else s.stop;
      hide Texts, Cut, LineEnd, Locate;
      CutTiles(path, t, s.(start := stop));
      assert t[s.start..s.stop] == t[s.start..stop] + t[stop..s.stop];
      CutFirst(path, t, s);
      TextsCons(Add(path, Locate(t, s.start).1, Locate(t, s.start).0, t[s.start..stop], s.family, s.blockId),
        Cut(path, t, s.(start := stop)));
    } else {
      NoPieces(path, t, s);
    }
  }

  lemma NoPieces(path: string, t: string, s: Span)
    requires SpanIn(t, s) && s.start == s.stop
    ensures Cut(path, t, s) == [] && Texts([]) == "" && t[s.start..s.stop] == ""
  {
  }

  lemma TextsCons(c: Comment, cs: seq<Comment>)
    ensures Texts([c] + cs) == c.text + Texts(cs)
  {
    assert ([c] + cs)[1..] == cs;
  }

  function Texts(cs: seq<Comment>): string {
    if cs == [] then "" else cs[0].text + Texts(cs[1..])
  }
}
