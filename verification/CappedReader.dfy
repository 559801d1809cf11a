/** Reading one line of at most `cap` bytes from a buffered stream, whatever its chunks. */
module CappedReader {
  import opened Text

  type Byte = b: int | 0 <= b < 256 witness 0

  const NEWLINE: Byte := 10

  function Concat(chunks: seq<seq<Byte>>): seq<Byte> {
    if chunks == [] then [] else chunks[0] + Concat(chunks[1..])
  }

  predicate NoNewline(s: seq<Byte>) {
    NEWLINE !in s
  }

  /** The length of the first line, its newline included. */
  function LineLength(s: seq<Byte>): (n: nat)
    ensures n <= |s| && (s != [] ==> n > 0)
    ensures NEWLINE !in s[..if n == 0 then 0 else n - 1]
    ensures n < |s| ==> s[n - 1] == NEWLINE
  {
    if s == [] then 0 else if s[0] == NEWLINE then 1 else
    var n := LineLength(s[1..]);
    assert n > 0 ==> s[..n] == [s[0]] + s[1..][..n - 1];
    n + 1
  }

  /** What follows the first newline. */
  function After(s: seq<Byte>): seq<Byte> {
    s[LineLength(s)..]
  }

  /** A buffered reader: what is in the buffer, and the chunks that later reads will give. */
  class Reader {
    var buffer: seq<Byte>
    var pending: seq<seq<Byte>>
    ghost var faulted: bool

    ghost predicate Valid()
      reads `buffer, `pending
    {
      forall i :: 0 <= i < |pending| ==> pending[i] != []
    }

    ghost function Content(): seq<Byte>
      reads `buffer, `pending
    {
      buffer + Concat(pending)
    }

    constructor (chunks: seq<seq<Byte>>)
      requires forall i :: 0 <= i < |chunks| ==> chunks[i] != []
      ensures Valid() && Content() == Concat(chunks)
    {
      buffer, pending, faulted := [], chunks, false;
    }

    /** Fills the buffer when it is empty; an empty buffer then means the end. Reading may fail: then
        `faulted` is set, and stays so. */
    method FillBuf() returns (ok: bool)
      requires Valid()
      modifies this
      ensures Valid() && Content() == old(Content())
      ensures ok && buffer == [] ==> Content() == []
      ensures (old(faulted) ==> faulted) && (!ok ==> faulted)
    {
      if buffer == [] && pending != [] {
        var failed: bool := *;
        if failed {
          faulted := true;
          return false;
        }
        assert Concat(pending) == pending[0] + Concat(pending[1..]);
        buffer, pending := pending[0], pending[1..];
        assert buffer == old(pending)[0];
        assert old(Content()) == Concat(old(pending)) by { assert [] + Concat(old(pending)) == Concat(old(pending)); }
      }
      ok := true;
    }

    method Consume(n: nat)
      requires Valid() && n <= |buffer|
      modifies this`buffer
      ensures Valid() && buffer == old(buffer)[n..] && Content() == old(Content())[n..]
    {
      buffer := buffer[n..];
    }
  }

  /** The position of the first newline. */
  method Position(s: seq<Byte>) returns (i: Option<nat>)
    ensures i.None? ==> NoNewline(s)
    ensures i.Some? ==> i.value < |s| && s[i.value] == NEWLINE && NoNewline(s[..i.value])
  {
    for k := 0 to |s|
      invariant NoNewline(s[..k])
    {
      if s[k] == NEWLINE { return Some(k); }
    }
    assert s[..|s|] == s;
    i := None;
  }

  /** A line is found by its newline, or by the end. */
  lemma {:induction false} LineLengthIs(s: seq<Byte>, n: nat)
    requires n <= |s| && NoNewline(s[..n])
    ensures n < |s| && s[n] == NEWLINE ==> LineLength(s) == n + 1
    ensures n == |s| ==> LineLength(s) == n
    ensures LineLength(s) >= n && LineLength(s[n..]) == LineLength(s) - n
  {
    if n == 0 {
      assert s[0..] == s;
    } else {
      assert s[0] == s[..n][0];
      assert s[1..][..n - 1] == s[..n][1..];
      LineLengthIs(s[1..], n - 1);
      assert s[1..][n - 1..] == s[n..];
    }
  }

  /** Skips to the end of the line. */
  method DiscardUntilNewline(reader: Reader) returns (ok: bool)
    requires reader.Valid()
    modifies reader
    ensures reader.Valid()
    ensures ok ==> reader.Content() == After(old(reader.Content()))
    ensures !ok ==> exists n :: 0 <= n <= |old(reader.Content())| && reader.Content() == old(reader.Content())[n..]
    ensures (old(reader.faulted) ==> reader.faulted) && (!ok ==> reader.faulted)
  {
    hide *;
    ghost var all := reader.Content();
    ghost var n := 0;
    assert all[0..] == all && all[..0] == [];
    NoneInNothing();
    while true
      invariant old(reader.faulted) ==> reader.faulted
      invariant reader.Valid() && n <= |all| && reader.Content() == all[n..] && NoNewline(all[..n])
      decreases |all| - n
    {
      ok := reader.FillBuf();
      if !ok { return; }
      BufferAhead(reader);
      var buf := reader.buffer;
      assert buf <= all[n..];
      var pos := Position(buf);
      if pos.Some? {
        reader.Consume(pos.value + 1);
        FirstNewline(all, n, buf, pos.value);
        return;
      }
      var len := |buf|;
      if len == 0 {
        assert n == |all|;
        NothingAfter(all);
        return;
      }
      reader.Consume(len);
      NoNewlineYet(all, n, buf);
      n := n + len;
    }
  }

  lemma FirstNewline(all: seq<Byte>, n: nat, buf: seq<Byte>, i: nat)
    requires n <= |all| && NoNewline(all[..n]) && buf <= all[n..] && i < |buf| && buf[i] == NEWLINE
    requires NoNewline(buf[..i])
    ensures LineLength(all) == n + i + 1 && all[n..][i + 1..] == After(all)
  {
    hide LineLength;
    Parts(all, n, buf, i);
    NotInAppend(all[..n], buf[..i]);
    LineLengthIs(all, n + i);
  }

  lemma Parts(all: seq<Byte>, n: nat, buf: seq<Byte>, i: nat)
    requires n <= |all| && buf <= all[n..] && i < |buf|
    ensures n + i < |all| && all[..n + i] == all[..n] + buf[..i] && all[n + i] == buf[i]
    ensures all[n..][i + 1..] == all[n + i + 1..]
    ensures all[..n] + buf[..i + 1] == all[..n + i + 1]
  {
  }

  lemma NoneInNothing()
    ensures NoNewline([])
  {
  }

  lemma NothingAfter(all: seq<Byte>)
    requires NoNewline(all[..|all|])
    ensures After(all) == [] && all[|all|..] == []
  {
    LineLengthIs(all, |all|);
  }

  lemma NotInAppend(a: seq<Byte>, b: seq<Byte>)
    requires NoNewline(a) && NoNewline(b)
    ensures NoNewline(a + b)
  {
  }

  lemma NoNewlineYet(all: seq<Byte>, n: nat, buf: seq<Byte>)
    requires n <= |all| && NoNewline(all[..n]) && buf <= all[n..] && NoNewline(buf)
    ensures n + |buf| <= |all| && NoNewline(all[..n + |buf|]) && all[n..][|buf|..] == all[n + |buf|..]
    ensures all[..n] + buf == all[..n + |buf|]
  {
    assert all[..n + |buf|] == all[..n] + buf;
    NotInAppend(all[..n], buf);
  }

  function Min(a: nat, b: nat): (m: nat)
    ensures m <= a && m <= b && (m == a || m == b)
  {
    if a <= b then a else b
  }

  /** `read_until` of a reader limited to `limit` bytes. */
  method ReadUntilNewline(reader: Reader, limit: nat) returns (ok: bool, raw: seq<Byte>)
    requires reader.Valid()
    modifies reader
    ensures reader.Valid()
    ensures ok ==> raw == old(reader.Content())[..Min(LineLength(old(reader.Content())), limit)]
    ensures (old(reader.faulted) ==> reader.faulted) && (!ok ==> reader.faulted)
    ensures |raw| <= |old(reader.Content())| && reader.Content() == old(reader.Content())[|raw|..]
  {
    hide *;
    ghost var all := reader.Content();
    raw := [];
    var left: nat := limit;
    assert all[0..] == all && all[..0] == [];
    NoneInNothing();
    while true
      invariant old(reader.faulted) ==> reader.faulted
      invariant reader.Valid() && |raw| <= |all| && raw == all[..|raw|] && left + |raw| == limit
      invariant reader.Content() == all[|raw|..] && NoNewline(raw)
      decreases left
    {
      ghost var n := |raw|;
      if left == 0 {
        Stopped(all, raw, limit);
        return true, raw;
      }
      ok := reader.FillBuf();
      if !ok { return; }
      BufferAhead(reader);
      var available := reader.buffer[..Min(|reader.buffer|, left)];
      assert available <= all[n..];
      var pos := Position(available);
      if pos.Some? {
        Stopping(all, n, available, pos.value, limit);
        raw := raw + available[..pos.value + 1];
        reader.Consume(pos.value + 1);
        return true, raw;
      }
      NoNewlineYet(all, n, available);
      NotInAppend(raw, available);
      raw := raw + available;
      reader.Consume(|available|);
      left := left - |available|;
      if |available| == 0 {
        Stopped(all, raw, limit);
        return true, raw;
      }
    }
  }

  lemma BufferAhead(reader: Reader)
    ensures reader.buffer <= reader.Content()
  {
  }

  /** Reading stops with the limit, or at the end. */
  lemma Stopped(all: seq<Byte>, raw: seq<Byte>, limit: nat)
    requires |raw| <= |all| && raw == all[..|raw|] && NoNewline(raw) && |raw| <= limit
    requires |raw| == limit || |raw| == |all|
    ensures raw == all[..Min(LineLength(all), limit)]
  {
    hide LineLength;
    LineLengthIs(all, |raw|);
  }

  /** Or with the newline. */
  lemma Stopping(all: seq<Byte>, n: nat, available: seq<Byte>, i: nat, limit: nat)
    requires n <= |all| && NoNewline(all[..n]) && available <= all[n..] && n + |available| <= limit
    requires i < |available| && available[i] == NEWLINE && NoNewline(available[..i])
    ensures all[..n] + available[..i + 1] == all[..Min(LineLength(all), limit)]
    ensures n + i + 1 <= |all| && all[n..][i + 1..] == all[n + i + 1..]
  {
    hide *;
    FirstNewline(all, n, available, i);
    Parts(all, n, available, i);
    MinIs(LineLength(all), limit);
  }

  lemma MinIs(a: nat, b: nat)
    requires a <= b
    ensures Min(a, b) == a
  {
  }

  // ----- Bytes and text -----

  /** A Unicode scalar value. */
  type Scalar = c: int | 0 <= c < 0xD800 || 0xE000 <= c < 0x110000

  function Continuation(c: int): (b: Byte)
    ensures 0x80 <= b < 0xC0
  {
    0x80 + c % 0x40
  }

  predicate IsContinuation(b: int) { 0x80 <= b < 0xC0 }

  function Encode1(c: Scalar): (bytes: seq<Byte>)
    ensures 1 <= |bytes| <= 4 && !IsContinuation(bytes[0])
    ensures forall i :: 0 < i < |bytes| ==> IsContinuation(bytes[i])
  {
    if c < 0x80 then [c]
    else if c < 0x800 then [0xC0 + c / 0x40, Continuation(c)]
    else if c < 0x10000 then [0xE0 + c / 0x1000, Continuation(c / 0x40), Continuation(c)]
    else [0xF0 + c / 0x40000, Continuation(c / 0x1000), Continuation(c / 0x40), Continuation(c)]
  }

  function Encode(s: seq<Scalar>): seq<Byte> {
    if s == [] then [] else Encode(s[..|s| - 1]) + Encode1(s[|s| - 1])
  }

  const REPLACEMENT: Scalar := 0xFFFD

  /** What may stand second in a character that starts with `b` and is longer than two bytes. */
  predicate Second(b: int, c: int) {
    if b == 0xE0 then 0xA0 <= c < 0xC0
    else if b == 0xED then 0x80 <= c < 0xA0
    else if b == 0xF0 then 0x90 <= c < 0xC0
    else if b == 0xF4 then 0x80 <= c < 0x90
    else 0x80 <= c < 0xC0
  }

  /** The six bits of a continuation byte. */
  function Low(b: int): int { b - 0x80 }

  /** The character at the start and its length, or how many bytes are replaced when there is none. */
  function First(s: seq<Byte>): (r: (Option<Scalar>, nat))
    requires s != []
    ensures 1 <= r.1 <= |s|
  {
    var b: int := s[0];
    if b < 0x80 then (Some(b), 1)
    else if 0xC2 <= b < 0xE0 then
      if 1 < |s| && IsContinuation(s[1]) then (Some((b - 0xC0) * 0x40 + Low(s[1])), 2) else (None, 1)
    else if 0xE0 <= b < 0xF0 then
      if !(1 < |s| && Second(b, s[1])) then (None, 1)
      else if !(2 < |s| && IsContinuation(s[2])) then (None, 2)
      else (Some((b - 0xE0) * 0x1000 + Low(s[1]) * 0x40 + Low(s[2])), 3)
    else if 0xF0 <= b < 0xF5 then
      if !(1 < |s| && Second(b, s[1])) then (None, 1)
      else if !(2 < |s| && IsContinuation(s[2])) then (None, 2)
      else if !(3 < |s| && IsContinuation(s[3])) then (None, 3)
      else (Some((b - 0xF0) * 0x40000 + Low(s[1]) * 0x1000 + Low(s[2]) * 0x40 + Low(s[3])), 4)
    else (None, 1)
  }

  /** `String::from_utf8_lossy` */
  function Lossy(s: seq<Byte>): seq<Scalar> {
    if s == [] then [] else
    var (c, n) := First(s);
    [if c.Some? then c.value else REPLACEMENT] + Lossy(s[n..])
  }

  lemma FirstBack(c: Scalar, rest: seq<Byte>)
    ensures First(Encode1(c) + rest) == (Some(c), |Encode1(c)|)
  {
    var bytes := Encode1(c);
    var s := bytes + rest;
    assert forall i :: 0 <= i < |bytes| ==> s[i] == bytes[i];
    if 0x800 <= c < 0x10000 {
      ThreeBytes(c);
    } else if 0x10000 <= c {
      FourBytes(c);
    }
  }

  lemma ThreeBytes(c: Scalar)
    requires 0x800 <= c < 0x10000
    ensures Second(0xE0 + c / 0x1000, Continuation(c / 0x40)) && 0xE0 <= 0xE0 + c / 0x1000 < 0xF0
    ensures c == (c / 0x1000) * 0x1000 + Low(Continuation(c / 0x40)) * 0x40 + Low(Continuation(c))
  {
    assert (c / 0x40) / 0x40 == c / 0x1000;
  }

  lemma FourBytes(c: Scalar)
    requires 0x10000 <= c
    ensures Second(0xF0 + c / 0x40000, Continuation(c / 0x1000)) && 0xF0 <= 0xF0 + c / 0x40000 < 0xF5
    ensures c == (c / 0x40000) * 0x40000 + Low(Continuation(c / 0x1000)) * 0x1000
                 + Low(Continuation(c / 0x40)) * 0x40 + Low(Continuation(c))
  {
    assert (c / 0x40) / 0x40 == c / 0x1000 && (c / 0x1000) / 0x40 == c / 0x40000;
  }

  lemma {:induction false} EncodeCons(c: Scalar, s: seq<Scalar>)
    ensures Encode([c] + s) == Encode1(c) + Encode(s)
  {
    hide Encode, Encode1;
    if s == [] {
      assert [c] + s == [] + [c];
      EncodeSnoc([], c);
    } else {
      var n := |s| - 1;
      EncodeCons(c, s[..n]);
      EncodeSnoc([c] + s[..n], s[n]);
      EncodeSnoc(s[..n], s[n]);
      assert [c] + s == ([c] + s[..n]) + [s[n]] && s == s[..n] + [s[n]];
      Assoc(Encode1(c), Encode(s[..n]), Encode1(s[n]));
    }
  }

  lemma EncodeSnoc(s: seq<Scalar>, c: Scalar)
    ensures Encode(s + [c]) == Encode(s) + Encode1(c) && Encode([]) == []
  {
    hide Encode1;
    assert (s + [c])[..|s|] == s;
  }

  /** Decoding undoes encoding: a line that is text is that text. */
  lemma {:induction false} LossyEncode(s: seq<Scalar>)
    ensures Lossy(Encode(s)) == s
  {
    if s != [] {
      hide Encode1, First, Encode;
      EncodeCons(s[0], s[1..]);
      assert [s[0]] + s[1..] == s;
      FirstBack(s[0], Encode(s[1..]));
      var bytes := Encode(s);
      assert bytes[|Encode1(s[0])|..] == Encode(s[1..]);
      LossyEncode(s[1..]);
    }
  }

  // ----- One line -----

  datatype CappedLine = Line(text: seq<Scalar>) | Truncated | Eof

  /** The first line has exactly `cap` bytes before its newline. */
  predicate Overrun(s: seq<Byte>, cap: nat) {
    |s| > cap && LineLength(s) == cap + 1 && s[cap] == NEWLINE
  }

  /** The first line without its newline. */
  function LineBytes(s: seq<Byte>): seq<Byte> {
    var n := LineLength(s);
    if n > 0 && s[n - 1] == NEWLINE then s[..n - 1] else s[..n]
  }

  function Expected(s: seq<Byte>, cap: nat): CappedLine {
    if LineLength(s) > cap then Truncated else if LineBytes(s) == [] then Eof else Line(Lossy(LineBytes(s)))
  }

  lemma AfterCap(all: seq<Byte>, cap: nat)
    requires LineLength(all) > cap
    ensures After(all[cap + 1..]) == if Overrun(all, cap) then After(After(all)) else After(all)
  {
    var n := LineLength(all);
    if n > cap + 1 {
      assert all[..cap + 1] == all[..n - 1][..cap + 1];
      LineLengthIs(all, cap + 1);
      assert all[cap + 1..][n - cap - 1..] == all[n..];
    }
  }

  /** Reads a line. It leaves what follows the line; but after a line of exactly `cap` bytes and a newline
      it drops the next line, too. */
  method ReadCappedLine(reader: Reader, cap: nat) returns (line: Option<CappedLine>)
    requires reader.Valid()
    modifies reader
    ensures reader.Valid()
    ensures line.Some? ==> line.value == Expected(old(reader.Content()), cap)
    ensures line.Some? && !Overrun(old(reader.Content()), cap) ==> reader.Content() == After(old(reader.Content()))
    ensures line.Some? && Overrun(old(reader.Content()), cap) ==>
              reader.Content() == After(After(old(reader.Content())))
    ensures (old(reader.faulted) ==> reader.faulted) && (line.None? ==> reader.faulted)
    ensures exists n :: 0 <= n <= |old(reader.Content())| && reader.Content() == old(reader.Content())[n..]
  {
    hide *;
    ghost var all := reader.Content();
    var ok, raw := ReadUntilNewline(reader, cap + 1);
    if !ok { return None; }
    Classify(all, cap, raw);
    var truncated := |raw| > cap;
    if truncated {
      ghost var m := |raw|;
      ok := DiscardUntilNewline(reader);
      if !ok {
        ghost var n :| 0 <= n <= |all[m..]| && reader.Content() == all[m..][n..];
        assert reader.Content() == all[m + n..];
        return None;
      }
      AfterCap(all, cap);
      Suffixes(all);
      return Some(Truncated);
    } else if raw != [] && raw[|raw| - 1] == NEWLINE {
      raw := raw[..|raw| - 1];
    }
    if raw == [] { return Some(Eof); }
    line := Some(Line(Lossy(raw)));
  }

  lemma Suffixes(s: seq<Byte>)
    ensures exists n :: 0 <= n <= |s| && After(s) == s[n..]
    ensures exists n :: 0 <= n <= |s| && After(After(s)) == s[n..]
  {
    var m := LineLength(s);
    var n := LineLength(s[m..]);
    assert s[m..][n..] == s[m + n..];
  }

  /** What was read tells which case it is. */
  lemma Classify(all: seq<Byte>, cap: nat, raw: seq<Byte>)
    requires raw == all[..Min(LineLength(all), cap + 1)]
    ensures |raw| > cap ==> |raw| == cap + 1 && LineLength(all) > cap && Expected(all, cap) == Truncated
    ensures |raw| <= cap ==> !Overrun(all, cap) && all[|raw|..] == After(all)
    ensures |raw| <= cap ==>
              var bytes := if raw != [] && raw[|raw| - 1] == NEWLINE then raw[..|raw| - 1] else raw;
              Expected(all, cap) == if bytes == [] then Eof else Line(Lossy(bytes))
  {
    hide LineLength, Lossy;
    if |raw| <= cap {
      assert |raw| == LineLength(all);
      var bytes := if raw != [] && raw[|raw| - 1] == NEWLINE then raw[..|raw| - 1] else raw;
      assert raw == all[..|raw|];
      assert bytes == LineBytes(all) by {
        if raw != [] && raw[|raw| - 1] == NEWLINE { assert raw[..|raw| - 1] == all[..|raw| - 1]; }
      }
    }
  }

  /** So one call leaves exactly what follows the line unless there is a line after such a line. */
  lemma LeavesTheRest(s: seq<Byte>, cap: nat)
    ensures (if Overrun(s, cap) then After(After(s)) else After(s)) == After(s) <==>
              !(Overrun(s, cap) && After(s) != [])
  {
    var rest := After(s);
    if rest != [] {
      assert |After(rest)| < |rest|;
    }
  }

  /** So it is here: the line with the one letter B is dropped. */
  lemma DroppedLineExample()
    ensures var s: seq<Byte> := [65, NEWLINE, 66, NEWLINE, 67];
            && Overrun(s, 1) && Expected(s, 1) == Truncated
            && After(s) == [66, NEWLINE, 67] && After(After(s)) == [67]
  {
    var s: seq<Byte> := [65, NEWLINE, 66, NEWLINE, 67];
    assert s[..1] == [65] && s[2..][..1] == [66];
    LineLengthIs(s, 1);
    LineLengthIs(s[2..], 1);
    assert s[2..][2..] == [67];
  }

  /** An empty line is reported as the end of the input, exactly when it may have any bytes at all. */
  lemma EmptyLineIsEof(s: seq<Byte>, cap: nat)
    ensures Expected(s, cap) == Eof && s != [] <==> cap >= 1 && s != [] && s[0] == NEWLINE
  {
    if s != [] && s[0] != NEWLINE {
      assert LineLength(s) >= 1 && s[..LineLength(s)][0] == s[0];
      assert LineBytes(s) != [] by { assert s[LineLength(s) - 1] == NEWLINE ==> LineLength(s) > 1; }
    }
  }

  /** So it is here, although a line with one letter follows. */
  lemma EmptyLineExample()
    ensures Expected([NEWLINE, 65, NEWLINE], 8) == Eof
    ensures Expected(After([NEWLINE, 65, NEWLINE]), 8) == Line([65])
  {
    var s: seq<Byte> := [NEWLINE, 65, NEWLINE];
    EmptyLineIsEof(s, 8);
    var rest := After(s);
    assert rest == [65, NEWLINE];
    assert rest[1..] == [NEWLINE] && LineLength(rest[1..]) == 1;
    assert LineBytes(rest) == [65];
    assert Lossy([65]) == [65] by { assert First([65]) == (Some(65), 1); }
  }

  lemma {:induction false} NoNewlineIn(s: seq<Scalar>)
    requires NEWLINE !in s
    ensures NoNewline(Encode(s))
  {
    if s != [] {
      NoNewlineIn(s[..|s| - 1]);
      assert s[|s| - 1] in s;
    }
  }

  /** A line of text that fits, its newline included, is read as it was written. */
  lemma TextLine(s: seq<Scalar>, rest: seq<Byte>, cap: nat)
    requires s != [] && NEWLINE !in s
    ensures Expected(Encode(s) + [NEWLINE] + rest, cap) == if |Encode(s)| < cap then Line(s) else Truncated
  {
    hide Encode, Lossy;
    var bytes := Encode(s);
    var all := bytes + [NEWLINE] + rest;
    NoNewlineIn(s);
    LossyEncode(s);
    assert all[..|bytes|] == bytes && all[|bytes|] == NEWLINE;
    LineLengthIs(all, |bytes|);
    assert bytes != [] by { EncodePrefix(s, 0); }
  }

  // ----- Truncating at a character boundary -----

  /** `floor_char_boundary`: the last position up to `i` that no continuation byte is at. */
  function FloorBoundary(bytes: seq<int>, i: nat): (j: nat)
    ensures j <= |bytes| && j <= i
    decreases i
  {
    if i >= |bytes| then |bytes| else if i == 0 || !IsContinuation(bytes[i]) then i else FloorBoundary(bytes, i - 1)
  }

  method CapLineUtf8Safe(line: seq<int>, cap: nat) returns (capped: seq<int>)
    ensures capped == if |line| > cap then line[..FloorBoundary(line, cap)] else line
  {
    capped := line;
    if |capped| > cap {
      var j := cap;
      while j > 0 && IsContinuation(capped[j])
        invariant 0 <= j <= cap && FloorBoundary(line, cap) == FloorBoundary(line, j)
      {
        j := j - 1;
      }
      capped := capped[..j];
    }
  }

  lemma {:induction false} EncodePrefix(s: seq<Scalar>, k: nat)
    requires k <= |s|
    ensures Encode(s[..k]) <= Encode(s) && (k < |s| ==> |Encode(s[..k])| < |Encode(s)|)
  {
    hide Encode1;
    if k < |s| {
      var rest := s[..|s| - 1];
      EncodePrefix(rest, k);
      assert rest[..k] == s[..k];
    } else {
      assert s[..k] == s;
    }
  }

  lemma EncodeNext(s: seq<Scalar>, k: nat)
    requires k < |s|
    ensures Encode(s[..k + 1]) == Encode(s[..k]) + Encode1(s[k])
  {
    assert s[..k + 1][..k] == s[..k];
  }

  /** Going back from inside a character, or from its start, leads to its start. */
  lemma {:induction false} FloorInside(bytes: seq<int>, start: nat, i: nat)
    requires start <= i < |bytes| && (start == 0 || !IsContinuation(bytes[start]))
    requires forall j :: start < j <= i ==> IsContinuation(bytes[j])
    ensures FloorBoundary(bytes, i) == start
    decreases i
  {
    if start < i { FloorInside(bytes, start, i - 1); }
  }

  /** The longest prefix of whole characters within `cap` bytes. */
  function Fitting(s: seq<Scalar>, cap: nat): (k: nat)
    ensures k <= |s| && |Encode(s[..k])| <= cap
  {
    if |Encode(s)| <= cap then (assert s[..|s|] == s; |s|)
    else
      var k := Fitting(s[..|s| - 1], cap);
      assert s[..|s| - 1][..k] == s[..k];
      k
  }

  lemma {:induction false} FittingNext(s: seq<Scalar>, cap: nat)
    requires |Encode(s)| > cap
    ensures var k := Fitting(s, cap); k < |s| && |Encode(s[..k + 1])| > cap
  {
    var rest := s[..|s| - 1];
    if |Encode(rest)| <= cap {
      assert s[..|s|] == s;
    } else {
      FittingNext(rest, cap);
      var k := Fitting(rest, cap);
      assert rest[..k + 1] == s[..k + 1];
    }
  }

  lemma CutInside(line: seq<int>, a: seq<int>, c: seq<int>, cap: nat)
    requires a + c <= line && |a| <= cap < |a| + |c|
    requires !IsContinuation(c[0]) && forall i :: 0 < i < |c| ==> IsContinuation(c[i])
    ensures FloorBoundary(line, cap) == |a| && line[..|a|] == a && |line| > cap
  {
    forall j | 0 <= j < |c| ensures line[|a| + j] == c[j] { assert (a + c)[|a| + j] == c[j]; }
    forall j | |a| < j <= cap ensures IsContinuation(line[j]) { assert line[|a| + (j - |a|)] == c[j - |a|]; }
    FloorInside(line, |a|, cap);
  }

  /** Truncating an encoded text gives the encoding of its longest prefix of whole characters that fits. */
  lemma CapKeepsCharacters(s: seq<Scalar>, cap: nat)
    ensures var line := Encode(s);
            (if |line| > cap then line[..FloorBoundary(line, cap)] else line) == Encode(s[..Fitting(s, cap)])
    ensures Fitting(s, cap) < |s| ==> |Encode(s[..Fitting(s, cap) + 1])| > cap
  {
    var line, k := Encode(s), Fitting(s, cap);
    if |line| > cap {
      hide *;
      FittingNext(s, cap);
      EncodePrefix(s, k + 1);
      EncodeNext(s, k);
      CutInside(line, Encode(s[..k]), Encode1(s[k]), cap);
    } else {
      FittingAll(s, cap);
      assert s[..|s|] == s;
    }
  }

  lemma FittingAll(s: seq<Scalar>, cap: nat)
    requires |Encode(s)| <= cap
    ensures Fitting(s, cap) == |s|
  {
  }
}
