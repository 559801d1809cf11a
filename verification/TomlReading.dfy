/** TOML's own reading of the lines of a file (TOML v1.0.0, sections "Keys", "Table" and "Array of Tables"):
    the headers and keys that stand on a line, and the values and comments that go on over several. */
module TomlReading {
  import opened Text
  import opened Migration
  import TomlLexer

  // ----- Keys and headers, by TOML v1.0.0 -----

  function SkipBlanks(s: string, i: nat): (j: nat)
    ensures i <= j && (i <= |s| ==> j <= |s|)
    decreases |s| - i
  {
    if i < |s| && (s[i] == ' ' || s[i] == '\t') then SkipBlanks(s, i + 1) else i
  }

  /** The control characters, which no string may hold. */
  predicate IsControl(c: char) { (c < ' ' && c != '\t') || c == '\U{007F}' }

  function Hex(c: char): Option<nat> {
    if '0' <= c <= '9' then Some((c - '0') as nat)
    else if 'A' <= c <= 'F' then Some((c - 'A') as nat + 10)
    else if 'a' <= c <= 'f' then Some((c - 'a') as nat + 10)
    else None
  }

  /** The number written with `n` hexadecimal digits before `i`. */
  function HexNumber(s: string, i: nat, n: nat): Option<nat>
    requires n <= i <= |s|
  {
    if n == 0 then Some(0) else
    match (HexNumber(s, i - 1, n - 1), Hex(s[i - 1]))
    case (Some(high), Some(low)) => Some(high * 16 + low)
    case _ => None
  }

  /** The character escaped at `i`, which is just after a backslash, and where the escape ends. */
  function Escape(s: string, i: nat): (r: Option<(char, nat)>)
    ensures r.Some? ==> i < r.value.1 <= |s|
  {
    if i >= |s| then None else
    match s[i]
    case 'b' => Some(('\U{0008}', i + 1))
    case 't' => Some(('\t', i + 1))
    case 'n' => Some(('\n', i + 1))
    case 'f' => Some(('\U{000C}', i + 1))
    case 'r' => Some(('\r', i + 1))
    case '"' => Some(('"', i + 1))
    case '\\' => Some(('\\', i + 1))
    case 'u' => UnicodeEscape(s, i + 1, 4)
    case 'U' => UnicodeEscape(s, i + 1, 8)
    case _ => None
  }

  function UnicodeEscape(s: string, i: nat, n: nat): (r: Option<(char, nat)>)
    requires n > 0
    ensures r.Some? ==> i < r.value.1 <= |s|
  {
    if i + n > |s| then None else
    match HexNumber(s, i + n, n)
    case Some(code) => if code < 0xD800 || 0xE000 <= code < 0x11_0000 then Some((code as char, i + n)) else None
    case None => None
  }

  /** The rest of a quoted key from `i` on, its closing quote included. */
  function QuotedRest(s: string, i: nat, quote: char): (r: Option<(string, nat)>)
    ensures r.Some? ==> i < r.value.1 <= |s|
    decreases |s| - i
  {
    if i >= |s| || IsControl(s[i]) then None
    else if s[i] == quote then Some(("", i + 1))
    else if quote == '"' && s[i] == '\\' then
      match Escape(s, i + 1)
      case Some((c, e)) => Put([c], QuotedRest(s, e, quote))
      case None => None
    else Put([s[i]], QuotedRest(s, i + 1, quote))
  }

  function Put(w: string, r: Option<(string, nat)>): Option<(string, nat)> {
    match r
    case Some((x, e)) => Some((w + x, e))
    case None => None
  }

  /** One part of a key: bare, or quoted in one of two ways. */
  function SimpleKey(s: string, i: nat): (r: Option<(string, nat)>)
    ensures r.Some? ==> i < r.value.1 <= |s|
  {
    if i >= |s| then None
    else if s[i] == '"' || s[i] == '\'' then QuotedRest(s, i + 1, s[i])
    else
      var e := SkipName(s, i, false);
      if i < e then Some((s[i..e], e)) else None
  }

  /** A key with its dots, and the place after it and the blanks that follow. */
  function DottedKey(s: string, i: nat): (r: Option<(seq<string>, nat)>)
    ensures r.Some? ==> i < r.value.1 <= |s| && r.value.0 != []
    decreases |s| - i
  {
    match SimpleKey(s, SkipBlanks(s, i))
    case None => None
    case Some((x, e)) =>
      var dot := SkipBlanks(s, e);
      if dot < |s| && s[dot] == '.' then
        match DottedKey(s, dot + 1)
        case None => None
        case Some((xs, end)) => Some(([x] + xs, end))
      else Some(([x], dot))
  }

  /** Nothing else is on the line but a comment. */
  predicate Trailing(s: string, i: nat) {
    var e := SkipBlanks(s, i);
    e >= |s| || s[e] == '#' || (s[e] == '\n' && e + 1 == |s|)
  }

  datatype Header = Header(element: bool, path: seq<string>)

  /** The header of a table, or of an element of an array of tables, that stands on the line. */
  function TomlHeader(line: string): Option<Header> {
    var open := SkipBlanks(line, 0);
    if !(open < |line| && line[open] == '[') then None else
    var element := open + 1 < |line| && line[open + 1] == '[';
    match DottedKey(line, if element then open + 2 else open + 1)
    case None => None
    case Some((path, close)) =>
      if element && At2(line, close, ']', ']') && Trailing(line, close + 2) then Some(Header(true, path))
      else if !element && close < |line| && line[close] == ']' && Trailing(line, close + 1)
      then Some(Header(false, path))
      else None
  }

  /** The key that the line gives a value to. */
  function TomlKey(line: string): Option<seq<string>> {
    match DottedKey(line, 0)
    case None => None
    case Some((path, e)) => if e < |line| && line[e] == '=' then Some(path) else None
  }

  // ----- Values that go on -----

  /** What a line may begin inside of. */
  datatype Inside = Nowhere | LongString(literal: bool) | ShortString(literal: bool) | Remark

  /** Between two lines: inside how many brackets, and inside what else; and whether a new line begins for
      TOML, which has no line break but the newline. */
  datatype Place = Place(depth: nat, inside: Inside, lineStart: bool)

  const TOP := Place(0, Nowhere, true)

  /** Where a string on one line that is open at `i` is closed. */
  function ShortEnd(line: string, i: nat, literal: bool): (e: Option<nat>)
    ensures e.Some? ==> i < e.value <= |line|
    decreases |line| - i
  {
    if i >= |line| || line[i] == '\n' then None
    else if !literal && line[i] == '\\' then ShortEnd(line, i + 2, literal)
    else if line[i] == TomlLexer.Quote(literal) then Some(i + 1)
    else ShortEnd(line, i + 1, literal)
  }

  /** At the end of a line: a newline ends all but strings over several lines. */
  function LineEnds(line: string, depth: nat, inside: Inside): Place {
    Place(depth, if EndsLine(line) && !inside.LongString? then Nowhere else inside, EndsLine(line))
  }

  /** The place after the rest of the line from `i` on. */
  function Scan(line: string, i: nat, depth: nat, inside: Inside): Place
    decreases |line| - i
  {
    if i >= |line| then LineEnds(line, depth, inside) else
    match inside
    case Remark => LineEnds(line, depth, inside)
    case LongString(literal) =>
      var e := TomlLexer.MultiEnd(line, i, literal);
      if e.None? then LineEnds(line, depth, inside) else Scan(line, e.value, depth, Nowhere)
    case ShortString(literal) =>
      var e := ShortEnd(line, i, literal);
      if e.None? then LineEnds(line, depth, inside) else Scan(line, e.value, depth, Nowhere)
    case Nowhere =>
      if TomlLexer.Three(line, i, false) then Scan(line, i + 3, depth, LongString(false))
      else if TomlLexer.Three(line, i, true) then Scan(line, i + 3, depth, LongString(true))
      else match line[i]
        case '"' => Scan(line, i + 1, depth, ShortString(false))
        case '\'' => Scan(line, i + 1, depth, ShortString(true))
        case '#' => LineEnds(line, depth, Remark)
        case '[' => Scan(line, i + 1, depth + 1, Nowhere)
        case '{' => Scan(line, i + 1, depth + 1, Nowhere)
        case ']' => Scan(line, i + 1, if depth > 0 then depth - 1 else 0, Nowhere)
        case '}' => Scan(line, i + 1, if depth > 0 then depth - 1 else 0, Nowhere)
        case _ => Scan(line, i + 1, depth, Nowhere)
  }

  /** The place after a line. */
  function Next(at: Place, line: string): Place {
    if at == TOP && TomlHeader(line).Some? then LineEnds(line, 0, Remark) else Scan(line, 0, at.depth, at.inside)
  }

  /** The place before line `k`. */
  function PlaceAt(lines: seq<string>, k: nat): Place
    requires k <= |lines|
  {
    if k == 0 then TOP else Next(PlaceAt(lines, k - 1), lines[k - 1])
  }

  /** There is a header on line `k`. */
  predicate HeaderHere(lines: seq<string>, k: nat)
    requires k < |lines|
  {
    PlaceAt(lines, k) == TOP && TomlHeader(lines[k]).Some?
  }

  /** The nearest header above line `k`. */
  function HeaderAt(lines: seq<string>, k: nat): (h: Option<nat>)
    requires k <= |lines|
    ensures h.Some? ==> h.value < k && HeaderHere(lines, h.value)
  {
    if k == 0 then None else if HeaderHere(lines, k - 1) then Some(k - 1) else HeaderAt(lines, k - 1)
  }

  /** A blank line between two rows changes nothing. */
  lemma BlankNext()
    ensures Next(TOP, "\n") == TOP && TomlHeader("\n") == None
  {
    var s := "\n";
    assert Scan(s, 1, 0, Nowhere) == TOP;
  }

  /** Nor does a header without a comment. */
  lemma HeaderNext(line: string)
    requires TomlHeader(line).Some? && EndsLine(line)
    ensures Next(TOP, line) == TOP
  {
    hide TomlHeader;
  }
}
