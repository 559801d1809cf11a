/** The front of the hygiene gate: choosing a scanner by file extension, and marking the comments
    that go on in a related comment on the next line. */
module Gate {
  import opened Text
  import RustLexer
  import TomlLexer
  import ShellText
  import NixLexer

  /** A comment token of a Python file: the number of its line, and its text. */
  type Token = (nat, string)

  predicate OnLines(tokens: seq<Token>, lines: seq<string>) {
    forall x :: x in tokens ==> 1 <= x.0 <= |lines|
  }

  function PythonComment(path: string, lines: seq<string>, x: Token): Comment
    requires 1 <= x.0 <= |lines|
  {
    Add(path, lines[x.0 - 1], x.0, x.1, HashLine, None)
  }

  /** What must be reported for a file: its comments, as the lexers of the whole text find them. For Python
      files these are the `tokens` that Python's own tokenizer finds. */
  function Expected(path: string, suffix: string, raw: string, tokens: seq<Token>): seq<Comment>
    requires OnLines(tokens, SplitLines(raw))
  {
    match suffix
    case ".rs" => RustLexer.Comments(path, raw)
    case ".py" => seq(|tokens|, i requires 0 <= i < |tokens| => PythonComment(path, SplitLines(raw), tokens[i]))
    case ".toml" => TomlLexer.Comments(path, raw)
    case ".sh" => ShellText.Comments(path, raw)
    case ".nix" => NixLexer.Comments(path, raw)
    case _ => []
  }

  method PythonComments(path: string, lines: seq<string>, tokens: seq<Token>) returns (out: seq<Comment>)
    requires OnLines(tokens, lines)
    ensures out == seq(|tokens|, i requires 0 <= i < |tokens| => PythonComment(path, lines, tokens[i]))
  {
    out := [];
    for k := 0 to |tokens|
      invariant |out| == k && forall i :: 0 <= i < k ==> out[i] == PythonComment(path, lines, tokens[i])
    {
      out := out + [PythonComment(path, lines, tokens[k])];
    }
  }

  /** A file without lines has no comments, whatever its kind. */
  lemma NothingInNothing(path: string, suffix: string, tokens: seq<Token>)
    requires OnLines(tokens, SplitLines(""))
    ensures Expected(path, suffix, "", tokens) == []
  {
    assert SplitLines("") == [];
    SomeLine(tokens, SplitLines(""));
  }

  lemma SomeLine(tokens: seq<Token>, lines: seq<string>)
    requires OnLines(tokens, lines)
    ensures tokens != [] ==> lines != []
  {
    if tokens != [] {
      var x := tokens[0];
      assert x in tokens;
    }
  }

  method Extract(path: string, suffix: string, raw: string, tokens: seq<Token>) returns (out: seq<Comment>)
    requires OnLines(tokens, SplitLines(raw))
    ensures out == Expected(path, suffix, raw, tokens)
  {
    var lines := SplitLines(raw);
    JoinSplit(raw);
    if lines == [] {
      assert raw == "";
      NothingInNothing(path, suffix, tokens);
      return [];
    }
    match suffix {
      case ".rs" => out := RustLexer.RustComments(path, lines);
      case ".py" => out := PythonComments(path, lines, tokens);
      case ".toml" => out := TomlLexer.TomlComments(path, lines);
      case ".sh" => out := ShellText.ShellComments(path, lines);
      case ".nix" => out := NixLexer.NixComments(path, lines);
      case _ => out := [];
    }
  }

  // ----- Continuations -----

  predicate Related(c: Comment, next: Comment) {
    && c.family == next.family && (c.blockId.Some? ==> c.blockId == next.blockId)
  }

  predicate Follows(c: Comment, next: Comment) {
    next.path == c.path && next.line == c.line + 1 && Related(c, next)
  }

  predicate Continues(cs: seq<Comment>, c: Comment) {
    exists j :: 0 <= j < |cs| && Follows(c, cs[j])
  }

  /** The index by path and line: it holds, in order, the positions of the comments there. */
  ghost predicate Indexes(index: map<(string, nat), seq<nat>>, cs: seq<Comment>, n: nat)
    requires n <= |cs|
  {
    && (forall key, m :: key in index && 0 <= m < |index[key]| ==>
          index[key][m] < n && (cs[index[key][m]].path, cs[index[key][m]].line) == key)
    && (forall j :: 0 <= j < n ==> (cs[j].path, cs[j].line) in index && j in index[(cs[j].path, cs[j].line)])
  }

  method BuildIndex(comments: array<Comment>) returns (byPathLine: map<(string, nat), seq<nat>>)
    ensures Indexes(byPathLine, comments[..], comments.Length)
  {
    byPathLine := map[];
    for i := 0 to comments.Length
      invariant Indexes(byPathLine, comments[..], i)
    {
      var key := (comments[i].path, comments[i].line);
      byPathLine := byPathLine[key := (if key in byPathLine then byPathLine[key] else []) + [i]];
    }
  }

  /** The positions that the index has for a place. */
  function Lookup(index: map<(string, nat), seq<nat>>, path: string, line: nat): seq<nat> {
    if (path, line) in index then index[(path, line)] else []
  }

  lemma LookupFinds(index: map<(string, nat), seq<nat>>, cs: seq<Comment>, c: Comment)
    requires Indexes(index, cs, |cs|)
    ensures var there := Lookup(index, c.path, c.line + 1);
            && (forall m :: 0 <= m < |there| ==> there[m] < |cs|)
            && (Continues(cs, c) <==> exists m :: 0 <= m < |there| && Related(c, cs[there[m]]))
  {
    var there := Lookup(index, c.path, c.line + 1);
    if Continues(cs, c) {
      var j :| 0 <= j < |cs| && Follows(c, cs[j]);
      var m :| 0 <= m < |there| && there[m] == j;
    }
    if m :| 0 <= m < |there| && Related(c, cs[there[m]]) {
      assert Follows(c, cs[there[m]]);
    }
  }

  method MarkContinuations(comments: array<Comment>)
    modifies comments
    ensures forall i :: 0 <= i < comments.Length ==>
              comments[i] == old(comments[i]).(continues := old(comments[i]).continues
                || Continues(old(comments[..]), old(comments[i])))
  {
    hide Indexes, Continues, Lookup;
    ghost var cs := comments[..];
    var byPathLine := BuildIndex(comments);
    for i := 0 to comments.Length
      invariant forall j :: 0 <= j < i ==> comments[j] == cs[j].(continues := cs[j].continues || Continues(cs, cs[j]))
      invariant forall j :: i <= j < comments.Length ==> comments[j] == cs[j]
    {
      var there := Lookup(byPathLine, comments[i].path, comments[i].line + 1);
      LookupFinds(byPathLine, cs, cs[i]);
      for m := 0 to |there|
        invariant comments[i] == cs[i] && forall j :: 0 <= j < m ==> !Related(cs[i], cs[there[j]])
        invariant forall j :: 0 <= j < i ==> comments[j] == cs[j].(continues := cs[j].continues || Continues(cs, cs[j]))
        invariant forall j :: i < j < comments.Length ==> comments[j] == cs[j]
      {
        if Related(comments[i], comments[there[m]]) {
          comments[i] := comments[i].(continues := true);
          break;
        }
      }
    }
  }
}
