/** Walking a directory tree with an explicit stack. */
module Walk {
  import opened Text
  import opened FileSystem

  /** Neither `q` nor a directory between `root` and `q` is unreadable. */
  ghost predicate Clear(unreadable: set<Path>, root: Path, q: Path) {
    forall k :: |root| <= k <= |q| ==> q[..k] !in unreadable
  }

  /** The same of the directories above `q` only. */
  ghost predicate ClearAbove(unreadable: set<Path>, root: Path, q: Path) {
    forall k :: |root| <= k < |q| ==> q[..k] !in unreadable
  }

  /** The regular files below `root` that can be read: no link is followed. */
  ghost predicate Reached(t: Tree, root: Path, unreadable: set<Path>, q: Path) {
    IsFile(t, q) && Under(root, q) && q != root && Clear(unreadable, root, q)
  }

  ghost predicate Covered(todo: set<Path>, q: Path) {
    exists s :: s in todo && Under(s, q)
  }

  ghost predicate Antichain(todo: set<Path>) {
    forall s, p :: s in todo && p in todo && Under(s, p) ==> s == p
  }

  /** What is found and what is still to do make up all files; nothing is found twice. */
  ghost predicate WalkInv(t: Tree, root: Path, unreadable: set<Path>, out: seq<Path>, todo: set<Path>) {
    && Antichain(todo)
    && (forall s :: s in todo ==> Under(root, s) && ClearAbove(unreadable, root, s))
    && (forall i, j :: 0 <= i < j < |out| ==> out[i] != out[j])
    && (forall q :: q in out ==> Reached(t, root, unreadable, q) && !Covered(todo, q))
    && (forall q :: Reached(t, root, unreadable, q) ==> q in out || Covered(todo, q))
  }

  function Elements(s: seq<Path>): set<Path> {
    set p | p in s
  }

  function ChildrenOf(p: Path, names: seq<string>): set<Path> {
    set n | n in names :: p + [n]
  }

  lemma CoveredLess(todo: set<Path>, p: Path, q: Path)
    requires Antichain(todo) && p in todo
    ensures Covered(todo, q) <==> Covered(todo - {p}, q) || Under(p, q)
    ensures Under(p, q) ==> !Covered(todo - {p}, q)
    ensures Antichain(todo - {p})
  {
    if Covered(todo, q) && !Under(p, q) {
      var s :| s in todo && Under(s, q);
      assert s in todo - {p};
    }
    if Under(p, q) && Covered(todo - {p}, q) {
      var s :| s in todo - {p} && Under(s, q);
      BothUnder(s, p, q);
    }
  }

  /** Something that holds no file to be found is passed by. */
  lemma Drop(t: Tree, root: Path, unreadable: set<Path>, out: seq<Path>, todo: set<Path>, p: Path)
    requires WalkInv(t, root, unreadable, out, todo) && p in todo
    requires forall q :: Under(p, q) ==> !Reached(t, root, unreadable, q)
    ensures WalkInv(t, root, unreadable, out, todo - {p})
  {
    hide Antichain, Covered, Under, ClearAbove, Reached;
    CoveredLess(todo, p, p);
    forall q | q in out ensures !Covered(todo - {p}, q) { CoveredLess(todo, p, q); }
    forall q | Reached(t, root, unreadable, q) ensures q in out || Covered(todo - {p}, q) { CoveredLess(todo, p, q); }
  }

  lemma NotReached(t: Tree, root: Path, unreadable: set<Path>, p: Path)
    requires p in unreadable && Under(root, p)
    ensures forall q :: Under(p, q) ==> !Reached(t, root, unreadable, q)
  {
    forall q | Under(p, q) ensures !Reached(t, root, unreadable, q) { assert q[..|p|] == p; }
  }

  lemma CoveredSelf(todo: set<Path>, s: Path)
    requires s in todo
    ensures Covered(todo, s)
  {
  }

  lemma ClearHere(unreadable: set<Path>, root: Path, q: Path)
    requires ClearAbove(unreadable, root, q) && q !in unreadable
    ensures Clear(unreadable, root, q)
  {
    assert q[..|q|] == q;
  }

  /** A file is found. */
  lemma Found(t: Tree, root: Path, unreadable: set<Path>, out: seq<Path>, todo: set<Path>, p: Path)
    requires WellFormed(t) && WalkInv(t, root, unreadable, out, todo) && p in todo && IsFile(t, p) && p !in unreadable
    requires p != root
    ensures WalkInv(t, root, unreadable, out + [p], todo - {p})
  {
    LeafEmpty(t, p);
    CoveredSelf(todo, p);
    ClearHere(unreadable, root, p);
    hide Antichain, Covered, Clear, ClearAbove, Under, WellFormed;
    CoveredLess(todo, p, p);
    UnderSelf(p);
    forall q | q in out + [p]
      ensures Reached(t, root, unreadable, q) && !Covered(todo - {p}, q)
    {
      CoveredLess(todo, p, q);
    }
    forall q | Reached(t, root, unreadable, q) ensures q in out + [p] || Covered(todo - {p}, q) {
      CoveredLess(todo, p, q);
      if Under(p, q) { assert q == p; }
    }
  }

  lemma UnderSelf(p: Path)
    ensures Under(p, p)
  {
  }

  lemma CoveredChildren(p: Path, names: seq<string>, q: Path)
    ensures Covered(ChildrenOf(p, names), q) <==> Under(p, q) && |q| > |p| && q[|p|] in names
  {
    if Covered(ChildrenOf(p, names), q) {
      var s :| s in ChildrenOf(p, names) && Under(s, q);
      assert q[|p|] == s[|p|];
    }
    if Under(p, q) && |q| > |p| && q[|p|] in names {
      assert p + [q[|p|]] in ChildrenOf(p, names);
      assert q[..|p| + 1] == p + [q[|p|]];
    }
  }

  lemma CoveredUnion(a: set<Path>, b: set<Path>, q: Path)
    ensures Covered(a + b, q) <==> Covered(a, q) || Covered(b, q)
  {
    if Covered(a, q) {
      var s :| s in a && Under(s, q);
      assert s in a + b;
    }
    if Covered(b, q) {
      var s :| s in b && Under(s, q);
      assert s in a + b;
    }
  }

  lemma AntichainChildren(todo: set<Path>, p: Path, names: seq<string>)
    requires Antichain(todo) && p in todo
    ensures Antichain(todo - {p} + ChildrenOf(p, names))
  {
    var c := ChildrenOf(p, names);
    forall x, y | x in todo - {p} + c && y in todo - {p} + c && Under(x, y) ensures x == y {
      if x in c {
        assert Under(p, x);
        UnderTrans(p, x, y);
      } else if y in c {
        BothUnder(x, p, y);
      }
    }
  }

  /** Below a directory all is below one of its entries. */
  lemma BelowEntry(t: Tree, p: Path, q: Path)
    requires WellFormed(t) && q in t && Under(p, q) && q != p
    ensures |q| > |p| && p + [q[|p|]] in t
  {
    var c := p + [q[|p|]];
    assert q[..|p| + 1] == c;
    if q != c { AncestorDir(t, c, q); }
  }

  /** What is covered once a directory is replaced by what is in it. */
  lemma CoveredExpand(todo: set<Path>, p: Path, names: seq<string>, q: Path)
    requires Antichain(todo) && p in todo
    ensures Covered(todo - {p} + ChildrenOf(p, names), q) ==> Covered(todo, q)
    ensures Covered(todo, q) ==>
              Covered(todo - {p} + ChildrenOf(p, names), q) || q == p || (Under(p, q) && |q| > |p| && q[|p|] !in names)
  {
    hide Covered, Antichain;
    CoveredUnion(todo - {p}, ChildrenOf(p, names), q);
    CoveredChildren(p, names, q);
    CoveredLess(todo, p, q);
  }

  lemma ClearChild(unreadable: set<Path>, root: Path, p: Path, n: string)
    requires Under(root, p) && ClearAbove(unreadable, root, p) && p !in unreadable
    ensures ClearAbove(unreadable, root, p + [n])
  {
    forall k | |root| <= k < |p| + 1 ensures (p + [n])[..k] !in unreadable {
      assert (p + [n])[..k] == p[..k];
      if k == |p| { assert p[..k] == p; }
    }
  }

  /** A directory is replaced by what is in it. */
  lemma Expand(t: Tree, root: Path, unreadable: set<Path>, out: seq<Path>, todo: set<Path>, p: Path, names: seq<string>)
    requires WellFormed(t) && WalkInv(t, root, unreadable, out, todo) && p in todo && IsDir(t, p) && p !in unreadable
    requires forall n :: n in names <==> p + [n] in t
    ensures WalkInv(t, root, unreadable, out, todo - {p} + ChildrenOf(p, names))
  {
    hide Antichain, Covered, Clear, ClearAbove, WellFormed;
    var more := todo - {p} + ChildrenOf(p, names);
    AntichainChildren(todo, p, names);
    forall q | q in out ensures !Covered(more, q) { CoveredExpand(todo, p, names, q); }
    forall q | Reached(t, root, unreadable, q) ensures q in out || Covered(more, q) {
      CoveredExpand(todo, p, names, q);
      if Under(p, q) && q != p { BelowEntry(t, p, q); }
    }
    forall s | s in more ensures Under(root, s) && ClearAbove(unreadable, root, s) {
      if s in ChildrenOf(p, names) {
        var n :| n in names && s == p + [n];
        ClearChild(unreadable, root, p, n);
        UnderTrans(root, p, s);
      }
    }
  }

  predicate DistinctPaths(s: seq<Path>) {
    forall i, j :: 0 <= i < j < |s| ==> s[i] != s[j]
  }

  /** The entries still to be handled: those on the stack, and the rest of the directory in hand. */
  function Todo(stack: seq<Path>, dir: Path, rest: seq<string>): set<Path> {
    Elements(stack) + ChildrenOf(dir, rest)
  }

  ghost predicate StackInv(stack: seq<Path>, dir: Path, rest: seq<string>) {
    DistinctPaths(stack) && Distinct(rest) && forall p :: p in stack ==> p !in ChildrenOf(dir, rest)
  }

  lemma Pop(stack: seq<Path>)
    requires stack != [] && DistinctPaths(stack)
    ensures var n := |stack| - 1;
            Elements(stack[..n]) == Elements(stack) - {stack[n]} && DistinctPaths(stack[..n])
              && stack[n] in Elements(stack)
  {
  }

  /** The next entry of the directory is handled: it is pushed, or dropped. */
  lemma NextEntry(stack: seq<Path>, dir: Path, rest: seq<string>)
    requires rest != [] && StackInv(stack, dir, rest)
    ensures var c := dir + [rest[0]];
            && c in Todo(stack, dir, rest)
            && StackInv(stack, dir, rest[1..]) && Todo(stack, dir, rest[1..]) == Todo(stack, dir, rest) - {c}
            && StackInv(stack + [c], dir, rest[1..]) && Todo(stack + [c], dir, rest[1..]) == Todo(stack, dir, rest)
  {
    var c := dir + [rest[0]];
    assert rest[0] in rest;
    forall m | m in rest[1..] ensures dir + [m] != c { assert (dir + [m])[|dir|] == m && c[|dir|] == rest[0]; }
    forall m | m in rest ensures m == rest[0] || m in rest[1..] { assert rest == [rest[0]] + rest[1..]; }
    assert Todo(stack + [c], dir, rest[1..]) == Todo(stack, dir, rest);
  }

  lemma AllHandled(stack: seq<Path>, dir: Path)
    requires StackInv(stack, dir, [])
    ensures Todo(stack, dir, []) == Elements(stack) && DistinctPaths(stack)
  {
  }

  /** Entering a directory: none of its entries is on the stack. */
  lemma Enter(stack: seq<Path>, dir: Path, names: seq<string>, before: set<Path>)
    requires Antichain(before) && dir in before && Elements(stack) == before - {dir} && DistinctPaths(stack)
    requires Distinct(names)
    ensures StackInv(stack, dir, names) && Todo(stack, dir, names) == before - {dir} + ChildrenOf(dir, names)
  {
    forall p | p in stack ensures p !in ChildrenOf(dir, names) {
      assert p in before - {dir};
      assert Under(dir, p) ==> p == dir;
    }
  }

  /** What is to do is part of what was to do, and `dir` no longer is. */
  ghost predicate Shrunk(before: set<Path>, dir: Path, todo: set<Path>) {
    forall q :: Covered(todo, q) ==> Covered(before, q) && q != dir
  }

  ghost function Remaining(t: Tree, todo: set<Path>): set<Path> {
    set q | q in t && Covered(todo, q)
  }

  lemma ShrunkLess(t: Tree, before: set<Path>, dir: Path, todo: set<Path>)
    requires Shrunk(before, dir, todo) && dir in t && dir in before
    ensures Remaining(t, todo) < Remaining(t, before)
  {
    CoveredSelf(before, dir);
    UnderSelf(dir);
    assert dir in Remaining(t, before) && dir !in Remaining(t, todo);
  }

  lemma ExpandShrinks(todo: set<Path>, dir: Path, names: seq<string>)
    requires Antichain(todo) && dir in todo
    ensures Shrunk(todo, dir, todo - {dir} + ChildrenOf(dir, names))
  {
    var more := todo - {dir} + ChildrenOf(dir, names);
    forall q | Covered(more, q) ensures Covered(todo, q) && q != dir {
      CoveredExpand(todo, dir, names, q);
      CoveredUnion(todo - {dir}, ChildrenOf(dir, names), q);
      CoveredChildren(dir, names, q);
      CoveredLess(todo, dir, q);
    }
  }

  lemma ShrinkMore(before: set<Path>, dir: Path, todo: set<Path>, less: set<Path>)
    requires Shrunk(before, dir, todo) && less <= todo
    ensures Shrunk(before, dir, less)
  {
    forall q | Covered(less, q) ensures Covered(todo, q) {
      var s :| s in less && Under(s, q);
      assert s in todo;
    }
  }

  lemma NoFileBelow(t: Tree, root: Path, unreadable: set<Path>, p: Path)
    requires WellFormed(t) && !IsDir(t, p) && (!IsFile(t, p) || p == root)
    ensures forall q :: Under(p, q) ==> !Reached(t, root, unreadable, q)
  {
    forall q | Under(p, q) ensures !Reached(t, root, unreadable, q) {
      if q in t && q != p { AncestorDir(t, p, q); }
    }
  }

  lemma RemainingLess(t: Tree, before: set<Path>, dir: Path)
    ensures Remaining(t, before - {dir}) <= Remaining(t, before)
  {
    forall q | Covered(before - {dir}, q) ensures Covered(before, q) {
      var s :| s in before - {dir} && Under(s, q);
      assert s in before;
    }
  }

  lemma InvAntichain(t: Tree, root: Path, unreadable: set<Path>, out: seq<Path>, todo: set<Path>)
    requires WalkInv(t, root, unreadable, out, todo)
    ensures Antichain(todo) && forall s :: s in todo ==> Under(root, s)
  {
  }

  lemma StartInv(t: Tree, root: Path, unreadable: set<Path>)
    ensures WalkInv(t, root, unreadable, [], {root}) && Elements([root]) == {root} && DistinctPaths([root])
  {
    UnderSelf(root);
    forall q | Reached(t, root, unreadable, q) ensures Covered({root}, q) { assert root in {root} && Under(root, q); }
  }

  lemma DoneInv(t: Tree, root: Path, unreadable: set<Path>, out: seq<Path>)
    requires WalkInv(t, root, unreadable, out, Elements([]))
    ensures DistinctPaths(out) && forall q :: q in out <==> Reached(t, root, unreadable, q)
  {
  }

  /** All regular files below `root` that can be read, each once; `unreadable` are the directories that
      cannot be listed and the entries whose type cannot be told. */
  method WalkFiles(disk: Disk, root: Path, unreadable: set<Path>) returns (out: seq<Path>)
    requires disk.Valid()
    ensures DistinctPaths(out) && forall q :: q in out <==> Reached(disk.tree, root, unreadable, q)
  {
    hide *;
    ghost var t := disk.tree;
    ValidIs(disk);
    out := [];
    var stack := [root];
    StartInv(t, root, unreadable);
    while stack != []
      invariant DistinctPaths(stack) && WalkInv(t, root, unreadable, out, Elements(stack))
      invariant forall p :: p in stack ==> !IsFile(t, p) || p == root
      decreases Remaining(t, Elements(stack)), |stack|
    {
      var dir := stack[|stack| - 1];
      ghost var before := Elements(stack);
      Pop(stack);
      InvAntichain(t, root, unreadable, out, before);
      stack := stack[..|stack| - 1];
      if dir in unreadable || !IsDir(disk.tree, dir) {
        if dir in unreadable { NotReached(t, root, unreadable, dir); } else { NoFileBelow(t, root, unreadable, dir); }
        Drop(t, root, unreadable, out, before, dir);
        RemainingLess(t, before, dir);
        continue;
      }
      var names := disk.ListDir(dir);
      Expand(t, root, unreadable, out, before, dir, names);
      ExpandShrinks(before, dir, names);
      Enter(stack, dir, names, before);
      for i := 0 to |names|
        invariant WalkInv(t, root, unreadable, out, Todo(stack, dir, names[i..]))
        invariant StackInv(stack, dir, names[i..])
        invariant Shrunk(before, dir, Todo(stack, dir, names[i..]))
        invariant forall p :: p in stack ==> !IsFile(t, p) || p == root
      {
        var path := dir + [names[i]];
        ghost var rest := names[i..];
        assert rest[0] == names[i] && rest[1..] == names[i + 1..];
        NextEntry(stack, dir, rest);
        ghost var todo := Todo(stack, dir, rest);
        EntryBelow(root, dir, names[i]);
        ShrinkMore(before, dir, todo, todo - {path});
        if path in unreadable {
          NotReached(t, root, unreadable, path);
          Drop(t, root, unreadable, out, todo, path);
        } else if IsDir(disk.tree, path) {
          NotBoth(t, path);
          stack := stack + [path];
        } else if IsFile(disk.tree, path) {
          Found(t, root, unreadable, out, todo, path);
          out := out + [path];
        } else {
          NoFileBelow(t, root, unreadable, path);
          Drop(t, root, unreadable, out, todo, path);
        }
      }
      assert names[|names|..] == [];
      AllHandled(stack, dir);
      DirIn(t, dir);
      ShrunkLess(t, before, dir, Elements(stack));
    }
    assert stack == [];
    DoneInv(t, root, unreadable, out);
  }

  lemma EntryBelow(root: Path, dir: Path, name: string)
    requires Under(root, dir)
    ensures Under(root, dir + [name]) && dir + [name] != root
  {
  }

  lemma DirIn(t: Tree, p: Path)
    requires IsDir(t, p)
    ensures p in t
  {
  }

  lemma NotBoth(t: Tree, p: Path)
    requires IsDir(t, p)
    ensures !IsFile(t, p)
  {
  }
}
