/** Installing the dashboard: copy a tree, then swap whole directories. */
module WebDist {
  import opened Text
  import opened FileSystem
  import opened Walk

  // ----- Copying a tree -----

  /** An entry, given relative to the two roots, is copied; or it is still to do, or a link, or not there,
      and then nothing has changed at its place. */
  ghost predicate CopiedAt(t: Tree, src: Path, dst: Path, u: Tree, todo: set<Path>, r: Path) {
    if src + r in t && !t[src + r].Link? && !Covered(todo, r) then dst + r in u && u[dst + r] == t[src + r]
    else Same(t, u, dst + r)
  }

  /** The tree at `src` laid over the one at `dst`: its directories and files are there, and what it has no
      directory or file for is as it was. */
  ghost predicate Merged(t: Tree, src: Path, u: Tree, dst: Path) {
    forall r: Path :: CopiedAt(t, src, dst, u, {}, r)
  }

  /** A directory is to be made where there is none but something else is, or a file written where there is
      a directory. */
  ghost predicate Conflict(t: Tree, src: Path, dst: Path) {
    exists r: Path :: src + r in t && dst + r in t &&
                      ((t[src + r].Dir? && !t[dst + r].Dir?) || (t[src + r].File? && t[dst + r].Dir?))
  }

  ghost predicate NoLinks(t: Tree, p: Path) {
    forall r: Path :: !IsLink(t, p + r)
  }

  ghost predicate CopyInv(t: Tree, src: Path, dst: Path, u: Tree, todo: set<Path>) {
    && OnlyUnder(t, u, dst)
    && Antichain(todo)
    && (forall s :: s in todo ==> src + s in t)
    && (forall r: Path :: CopiedAt(t, src, dst, u, todo, r))
  }

  ghost predicate Fresh(t: Tree, p: Path) {
    forall q :: Under(p, q) ==> q !in t
  }

  lemma SourceSame(t: Tree, src: Path, dst: Path, u: Tree, r: Path)
    requires OnlyUnder(t, u, dst) && Disjoint(src, dst)
    ensures Same(t, u, src + r)
  {
    UnderAppend(src, r);
    if Under(dst, src + r) { BothUnder(src, dst, src + r); }
  }

  lemma CopyStart(t: Tree, src: Path, dst: Path)
    requires IsDir(t, src)
    ensures CopyInv(t, src, dst, t, {[]}) && Elements([[]]) == {[]} && DistinctPaths([[]]) && src + [] == src
  {
    var top: Path := [];
    assert src + top == src;
    forall r: Path ensures Covered({top}, r) { assert top in {top} && Under(top, r); }
  }

  lemma CopyEnd(t: Tree, src: Path, dst: Path, u: Tree)
    requires CopyInv(t, src, dst, u, Elements([]))
    ensures Merged(t, src, u, dst)
  {
    assert Elements([]) == {};
  }

  /** Where nothing was, the copy is the tree without its links, and nothing stands in its way. */
  lemma MergedFresh(t: Tree, src: Path, u: Tree, dst: Path)
    requires Fresh(t, dst)
    ensures Merged(t, src, u, dst) ==> SameButLinks(t, src, u, dst)
    ensures !Conflict(t, src, dst) && NoLinks(t, dst)
  {
    forall r: Path ensures dst + r !in t { UnderAppend(dst, r); }
    if Merged(t, src, u, dst) {
      forall r: Path
        ensures (dst + r in u <==> src + r in t && !t[src + r].Link?) && (dst + r in u ==> t[src + r] == u[dst + r])
      {
        assert CopiedAt(t, src, dst, u, {}, r);
      }
    }
  }

  /** The directory to be made has its parent already. */
  lemma ParentMade(t: Tree, src: Path, dst: Path, u: Tree, todo: set<Path>, p: Path)
    requires WellFormed(t) && CopyInv(t, src, dst, u, todo) && p in todo && Disjoint(src, dst)
    requires dst != [] && IsDir(t, Parent(dst))
    ensures IsDir(u, Parent(dst + p)) && Same(t, u, dst + p)
  {
    CoveredSelf(todo, p);
    UnderSelf(p);
    assert CopiedAt(t, src, dst, u, todo, p);
    if p == [] {
      assert dst + p == dst;
      assert !Under(dst, Parent(dst));
      assert Same(t, u, Parent(dst));
    } else {
      var r := Parent(p);
      assert Parent(dst + p) == dst + r && Parent(src + p) == src + r;
      assert IsDir(t, src + r);
      assert CopiedAt(t, src, dst, u, todo, r);
      if Covered(todo, r) {
        var s :| s in todo && Under(s, r);
        ParentUnder(s, p);
      }
    }
  }

  lemma {:induction false} AncestorsIn(u: Tree, p: Path, q: Path)
    requires WellFormed(u) && p in u && Under(q, p)
    ensures q in u
  {
    if q != p { AncestorDir(u, q, p); }
  }

  /** Only that directory is made. */
  lemma OneDir(u: Tree, v: Tree, p: Path)
    requires WellFormed(u) && p != [] && IsDir(u, Parent(p)) && DirsAdded(u, v, p)
    ensures forall q :: q != p ==> Same(u, v, q)
    ensures OnlyAt(u, v, p)
  {
    forall q | q != p ensures Same(u, v, q) {
      if !Same(u, v, q) {
        assert Under(q, p);
        assert Under(q, Parent(p)) by { assert |q| < |p|; }
        AncestorsIn(u, Parent(p), q);
      }
    }
  }

  lemma OnlyAtUnder(t: Tree, u: Tree, v: Tree, dst: Path, r: Path)
    requires OnlyUnder(t, u, dst) && OnlyAt(u, v, dst + r)
    ensures OnlyUnder(t, v, dst)
  {
    UnderAppend(dst, r);
    forall q | !Under(dst, q) ensures Same(t, v, q) { assert Same(t, u, q) && Same(u, v, q); }
  }

  lemma Relative(dst: Path, p: Path, r: Path)
    ensures dst + r == dst + p <==> r == p
  {
    assert (dst + r)[|dst|..] == r && (dst + p)[|dst|..] == p;
  }

  lemma CopyDirAt(t: Tree, src: Path, dst: Path, u: Tree, todo: set<Path>, p: Path, v: Tree, names: seq<string>,
                  r: Path)
    requires WellFormed(t) && Antichain(todo) && p in todo && IsDir(t, src + p)
    requires OnlyAt(u, v, dst + p) && IsDir(v, dst + p) && CopiedAt(t, src, dst, u, todo, r)
    requires forall n :: n in names <==> src + p + [n] in t
    ensures CopiedAt(t, src, dst, v, todo - {p} + ChildrenOf(p, names), r)
  {
    hide Antichain, Covered, WellFormed;
    CoveredExpand(todo, p, names, r);
    Relative(dst, p, r);
    if r == p {
      NotOwnChild(todo, p, names);
    } else {
      assert Same(u, v, dst + r);
      if Under(p, r) && src + r in t { EntryNamed(t, src, p, names, r); }
    }
  }

  lemma EntryNamed(t: Tree, src: Path, p: Path, names: seq<string>, r: Path)
    requires WellFormed(t) && src + r in t && Under(p, r) && r != p
    requires forall n :: n in names <==> src + p + [n] in t
    ensures |r| > |p| && r[|p|] in names
  {
    assert (src + r)[..|src + p|] == src + p;
    assert src + r != src + p by { Relative(src, p, r); }
    BelowEntry(t, src + p, src + r);
    assert (src + r)[|src + p|] == r[|p|];
  }

  /** A directory is made. */
  lemma CopyDir(t: Tree, src: Path, dst: Path, u: Tree, todo: set<Path>, p: Path, v: Tree, names: seq<string>)
    requires WellFormed(t) && CopyInv(t, src, dst, u, todo) && p in todo && IsDir(t, src + p)
    requires OnlyAt(u, v, dst + p) && IsDir(v, dst + p)
    requires forall n :: n in names <==> src + p + [n] in t
    ensures CopyInv(t, src, dst, v, todo - {p} + ChildrenOf(p, names))
  {
    var more := todo - {p} + ChildrenOf(p, names);
    hide Antichain, Covered, OnlyUnder, OnlyAt, WellFormed, CopiedAt, ChildrenOf;
    OnlyAtUnder(t, u, v, dst, p);
    AntichainChildren(todo, p, names);
    forall r: Path ensures CopiedAt(t, src, dst, v, more, r) { CopyDirAt(t, src, dst, u, todo, p, v, names, r); }
    ChildrenIn(t, src, p, names);
  }

  lemma ChildrenIn(t: Tree, src: Path, p: Path, names: seq<string>)
    requires forall n :: n in names <==> src + p + [n] in t
    ensures forall s :: s in ChildrenOf(p, names) ==> src + s in t
  {
    forall s | s in ChildrenOf(p, names) ensures src + s in t {
      var n :| n in names && s == p + [n];
      assert src + s == src + p + [n];
    }
  }

  lemma CopyDoneAt(t: Tree, src: Path, dst: Path, u: Tree, todo: set<Path>, c: Path, v: Tree, r: Path)
    requires Antichain(todo) && c in todo && src + c in t && (forall s :: s in t && Under(src + c, s) ==> s == src + c)
    requires CopiedAt(t, src, dst, u, todo, r) && OnlyAt(u, v, dst + c)
    requires if t[src + c].Link? then u == v else dst + c in v && v[dst + c] == t[src + c]
    ensures CopiedAt(t, src, dst, v, todo - {c}, r)
  {
    hide Antichain, Covered;
    CoveredLess(todo, c, r);
    Relative(dst, c, r);
    Relative(src, c, r);
    UnderSelf(c);
    assert Under(c, r) ==> (src + r)[..|src + c|] == src + c;
    if r != c { assert Same(u, v, dst + r); }
  }

  /** A file is copied, or a link passed by. */
  lemma CopyLeaf(t: Tree, src: Path, dst: Path, u: Tree, todo: set<Path>, c: Path, v: Tree)
    requires WellFormed(t) && CopyInv(t, src, dst, u, todo) && c in todo && !IsDir(t, src + c) && OnlyAt(u, v, dst + c)
    requires if t[src + c].Link? then u == v else dst + c in v && v[dst + c] == t[src + c]
    ensures CopyInv(t, src, dst, v, todo - {c})
  {
    LeafEmpty(t, src + c);
    CoveredLess(todo, c, c);
    NotMadeYet(t, src, dst, u, todo, c);
    hide Antichain, Covered, OnlyUnder, OnlyAt, WellFormed, CopiedAt;
    OnlyAtUnder(t, u, v, dst, c);
    forall r: Path ensures CopiedAt(t, src, dst, v, todo - {c}, r) { CopyDoneAt(t, src, dst, u, todo, c, v, r); }
  }

  lemma NotMadeYet(t: Tree, src: Path, dst: Path, u: Tree, todo: set<Path>, c: Path)
    requires CopyInv(t, src, dst, u, todo) && c in todo
    ensures Same(t, u, dst + c) && src + c in t
  {
    CoveredSelf(todo, c);
    UnderSelf(c);
    assert CopiedAt(t, src, dst, u, todo, c);
  }

  lemma NotOwnChild(todo: set<Path>, p: Path, names: seq<string>)
    requires Antichain(todo) && p in todo
    ensures !Covered(todo - {p} + ChildrenOf(p, names), p)
  {
    CoveredUnion(todo - {p}, ChildrenOf(p, names), p);
    CoveredChildren(p, names, p);
    CoveredLess(todo, p, p);
  }

  /** The stack of the copy: pairs of directories, the same way below the two roots. */
  ghost predicate Pairs(stack: seq<(Path, Path)>, rel: seq<Path>, src: Path, dst: Path) {
    |stack| == |rel| && forall i :: 0 <= i < |rel| ==> stack[i] == (src + rel[i], dst + rel[i])
  }

  lemma NamesHere(t: Tree, src: Path, dst: Path, u: Tree, p: Path, names: seq<string>)
    requires OnlyUnder(t, u, dst) && Disjoint(src, dst) && forall n :: n in names <==> src + p + [n] in u
    ensures forall n :: n in names <==> src + p + [n] in t
  {
    forall n ensures n in names <==> src + p + [n] in t {
      assert src + p + [n] == src + (p + [n]);
      SourceSame(t, src, dst, u, p + [n]);
    }
  }

  /** States of the copy differ from the first only below the new root. */
  ghost predicate CopySteps(t: Tree, h: seq<Tree>, u: Tree, more: seq<Tree>, dst: Path) {
    h <= more && OnlyUnder(t, u, dst) && forall i :: |h| <= i < |more| ==> OnlyUnder(t, more[i], dst)
  }

  lemma CopyMore(t: Tree, h: seq<Tree>, u: Tree, i: seq<Tree>, v: Tree, j: seq<Tree>, dst: Path, r: Path)
    requires CopySteps(t, h, u, i, dst) && i <= j && OnlyAt(u, v, dst + r)
    requires forall k :: |i| <= k < |j| ==> OnlyAt(u, j[k], dst + r)
    ensures CopySteps(t, h, v, j, dst)
  {
    hide OnlyUnder, OnlyAt;
    OnlyAtUnder(t, u, v, dst, r);
    forall k | |h| <= k < |j| ensures OnlyUnder(t, j[k], dst) {
      if k < |i| { assert j[k] == i[k]; } else { OnlyAtUnder(t, u, j[k], dst, r); }
    }
  }

  lemma CopyFrom(t: Tree, h: seq<Tree>, dst: Path)
    ensures CopySteps(t, h, t, h, dst)
  {
  }

  lemma CopyStepsUnder(t: Tree, h: seq<Tree>, u: Tree, i: seq<Tree>, dst: Path)
    requires CopySteps(t, h, u, i, dst)
    ensures OnlyUnder(t, u, dst)
  {
  }

  lemma NotBlocked(t: Tree, p: Path)
    requires WellFormed(t) && p != [] && p !in t && IsDir(t, Parent(p))
    ensures !Blocked(t, p)
  {
    forall q | Under(q, p) && q in t ensures t[q].Dir? {
      assert Under(q, Parent(p)) by { assert q != p; }
      if q != Parent(p) { AncestorDir(t, q, Parent(p)); }
    }
  }

  /** Makes one directory of the copy, if it is not there. */
  method MakeDir(disk: Disk, p: Path) returns (ok: bool)
    requires disk.Valid() && p != [] && IsDir(disk.tree, Parent(p))
    modifies disk
    ensures disk.Valid() && old(disk.history) <= disk.history && OnlyAt(old(disk.tree), disk.tree, p)
    ensures forall i :: |old(disk.history)| <= i < |disk.history| ==> OnlyAt(old(disk.tree), disk.history[i], p)
    ensures ok ==> IsDir(disk.tree, p)
    ensures old(disk.faulted) ==> disk.faulted
    ensures !ok ==> disk.faulted || (p in old(disk.tree) && !IsDir(old(disk.tree), p))
  {
    ghost var t := disk.tree;
    assert WellFormed(t);
    if p !in t { NotBlocked(t, p); }
    AlreadyThere(t, p);
    hide WellFormed, DirsAdded, OnlyAt, Blocked;
    ok := disk.CreateDirAll(p);
    OneDir(t, disk.tree, p);
    forall i | |old(disk.history)| <= i < |disk.history|
      ensures OnlyAt(t, disk.history[i], p)
    {
      OneDir(t, disk.history[i], p);
    }
  }

  lemma AlreadyThere(t: Tree, p: Path)
    requires WellFormed(t)
    ensures IsDir(t, p) ==> !Blocked(t, p)
  {
    if IsDir(t, p) && Blocked(t, p) {
      var q :| Under(q, p) && q in t && !t[q].Dir?;
      if q != p { AncestorDir(t, q, p); }
    }
  }

  lemma InvCovers(t: Tree, src: Path, dst: Path, u: Tree, todo: set<Path>)
    requires CopyInv(t, src, dst, u, todo)
    ensures Antichain(todo) && forall s :: s in todo ==> src + s in t
  {
  }

  /** What has been copied and what has not, seen from the file to be copied. */
  lemma BeforeCopy(t: Tree, src: Path, dst: Path, u: Tree, todo: set<Path>, c: Path)
    requires CopyInv(t, src, dst, u, todo) && c in todo && Disjoint(src, dst) && NoLinks(t, dst)
    ensures Same(t, u, dst + c) && !IsLink(u, dst + c) && src + c in t && OnlyAt(u, u, dst + c) && src + c != dst + c
    ensures src + c in u && u[src + c] == t[src + c]
    ensures if IsDir(u, src + c) then IsDir(t, src + c)
            else !IsDir(t, src + c) && if IsFile(u, src + c) then !IsLink(u, src + c)
              && t[src + c].File? else t[src + c].Link?
  {
    NotMadeYet(t, src, dst, u, todo, c);
    SourceSame(t, src, dst, u, c);
    UnderAppend(src, c);
    UnderAppend(dst, c);
    if src + c == dst + c { BothUnder(src, dst, src + c); }
  }

  lemma RemainingBelow(t: Tree, src: Path, before: set<Path>, dir: Path, todo: set<Path>)
    requires Shrunk(before, dir, todo) && dir in before && src + dir in t
    ensures Left(t, src, todo) < Left(t, src, before)
  {
    CoveredSelf(before, dir);
    UnderSelf(dir);
    UnderAppend(src, dir);
    assert src + dir in Left(t, src, before) && src + dir !in Left(t, src, todo);
  }

  ghost function Left(t: Tree, src: Path, todo: set<Path>): set<Path> {
    set q | q in t && Under(src, q) && Covered(todo, q[|src|..])
  }

  lemma InTheWay(t: Tree, src: Path, dst: Path, r: Path)
    requires src + r in t && dst + r in t
    requires (t[src + r].Dir? && !t[dst + r].Dir?) || (t[src + r].File? && t[dst + r].Dir?)
    ensures Conflict(t, src, dst)
  {
  }

  /** Copies the tree at `src` to `dst`, over what is there. On success every directory and file of it is
      there, and all else is as it was, links included, which are not copied. Where nothing was, the copy
      is the tree without its links. */
  method CopyDirRecursive(disk: Disk, src: Path, dst: Path) returns (ok: bool)
    requires disk.Valid() && IsDir(disk.tree, src) && Disjoint(src, dst) && dst != [] && IsDir(disk.tree, Parent(dst))
    requires NoLinks(disk.tree, dst)
    modifies disk
    ensures disk.Valid() && CopySteps(old(disk.tree), old(disk.history), disk.tree, disk.history, dst)
    ensures ok ==> Merged(old(disk.tree), src, disk.tree, dst)
    ensures ok && Fresh(old(disk.tree), dst) ==> SameButLinks(old(disk.tree), src, disk.tree, dst)
    ensures (old(disk.faulted) ==> disk.faulted) && (!ok ==> disk.faulted || Conflict(old(disk.tree), src, dst))
  {
    hide *;
    ghost var t, h := disk.tree, disk.history;
    ValidIs(disk);
    var stack := [(src, dst)];
    ghost var rel: seq<Path> := [[]];
    CopyStart(t, src, dst);
    PairsStart(src, dst);
    CopyFrom(t, h, dst);
    while stack != []
      invariant disk.Valid() && CopySteps(t, h, disk.tree, disk.history, dst) && (old(disk.faulted) ==> disk.faulted)
      invariant Pairs(stack, rel, src, dst) && DistinctPaths(rel)
      invariant forall p :: p in rel ==> IsDir(t, src + p)
      invariant CopyInv(t, src, dst, disk.tree, Elements(rel))
      decreases Left(t, src, Elements(rel))
    {
      var n := |stack| - 1;
      var (fromDir, toDir) := stack[n];
      ghost var before := Elements(rel);
      PairsPop(stack, rel, src, dst);
      Pop(rel);
      ghost var p := rel[n];
      InvCovers(t, src, dst, disk.tree, before);
      stack, rel := stack[..n], rel[..n];
      ghost var u, i0 := disk.tree, disk.history;
      ParentMade(t, src, dst, u, before, p);
      ok := MakeDir(disk, toDir);
      CopyMore(t, h, u, i0, disk.tree, disk.history, dst, p);
      if !ok {
        if !disk.faulted { BlockedDir(t, src, dst, u, p); }
        return;
      }
      CopyStepsUnder(t, h, disk.tree, disk.history, dst);
      SourceDir(t, src, dst, disk.tree, p);
      var entries := disk.ReadDir(fromDir);
      if entries.None? { return false; }
      var names := entries.value;
      NamesHere(t, src, dst, disk.tree, p, names);
      CopyDir(t, src, dst, u, before, p, disk.tree, names);
      ExpandShrinks(before, p, names);
      Enter(rel, p, names, before);
      for i := 0 to |names|
        invariant disk.Valid() && CopySteps(t, h, disk.tree, disk.history, dst) && (old(disk.faulted) ==> disk.faulted)
        invariant IsDir(disk.tree, toDir)
        invariant Pairs(stack, rel, src, dst) && StackInv(rel, p, names[i..])
        invariant forall p :: p in rel ==> IsDir(t, src + p)
        invariant CopyInv(t, src, dst, disk.tree, Todo(rel, p, names[i..]))
        invariant Shrunk(before, p, Todo(rel, p, names[i..]))
      {
        var failed := disk.Fails();
        if failed { return false; }
        var from, to_ := fromDir + [names[i]], toDir + [names[i]];
        ghost var c, rest := p + [names[i]], names[i..];
        assert rest[0] == names[i] && rest[1..] == names[i + 1..];
        assert from == src + c && to_ == dst + c;
        NextEntry(rel, p, rest);
        ghost var todo := Todo(rel, p, rest);
        ShrinkMore(before, p, todo, todo - {c});
        BeforeCopy(t, src, dst, disk.tree, todo, c);
        ghost var w, k := disk.tree, disk.history;
        if IsDir(disk.tree, from) {
          PairsPush(stack, rel, src, dst, c);
          stack, rel := stack + [(from, to_)], rel + [c];
        } else if IsFile(disk.tree, from) {
          CanCopy(w, dst, p, names[i]);
          if IsDir(w, to_) { BlockedFile(t, src, dst, w, c); }
          ok := disk.Copy(from, to_);
          StillDir(w, disk.tree, toDir, to_);
          CopyMore(t, h, w, k, disk.tree, disk.history, dst, c);
          if !ok { return; }
          CopyLeaf(t, src, dst, w, todo, c, disk.tree);
        } else {
          CopyLeaf(t, src, dst, w, todo, c, w);
        }
      }
      assert names[|names|..] == [];
      AllHandled(rel, p);
      RemainingBelow(t, src, before, p, Elements(rel));
    }
    PairsEmpty(stack, rel, src, dst);
    CopyEnd(t, src, dst, disk.tree);
    if Fresh(t, dst) { MergedFresh(t, src, disk.tree, dst); }
    ok := true;
  }

  lemma BlockedDir(t: Tree, src: Path, dst: Path, u: Tree, p: Path)
    requires Same(t, u, dst + p) && IsDir(t, src + p) && dst + p in u && !IsDir(u, dst + p)
    ensures Conflict(t, src, dst)
  {
    InTheWay(t, src, dst, p);
  }

  lemma BlockedFile(t: Tree, src: Path, dst: Path, u: Tree, c: Path)
    requires Same(t, u, dst + c) && IsFile(t, src + c) && IsDir(u, dst + c)
    ensures Conflict(t, src, dst)
  {
    InTheWay(t, src, dst, c);
  }

  lemma SourceDir(t: Tree, src: Path, dst: Path, u: Tree, p: Path)
    requires OnlyUnder(t, u, dst) && Disjoint(src, dst) && IsDir(t, src + p)
    ensures IsDir(u, src + p)
  {
    SourceSame(t, src, dst, u, p);
  }

  lemma CanCopy(u: Tree, dst: Path, p: Path, name: string)
    requires IsDir(u, dst + p)
    ensures !IsDir(u, dst + (p + [name])) ==> CanWrite(u, dst + (p + [name]))
    ensures dst + p != dst + (p + [name])
  {
    var q := dst + (p + [name]);
    assert q[..|q| - 1] == dst + p;
  }

  lemma StillDir(u: Tree, v: Tree, d: Path, p: Path)
    requires IsDir(u, d) && OnlyAt(u, v, p) && d != p
    ensures IsDir(v, d)
  {
    assert Same(u, v, d);
  }

  lemma PairsEmpty(stack: seq<(Path, Path)>, rel: seq<Path>, src: Path, dst: Path)
    requires Pairs(stack, rel, src, dst) && stack == []
    ensures rel == []
  {
  }

  lemma PairsStart(src: Path, dst: Path)
    ensures Pairs([(src, dst)], [[]], src, dst)
  {
    var top: Path := [];
    assert src + top == src && dst + top == dst;
  }

  lemma PairsPop(stack: seq<(Path, Path)>, rel: seq<Path>, src: Path, dst: Path)
    requires Pairs(stack, rel, src, dst) && stack != []
    ensures var n := |stack| - 1;
            |rel| == n + 1 && stack[n] == (src + rel[n], dst + rel[n]) && Pairs(stack[..n], rel[..n], src, dst)
  {
  }

  lemma PairsPush(stack: seq<(Path, Path)>, rel: seq<Path>, src: Path, dst: Path, c: Path)
    requires Pairs(stack, rel, src, dst)
    ensures Pairs(stack + [(src + c, dst + c)], rel + [c], src, dst)
  {
  }
}
