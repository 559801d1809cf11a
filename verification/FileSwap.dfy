/** Replacing a companion file next to the binary: readers see the old file or the new one. */
module FileSwap {
  import opened Text
  import opened FileSystem
  import opened Update
  import opened TreeSwap

  /** The target is as it was, or is the new file; on Windows it may also be aside for a moment. */
  ghost predicate OldOrNew(t: Tree, target: Path, aside: Path, node: Node, windows: bool, x: Tree) {
    || Same(t, x, target)
    || (target in x && x[target] == node)
    || (windows && target in t && aside in x && x[aside] == t[target])
  }

  ghost predicate AllOldOrNew(t: Tree, target: Path, aside: Path, node: Node, windows: bool, h: seq<Tree>, from: nat) {
    forall i :: from <= i < |h| ==> OldOrNew(t, target, aside, node, windows, h[i])
  }

  /** Nothing changes but the target and the residue next to it. */
  ghost predicate FileOnly(t: Tree, u: Tree, target: Path)
    requires target != []
  {
    forall q :: q == target || Same(t, u, q)
      || (|q| >= |target| && Under(Parent(target), q) && Residue(Base(target), q[|target| - 1]))
  }

  lemma FileTrans(t: Tree, u: Tree, v: Tree, target: Path)
    requires target != [] && FileOnly(t, u, target) && FileOnly(u, v, target)
    ensures FileOnly(t, v, target)
  {
    hide Residue, Under;
    forall q
      ensures q == target || Same(t, v, q)
              || (|q| >= |target| && Under(Parent(target), q) && Residue(Base(target), q[|target| - 1]))
    {
      assert q == target || Same(t, u, q)
             || (|q| >= |target| && Under(Parent(target), q) && Residue(Base(target), q[|target| - 1]));
      assert q == target || Same(u, v, q)
             || (|q| >= |target| && Under(Parent(target), q) && Residue(Base(target), q[|target| - 1]));
    }
  }

  /** A path the swap may write: the target, or a name of its residue. */
  predicate Mine(target: Path, p: Path)
    requires target != []
  {
    p == target || (|p| == |target| && Parent(p) == Parent(target) && Residue(Base(target), Base(p)))
  }

  lemma FileAt(t: Tree, u: Tree, p: Path, target: Path)
    requires target != [] && Mine(target, p) && OnlyAt(t, u, p)
    ensures FileOnly(t, u, target)
  {
  }

  lemma FileMoved(t: Tree, a: Path, b: Path, target: Path)
    requires target != [] && Mine(target, a) && Mine(target, b) && WellFormed(t) && CanRename(t, a, b) && !t[a].Dir?
    ensures FileOnly(t, Moved(t, a, b), target)
    ensures a !in Moved(t, a, b) && b in Moved(t, a, b) && Moved(t, a, b)[b] == t[a]
    ensures forall q :: q != a && q != b ==> Same(t, Moved(t, a, b), q)
  {
    hide Moved, WellFormed, CanRename, Residue;
    MovedLeaf(t, a, b);
  }

  lemma FileSwept(t: Tree, u: Tree, target: Path)
    requires target != [] && Swept(t, u, Parent(target), Base(target))
    ensures FileOnly(t, u, target) && Same(t, u, target)
  {
    hide Residue;
    NotOwnResidue(Base(target));
    assert target[|target| - 1] == Base(target);
  }

  lemma PlacesMine(target: Path, pid: string)
    requires target != []
    ensures Mine(target, Staging(target, pid)) && Mine(target, Aside(target, pid)) && Mine(target, target)
    ensures Staging(target, pid) != target && Aside(target, pid) != target && Staging(target, pid) != Aside(target, pid)
  {
    PlacesDisjoint(target, pid);
    DisjointDiffer(target, Staging(target, pid));
    DisjointDiffer(target, Aside(target, pid));
    DisjointDiffer(Aside(target, pid), Staging(target, pid));
  }

  lemma OldOrNewMore(t: Tree, target: Path, aside: Path, node: Node, windows: bool, h: seq<Tree>, more: seq<Tree>,
                     from: nat)
    requires AllOldOrNew(t, target, aside, node, windows, h, from) && from <= |h| && h <= more
    requires forall i :: |h| <= i < |more| ==> OldOrNew(t, target, aside, node, windows, more[i])
    ensures AllOldOrNew(t, target, aside, node, windows, more, from)
  {
    hide OldOrNew;
    forall i | from <= i < |more| ensures OldOrNew(t, target, aside, node, windows, more[i]) {
      if i < |h| { assert more[i] == h[i]; }
    }
  }

  /** The swap so far. */
  ghost predicate Progress(t: Tree, h: seq<Tree>, u: Tree, i: seq<Tree>, target: Path, aside: Path, node: Node,
                           windows: bool)
    requires target != []
  {
    h <= i && AllOldOrNew(t, target, aside, node, windows, i, |h|) && FileOnly(t, u, target)
  }

  /** One more step, with at most one more state. */
  lemma ProgressOne(t: Tree, h: seq<Tree>, u: Tree, i: seq<Tree>, v: Tree, ok: bool, target: Path, aside: Path,
                    node: Node, windows: bool)
    requires target != [] && Progress(t, h, u, i, target, aside, node, windows)
    requires ok ==> OldOrNew(t, target, aside, node, windows, v) && FileOnly(u, v, target)
    requires !ok ==> v == u
    ensures Progress(t, h, v, i + if ok then [v] else [], target, aside, node, windows)
  {
    hide OldOrNew, FileOnly;
    if ok {
      FileTrans(t, u, v, target);
      OldOrNewMore(t, target, aside, node, windows, i, i + [v], |h|);
    } else {
      assert i + [] == i;
    }
  }

  /** Removing a residue name, while the old file is not only there. */
  lemma RemovedMine(t: Tree, u: Tree, p: Path, target: Path, aside: Path, node: Node, windows: bool)
    requires target != [] && Mine(target, p) && p != target && OldOrNew(t, target, aside, node, windows, u)
    requires p != aside || Same(t, u, target) || (target in u && u[target] == node)
    ensures OldOrNew(t, target, aside, node, windows, u - {p}) && FileOnly(u, u - {p}, target)
    ensures forall q :: q != p ==> Same(u, u - {p}, q)
  {
    FileAt(u, u - {p}, p, target);
  }

  lemma CopyProgress(t: Tree, h: seq<Tree>, u: Tree, i: seq<Tree>, tmp: Path, target: Path, aside: Path, node: Node,
                     windows: bool)
    requires target != [] && Mine(target, tmp) && tmp != target && h <= i && OnlyAt(t, u, tmp)
    requires forall k :: |h| <= k < |i| ==> OnlyAt(t, i[k], tmp)
    ensures Progress(t, h, u, i, target, aside, node, windows) && Same(t, u, target)
  {
    FileAt(t, u, tmp, target);
    forall k | |h| <= k < |i| ensures OldOrNew(t, target, aside, node, windows, i[k]) { assert Same(t, i[k], target); }
  }

  lemma SweepProgress(t: Tree, h: seq<Tree>, u: Tree, i: seq<Tree>, v: Tree, j: seq<Tree>, target: Path, aside: Path,
                      node: Node, windows: bool)
    requires target != [] && Progress(t, h, u, i, target, aside, node, windows) && target in u && u[target] == node
    requires Swept(u, v, Parent(target), Base(target)) && AllSwept(u, j, |i|, Parent(target), Base(target)) && i <= j
    ensures Progress(t, h, v, j, target, aside, node, windows) && target in v && v[target] == node
  {
    hide FileOnly, Swept;
    FileSwept(u, v, target);
    FileTrans(t, u, v, target);
    forall k | |i| <= k < |j| ensures OldOrNew(t, target, aside, node, windows, j[k]) { FileSwept(u, j[k], target); }
    OldOrNewMore(t, target, aside, node, windows, i, j, |h|);
  }

  lemma Renamed(t: Tree, u: Tree, a: Path, b: Path, target: Path, aside: Path, node: Node, windows: bool)
    requires target != [] && Mine(target, a) && Mine(target, b) && a != b && WellFormed(u) && CanRename(u, a, b)
    requires !u[a].Dir?
    requires (b == target && (u[a] == node || (target in t && u[a] == t[target])))
             || (a == target && b == aside && windows && target in t && Same(t, u, target))
    ensures OldOrNew(t, target, aside, node, windows, Moved(u, a, b)) && FileOnly(u, Moved(u, a, b), target)
    ensures b in Moved(u, a, b) && Moved(u, a, b)[b] == u[a] && a !in Moved(u, a, b)
    ensures forall q :: q != a && q != b ==> Same(u, Moved(u, a, b), q)
  {
    hide Moved, CanRename, WellFormed, Mine, FileOnly;
    FileMoved(u, a, b, target);
  }

  method Remove(disk: Disk, p: Path, target: Path, aside: Path, node: Node, windows: bool, ghost t: Tree,
                ghost h: seq<Tree>)
    requires disk.Valid() && target != [] && Progress(t, h, disk.tree, disk.history, target, aside, node, windows)
    requires Mine(target, p) && p != target && OldOrNew(t, target, aside, node, windows, disk.tree)
    requires p != aside || Same(t, disk.tree, target) || (target in disk.tree && disk.tree[target] == node)
    modifies disk
    ensures disk.Valid() && Progress(t, h, disk.tree, disk.history, target, aside, node, windows)
    ensures forall q :: q != p ==> Same(old(disk.tree), disk.tree, q)
    ensures old(disk.faulted) ==> disk.faulted
  {
    hide Progress, Mine, OldOrNew, WellFormed;
    ghost var u := disk.tree;
    RemovedMine(t, u, p, target, aside, node, windows);
    var ok := disk.RemoveFile(p);
    ProgressOne(t, h, u, old(disk.history), disk.tree, ok, target, aside, node, windows);
  }

  method Move(disk: Disk, a: Path, b: Path, target: Path, aside: Path, node: Node, windows: bool, ghost t: Tree,
              ghost h: seq<Tree>) returns (ok: bool)
    requires disk.Valid() && target != [] && Progress(t, h, disk.tree, disk.history, target, aside, node, windows)
    requires Mine(target, a) && Mine(target, b) && a != b && !IsDir(disk.tree, a)
    requires a in disk.tree ==>
      (b == target && (disk.tree[a] == node || (target in t && disk.tree[a] == t[target])))
      || (a == target && b == aside && windows && target in t && Same(t, disk.tree, target))
    modifies disk
    ensures disk.Valid() && Progress(t, h, disk.tree, disk.history, target, aside, node, windows)
    ensures if ok then a in old(disk.tree) && b in disk.tree && disk.tree[b] == old(disk.tree)[a]
            else disk.tree == old(disk.tree)
    ensures forall q :: q != a && q != b ==> Same(old(disk.tree), disk.tree, q)
    ensures ok ==> OldOrNew(t, target, aside, node, windows, disk.tree)
    ensures (old(disk.faulted) ==> disk.faulted) && (!ok ==> disk.faulted || !CanRename(old(disk.tree), a, b))
  {
    hide Progress, Mine, OldOrNew, WellFormed, Moved, CanRename;
    ghost var u := disk.tree;
    ok := disk.Rename(a, b);
    if ok { Renamed(t, u, a, b, target, aside, node, windows); }
    ProgressOne(t, h, u, old(disk.history), disk.tree, ok, target, aside, node, windows);
  }

  /** Replaces `target` by the file `source`. In no state is the target anything but the old file or the
      new one; on Windows the old one may be aside instead, and stays there if it cannot be put back. */
  method SwapFile(disk: Disk, source: Path, target: Path, pid: string, windows: bool) returns (ok: bool)
    requires disk.Valid() && target != [] && !IsDir(disk.tree, target) && IsFile(disk.tree, source)
    requires source != [] && Parent(source) != Parent(target) && !IsLink(disk.tree, Staging(target, pid))
    modifies disk
    ensures disk.Valid()
    ensures Progress(old(disk.tree), old(disk.history), disk.tree, disk.history, target, Aside(target, pid),
            old(disk.tree)[source], windows)
    ensures ok ==> target in disk.tree && disk.tree[target] == old(disk.tree)[source]
    ensures !ok ==> Same(old(disk.tree), disk.tree, target) ||
                    (windows && target in old(disk.tree) && Aside(target, pid) in disk.tree
                      && disk.tree[Aside(target, pid)] == old(disk.tree)[target])
    ensures !ok ==>
              disk.faulted || IsDir(old(disk.tree), Staging(target, pid)) || !IsDir(old(disk.tree), Parent(target))
  {
    hide Progress, Mine, WellFormed, Swept, AllSwept, OnlyAt, CanWrite, CanRename, Staging, Aside;
    ghost var t, h := disk.tree, disk.history;
    var node := disk.tree[source];
    var tmp, aside := Staging(target, pid), Aside(target, pid);
    PlacesMine(target, pid);
    SourceApart(target, pid, source);
    CanStage(disk.tree, target, pid);
    ok := disk.Copy(source, tmp);
    if ok { CanPlace(t, disk.tree, target, pid); }
    CopyProgress(t, h, disk.tree, disk.history, tmp, target, aside, node, windows);
    if !ok { return; }
    ok := Move(disk, tmp, target, target, aside, node, windows, t, h);
    if !ok && windows {
      ghost var v := disk.tree;
      ok := Move(disk, target, aside, target, aside, node, windows, t, h);
      assert Same(v, disk.tree, tmp);
      if ok {
        ok := Move(disk, tmp, target, target, aside, node, windows, t, h);
        if !ok {
          var _ := Move(disk, aside, target, target, aside, node, windows, t, h);
        } else {
          ghost var w := disk.tree;
          Remove(disk, aside, target, aside, node, windows, t, h);
          assert Same(w, disk.tree, target);
        }
      }
    }
    if !ok {
      ghost var v := disk.tree;
      Remove(disk, tmp, target, aside, node, windows, t, h);
      assert Same(v, disk.tree, target) && Same(v, disk.tree, aside);
      return;
    }
    ghost var u, i := disk.tree, disk.history;
    SweepUpdateResidue(disk, Parent(target), Base(target));
    SweepProgress(t, h, u, i, disk.tree, disk.history, target, aside, node, windows);
  }

  lemma CanStage(t: Tree, target: Path, pid: string)
    requires target != []
    ensures IsDir(t, Parent(target)) && !IsDir(t, Staging(target, pid)) ==> CanWrite(t, Staging(target, pid))
  {
  }

  lemma CanPlace(t: Tree, u: Tree, target: Path, pid: string)
    requires target != [] && OnlyAt(t, u, Staging(target, pid)) && !IsDir(t, target) && IsFile(u, Staging(target, pid))
    ensures IsDir(t, Parent(target)) ==> CanRename(u, Staging(target, pid), target)
  {
    PlacesDisjoint(target, pid);
    DisjointDiffer(target, Staging(target, pid));
    assert Same(t, u, Parent(target)) && Same(t, u, target);
  }

  lemma SourceApart(target: Path, pid: string, source: Path)
    requires target != [] && source != [] && Parent(source) != Parent(target)
    ensures source != Staging(target, pid)
  {
  }
}
