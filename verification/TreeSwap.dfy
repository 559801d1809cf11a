/** Replacing the dashboard directory by a new one. */
module TreeSwap {
  import opened Text
  import opened FileSystem
  import opened Update
  import opened WebDist

  // ----- Where a tree is -----

  lemma OnlyUnderSame(t: Tree, u: Tree, p: Path, a: Path)
    requires OnlyUnder(t, u, p) && Disjoint(p, a)
    ensures SameTree(t, a, u, a)
  {
    forall r: Path ensures Same(t, u, a + r) {
      UnderAppend(a, r);
      if Under(p, a + r) { BothUnder(p, a, a + r); }
    }
  }

  lemma SameTrans(t: Tree, a: Path, u: Tree, b: Path, v: Tree, c: Path)
    requires SameTree(t, a, u, b) && SameTree(u, b, v, c)
    ensures SameTree(t, a, v, c)
  {
    forall r: Path ensures (a + r in t <==> c + r in v) && (a + r in t ==> t[a + r] == v[c + r]) {
      assert a + r in t <==> b + r in u;
    }
  }

  lemma LinksTrans(t: Tree, a: Path, u: Tree, b: Path, v: Tree, c: Path)
    requires SameButLinks(t, a, u, b) && SameTree(u, b, v, c)
    ensures SameButLinks(t, a, v, c)
  {
    forall r: Path ensures (c + r in v <==> a + r in t && !t[a + r].Link?) && (c + r in v ==> t[a + r] == v[c + r]) {
      assert c + r in v <==> b + r in u;
    }
  }

  lemma LinksFrom(t: Tree, a: Path, u: Tree, b: Path, v: Tree, c: Path)
    requires SameTree(t, a, u, b) && SameButLinks(u, b, v, c)
    ensures SameButLinks(t, a, v, c)
  {
    forall r: Path ensures (c + r in v <==> a + r in t && !t[a + r].Link?) && (c + r in v ==> t[a + r] == v[c + r]) {
      assert a + r in t <==> b + r in u;
    }
  }

  lemma MovedElsewhere(t: Tree, a: Path, b: Path, c: Path)
    requires Disjoint(a, b) && Disjoint(a, c) && Disjoint(b, c)
    ensures SameTree(t, c, Moved(t, a, b), c)
  {
    var u := Moved(t, a, b);
    MovedIs(t, a, b);
    forall r: Path ensures Same(t, u, c + r) {
      UnderAppend(c, r);
      if Under(a, c + r) { BothUnder(a, c, c + r); }
      if Under(b, c + r) { BothUnder(b, c, c + r); }
    }
  }

  lemma FreshSame(t: Tree, u: Tree, p: Path)
    requires Fresh(t, p) && SameTree(t, p, u, p)
    ensures Fresh(u, p)
  {
    forall q | Under(p, q) ensures q !in u {
      UnderIs(p, q);
      assert p + q[|p|..] !in t;
    }
  }

  /** The tree at `g`, whole or (when it was copied) without its links. */
  ghost predicate New(t: Tree, g: Path, u: Tree, p: Path, copied: bool) {
    if copied then SameButLinks(t, g, u, p) else SameTree(t, g, u, p)
  }

  lemma NewTrans(t: Tree, g: Path, u: Tree, p: Path, v: Tree, q: Path, copied: bool)
    requires New(t, g, u, p, copied) && SameTree(u, p, v, q)
    ensures New(t, g, v, q, copied)
  {
    hide SameTree, SameButLinks;
    if copied { LinksTrans(t, g, u, p, v, q); } else { SameTrans(t, g, u, p, v, q); }
  }

  lemma NewFrom(t: Tree, a: Path, u: Tree, b: Path, v: Tree, c: Path, copied: bool)
    requires SameTree(t, a, u, b) && New(u, b, v, c, copied)
    ensures New(t, a, v, c, copied)
  {
    hide SameTree, SameButLinks;
    if copied { LinksFrom(t, a, u, b, v, c); } else { SameTrans(t, a, u, b, v, c); }
  }

  lemma SameSelf(t: Tree, a: Path)
    ensures SameTree(t, a, t, a)
  {
  }

  // ----- The places of the swap -----

  function Aside(target: Path, pid: string): Path
    requires target != []
  {
    Sibling(target, "." + Base(target) + ".update-old-" + pid)
  }

  function Staging(target: Path, pid: string): Path
    requires target != []
  {
    Sibling(target, "." + Base(target) + ".update-" + pid)
  }

  predicate Residue(base: string, name: string) {
    StartsWith(name, "." + base + ".update-")
  }

  lemma SiblingsDisjoint(p: Path, q: Path)
    requires |p| == |q| && p != q
    ensures Disjoint(p, q)
  {
  }

  /** The three names are different. */
  lemma PlacesDisjoint(target: Path, pid: string)
    requires target != []
    ensures Disjoint(target, Aside(target, pid)) && Disjoint(target, Staging(target, pid))
    ensures Disjoint(Aside(target, pid), Staging(target, pid))
    ensures Residue(Base(target), Base(Aside(target, pid))) && Residue(Base(target), Base(Staging(target, pid)))
    ensures !Residue(Base(target), Base(target))
  {
    var b := Base(target);
    var start := "." + b + ".update-";
    var x, y := start + ("old-" + pid), start + pid;
    assert "." + b + ".update-old-" + pid == x;
    assert x[..|start|] == start && y[..|start|] == start;
    assert |x| == |y| + 4;
    SiblingsDisjoint(target, Aside(target, pid));
    SiblingsDisjoint(target, Staging(target, pid));
    SiblingsDisjoint(Aside(target, pid), Staging(target, pid));
  }

  // ----- Sweeping -----

  /** Nothing is changed, and only what is below a name of the residue of `base` may be gone. */
  ghost predicate Swept(t: Tree, u: Tree, parent: Path, base: string) {
    forall q :: Same(t, u, q) ||
      (q in t && q !in u && |q| > |parent| && Under(parent, q) && Residue(base, q[|parent|]))
  }

  lemma SweptMore(t: Tree, u: Tree, v: Tree, parent: Path, base: string, name: string)
    requires Swept(t, u, parent, base) && Pruned(u, v, parent + [name]) && Residue(base, name)
    ensures Swept(t, v, parent, base)
  {
    hide Residue;
    forall q
      ensures Same(t, v, q) || (q in t && q !in v && |q| > |parent| && Under(parent, q) && Residue(base, q[|parent|]))
    {
      assert Same(t, u, q) || (q in t && q !in u && |q| > |parent| && Under(parent, q) && Residue(base, q[|parent|]));
      if !Under(parent + [name], q) {
        assert Same(u, v, q);
      } else {
        assert q[|parent|] == name;
        assert q[..|parent|] == parent by { assert q[..|parent| + 1] == parent + [name]; }
      }
    }
  }

  lemma RemovedPruned(t: Tree, p: Path)
    ensures Pruned(t, t - {p}, p) && Pruned(t, t, p)
  {
  }

  lemma SweptSelf(t: Tree, parent: Path, base: string)
    ensures Swept(t, t, parent, base)
  {
  }

  /** From state `from` on, the states are sweepings of `t`. */
  ghost predicate AllSwept(t: Tree, h: seq<Tree>, from: nat, parent: Path, base: string) {
    forall i :: from <= i < |h| ==> Swept(t, h[i], parent, base)
  }

  lemma AllSweptMore(t: Tree, u: Tree, h: seq<Tree>, more: seq<Tree>, from: nat, parent: Path, base: string,
                     name: string)
    requires AllSwept(t, h, from, parent, base) && from <= |h| && h <= more && Swept(t, u, parent, base)
    requires Residue(base, name)
    requires forall i :: |h| <= i < |more| ==> Pruned(u, more[i], parent + [name])
    ensures AllSwept(t, more, from, parent, base)
  {
    hide Swept, Pruned, Residue;
    forall i | from <= i < |more| ensures Swept(t, more[i], parent, base) {
      if i < |h| { assert more[i] == h[i]; } else { SweptMore(t, u, more[i], parent, base, name); }
    }
  }

  /** Removes one name of the residue, whatever it is. */
  method RemoveResidue(disk: Disk, path: Path, typeKnown: bool)
    requires disk.Valid() && path != []
    modifies disk
    ensures disk.Valid() && old(disk.history) <= disk.history && Pruned(old(disk.tree), disk.tree, path)
    ensures forall i :: |old(disk.history)| <= i < |disk.history| ==> Pruned(old(disk.tree), disk.history[i], path)
    ensures old(disk.faulted) ==> disk.faulted
  {
    hide *;
    RemovedPruned(disk.tree, path);
    if typeKnown && IsDir(disk.tree, path) {
      var _ := disk.RemoveDirAll(path);
    } else {
      var ok := disk.RemoveFile(path);
      if !ok && !typeKnown {
        var _ := disk.RemoveDirAll(path);
      }
    }
  }

  method SweepUpdateResidue(disk: Disk, parent: Path, base: string)
    requires disk.Valid()
    modifies disk
    ensures disk.Valid() && old(disk.history) <= disk.history && Swept(old(disk.tree), disk.tree, parent, base)
    ensures AllSwept(old(disk.tree), disk.history, |old(disk.history)|, parent, base)
    ensures old(disk.faulted) ==> disk.faulted
  {
    hide Swept, AllSwept, Pruned, Residue, WellFormed;
    SweptSelf(disk.tree, parent, base);
    NoneSwept(disk.tree, disk.history, parent, base);
    var entries := disk.ReadDir(parent);
    if entries.None? { return; }
    var names := entries.value;
    for i := 0 to |names|
      invariant disk.Valid() && old(disk.history) <= disk.history && Swept(old(disk.tree), disk.tree, parent, base)
      invariant AllSwept(old(disk.tree), disk.history, |old(disk.history)|, parent, base)
      invariant old(disk.faulted) ==> disk.faulted
    {
      var failed := disk.Fails();
      if failed { break; }
      if Residue(base, names[i]) {
        var typeKnown: bool := *;
        ghost var u, h := disk.tree, disk.history;
        RemoveResidue(disk, parent + [names[i]], typeKnown);
        SweptMore(old(disk.tree), u, disk.tree, parent, base, names[i]);
        AllSweptMore(old(disk.tree), u, h, disk.history, |old(disk.history)|, parent, base, names[i]);
      }
    }
  }

  lemma NoneSwept(t: Tree, h: seq<Tree>, parent: Path, base: string)
    ensures AllSwept(t, h, |h|, parent, base)
  {
  }

  // ----- The swap -----

  datatype Failure = NoParent | NotStaged | NotMovedAside | NotInstalled

  /** The old tree stays in place while things change below another path. */
  lemma OldStays(t: Tree, target: Path, u: Tree, v: Tree, p: Path, at: Path)
    requires SameTree(t, target, u, at) && OnlyUnder(u, v, p) && Disjoint(p, at)
    ensures SameTree(t, target, v, at)
  {
    hide SameTree, OnlyUnder, Disjoint;
    OnlyUnderSame(u, v, p, at);
    SameTrans(t, target, u, at, v, at);
  }

  /** Making the directories on the way to the target leaves everything else alone. */
  lemma DirsElsewhere(t: Tree, u: Tree, parent: Path, a: Path)
    requires DirsAdded(t, u, parent) && !Under(a, parent)
    ensures SameTree(t, a, u, a)
  {
    forall r: Path ensures Same(t, u, a + r) {
      UnderAppend(a, r);
      if Under(a + r, parent) { UnderTrans(a, a + r, parent); }
    }
  }

  lemma SweptSame(t: Tree, u: Tree, target: Path)
    requires target != [] && Swept(t, u, Parent(target), Base(target))
    ensures SameTree(t, target, u, target)
  {
    forall r: Path ensures Same(t, u, target + r) {
      assert (target + r)[|target| - 1] == Base(target);
      NotOwnResidue(Base(target));
    }
  }

  lemma NotOwnResidue(base: string)
    ensures !Residue(base, base)
  {
  }

  /** The staging area is not in the directory of the target, nor the other way around. */
  lemma StagedElsewhere(staged: Path, target: Path, q: Path)
    requires target != [] && Disjoint(staged, Parent(target)) && |q| == |target| && Parent(q) == Parent(target)
    ensures Disjoint(staged, q)
  {
    if Under(q, staged) { assert Under(Parent(target), q); UnderTrans(Parent(target), q, staged); }
    if Under(staged, q) { BothUnder(staged, Parent(target), q); }
  }

  /** Outside of three trees nothing changes. */
  ghost predicate Beside(t: Tree, u: Tree, a: Path, b: Path, c: Path) {
    forall q :: !Under(a, q) && !Under(b, q) && !Under(c, q) ==> Same(t, u, q)
  }

  lemma BesideTrans(t: Tree, u: Tree, v: Tree, a: Path, b: Path, c: Path)
    requires Beside(t, u, a, b, c) && Beside(u, v, a, b, c)
    ensures Beside(t, v, a, b, c)
  {
    forall q | !Under(a, q) && !Under(b, q) && !Under(c, q)
      ensures Same(t, v, q)
    {
      assert Same(t, u, q) && Same(u, v, q);
    }
  }

  lemma BesideUnder(t: Tree, u: Tree, p: Path, a: Path, b: Path, c: Path)
    requires OnlyUnder(t, u, p) && p in [a, b, c]
    ensures Beside(t, u, a, b, c)
  {
  }

  lemma BesideMoved(t: Tree, p: Path, q: Path, a: Path, b: Path, c: Path)
    requires Disjoint(p, q) && p in [a, b, c] && q in [a, b, c]
    ensures Beside(t, Moved(t, p, q), a, b, c)
  {
    MovedIs(t, p, q);
  }

  lemma BesideSelf(t: Tree, a: Path, b: Path, c: Path)
    ensures Beside(t, t, a, b, c)
  {
  }

  /** From state `from` on the old tree is where it was. */
  ghost predicate AllInPlace(t: Tree, target: Path, h: seq<Tree>, from: nat) {
    forall i :: from <= i < |h| ==> SameTree(t, target, h[i], target)
  }

  /** The tree is removed, as far as possible, when it could not be put in place. */
  method Discard(disk: Disk, p: Path, ghost t: Tree, ghost target: Path, ghost at: Path)
    requires disk.Valid() && p != [] && Disjoint(p, at) && SameTree(t, target, disk.tree, at)
    modifies disk
    ensures disk.Valid() && old(disk.history) <= disk.history && OnlyUnder(old(disk.tree), disk.tree, p)
    ensures SameTree(t, target, disk.tree, at)
    ensures forall i :: |old(disk.history)| <= i < |disk.history| ==> SameTree(t, target, disk.history[i], at)
    ensures old(disk.faulted) ==> disk.faulted
  {
    hide SameTree, Disjoint, WellFormed, OnlyUnder;
    var _ := disk.RemoveDirAll(p);
    OldStays(t, target, old(disk.tree), disk.tree, p, at);
    forall i | |old(disk.history)| <= i < |disk.history| ensures SameTree(t, target, disk.history[i], at) {
      OldStays(t, target, old(disk.tree), disk.history[i], p, at);
    }
  }

  lemma CopiedInPlace(t: Tree, h: seq<Tree>, u: Tree, more: seq<Tree>, staging: Path, target: Path)
    requires CopySteps(t, h, u, more, staging) && Disjoint(staging, target)
    ensures SameTree(t, target, u, target) && AllInPlace(t, target, more, |h|)
  {
    hide SameTree, OnlyUnder, Disjoint;
    OnlyUnderSame(t, u, staging, target);
    forall i | |h| <= i < |more|
      ensures SameTree(t, target, more[i], target)
    {
      OnlyUnderSame(t, more[i], staging, target);
    }
  }

  lemma InPlaceMore(t: Tree, target: Path, h: seq<Tree>, more: seq<Tree>, from: nat)
    requires AllInPlace(t, target, h, from) && from <= |h| && h <= more
    requires forall i :: |h| <= i < |more| ==> SameTree(t, target, more[i], target)
    ensures AllInPlace(t, target, more, from)
  {
    hide SameTree;
    forall i | from <= i < |more| ensures SameTree(t, target, more[i], target) {
      if i < |h| { assert more[i] == h[i]; }
    }
  }

  /** Brings the new tree next to the target: by renaming, or by copying where that fails, as it does
      when the two are on different devices (`across`). */
  method Stage(disk: Disk, staged: Path, staging: Path, across: bool, ghost target: Path, ghost aside: Path)
    returns (ok: bool, ghost copied: bool)
    requires disk.Valid() && IsDir(disk.tree, staged) && staging != [] && IsDir(disk.tree, Parent(staging))
    requires Fresh(disk.tree, staging)
    requires Disjoint(staged, staging) && Disjoint(staging, target) && Disjoint(staging, aside)
    requires Disjoint(staged, target) && Disjoint(staged, aside)
    modifies disk
    ensures disk.Valid() && old(disk.history) <= disk.history
    ensures SameTree(old(disk.tree), target, disk.tree, target)
    ensures AllInPlace(old(disk.tree), target, disk.history, |old(disk.history)|)
    ensures SameTree(old(disk.tree), aside, disk.tree, aside)
    ensures Beside(old(disk.tree), disk.tree, staged, staging, staging)
    ensures ok ==> New(old(disk.tree), staged, disk.tree, staging, copied)
    ensures (old(disk.faulted) ==> disk.faulted) && (!ok ==> disk.faulted)
    ensures across ==> copied
    ensures copied ==> across || disk.faulted
  {
    hide *;
    ghost var t, h := disk.tree, disk.history;
    DisjointDiffer(staged, staging);
    CanStage(t, staged, staging);
    ok := disk.RenameBetween(staged, staging, across);
    copied := !ok;
    if ok {
      MovedIs(t, staged, staging);
      MovedElsewhere(t, staged, staging, target);
      MovedElsewhere(t, staged, staging, aside);
      BesideMoved(t, staged, staging, staged, staging, staging);
      NewIs(t, staged, disk.tree, staging);
      InPlaceOne(t, target, h, disk.tree);
      return;
    }
    assert disk.history == h;
    MergedFresh(t, staged, disk.tree, staging);
    ok := CopyDirRecursive(disk, staged, staging);
    ghost var u, i := disk.tree, disk.history;
    CopyHistory(t, h, u, i, staging);
    BesideUnder(t, u, staging, staged, staging, staging);
    CopiedInPlace(t, h, u, i, staging, target);
    CopiedInPlace(t, h, u, i, staging, aside);
    if ok {
      NewIs(t, staged, disk.tree, staging);
      return;
    }
    Discard(disk, staging, t, target, target);
    InPlaceMore(t, target, i, disk.history, |h|);
    OldStays(t, aside, u, disk.tree, staging, aside);
    BesideUnder(u, disk.tree, staging, staged, staging, staging);
    BesideTrans(t, u, disk.tree, staged, staging, staging);
  }

  lemma CanStage(t: Tree, staged: Path, staging: Path)
    requires IsDir(t, staged) && Fresh(t, staging) && Disjoint(staged, staging) && staging != []
    requires IsDir(t, Parent(staging))
    ensures CanRename(t, staged, staging)
  {
    assert Under(staging, staging);
  }

  lemma DisjointDiffer(p: Path, q: Path)
    requires Disjoint(p, q)
    ensures p != q && p != [] && q != [] && Disjoint(q, p)
  {
  }

  lemma NewIs(t: Tree, g: Path, u: Tree, p: Path)
    ensures SameTree(t, g, u, p) ==> New(t, g, u, p, false)
    ensures SameButLinks(t, g, u, p) ==> New(t, g, u, p, true)
  {
  }

  lemma InPlaceOne(t: Tree, target: Path, h: seq<Tree>, u: Tree)
    requires SameTree(t, target, u, target)
    ensures AllInPlace(t, target, h + [u], |h|)
  {
    hide SameTree;
  }

  lemma CopyHistory(t: Tree, h: seq<Tree>, u: Tree, i: seq<Tree>, dst: Path)
    requires CopySteps(t, h, u, i, dst)
    ensures h <= i && OnlyUnder(t, u, dst)
  {
  }

  // ----- Putting it in place -----

  /** Where the old and the new tree are while directories are renamed. */
  ghost predicate Moving(t: Tree, staging: Path, target: Path, aside: Path, x: Tree) {
    || SameTree(t, target, x, target)
    || SameTree(t, target, x, aside)
    || SameTree(t, staging, x, target)
  }

  ghost predicate AllMoving(t: Tree, staging: Path, target: Path, aside: Path, h: seq<Tree>, from: nat) {
    forall i :: from <= i < |h| ==> Moving(t, staging, target, aside, h[i])
  }

  lemma MovingMore(t: Tree, staging: Path, target: Path, aside: Path, h: seq<Tree>, more: seq<Tree>, from: nat)
    requires AllMoving(t, staging, target, aside, h, from) && from <= |h| && h <= more
    requires forall i :: |h| <= i < |more| ==>
      SameTree(t, target, more[i], target) || SameTree(t, target, more[i], aside)
        || SameTree(t, staging, more[i], target)
    ensures AllMoving(t, staging, target, aside, more, from)
  {
    hide SameTree;
    forall i | from <= i < |more| ensures Moving(t, staging, target, aside, more[i]) {
      if i < |h| { assert more[i] == h[i]; }
    }
  }

  lemma NoneMoving(t: Tree, staging: Path, target: Path, aside: Path, h: seq<Tree>)
    ensures AllMoving(t, staging, target, aside, h, |h|)
  {
  }

  /** The new tree is there, and nothing is where the old one is moved to. */
  ghost predicate CanSwap(t: Tree, staging: Path, target: Path, aside: Path)
    requires target != [] && aside != []
  {
    && IsDir(t, staging) && IsDir(t, Parent(target)) && Parent(aside) == Parent(target)
    && Fresh(t, aside) && !IsLink(t, target)
  }

  /** Then both renames can be done, in turn. */
  lemma CanMove(t: Tree, staging: Path, target: Path, aside: Path)
    requires target != [] && aside != [] && staging != []
    requires Disjoint(staging, target) && Disjoint(staging, aside) && Disjoint(target, aside)
    ensures CanSwap(t, staging, target, aside) && target in t ==>
              CanRename(t, target, aside) && CanRename(Moved(t, target, aside), staging, target)
    ensures CanSwap(t, staging, target, aside) ==>
              !IsLink(t, target) && (target !in t ==> CanRename(t, staging, target))
  {
    if CanSwap(t, staging, target, aside) {
      assert Under(aside, aside);
      if target in t {
        var u := Moved(t, target, aside);
        hide Moved, CanSwap;
        MovedIs(t, target, aside);
        MovedElsewhere(t, target, aside, staging);
        assert staging + [] == staging;
        assert Under(target, target) && target !in u;
        assert !Under(target, Parent(target)) && !Under(aside, Parent(target));
        assert Same(t, u, Parent(target));
      }
    }
  }

  /** Moves the old tree aside and the new one in. `restored` is false when the old one could not be put back. */
  method Replace(disk: Disk, staging: Path, target: Path, aside: Path)
    returns (failure: Option<Failure>, ghost restored: bool)
    requires disk.Valid() && target != [] && staging != [] && aside != []
    requires Disjoint(staging, target) && Disjoint(staging, aside) && Disjoint(target, aside)
    modifies disk
    ensures disk.Valid() && old(disk.history) <= disk.history
    ensures AllMoving(old(disk.tree), staging, target, aside, disk.history, |old(disk.history)|)
    ensures failure.None? ==> SameTree(old(disk.tree), staging, disk.tree, target)
    ensures failure.Some? ==> SameTree(old(disk.tree), target, disk.tree, if restored then target else aside)
    ensures failure.Some? ==> restored || failure.value == NotInstalled
    ensures Beside(old(disk.tree), disk.tree, staging, target, aside)
    ensures old(disk.faulted) ==> disk.faulted
    ensures failure.Some? ==> disk.faulted || !CanSwap(old(disk.tree), staging, target, aside)
  {
    hide *;
    ghost var t, h := disk.tree, disk.history;
    BesideSelf(t, staging, target, aside);
    CanMove(t, staging, target, aside);
    restored := true;
    DisjointDiffer(target, aside);
    DisjointDiffer(staging, target);
    DisjointDiffer(staging, aside);
    SameSelf(t, target);
    SameSelf(t, staging);
    NoneMoving(t, staging, target, aside, h);
    var unseen := disk.Fails();
    if IsLink(disk.tree, target) { unseen := *; }
    var hadExisting := target in disk.tree && !unseen;
    if hadExisting {
      var ok := disk.Rename(target, aside);
      if !ok {
        Discard(disk, staging, t, target, target);
        BesideUnder(t, disk.tree, staging, staging, target, aside);
        MovingMore(t, staging, target, aside, h, disk.history, |h|);
        return Some(NotMovedAside), true;
      }
      MovedIs(t, target, aside);
      BesideMoved(t, target, aside, staging, target, aside);
      MovedElsewhere(t, target, aside, staging);
      MovingMore(t, staging, target, aside, h, disk.history, |h|);
    }
    ghost var u, i := disk.tree, disk.history;
    var ok := disk.Rename(staging, target);
    if !ok {
      assert disk.history == i;
      if hadExisting {
        var back := disk.Rename(aside, target);
        restored := back;
        if back {
          MovedIs(u, aside, target);
          BesideMoved(u, aside, target, staging, target, aside);
          BesideTrans(t, u, disk.tree, staging, target, aside);
          SameTrans(t, target, u, aside, disk.tree, target);
        }
        MovingMore(t, staging, target, aside, i, disk.history, |h|);
      }
      ghost var v, j := disk.tree, disk.history;
      Discard(disk, staging, t, target, if restored then target else aside);
      BesideUnder(v, disk.tree, staging, staging, target, aside);
      BesideTrans(t, v, disk.tree, staging, target, aside);
      MovingMore(t, staging, target, aside, j, disk.history, |h|);
      return Some(NotInstalled), restored;
    }
    MovedIs(u, staging, target);
    SameTrans(t, staging, u, staging, disk.tree, target);
    BesideMoved(u, staging, target, staging, target, aside);
    BesideTrans(t, u, disk.tree, staging, target, aside);
    MovingMore(t, staging, target, aside, i, disk.history, |h|);
    if hadExisting {
      ghost var v, j := disk.tree, disk.history;
      Discard(disk, aside, t, staging, target);
      BesideUnder(v, disk.tree, aside, staging, target, aside);
      BesideTrans(t, v, disk.tree, staging, target, aside);
      MovingMore(t, staging, target, aside, j, disk.history, |h|);
    }
    failure := None;
  }

  // ----- The installation -----

  /** Nothing is lost: the old tree is in place or aside, or the new one is in place. */
  ghost predicate Whole(t: Tree, staged: Path, target: Path, aside: Path, x: Tree, copied: bool) {
    || SameTree(t, target, x, target)
    || SameTree(t, target, x, aside)
    || New(t, staged, x, target, copied)
  }

  ghost predicate AllWhole(t: Tree, staged: Path, target: Path, aside: Path, h: seq<Tree>, from: nat, copied: bool) {
    forall i :: from <= i < |h| ==> Whole(t, staged, target, aside, h[i], copied)
  }

  /** What the installation may touch: the staged tree, the target, and the residue next to the target. */
  predicate Own(staged: Path, target: Path, q: Path)
    requires target != []
  {
    || Under(staged, q)
    || Under(target, q)
    || (|q| >= |target| && Under(Parent(target), q) && Residue(Base(target), q[|target| - 1]))
  }

  /** Nothing else changes, but that directories may be made on the way to the target. */
  ghost predicate OwnOnly(t: Tree, u: Tree, staged: Path, target: Path)
    requires target != []
  {
    forall q :: Own(staged, target, q) || Same(t, u, q) || (q !in t && IsDir(u, q) && Under(q, Parent(target)))
  }

  lemma OwnResidue(staged: Path, target: Path, p: Path, q: Path)
    requires target != [] && |p| == |target| && Parent(p) == Parent(target) && Residue(Base(target), Base(p))
    requires Under(p, q)
    ensures Own(staged, target, q)
  {
    assert q[|target| - 1] == Base(p);
    assert q[..|target| - 1] == p[..|target| - 1];
  }

  /** Once the directories are there, the rest touches only what it may. */
  lemma OwnMore(t: Tree, u: Tree, v: Tree, staged: Path, target: Path, pid: string, a: Path)
    requires target != [] && OwnOnly(t, u, staged, target) && a in [staged, target]
    requires Beside(u, v, a, Staging(target, pid), Aside(target, pid))
             || Beside(u, v, Staging(target, pid), a, Aside(target, pid))
             || Beside(u, v, a, Staging(target, pid), Staging(target, pid)) || Swept(u, v, Parent(target), Base(target))
    ensures OwnOnly(t, v, staged, target)
  {
    hide *;
    forall q ensures Own(staged, target, q) || Same(u, v, q) { OthersSame(u, v, staged, target, pid, a, q); }
    OwnTrans(t, u, v, staged, target);
  }

  lemma OwnTrans(t: Tree, u: Tree, v: Tree, staged: Path, target: Path)
    requires target != [] && OwnOnly(t, u, staged, target) && forall q :: Own(staged, target, q) || Same(u, v, q)
    ensures OwnOnly(t, v, staged, target)
  {
    hide Own;
    forall q ensures Own(staged, target, q) || Same(t, v, q) || (q !in t && IsDir(v, q) && Under(q, Parent(target))) {
      assert Own(staged, target, q) || Same(u, v, q);
    }
  }

  lemma OthersSame(u: Tree, v: Tree, staged: Path, target: Path, pid: string, a: Path, q: Path)
    requires target != [] && a in [staged, target]
    requires Beside(u, v, a, Staging(target, pid), Aside(target, pid))
             || Beside(u, v, Staging(target, pid), a, Aside(target, pid))
             || Beside(u, v, a, Staging(target, pid), Staging(target, pid)) || Swept(u, v, Parent(target), Base(target))
    ensures Own(staged, target, q) || Same(u, v, q)
  {
    PlacesDisjoint(target, pid);
    if Under(Staging(target, pid), q) { OwnResidue(staged, target, Staging(target, pid), q); }
    if Under(Aside(target, pid), q) { OwnResidue(staged, target, Aside(target, pid), q); }
  }

  lemma WholeDirs(t: Tree, staged: Path, target: Path, aside: Path, h: seq<Tree>, more: seq<Tree>, copied: bool)
    requires target != [] && h <= more && forall i :: |h| <= i < |more| ==> DirsAdded(t, more[i], Parent(target))
    ensures AllWhole(t, staged, target, aside, more, |h|, copied)
  {
    hide SameTree, DirsAdded, New;
    NotAbove(target, Parent(target));
    forall i | |h| <= i < |more| ensures Whole(t, staged, target, aside, more[i], copied) {
      DirsElsewhere(t, more[i], Parent(target), target);
    }
  }

  lemma NotAbove(p: Path, q: Path)
    requires |q| < |p|
    ensures !Under(p, q)
  {
  }

  lemma WholeStage(t: Tree, u: Tree, staged: Path, target: Path, aside: Path, h: seq<Tree>, more: seq<Tree>, from: nat,
                   copied: bool)
    requires AllWhole(t, staged, target, aside, h, from, copied) && from <= |h| && h <= more
    requires SameTree(t, target, u, target) && AllInPlace(u, target, more, |h|)
    ensures AllWhole(t, staged, target, aside, more, from, copied)
  {
    hide SameTree, New;
    forall i | from <= i < |more| ensures Whole(t, staged, target, aside, more[i], copied) {
      if i < |h| { assert more[i] == h[i]; } else { SameTrans(t, target, u, target, more[i], target); }
    }
  }

  lemma WholeMoving(t: Tree, u: Tree, staged: Path, staging: Path, target: Path, aside: Path, h: seq<Tree>,
                    more: seq<Tree>,
                    from: nat, copied: bool)
    requires AllWhole(t, staged, target, aside, h, from, copied) && from <= |h| && h <= more
    requires SameTree(t, target, u, target) && New(t, staged, u, staging, copied)
    requires AllMoving(u, staging, target, aside, more, |h|)
    ensures AllWhole(t, staged, target, aside, more, from, copied)
  {
    hide SameTree, New;
    forall i | from <= i < |more| ensures Whole(t, staged, target, aside, more[i], copied) {
      if i < |h| {
        assert more[i] == h[i];
      } else if SameTree(u, target, more[i], target) {
        SameTrans(t, target, u, target, more[i], target);
      } else if SameTree(u, target, more[i], aside) {
        SameTrans(t, target, u, target, more[i], aside);
      } else {
        NewTrans(t, staged, u, staging, more[i], target, copied);
      }
    }
  }

  lemma WholeSwept(t: Tree, u: Tree, staged: Path, target: Path, aside: Path, h: seq<Tree>, more: seq<Tree>, from: nat,
                   copied: bool)
    requires AllWhole(t, staged, target, aside, h, from, copied) && from <= |h| && h <= more && target != []
    requires New(t, staged, u, target, copied) && AllSwept(u, more, |h|, Parent(target), Base(target))
    ensures AllWhole(t, staged, target, aside, more, from, copied)
  {
    hide SameTree, New, Swept;
    forall i | from <= i < |more| ensures Whole(t, staged, target, aside, more[i], copied) {
      if i < |h| {
        assert more[i] == h[i];
      } else {
        SweptSame(u, more[i], target);
        NewTrans(t, staged, u, target, more[i], target, copied);
      }
    }
  }

  lemma OwnDirs(t: Tree, u: Tree, staged: Path, target: Path)
    requires target != [] && DirsAdded(t, u, Parent(target))
    ensures OwnOnly(t, u, staged, target)
  {
  }

  /** After the directories on the way to the target are made: the trees are as they were. */
  lemma DirsMade(t: Tree, u: Tree, staged: Path, target: Path, pid: string)
    requires target != [] && DirsAdded(t, u, Parent(target)) && Disjoint(staged, Parent(target))
    requires Fresh(t, Staging(target, pid)) && IsDir(t, staged)
    ensures SameTree(t, target, u, target) && SameTree(t, staged, u, staged) && IsDir(u, staged)
    ensures Fresh(u, Staging(target, pid))
    ensures OwnOnly(t, u, staged, target)
  {
    var staging, parent := Staging(target, pid), Parent(target);
    NotAbove(target, parent);
    NotAbove(staging, parent);
    DirsElsewhere(t, u, parent, target);
    DirsElsewhere(t, u, parent, staged);
    DirsElsewhere(t, u, parent, staging);
    FreshSame(t, u, staging);
    assert staged + [] == staged;
    OwnDirs(t, u, staged, target);
  }

  /** Whether the swap can be done is seen from the start. */
  lemma SwapReady(t: Tree, t1: Tree, t2: Tree, staged: Path, target: Path, pid: string, copied: bool)
    requires target != [] && Disjoint(staged, Parent(target)) && DirsAdded(t, t1, Parent(target))
    requires IsDir(t1, Parent(target))
    requires IsDir(t, staged) && New(t, staged, t2, Staging(target, pid), copied)
    requires SameTree(t, target, t2, target) && SameTree(t1, Aside(target, pid), t2, Aside(target, pid))
    requires Beside(t1, t2, staged, Staging(target, pid), Staging(target, pid))
    requires Fresh(t, Aside(target, pid)) && !IsLink(t, target)
    ensures CanSwap(t2, Staging(target, pid), target, Aside(target, pid))
  {
    var staging, aside, parent := Staging(target, pid), Aside(target, pid), Parent(target);
    assert staged + [] == staged && staging + [] == staging && target + [] == target;
    assert IsDir(t2, staging);
    NotAbove(staging, parent);
    assert Same(t1, t2, parent);
    NotAbove(aside, parent);
    DirsElsewhere(t, t1, parent, aside);
    FreshSame(t, t1, aside);
    FreshSame(t1, t2, aside);
  }

  lemma AllDisjoint(staged: Path, target: Path, pid: string)
    requires target != [] && Disjoint(staged, Parent(target))
    ensures var s, a := Staging(target, pid), Aside(target, pid);
            && Disjoint(staged, s) && Disjoint(staged, a) && Disjoint(staged, target)
            && Disjoint(s, target) && Disjoint(s, a) && Disjoint(target, a)
            && s != [] && a != [] && Parent(s) == Parent(target)
  {
    PlacesDisjoint(target, pid);
    StagedElsewhere(staged, target, target);
    StagedElsewhere(staged, target, Staging(target, pid));
    StagedElsewhere(staged, target, Aside(target, pid));
  }

  /** Installs the staged dashboard at `target`. The new tree is put in place whole, or the old one stays
      (`restored`) or is left aside; at no moment is neither of them whole. The staged tree is copied, and
      so loses its links, if it is on another device than the target (`across`); when nothing fails the
      installation succeeds, and copies only then. */
  method InstallWebDist(disk: Disk, staged: Path, target: Path, pid: string, across: bool)
    returns (failure: Option<Failure>, ghost copied: bool, ghost restored: bool)
    requires disk.Valid() && IsDir(disk.tree, staged) && target != [] && Disjoint(staged, Parent(target))
    requires Fresh(disk.tree, Staging(target, pid))
    modifies disk
    ensures disk.Valid() && old(disk.history) <= disk.history
    ensures failure.None? ==> New(old(disk.tree), staged, disk.tree, target, copied)
    ensures failure.Some? ==>
              SameTree(old(disk.tree), target, disk.tree, if restored then target else Aside(target, pid))
    ensures failure.Some? && failure.value != NotInstalled ==> restored
    ensures AllWhole(old(disk.tree), staged, target, Aside(target, pid), disk.history, |old(disk.history)|, copied)
    ensures OwnOnly(old(disk.tree), disk.tree, staged, target)
    ensures old(disk.faulted) ==> disk.faulted
    ensures failure.None? && across ==> copied
    ensures copied ==> across || disk.faulted
    ensures failure.Some? ==> disk.faulted || Blocked(old(disk.tree), Parent(target)) ||
                              IsLink(old(disk.tree), target) || !Fresh(old(disk.tree), Aside(target, pid))
  {
    hide *;
    ghost var t, h := disk.tree, disk.history;
    copied, restored := false, true;
    var staging, aside := Staging(target, pid), Aside(target, pid);
    AllDisjoint(staged, target, pid);
    var ok := disk.CreateDirAll(Parent(target));
    ghost var t1, h1 := disk.tree, disk.history;
    DirsMade(t, t1, staged, target, pid);
    WholeDirs(t, staged, target, aside, h, h1, false);
    WholeDirs(t, staged, target, aside, h, h1, true);
    if !ok { return Some(NoParent), false, true; }
    ok, copied := Stage(disk, staged, staging, across, target, aside);
    ghost var t2, h2 := disk.tree, disk.history;
    SameTrans(t, target, t1, target, t2, target);
    WholeStage(t, t1, staged, target, aside, h1, h2, |h|, copied);
    OwnMore(t, t1, t2, staged, target, pid, staged);
    if !ok { return Some(NotStaged), copied, true; }
    NewFrom(t, staged, t1, staged, t2, staging, copied);
    if Fresh(t, aside) && !IsLink(t, target) { SwapReady(t, t1, t2, staged, target, pid, copied); }
    failure, restored := Replace(disk, staging, target, aside);
    ghost var t3, h3 := disk.tree, disk.history;
    WholeMoving(t, t2, staged, staging, target, aside, h2, h3, |h|, copied);
    OwnMore(t, t2, t3, staged, target, pid, target);
    if failure.Some? {
      SameTrans(t, target, t2, target, t3, if restored then target else aside);
      return;
    }
    NewTrans(t, staged, t2, staging, t3, target, copied);
    SweepUpdateResidue(disk, Parent(target), Base(target));
    SweptSame(t3, disk.tree, target);
    NewTrans(t, staged, t3, target, disk.tree, target, copied);
    WholeSwept(t, t3, staged, target, aside, h3, disk.history, |h|, copied);
    OwnMore(t, t3, disk.tree, staged, target, pid, target);
  }
}
