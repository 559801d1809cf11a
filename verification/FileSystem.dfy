/** A file system whose operations may fail, and that remembers every state it was in. */
module FileSystem {
  import opened Text

  type Path = seq<string>

  type Bytes = seq<bv8>

  datatype Node = File(bytes: Bytes) | Dir | Link

  type Tree = map<Path, Node>

  predicate Under(p: Path, q: Path) {
    |p| <= |q| && q[..|p|] == p
  }

  function Parent(p: Path): Path
    requires p != []
  {
    p[..|p| - 1]
  }

  predicate IsFile(t: Tree, p: Path) { p in t && t[p].File? }

  predicate IsDir(t: Tree, p: Path) { p in t && t[p].Dir? }

  /** Every entry but the root is in a directory. */
  ghost predicate WellFormed(t: Tree) {
    && IsDir(t, [])
    && (forall p :: p in t && p != [] ==> IsDir(t, Parent(p)))
  }

  predicate Same(t: Tree, u: Tree, q: Path) {
    (q in t <==> q in u) && (q in t ==> t[q] == u[q])
  }

  /** The two trees differ at most below `p`. */
  ghost predicate OnlyUnder(t: Tree, u: Tree, p: Path) {
    forall q :: !Under(p, q) ==> Same(t, u, q)
  }

  /** The two trees differ at most at `p`. */
  ghost predicate OnlyAt(t: Tree, u: Tree, p: Path) {
    forall q :: q != p ==> Same(t, u, q)
  }

  /** The names in a directory. */
  function Names(t: Tree, p: Path): set<string> {
    set q | q in t && |q| == |p| + 1 && q[..|p|] == p :: q[|p|]
  }

  predicate Empty(t: Tree, p: Path) {
    forall q :: q in t && Under(p, q) ==> q == p
  }

  function Below(t: Tree, p: Path): set<Path> {
    set q | q in t && Under(p, q)
  }

  function Graft(t: Tree, a: Path, b: Path): set<Path> {
    set q | q in Below(t, a) :: b + q[|a|..]
  }

  /** All that is at or below `a`, moved to `b`. */
  function Moved(t: Tree, a: Path, b: Path): Tree {
    (t - Below(t, a) - Below(t, b)) + map r | r in Graft(t, a, b) && a + r[|b|..] in t :: t[a + r[|b|..]]
  }

  /** The tree at `p` in `t` is the tree at `q` in `u`. */
  ghost predicate SameTree(t: Tree, p: Path, u: Tree, q: Path) {
    forall r: Path :: (p + r in t <==> q + r in u) && (p + r in t ==> t[p + r] == u[q + r])
  }

  /** The same, but for the links. */
  ghost predicate SameButLinks(t: Tree, p: Path, u: Tree, q: Path) {
    forall r: Path :: (q + r in u <==> p + r in t && !t[p + r].Link?) && (q + r in u ==> t[p + r] == u[q + r])
  }

  predicate Disjoint(p: Path, q: Path) {
    !Under(p, q) && !Under(q, p)
  }

  lemma UnderIs(p: Path, q: Path)
    ensures Under(p, q) <==> exists r: Path :: q == p + r
    ensures Under(p, q) ==> q == p + q[|p|..]
  {
    if Under(p, q) { assert q == p + q[|p|..]; }
  }

  lemma UnderAppend(p: Path, r: Path)
    ensures Under(p, p + r) && (p + r)[|p|..] == r
  {
  }

  lemma UnderTrans(p: Path, q: Path, r: Path)
    requires Under(p, q) && Under(q, r)
    ensures Under(p, r)
  {
  }

  lemma BothUnder(a: Path, b: Path, q: Path)
    requires Under(a, q) && Under(b, q)
    ensures Under(a, b) || Under(b, a)
  {
    if |a| <= |b| { assert b[..|a|] == q[..|a|]; } else { assert a[..|b|] == q[..|b|]; }
  }

  lemma MovedIs(t: Tree, a: Path, b: Path)
    requires Disjoint(a, b)
    ensures SameTree(t, a, Moved(t, a, b), b)
    ensures forall q :: !Under(a, q) && !Under(b, q) ==> Same(t, Moved(t, a, b), q)
    ensures forall q :: Under(a, q) ==> q !in Moved(t, a, b)
  {
    var u := Moved(t, a, b);
    forall r: Path ensures (a + r in t <==> b + r in u) && (a + r in t ==> t[a + r] == u[b + r]) {
      UnderAppend(a, r);
      UnderAppend(b, r);
      if a + r in t { assert b + (a + r)[|a|..] in Graft(t, a, b); }
    }
    forall q | Under(a, q) ensures q !in u {
      if Under(b, q) { BothUnder(a, b, q); }
    }
  }

  lemma ParentUnder(p: Path, q: Path)
    requires q != []
    ensures Under(p, q) && q != p ==> Under(p, Parent(q))
    ensures Under(p, Parent(q)) ==> Under(p, q)
  {
  }

  lemma MovedWellFormed(t: Tree, a: Path, b: Path)
    requires WellFormed(t) && Disjoint(a, b) && a in t && IsDir(t, Parent(b)) && a != [] && b != []
    ensures WellFormed(Moved(t, a, b))
  {
    var u := Moved(t, a, b);
    MovedIs(t, a, b);
    assert IsDir(u, []);
    hide Moved, WellFormed;
    forall q | q in u && q != [] ensures IsDir(u, Parent(q)) {
      if q == b {
        MovedTop(t, a, b, u);
      } else if Under(b, q) {
        MovedBelow(t, a, b, u, q);
      } else {
        MovedBeside(t, a, b, u, q);
      }
    }
  }

  /** What `Moved` gives, as far as it is needed here. */
  ghost predicate IsMoved(t: Tree, a: Path, b: Path, u: Tree) {
    && SameTree(t, a, u, b)
    && (forall q :: !Under(a, q) && !Under(b, q) ==> Same(t, u, q))
    && (forall q :: Under(a, q) ==> q !in u)
  }

  lemma MovedTop(t: Tree, a: Path, b: Path, u: Tree)
    requires IsMoved(t, a, b, u) && Disjoint(a, b) && b != [] && IsDir(t, Parent(b))
    ensures IsDir(u, Parent(b))
  {
    ParentUnder(a, b);
    assert Same(t, u, Parent(b));
  }

  lemma MovedBelow(t: Tree, a: Path, b: Path, u: Tree, q: Path)
    requires IsMoved(t, a, b, u) && WellFormed(t) && Under(b, q) && q != b && q in u && q != []
    ensures IsDir(u, Parent(q))
  {
    var r := q[|b|..];
    var s := r[..|r| - 1];
    assert q == b + r && Parent(q) == b + s && Parent(a + r) == a + s;
    hide Under;
    assert a + r in t && IsDir(t, a + s);
  }

  lemma MovedBeside(t: Tree, a: Path, b: Path, u: Tree, q: Path)
    requires IsMoved(t, a, b, u) && WellFormed(t) && !Under(b, q) && q in u && q != []
    ensures IsDir(u, Parent(q))
  {
    ParentUnder(a, q);
    ParentUnder(b, q);
    assert Same(t, u, q) && Same(t, u, Parent(q));
  }

  predicate CanRename(t: Tree, a: Path, b: Path) {
    && a in t && a != [] && b != [] && Disjoint(a, b) && IsDir(t, Parent(b))
    && (b in t ==> if t[a].Dir? then t[b].Dir? && Empty(t, b) else !t[b].Dir?)
  }

  predicate CanWrite(t: Tree, p: Path) {
    p != [] && IsDir(t, Parent(p)) && (p in t ==> !t[p].Dir?)
  }

  predicate IsLink(t: Tree, p: Path) { p in t && t[p].Link? }

  /** All entries of `t` are in `u`, and `u` has besides them only directories on the way to `p`. */
  ghost predicate DirsAdded(t: Tree, u: Tree, p: Path) {
    forall q :: Same(t, u, q) || (q !in t && IsDir(u, q) && Under(q, p))
  }

  predicate Distinct(names: seq<string>) {
    forall i, j :: 0 <= i < j < |names| ==> names[i] != names[j]
  }

  /** `u` is `t` with part of what is at or below `p` taken away. */
  ghost predicate Pruned(t: Tree, u: Tree, p: Path) {
    && OnlyUnder(t, u, p)
    && (forall q :: q in u ==> q in t && u[q] == t[q])
  }

  lemma RemovedWellFormed(t: Tree, p: Path)
    requires WellFormed(t) && p != [] && Empty(t, p)
    ensures WellFormed(t - {p})
  {
    forall q | q in t - {p} && q != [] ensures IsDir(t - {p}, Parent(q)) {
      if Parent(q) == p { assert Under(p, q); }
    }
  }

  lemma LeafEmpty(t: Tree, p: Path)
    requires WellFormed(t) && p in t && !t[p].Dir?
    ensures Empty(t, p)
  {
    forall q | q in t && Under(p, q) ensures q == p { LeafAlone(t, p, q); }
  }

  lemma {:induction false} LeafAlone(t: Tree, p: Path, q: Path)
    requires WellFormed(t) && p in t && !t[p].Dir? && q in t && Under(p, q)
    ensures q == p
  {
    if q != p {
      ParentUnder(p, q);
      LeafAlone(t, p, Parent(q));
    }
  }

  lemma {:induction false} AncestorDir(t: Tree, p: Path, q: Path)
    requires WellFormed(t) && q in t && Under(p, q) && p != q
    ensures IsDir(t, p)
  {
    ParentUnder(p, q);
    if Parent(q) != p { AncestorDir(t, p, Parent(q)); }
  }

  lemma WriteOnlyAt(t: Tree, p: Path, bytes: Bytes)
    ensures OnlyAt(t, t[p := File(bytes)], p)
  {
  }

  lemma SelfAt(t: Tree, p: Path)
    ensures OnlyAt(t, t, p)
  {
  }

  lemma DirAdded(t: Tree, u: Tree, p: Path)
    requires p != [] && p !in u && IsDir(u, Parent(p)) && WellFormed(u) && DirsAdded(t, u, Parent(p))
    ensures WellFormed(u[p := Dir]) && DirsAdded(t, u[p := Dir], p)
  {
    var v := u[p := Dir];
    forall q | q in v && q != [] ensures IsDir(v, Parent(q)) {
      if q != p { assert q in u; }
    }
    DirsUp(t, u, p);
    assert Same(t, u, p);
    forall q ensures Same(t, v, q) || (q !in t && IsDir(v, q) && Under(q, p)) {
      if q != p { assert Same(t, u, q) || (q !in t && IsDir(u, q) && Under(q, p)); }
    }
  }

  lemma DirsUp(t: Tree, u: Tree, p: Path)
    requires p != [] && DirsAdded(t, u, Parent(p))
    ensures DirsAdded(t, u, p)
  {
    forall q | Under(q, Parent(p)) ensures Under(q, p) { ParentUnder(q, p); }
  }

  lemma NamesIs(t: Tree, p: Path)
    ensures forall n :: p + [n] in t <==> n in Names(t, p)
  {
    forall n | p + [n] in t ensures n in Names(t, p) {
      var q := p + [n];
      assert q[..|p|] == p && q[|p|] == n;
    }
    forall n | n in Names(t, p) ensures p + [n] in t {
      var q :| q in t && |q| == |p| + 1 && q[..|p|] == p && q[|p|] == n;
      assert q == p + [n];
    }
  }

  lemma PrunedSelf(t: Tree, p: Path)
    ensures Pruned(t, t, p)
  {
  }

  lemma PrunedMore(t: Tree, u: Tree, p: Path, q: Path)
    requires Pruned(t, u, p) && Under(p, q)
    ensures Pruned(t, u - {q}, p)
  {
  }

  /** Moving what is no directory changes nothing but the two names. */
  lemma MovedLeaf(t: Tree, a: Path, b: Path)
    requires WellFormed(t) && CanRename(t, a, b) && !t[a].Dir?
    ensures forall q :: q != a && q != b ==> Same(t, Moved(t, a, b), q)
    ensures a !in Moved(t, a, b) && b in Moved(t, a, b) && Moved(t, a, b)[b] == t[a]
  {
    var u := Moved(t, a, b);
    MovedIs(t, a, b);
    MovedWellFormed(t, a, b);
    assert a + [] == a && b + [] == b;
    LeafEmpty(t, a);
    LeafEmpty(u, b);
    forall q | q != a && q != b && q in t ensures !Under(b, q) {
      if Under(b, q) { AncestorDir(t, b, q); }
    }
  }

  /** Something that is no directory stands in the way of making one. */
  ghost predicate Blocked(t: Tree, p: Path) {
    exists q :: Under(q, p) && q in t && !t[q].Dir?
  }

  lemma BlockedUp(t: Tree, p: Path)
    requires p != [] && Blocked(t, Parent(p))
    ensures Blocked(t, p)
  {
    var q :| Under(q, Parent(p)) && q in t && !t[q].Dir?;
    ParentUnder(q, p);
  }

  /** The disk. Any operation may fail for a reason of its own: then `faulted` is set, and stays so.
      `history` has every state in order. */
  class Disk {
    var tree: Tree
    ghost var history: seq<Tree>
    ghost var faulted: bool

    ghost predicate Valid()
      reads `tree
    {
      WellFormed(tree)
    }

    /** Whether something goes wrong now. */
    method Fails() returns (failed: bool)
      modifies this`faulted
      ensures faulted == (old(faulted) || failed)
    {
      failed := *;
      if failed { faulted := true; }
    }

    /** A file that could not be copied onto itself: it was never opened, and nothing has changed; or
        something went wrong after it was, and it is empty. */
    ghost predicate Opened(was: Tree, before: seq<Tree>, p: Path, fault: bool)
      reads `tree, `history
    {
      || (tree == was && history == before)
      || (fault && p in tree && tree[p] == File([]) && |history| > |before| && history[|history| - 1] == tree)
    }

    /** Copies a file piece by piece; the target is emptied first, also when it is the source. */
    method Copy(src: Path, dst: Path) returns (ok: bool)
      requires Valid() && !IsLink(tree, src) && !IsLink(tree, dst)
      modifies this
      ensures Valid() && old(history) <= history
      ensures OnlyAt(old(tree), tree, dst)
      ensures forall i :: |old(history)| <= i < |history| ==> OnlyAt(old(tree), history[i], dst)
      ensures ok ==> IsFile(old(tree), src) && CanWrite(old(tree), dst)
      ensures ok ==> dst in tree && tree[dst] == File(if src == dst then [] else old(tree)[src].bytes)
      ensures ok ==> history != [] && history[|history| - 1] == tree && |history| > |old(history)|
      ensures IsFile(tree, dst) || Same(old(tree), tree, dst)
      ensures old(faulted) ==> faulted
      ensures !ok ==> faulted || !IsFile(old(tree), src) || !CanWrite(old(tree), dst)
      ensures !(IsFile(old(tree), src) && CanWrite(old(tree), dst)) ==> tree == old(tree) && history == old(history)
      ensures src == dst && !ok ==> Opened(old(tree), old(history), dst, faulted)
    {
      hide WellFormed, OnlyAt, CanWrite;
      var failed := Fails();
      if !(IsFile(tree, src) && CanWrite(tree, dst)) || failed { SelfAt(tree, dst); return false; }
      var start := tree;
      WriteWellFormed(start, dst, []);
      WriteOnlyAt(start, dst, []);
      tree := tree[dst := File([])];
      history := history + [tree];
      failed := Fails();
      if failed { return false; }
      var bytes := tree[src].bytes;
      var n := 0;
      while n < |bytes|
        invariant n <= |bytes| && Valid() && old(history) <= history && |history| > |old(history)|
        invariant OnlyAt(start, tree, dst) && tree == start[dst := File(bytes[..n])] && history[|history| - 1] == tree
        invariant forall i :: |old(history)| <= i < |history| ==> OnlyAt(old(tree), history[i], dst)
        invariant old(faulted) ==> faulted
        decreases |bytes| - n
      {
        var m: nat := *;
        if !(n < m <= |bytes|) {
          faulted := true;
          return false;
        }
        WriteWellFormed(start, dst, bytes[..m]);
        WriteOnlyAt(start, dst, bytes[..m]);
        n := m;
        tree := start[dst := File(bytes[..n])];
        history := history + [tree];
      }
      assert bytes[..n] == bytes;
      ok := true;
    }

    /** The same, when the system may refuse to open the target for writing, as it may for a program that
        is running: `busy` says that it does. */
    method CopyOnto(src: Path, dst: Path, busy: bool) returns (ok: bool)
      requires Valid() && !IsLink(tree, src) && !IsLink(tree, dst)
      modifies this
      ensures Valid() && old(history) <= history
      ensures OnlyAt(old(tree), tree, dst)
      ensures forall i :: |old(history)| <= i < |history| ==> OnlyAt(old(tree), history[i], dst)
      ensures ok ==> !busy && IsFile(old(tree), src) && CanWrite(old(tree), dst)
      ensures ok ==> dst in tree && tree[dst] == File(if src == dst then [] else old(tree)[src].bytes)
      ensures ok ==> history != [] && history[|history| - 1] == tree && |history| > |old(history)|
      ensures IsFile(tree, dst) || Same(old(tree), tree, dst)
      ensures old(faulted) ==> faulted
      ensures !ok ==> faulted || busy || !IsFile(old(tree), src) || !CanWrite(old(tree), dst)
      ensures src == dst && !ok ==> Opened(old(tree), old(history), dst, faulted)
      ensures busy ==> tree == old(tree) && history == old(history)
    {
      hide WellFormed, OnlyAt, CanWrite;
      if busy { SelfAt(tree, dst); return false; }
      ok := Copy(src, dst);
    }

    method RemoveFile(p: Path) returns (ok: bool)
      requires Valid()
      modifies this
      ensures Valid()
      ensures ok ==> p in old(tree) && !old(tree)[p].Dir? && tree == old(tree) - {p}
      ensures !ok ==> tree == old(tree)
      ensures old(faulted) ==> faulted
      ensures !ok ==> faulted || p !in old(tree) || IsDir(old(tree), p)
      ensures history == old(history) + if ok then [tree] else []
    {
      var failed := Fails();
      if p !in tree || tree[p].Dir? || failed { return false; }
      LeafEmpty(tree, p);
      RemovedWellFormed(tree, p);
      tree := tree - {p};
      history := history + [tree];
      ok := true;
    }

    method Rename(a: Path, b: Path) returns (ok: bool)
      requires Valid() && a != b
      modifies this
      ensures Valid()
      ensures ok ==> CanRename(old(tree), a, b) && tree == Moved(old(tree), a, b)
      ensures !ok ==> tree == old(tree)
      ensures old(faulted) ==> faulted
      ensures !ok ==> faulted || !CanRename(old(tree), a, b)
      ensures history == old(history) + if ok then [tree] else []
    {
      var failed := Fails();
      if !CanRename(tree, a, b) || failed { return false; }
      MovedWellFormed(tree, a, b);
      tree := Moved(tree, a, b);
      history := history + [tree];
      ok := true;
    }

    /** The same between two places that may be on different devices: `across` says that they are, and
        then nothing can be renamed. */
    method RenameBetween(a: Path, b: Path, across: bool) returns (ok: bool)
      requires Valid() && a != b
      modifies this
      ensures Valid()
      ensures ok ==> !across && CanRename(old(tree), a, b) && tree == Moved(old(tree), a, b)
      ensures !ok ==> tree == old(tree)
      ensures old(faulted) ==> faulted
      ensures !ok ==> faulted || across || !CanRename(old(tree), a, b)
      ensures across ==> faulted == old(faulted)
      ensures history == old(history) + if ok then [tree] else []
    {
      if across { return false; }
      ok := Rename(a, b);
    }

    method CreateDirAll(p: Path) returns (ok: bool)
      requires Valid()
      modifies this
      ensures Valid() && old(history) <= history
      ensures DirsAdded(old(tree), tree, p)
      ensures forall i :: |old(history)| <= i < |history| ==> DirsAdded(old(tree), history[i], p)
      ensures ok ==> IsDir(tree, p)
      ensures old(faulted) ==> faulted
      ensures !ok ==> faulted || Blocked(old(tree), p)
      decreases |p|
    {
      if p in tree {
        assert Under(p, p);
        return tree[p].Dir?;
      }
      ok := CreateDirAll(Parent(p));
      assert DirsAdded(old(tree), tree, p) by { DirsUp(old(tree), tree, p); }
      forall i | |old(history)| <= i < |history|
        ensures DirsAdded(old(tree), history[i], p)
      {
        DirsUp(old(tree), history[i], p);
      }
      if Blocked(old(tree), Parent(p)) { BlockedUp(old(tree), p); }
      assert p in tree ==> IsDir(tree, p) by { assert Same(old(tree), tree, p) || IsDir(tree, p); }
      hide WellFormed, DirsAdded, Blocked;
      var failed := Fails();
      if !ok || failed { return false; }
      if p !in tree {
        DirAdded(old(tree), tree, p);
        tree := tree[p := Dir];
        history := history + [tree];
      }
      ok := tree[p].Dir?;
    }

    /** The names in a directory, in any order. */
    method ListDir(p: Path) returns (names: seq<string>)
      ensures Distinct(names) && forall n :: n in names <==> p + [n] in tree
    {
      var rest := Names(tree, p);
      names := [];
      NamesIs(tree, p);
      while rest != {}
        invariant Distinct(names)
        invariant forall n :: p + [n] in tree <==> n in rest || n in names
        invariant forall n :: n in rest ==> n !in names
        decreases rest
      {
        var n :| n in rest;
        rest := rest - {n};
        names := names + [n];
      }
    }

    method ReadDir(p: Path) returns (names: Option<seq<string>>)
      modifies this`faulted
      ensures old(faulted) ==> faulted
      ensures names.None? ==> faulted || !IsDir(tree, p)
      ensures names.Some? ==> IsDir(tree, p) && Distinct(names.value)
      ensures names.Some? ==> forall n :: n in names.value <==> p + [n] in tree
    {
      var failed := Fails();
      if !IsDir(tree, p) || failed { return None; }
      var list := ListDir(p);
      names := Some(list);
    }

    /** Removes a directory with all below it, leaf by leaf; it may stop anywhere. */
    method RemoveDirAll(p: Path) returns (ok: bool)
      requires Valid() && p != []
      modifies this
      ensures Valid() && old(history) <= history
      ensures Pruned(old(tree), tree, p)
      ensures forall i :: |old(history)| <= i < |history| ==> Pruned(old(tree), history[i], p)
      ensures ok ==> Below(tree, p) == {}
      ensures old(faulted) ==> faulted
    {
      hide WellFormed, Pruned, Empty;
      PrunedSelf(tree, p);
      if p !in tree || tree[p].File? { return false; }
      while true
        invariant Valid() && old(history) <= history && Pruned(old(tree), tree, p) && (old(faulted) ==> faulted)
        invariant forall i :: |old(history)| <= i < |history| ==> Pruned(old(tree), history[i], p)
        decreases tree.Keys
      {
        var q: Path := *;
        if !(q in tree && Under(p, q) && Empty(tree, q)) { break; }
        RemovedWellFormed(tree, q);
        PrunedMore(old(tree), tree, p, q);
        tree := tree - {q};
        history := history + [tree];
      }
      ok := Below(tree, p) == {};
      if !ok { faulted := true; }
    }
  }

  lemma ValidIs(disk: Disk)
    ensures disk.Valid() <==> WellFormed(disk.tree)
  {
  }

  lemma WriteWellFormed(t: Tree, p: Path, bytes: Bytes)
    requires WellFormed(t) && CanWrite(t, p)
    ensures WellFormed(t[p := File(bytes)])
  {
    var u := t[p := File(bytes)];
    forall q | q in u && q != [] ensures IsDir(u, Parent(q)) {
      if q == p {
        assert Parent(q) != q;
      } else {
        assert q in t && IsDir(t, Parent(q));
      }
    }
  }
}
