/** The self-update of the binary: back up, validate, swap, smoke-test, roll back. */
module Update {
  import opened Text
  import opened FileSystem

  // ----- Names -----

  /** The position of the last dot, when there is one. */
  function LastDot(name: string): (i: Option<nat>)
    ensures i.Some? ==> i.value < |name| && name[i.value] == '.' && '.' !in name[i.value + 1..]
    ensures i.None? ==> '.' !in name
  {
    if name == "" then None else
    var n := |name| - 1;
    if name[n] == '.' then Some(n) else
    var i := LastDot(name[..n]);
    if i.Some? then (assert name[i.value + 1..] == name[..n][i.value + 1..] + [name[n]]; i)
      else (assert name == name[..n] + [name[n]]; None)
  }

  /** A name that starts with its only dot has no extension, nor has `..`. */
  function Extension(name: string): Option<string> {
    var i := LastDot(name);
    if name == ".." || i.None? || i.value == 0 then None else Some(name[i.value + 1..])
  }

  function Stem(name: string): string {
    var i := LastDot(name);
    if name == ".." || i.None? || i.value == 0 then name else name[..i.value]
  }

  function WithExtension(name: string, extension: string): string {
    Stem(name) + "." + extension
  }

  function Base(p: Path): string
    requires p != []
  {
    p[|p| - 1]
  }

  function Sibling(p: Path, name: string): Path
    requires p != []
  {
    Parent(p) + [name]
  }

  function Backup(target: Path): Path
    requires target != []
  {
    Sibling(target, WithExtension(Base(target), "bak"))
  }

  function Sidecar(target: Path, pid: string, suffix: string): Path
    requires target != []
  {
    Sibling(target, Base(target) + "." + pid + "." + suffix)
  }

  predicate StartsWith(s: string, w: string) { |w| <= |s| && s[..|w|] == w }

  predicate EndsWith(s: string, w: string) { |w| <= |s| && s[|s| - |w|..] == w }

  /** A name that the sweep after a swap may remove. */
  predicate Stale(base: string, name: string) {
    StartsWith(name, base + ".") && (EndsWith(name, ".old") || EndsWith(name, ".rollback-old"))
  }

  lemma {:induction false} LastDotIs(a: string, b: string)
    requires '.' !in b
    ensures LastDot(a + "." + b) == Some(|a|)
  {
    var s := a + "." + b;
    if b == "" {
      assert s[|s| - 1] == '.';
    } else {
      var rest := b[..|b| - 1];
      assert s[..|s| - 1] == a + "." + rest && s[|s| - 1] == b[|b| - 1];
      assert forall c :: c in rest ==> c in b;
      LastDotIs(a, rest);
    }
  }

  /** The backup is the running binary itself exactly when that is named `*.bak`. */
  lemma BackupIsTarget(target: Path)
    requires target != []
    ensures Backup(target) == target <==> Extension(Base(target)) == Some("bak")
  {
    var name := Base(target);
    var stem := Stem(name);
    assert target == Parent(target) + [name];
    LastDotIs(stem, "bak");
    if WithExtension(name, "bak") == name {
      assert name == stem + "." + "bak";
      assert name[|stem| + 1..] == "bak";
    }
    if Extension(name) == Some("bak") {
      var i := LastDot(name).value;
      assert name == name[..i] + [name[i]] + name[i + 1..];
    }
  }

  lemma NotStale(base: string, name: string)
    ensures !Stale(base, WithExtension(name, "bak"))
  {
    var s := Stem(name) + "." + "bak";
    assert s[|s| - 1] == 'k';
    EndsLast(s, ".old");
    EndsLast(s, ".rollback-old");
  }

  lemma EndsLast(s: string, w: string)
    requires w != ""
    ensures EndsWith(s, w) ==> s[|s| - 1] == w[|w| - 1]
  {
    assert EndsWith(s, w) ==> s[|s| - 1] == s[|s| - |w|..][|w| - 1];
  }

  lemma SidecarStale(base: string, pid: string)
    ensures Stale(base, base + "." + pid + "." + "old") && Stale(base, base + "." + pid + "." + "rollback-old")
  {
    var a, b := base + "." + pid + "." + "old", base + "." + pid + "." + "rollback-old";
    assert a[..|base| + 1] == base + "." && b[..|base| + 1] == base + ".";
    assert a[|a| - 4..] == ".old" && b[|b| - 13..] == ".rollback-old";
  }

  // ----- What the steps may touch -----

  /** The binary itself, and the names next to it that old images are moved to. */
  predicate Touched(target: Path, q: Path)
    requires target != []
  {
    q == target || (|q| == |target| && Parent(q) == Parent(target) && Stale(Base(target), Base(q)))
  }

  ghost predicate Within(t: Tree, u: Tree, target: Path)
    requires target != []
  {
    forall q :: !Touched(target, q) ==> Same(t, u, q)
  }

  /** From one tree and history to another, with every state on the way differing from the first tree
      only in what may be touched. */
  ghost predicate Steps(t: Tree, h: seq<Tree>, u: Tree, more: seq<Tree>, target: Path)
    requires target != []
  {
    && h <= more
    && Within(t, u, target)
    && (forall i :: |h| <= i < |more| ==> Within(t, more[i], target))
  }

  lemma WithinTrans(t: Tree, u: Tree, v: Tree, target: Path)
    requires target != [] && Within(t, u, target) && Within(u, v, target)
    ensures Within(t, v, target)
  {
    forall q | !Touched(target, q) ensures Same(t, v, q) { assert Same(t, u, q) && Same(u, v, q); }
  }

  lemma OnlyAtWithin(t: Tree, u: Tree, p: Path, target: Path)
    requires target != [] && OnlyAt(t, u, p) && Touched(target, p)
    ensures Within(t, u, target)
  {
  }

  lemma StepsTrans(t: Tree, h: seq<Tree>, u: Tree, i: seq<Tree>, v: Tree, j: seq<Tree>, target: Path)
    requires target != [] && Steps(t, h, u, i, target) && Steps(u, i, v, j, target)
    ensures Steps(t, h, v, j, target)
  {
    hide Within;
    WithinTrans(t, u, v, target);
    forall k | |h| <= k < |j| ensures Within(t, j[k], target) {
      if k < |i| { assert j[k] == i[k]; } else { WithinTrans(t, u, j[k], target); }
    }
  }

  lemma StepsAt(t: Tree, h: seq<Tree>, u: Tree, i: seq<Tree>, target: Path, q: Path)
    requires target != [] && Steps(t, h, u, i, target) && !Touched(target, q)
    ensures h <= i && Same(t, u, q) && forall k :: |h| <= k < |i| ==> Same(t, i[k], q)
  {
    hide Touched;
  }

  lemma HistoryGrows(t: Tree, h: seq<Tree>, u: Tree, i: seq<Tree>, target: Path)
    requires target != [] && Steps(t, h, u, i, target)
    ensures h <= i
  {
  }

  lemma NoSteps(t: Tree, h: seq<Tree>, target: Path)
    requires target != []
    ensures Steps(t, h, t, h, target)
  {
  }

  // ----- The steps, each on one file -----

  method CopyWithin(disk: Disk, src: Path, dst: Path, target: Path) returns (ok: bool)
    requires disk.Valid() && target != [] && Touched(target, dst) && !IsLink(disk.tree, src) && !IsLink(disk.tree, dst)
    modifies disk
    ensures disk.Valid() && Steps(old(disk.tree), old(disk.history), disk.tree, disk.history, target)
    ensures OnlyAt(old(disk.tree), disk.tree, dst) && (IsFile(disk.tree, dst) || Same(old(disk.tree), disk.tree, dst))
    ensures ok && src != dst ==>
              IsFile(old(disk.tree), src) && dst in disk.tree && disk.tree[dst] == old(disk.tree)[src]
    ensures old(disk.faulted) ==> disk.faulted
    ensures !ok ==> disk.faulted || !IsFile(old(disk.tree), src) || !CanWrite(old(disk.tree), dst)
  {
    hide Within, OnlyAt, Touched, CanWrite, WellFormed;
    ok := disk.Copy(src, dst);
    OnlyAtWithin(old(disk.tree), disk.tree, dst, target);
    forall i | |old(disk.history)| <= i < |disk.history| ensures Within(old(disk.tree), disk.history[i], target) {
      OnlyAtWithin(old(disk.tree), disk.history[i], dst, target);
    }
  }

  lemma RemovedWithin(t: Tree, p: Path, target: Path)
    requires target != [] && Touched(target, p)
    ensures Within(t, t - {p}, target) && OnlyAt(t, t - {p}, p)
  {
  }

  lemma OneMore(t: Tree, h: seq<Tree>, u: Tree, ok: bool, target: Path)
    requires target != [] && Within(t, u, target)
    ensures Steps(t, h, u, h + if ok then [u] else [], target)
  {
    hide Within;
  }

  method RemoveWithin(disk: Disk, p: Path, target: Path) returns (ok: bool)
    requires disk.Valid() && target != [] && Touched(target, p)
    modifies disk
    ensures disk.Valid() && Steps(old(disk.tree), old(disk.history), disk.tree, disk.history, target)
    ensures OnlyAt(old(disk.tree), disk.tree, p)
    ensures if ok then p !in disk.tree else disk.tree == old(disk.tree)
    ensures old(disk.faulted) ==> disk.faulted
    ensures !ok ==> disk.faulted || p !in old(disk.tree) || IsDir(old(disk.tree), p)
  {
    hide Within, Steps, OnlyAt, Touched, WellFormed;
    ok := disk.RemoveFile(p);
    RemovedWithin(old(disk.tree), p, target);
    SameWithin(old(disk.tree), p, target);
    OneMore(old(disk.tree), old(disk.history), disk.tree, ok, target);
  }

  lemma SameWithin(t: Tree, p: Path, target: Path)
    requires target != []
    ensures Within(t, t, target) && OnlyAt(t, t, p)
  {
  }

  lemma MovedWithin(t: Tree, a: Path, b: Path, target: Path)
    requires WellFormed(t) && CanRename(t, a, b) && !t[a].Dir? && target != [] && Touched(target, a)
    requires Touched(target, b)
    ensures Within(t, Moved(t, a, b), target)
    ensures a !in Moved(t, a, b) && b in Moved(t, a, b) && Moved(t, a, b)[b] == t[a]
  {
    hide Moved, WellFormed, CanRename, Touched;
    MovedLeaf(t, a, b);
  }

  /** Moves a file, or nothing. */
  method RenameWithin(disk: Disk, a: Path, b: Path, target: Path) returns (ok: bool)
    requires disk.Valid() && target != [] && a != b && Touched(target, a) && Touched(target, b)
    requires !(a in disk.tree && disk.tree[a].Dir?)
    modifies disk
    ensures disk.Valid() && Steps(old(disk.tree), old(disk.history), disk.tree, disk.history, target)
    ensures if ok then a in old(disk.tree) && a !in disk.tree && b in disk.tree && disk.tree[b] == old(disk.tree)[a]
            else disk.tree == old(disk.tree)
    ensures (old(disk.faulted) ==> disk.faulted) && (!ok ==> disk.faulted || !CanRename(old(disk.tree), a, b))
  {
    hide Within, Steps, Touched, WellFormed, Moved, CanRename;
    ok := disk.Rename(a, b);
    if ok { MovedWithin(old(disk.tree), a, b, target); }
    SameWithin(old(disk.tree), a, target);
    OneMore(old(disk.tree), old(disk.history), disk.tree, ok, target);
  }

  lemma ParentUntouched(target: Path)
    requires target != []
    ensures !Touched(target, Parent(target))
  {
  }

  lemma SidecarNext(target: Path, pid: string)
    requires target != []
    ensures var p := Sidecar(target, pid, "old");
            p != [] && Parent(p) == Parent(target) && (p != target ==> Disjoint(target, p))
  {
  }

  lemma SidecarTouched(target: Path, pid: string)
    requires target != []
    ensures Touched(target, target)
    ensures var p := Sidecar(target, pid, "old"); p != target && Touched(target, p)
    ensures var p := Sidecar(target, pid, "rollback-old"); p != target && Touched(target, p)
  {
    SidecarStale(Base(target), pid);
  }

  lemma BackupUntouched(target: Path)
    requires target != [] && Backup(target) != target
    ensures !Touched(target, Backup(target))
  {
    NotStale(Base(target), Base(target));
  }

  // ----- Swap -----

  /** The files are there, and the directory to write to. */
  predicate Ready(t: Tree, newBinary: Path, target: Path)
    requires target != []
  {
    IsFile(t, newBinary) && target in t && !t[target].Dir? && IsDir(t, Parent(target))
  }

  method SwapBinaryUnix(disk: Disk, newBinary: Path, target: Path) returns (ok: bool)
    requires disk.Valid() && target != [] && !Touched(target, newBinary) && !IsLink(disk.tree, newBinary)
    requires !IsLink(disk.tree, target) && !IsDir(disk.tree, target)
    modifies disk
    ensures disk.Valid() && Steps(old(disk.tree), old(disk.history), disk.tree, disk.history, target)
    ensures !IsLink(disk.tree, target) && !IsDir(disk.tree, target)
    ensures ok ==>
              IsFile(old(disk.tree), newBinary) && target in disk.tree && disk.tree[target] == old(disk.tree)[newBinary]
    ensures (old(disk.faulted) ==> disk.faulted) && (!ok ==> disk.faulted || !Ready(old(disk.tree), newBinary, target))
  {
    hide Within, Steps, OnlyAt, WellFormed;
    ok := RemoveWithin(disk, target, target);
    if !ok { return; }
    ghost var t1, h1 := disk.tree, disk.history;
    StepsAt(old(disk.tree), old(disk.history), t1, h1, target, newBinary);
    StepsAt(old(disk.tree), old(disk.history), t1, h1, target, Parent(target));
    ok := CopyWithin(disk, newBinary, target, target);
    StepsTrans(old(disk.tree), old(disk.history), t1, h1, disk.tree, disk.history, target);
  }

  /** Removes what earlier updates left next to the binary, as far as it can. */
  method SweepStaleSidecars(disk: Disk, target: Path)
    requires disk.Valid() && target != []
    modifies disk
    ensures disk.Valid() && Steps(old(disk.tree), old(disk.history), disk.tree, disk.history, target)
    ensures Same(old(disk.tree), disk.tree, target)
    ensures old(disk.faulted) ==> disk.faulted
  {
    hide Within, Steps, OnlyAt, WellFormed, Touched, Stale;
    NoSteps(disk.tree, disk.history, target);
    var entries := disk.ReadDir(Parent(target));
    if entries.None? { return; }
    var names := entries.value;
    for i := 0 to |names|
      invariant disk.Valid() && Steps(old(disk.tree), old(disk.history), disk.tree, disk.history, target)
      invariant Same(old(disk.tree), disk.tree, target) && (old(disk.faulted) ==> disk.faulted)
    {
      var failed := disk.Fails();
      if failed { break; }
      if Stale(Base(target), names[i]) {
        ghost var t, h := disk.tree, disk.history;
        StaleTouched(target, names[i]);
        var _ := RemoveWithin(disk, Sibling(target, names[i]), target);
        StepsTrans(old(disk.tree), old(disk.history), t, h, disk.tree, disk.history, target);
        OnlyAtSame(t, disk.tree, Sibling(target, names[i]), target);
      }
    }
  }

  lemma OnlyAtSame(t: Tree, u: Tree, p: Path, q: Path)
    requires OnlyAt(t, u, p) && p != q
    ensures Same(t, u, q)
  {
  }

  lemma StaleTouched(target: Path, name: string)
    requires target != [] && Stale(Base(target), name)
    ensures Touched(target, Sibling(target, name)) && Sibling(target, name) != target
  {
    assert |name| > |Base(target)|;
  }

  /** The old binary is in place or, when it could not be put back, next to it. */
  predicate KeptIn(t: Tree, target: Path, pid: string, node: Node)
    requires target != []
  {
    (target in t && t[target] == node) || (Sidecar(target, pid, "old") in t && t[Sidecar(target, pid, "old")] == node)
  }

  method SwapBinaryWindows(disk: Disk, newBinary: Path, target: Path, pid: string) returns (ok: bool)
    requires disk.Valid() && target != [] && !Touched(target, newBinary) && !IsLink(disk.tree, newBinary)
    requires !IsLink(disk.tree, target) && !IsDir(disk.tree, target)
    modifies disk
    ensures disk.Valid() && Steps(old(disk.tree), old(disk.history), disk.tree, disk.history, target)
    ensures !IsLink(disk.tree, target) && !IsDir(disk.tree, target)
    ensures !ok && target in old(disk.tree) ==> KeptIn(disk.tree, target, pid, old(disk.tree)[target])
    ensures old(disk.faulted) ==> disk.faulted
    ensures !ok ==>
              disk.faulted || !Ready(old(disk.tree), newBinary, target)
                || IsDir(old(disk.tree), Sidecar(target, pid, "old"))
    ensures ok ==>
              IsFile(old(disk.tree), newBinary) && target in disk.tree && disk.tree[target] == old(disk.tree)[newBinary]
  {
    hide Within, Steps, OnlyAt, WellFormed, Touched, Sidecar;
    var sidelined := Sidecar(target, pid, "old");
    SidecarTouched(target, pid);
    SidecarNext(target, pid);
    ok := RenameWithin(disk, target, sidelined, target);
    if !ok { return; }
    ghost var t1, h1 := disk.tree, disk.history;
    StepsAt(old(disk.tree), old(disk.history), t1, h1, target, newBinary);
    ParentUntouched(target);
    StepsAt(old(disk.tree), old(disk.history), t1, h1, target, Parent(target));
    ok := CopyWithin(disk, newBinary, target, target);
    ghost var t2, h2 := disk.tree, disk.history;
    StepsTrans(old(disk.tree), old(disk.history), t1, h1, t2, h2, target);
    OnlyAtSame(t1, t2, target, sidelined);
    if !ok {
      var _ := RenameWithin(disk, sidelined, target, target);
      StepsTrans(old(disk.tree), old(disk.history), t2, h2, disk.tree, disk.history, target);
      return;
    }
    var _ := RemoveWithin(disk, sidelined, target);
    ghost var t3, h3 := disk.tree, disk.history;
    OnlyAtSame(t2, t3, sidelined, target);
    StepsTrans(old(disk.tree), old(disk.history), t2, h2, t3, h3, target);
    SweepStaleSidecars(disk, target);
    StepsTrans(old(disk.tree), old(disk.history), t3, h3, disk.tree, disk.history, target);
  }

  // ----- Rollback -----

  method RollbackBinaryUnix(disk: Disk, backup: Path, target: Path) returns (ok: bool)
    requires disk.Valid() && target != [] && (backup == target || !Touched(target, backup))
    requires !IsLink(disk.tree, backup)
    requires !IsLink(disk.tree, target) && !IsDir(disk.tree, target)
    modifies disk
    ensures disk.Valid() && Steps(old(disk.tree), old(disk.history), disk.tree, disk.history, target)
    ensures ok && backup != target ==>
              IsFile(old(disk.tree), backup) && target in disk.tree && disk.tree[target] == old(disk.tree)[backup]
    ensures old(disk.faulted) ==> disk.faulted
    ensures !ok && backup != target ==>
              disk.faulted || !IsFile(old(disk.tree), backup) || !IsDir(old(disk.tree), Parent(target))
  {
    hide Within, Steps, OnlyAt, WellFormed;
    var _ := RemoveWithin(disk, target, target);
    ghost var t1, h1 := disk.tree, disk.history;
    if backup != target { StepsAt(old(disk.tree), old(disk.history), t1, h1, target, backup); }
    ParentUntouched(target);
    StepsAt(old(disk.tree), old(disk.history), t1, h1, target, Parent(target));
    ok := CopyWithin(disk, backup, target, target);
    StepsTrans(old(disk.tree), old(disk.history), t1, h1, disk.tree, disk.history, target);
  }

  method RollbackBinaryWindows(disk: Disk, backup: Path, target: Path, pid: string) returns (ok: bool)
    requires disk.Valid() && target != [] && (backup == target || !Touched(target, backup))
    requires !IsLink(disk.tree, backup)
    requires !IsLink(disk.tree, target) && !IsDir(disk.tree, target)
    modifies disk
    ensures disk.Valid() && Steps(old(disk.tree), old(disk.history), disk.tree, disk.history, target)
    ensures ok && backup != target ==>
              IsFile(old(disk.tree), backup) && target in disk.tree && disk.tree[target] == old(disk.tree)[backup]
    ensures old(disk.faulted) ==> disk.faulted
    ensures !ok && backup != target ==>
              disk.faulted || !IsFile(old(disk.tree), backup) || !IsDir(old(disk.tree), Parent(target))
  {
    hide Within, Steps, OnlyAt, WellFormed, Touched, Sidecar;
    var sidelined := Sidecar(target, pid, "rollback-old");
    SidecarTouched(target, pid);
    var _ := RenameWithin(disk, target, sidelined, target);
    ghost var t1, h1 := disk.tree, disk.history;
    if backup != target { StepsAt(old(disk.tree), old(disk.history), t1, h1, target, backup); }
    ParentUntouched(target);
    StepsAt(old(disk.tree), old(disk.history), t1, h1, target, Parent(target));
    ok := CopyWithin(disk, backup, target, target);
    ghost var t2, h2 := disk.tree, disk.history;
    StepsTrans(old(disk.tree), old(disk.history), t1, h1, t2, h2, target);
    if !ok { return; }
    var _ := RemoveWithin(disk, sidelined, target);
    OnlyAtSame(t2, disk.tree, sidelined, target);
    StepsTrans(old(disk.tree), old(disk.history), t2, h2, disk.tree, disk.history, target);
  }

  // ----- The update -----

  datatype Outcome =
    | Done
    | BackupFailed
    | Invalid
    | SwapFailed(rollbackFailed: bool)
    | RolledBack
    | RollbackFailed

  /** The download is a file that is large enough and that runs. */
  predicate Sound(t: Tree, p: Path, runs: bool) {
    IsFile(t, p) && |t[p].bytes| >= 1_000_000 && runs
  }

  method ValidateBinary(disk: Disk, p: Path, runs: bool) returns (ok: bool)
    ensures ok <==> Sound(disk.tree, p, runs)
  {
    if !IsFile(disk.tree, p) { return false; }
    if |disk.tree[p].bytes| < 1_000_000 { return false; }
    ok := runs;
  }

  method SmokeTest(disk: Disk, p: Path, runs: bool) returns (ok: bool)
    ensures ok <==> IsFile(disk.tree, p) && runs
  {
    if !IsFile(disk.tree, p) { return false; }
    ok := runs;
  }

  predicate Holds(t: Tree, p: Path, bytes: Bytes) {
    p in t && t[p] == File(bytes)
  }

  /** The old binary can be run or restored. */
  predicate Safe(t: Tree, target: Path, bytes: Bytes)
    requires target != []
  {
    Holds(t, target, bytes) || Holds(t, Backup(target), bytes)
  }

  ghost predicate AllSafe(history: seq<Tree>, from: nat, upTo: nat, target: Path, bytes: Bytes)
    requires target != []
  {
    from <= upTo <= |history| && forall i :: from <= i < upTo ==> Safe(history[i], target, bytes)
  }

  /** Nothing but the binary, its backup and its sidecars changes. */
  ghost predicate Frame(t: Tree, u: Tree, target: Path)
    requires target != []
  {
    forall q :: !Touched(target, q) && q != Backup(target) ==> Same(t, u, q)
  }

  lemma BackupSafe(t: Tree, h: seq<Tree>, u: Tree, more: seq<Tree>, target: Path, bytes: Bytes)
    requires target != [] && Backup(target) != target && Holds(t, target, bytes) && h <= more
    requires OnlyAt(t, u, Backup(target)) && forall i :: |h| <= i < |more| ==> OnlyAt(t, more[i], Backup(target))
    ensures AllSafe(more, |h|, |more|, target, bytes) && Holds(u, target, bytes) && Frame(t, u, target)
  {
    hide Backup, Touched;
    forall i | |h| <= i < |more| ensures Holds(more[i], target, bytes) { assert Same(t, more[i], target); }
    assert Same(t, u, target);
  }

  /** While the backup is complete, the steps on the binary are safe. */
  lemma StepsSafe(t0: Tree, h: nat, t: Tree, i: seq<Tree>, u: Tree, j: seq<Tree>, target: Path, bytes: Bytes)
    requires target != [] && Backup(target) != target && Steps(t, i, u, j, target) && Holds(t, Backup(target), bytes)
    requires AllSafe(i, h, |i|, target, bytes) && Frame(t0, t, target)
    ensures AllSafe(j, h, |j|, target, bytes) && Holds(u, Backup(target), bytes) && Frame(t0, u, target)
  {
    hide Backup, Touched, Within;
    BackupUntouched(target);
    StepsAt(t, i, u, j, target, Backup(target));
    forall k | h <= k < |j| ensures Safe(j[k], target, bytes) {
      if k < |i| { assert j[k] == i[k]; }
    }
    forall q | !Touched(target, q) && q != Backup(target) ensures Same(t0, u, q) {
      assert Same(t0, t, q);
      StepsAt(t, i, u, j, target, q);
    }
  }

  /** Removing the backup in the end. */
  lemma BackupRemoved(t0: Tree, from: nat, t: Tree, h: seq<Tree>, u: Tree, more: seq<Tree>, ok: bool, target: Path,
                      bytes: Bytes)
    requires target != [] && Backup(target) != target && AllSafe(h, from, |h|, target, bytes) && Frame(t0, t, target)
    requires u == (if ok then t - {Backup(target)} else t) && more == h + if ok then [u] else []
    ensures AllSafe(more, from, |h|, target, bytes) && Frame(t0, u, target) && Same(t, u, target)
    ensures forall i :: |h| <= i < |more| ==> more[i] == u
  {
    hide Backup, Touched, Safe;
    forall i | from <= i < |h| ensures Safe(more[i], target, bytes) { assert more[i] == h[i]; }
    forall q | !Touched(target, q) && q != Backup(target) ensures Same(t0, u, q) { assert Same(t0, t, q); }
  }

  lemma NewUntouched(t: Tree, u: Tree, target: Path, q: Path)
    requires target != [] && q != [] && Parent(q) != Parent(target) && OnlyAt(t, u, Backup(target))
    ensures !Touched(target, q) && Same(t, u, q)
  {
    assert Parent(Backup(target)) == Parent(target);
  }

  method Swap(disk: Disk, newBinary: Path, target: Path, windows: bool, pid: string) returns (ok: bool)
    requires disk.Valid() && target != [] && !Touched(target, newBinary) && !IsLink(disk.tree, newBinary)
    requires !IsLink(disk.tree, target) && !IsDir(disk.tree, target)
    modifies disk
    ensures disk.Valid() && Steps(old(disk.tree), old(disk.history), disk.tree, disk.history, target)
    ensures !IsLink(disk.tree, target) && !IsDir(disk.tree, target)
    ensures ok ==>
              IsFile(old(disk.tree), newBinary) && target in disk.tree && disk.tree[target] == old(disk.tree)[newBinary]
    ensures old(disk.faulted) ==> disk.faulted
    ensures !ok ==>
              disk.faulted || !Ready(old(disk.tree), newBinary, target)
                || (windows && IsDir(old(disk.tree), Sidecar(target, pid, "old")))
  {
    if windows {
      ok := SwapBinaryWindows(disk, newBinary, target, pid);
    } else {
      ok := SwapBinaryUnix(disk, newBinary, target);
    }
  }

  method Rollback(disk: Disk, backup: Path, target: Path, windows: bool, pid: string) returns (ok: bool)
    requires disk.Valid() && target != [] && (backup == target || !Touched(target, backup))
    requires !IsLink(disk.tree, backup)
    requires !IsLink(disk.tree, target) && !IsDir(disk.tree, target)
    modifies disk
    ensures disk.Valid() && Steps(old(disk.tree), old(disk.history), disk.tree, disk.history, target)
    ensures ok && backup != target ==>
              IsFile(old(disk.tree), backup) && target in disk.tree && disk.tree[target] == old(disk.tree)[backup]
    ensures old(disk.faulted) ==> disk.faulted
    ensures !ok && backup != target ==>
              disk.faulted || !IsFile(old(disk.tree), backup) || !IsDir(old(disk.tree), Parent(target))
  {
    if windows {
      ok := RollbackBinaryWindows(disk, backup, target, pid);
    } else {
      ok := RollbackBinaryUnix(disk, backup, target);
    }
  }

  lemma BackupWritable(t: Tree, target: Path)
    requires WellFormed(t) && target != [] && IsFile(t, target)
    ensures IsDir(t, Parent(target)) && (CanWrite(t, Backup(target)) || IsDir(t, Backup(target)))
    ensures Backup(target) != Parent(target)
  {
  }

  lemma SidecarNotBackup(target: Path, pid: string)
    requires target != [] && Backup(target) != target
    ensures Sidecar(target, pid, "old") != Backup(target)
  {
    SidecarTouched(target, pid);
    BackupUntouched(target);
  }

  /** What the swap needs is still there after the backup. */
  lemma StillReady(t: Tree, u: Tree, newBinary: Path, target: Path, pid: string)
    requires WellFormed(t) && target != [] && IsFile(t, target) && IsFile(t, newBinary) && OnlyAt(t, u, Backup(target))
    requires Backup(target) != target
    requires newBinary != [] && Parent(newBinary) != Parent(target)
    ensures Ready(u, newBinary, target) && IsDir(u, Parent(target)) && Same(t, u, Sidecar(target, pid, "old"))
  {
    BackupWritable(t, target);
    SidecarNotBackup(target, pid);
    NewUntouched(t, u, target, newBinary);
    assert Same(t, u, target) && Same(t, u, Parent(target)) && Same(t, u, newBinary);
  }

  /** Phase 3. A binary that is its own backup is emptied if and only if it is opened for writing, also when the
      copy fails then, and otherwise left alone. Whether the system refuses that for the running binary is
      `busy`. */
  method BackUp(disk: Disk, target: Path, busy: bool) returns (ok: bool)
    requires disk.Valid() && target != [] && IsFile(disk.tree, target) && !IsLink(disk.tree, Backup(target))
    modifies disk
    ensures disk.Valid() && old(disk.history) <= disk.history && OnlyAt(old(disk.tree), disk.tree, Backup(target))
    ensures !IsLink(disk.tree, target) && !IsDir(disk.tree, target) && !IsLink(disk.tree, Backup(target))
    ensures Backup(target) != target ==>
              && AllSafe(disk.history, |old(disk.history)|, |disk.history|, target, old(disk.tree)[target].bytes)
              && Frame(old(disk.tree), disk.tree, target) && Holds(disk.tree, target, old(disk.tree)[target].bytes)
    ensures ok && Backup(target) != target ==> Holds(disk.tree, Backup(target), old(disk.tree)[target].bytes)
    ensures old(disk.faulted) ==> disk.faulted
    ensures !ok ==> disk.faulted || IsDir(old(disk.tree), Backup(target)) || (busy && Backup(target) == target)
    ensures Backup(target) == target ==>
              if disk.history == old(disk.history) then !ok && disk.tree == old(disk.tree)
              else |disk.history| > |old(disk.history)| && Holds(disk.history[|disk.history| - 1], target, [])
    ensures busy && Backup(target) == target ==> !ok && disk.history == old(disk.history)
  {
    BackupWritable(disk.tree, target);
    hide Backup, Frame, AllSafe, CanWrite, WellFormed, OnlyAt;
    ok := disk.CopyOnto(target, Backup(target), busy && Backup(target) == target);
    if Backup(target) != target {
      BackupSafe(old(disk.tree), old(disk.history), disk.tree, disk.history, target, old(disk.tree)[target].bytes);
    }
  }

  ghost predicate Emptied(history: seq<Tree>, from: nat, target: Path) {
    exists i :: from <= i < |history| && Holds(history[i], target, [])
  }

  lemma EmptiedThen(h: seq<Tree>, more: seq<Tree>, from: nat, target: Path)
    requires |h| > from && Holds(h[|h| - 1], target, []) && h <= more
    ensures Emptied(more, from, target)
  {
    assert more[|h| - 1] == h[|h| - 1];
  }

  /** Phases 5 and 6, with a complete backup: `t0` is the tree before the update, `bytes` the old binary. */
  method SwapAndTest(disk: Disk, target: Path, newBinary: Path, windows: bool, pid: string, stillRuns: bool,
                     ghost t0: Tree, ghost from: nat, ghost bytes: Bytes)
    returns (r: Outcome, ghost tested: nat)
    requires disk.Valid() && target != [] && !Touched(target, newBinary) && !IsLink(disk.tree, newBinary)
    requires !IsLink(disk.tree, target) && !IsDir(disk.tree, target) && !IsLink(disk.tree, Backup(target))
    requires Backup(target) != target ==>
               && AllSafe(disk.history, from, |disk.history|, target, bytes) && Frame(t0, disk.tree, target)
               && Holds(disk.tree, Backup(target), bytes)
    modifies disk
    ensures disk.Valid() && old(disk.history) <= disk.history && tested <= |disk.history|
    ensures r.Done? || tested == |disk.history|
    ensures r.Done? || r.SwapFailed? || r.RolledBack? || r.RollbackFailed?
    ensures r.Done? ==> stillRuns
    ensures Backup(target) != target ==>
              AllSafe(disk.history, from, tested, target, bytes) && Frame(t0, disk.tree, target)
    ensures Backup(target) != target && r.Done? ==>
              && IsFile(old(disk.tree), newBinary) && Holds(disk.tree, target, old(disk.tree)[newBinary].bytes)
              && forall i :: tested <= i < |disk.history| ==>
                Holds(disk.history[i], target, old(disk.tree)[newBinary].bytes)
    ensures Backup(target) != target && r in {SwapFailed(false), RolledBack} ==> Holds(disk.tree, target, bytes)
    ensures Backup(target) != target && r in {SwapFailed(true), RollbackFailed} ==>
              Holds(disk.tree, Backup(target), bytes)
    ensures old(disk.faulted) ==> disk.faulted
    ensures Backup(target) != target && !disk.faulted && Ready(old(disk.tree), newBinary, target) &&
            IsDir(old(disk.tree), Parent(target)) &&
            !(windows && IsDir(old(disk.tree), Sidecar(target, pid, "old"))) ==>
              r == if stillRuns then Done else RolledBack
  {
    hide *;
    var backup := Backup(target);
    ghost var apart := backup != target;
    ghost var t1, h1 := disk.tree, disk.history;
    if apart { BackupUntouched(target); }
    ParentUntouched(target);
    // Phase 5: swap
    var ok := Swap(disk, newBinary, target, windows, pid);
    ghost var t2, h2 := disk.tree, disk.history;
    tested := |h2|;
    HistoryGrows(t1, h1, t2, h2, target);
    StepsAt(t1, h1, t2, h2, target, newBinary);
    StepsAt(t1, h1, t2, h2, target, Parent(target));
    DirStays(t1, t2, Parent(target));
    if apart {
      StepsSafe(t0, from, t1, h1, t2, h2, target, bytes);
      HoldsFile(t2, backup, bytes);
    } else {
      assert !IsLink(t2, backup);
    }
    if !ok {
      ok := Rollback(disk, backup, target, windows, pid);
      HistoryGrows(t2, h2, disk.tree, disk.history, target);
      if apart {
        StepsSafe(t0, from, t2, h2, disk.tree, disk.history, target, bytes);
        if ok { HoldsSame(t2, backup, disk.tree, target, bytes); }
      }
      return SwapFailed(!ok), |disk.history|;
    }
    // Phase 6: smoke test
    ok := SmokeTest(disk, target, stillRuns);
    if ok {
      ok := disk.RemoveFile(backup);
      if apart { Installed(t0, from, t1, t2, h2, disk.tree, disk.history, ok, target, newBinary, bytes); }
      return Done, tested;
    }
    FileHere(t1, newBinary, t2, target);
    ok := Rollback(disk, backup, target, windows, pid);
    HistoryGrows(t2, h2, disk.tree, disk.history, target);
    if apart {
      StepsSafe(t0, from, t2, h2, disk.tree, disk.history, target, bytes);
      if ok { HoldsSame(t2, backup, disk.tree, target, bytes); }
    }
    return if ok then RolledBack else RollbackFailed, |disk.history|;
  }

  lemma DirStays(t: Tree, u: Tree, p: Path)
    requires Same(t, u, p)
    ensures IsDir(t, p) <==> IsDir(u, p)
  {
  }

  lemma HoldsFile(t: Tree, p: Path, bytes: Bytes)
    requires Holds(t, p, bytes)
    ensures IsFile(t, p) && !IsLink(t, p)
  {
  }

  lemma HoldsSame(t: Tree, p: Path, u: Tree, q: Path, bytes: Bytes)
    requires Holds(t, p, bytes) && q in u && u[q] == t[p]
    ensures Holds(u, q, bytes)
  {
  }

  lemma FileHere(t: Tree, p: Path, u: Tree, q: Path)
    requires IsFile(t, p) && q in u && u[q] == t[p]
    ensures IsFile(u, q) && Holds(u, q, t[p].bytes)
  {
  }

  /** After the smoke test the new binary stays, whether the backup can be removed or not. */
  lemma Installed(t0: Tree, from: nat, t1: Tree, t: Tree, h: seq<Tree>, u: Tree, more: seq<Tree>, ok: bool,
                  target: Path,
                  newBinary: Path, bytes: Bytes)
    requires target != [] && Backup(target) != target && AllSafe(h, from, |h|, target, bytes) && Frame(t0, t, target)
    requires u == (if ok then t - {Backup(target)} else t) && more == h + if ok then [u] else []
    requires IsFile(t1, newBinary) && target in t && t[target] == t1[newBinary] && Same(t1, t, newBinary)
    ensures AllSafe(more, from, |h|, target, bytes) && Frame(t0, u, target)
    ensures Holds(u, target, t1[newBinary].bytes)
    ensures forall i :: |h| <= i < |more| ==> Holds(more[i], target, t1[newBinary].bytes)
  {
    hide AllSafe, Frame, Backup;
    BackupRemoved(t0, from, t, h, u, more, ok, target, bytes);
  }

  /** Phases 3 to 6. Until the smoke test succeeds (`tested` states have passed) the old binary is in place
      or whole in the backup; unless the binary is named `*.bak` and so is its own backup: then it is lost
      once it is opened for writing, and if that is refused nothing is done at all.
      When nothing fails, the result depends on the download and the smoke test alone. */
  method Run(disk: Disk, target: Path, newBinary: Path, windows: bool, pid: string, busy: bool, runs: bool,
             stillRuns: bool)
    returns (r: Outcome, ghost tested: nat)
    requires disk.Valid() && target != [] && IsFile(disk.tree, target) && !IsLink(disk.tree, Backup(target))
    requires newBinary != [] && Parent(newBinary) != Parent(target) && !IsLink(disk.tree, newBinary)
    modifies disk
    ensures disk.Valid() && old(disk.history) <= disk.history && tested <= |disk.history|
    ensures r.Done? || tested == |disk.history|
    ensures Backup(target) != target ==>
              AllSafe(disk.history, |old(disk.history)|, tested, target, old(disk.tree)[target].bytes)
    ensures Backup(target) != target ==> Frame(old(disk.tree), disk.tree, target)
    ensures r.Done? ==> Sound(old(disk.tree), newBinary, runs) && stillRuns
    ensures Backup(target) != target && r.Done? ==>
              && Holds(disk.tree, target, old(disk.tree)[newBinary].bytes)
              && forall i :: tested <= i < |disk.history| ==>
                Holds(disk.history[i], target, old(disk.tree)[newBinary].bytes)
    ensures Backup(target) != target && r in {BackupFailed, Invalid, SwapFailed(false), RolledBack} ==>
              Holds(disk.tree, target, old(disk.tree)[target].bytes)
    ensures Backup(target) != target && r in {SwapFailed(true), RollbackFailed} ==>
              Holds(disk.tree, Backup(target), old(disk.tree)[target].bytes)
    ensures old(disk.faulted) ==> disk.faulted
    ensures Backup(target) != target && !disk.faulted && !IsDir(old(disk.tree), Backup(target)) &&
            !(windows && IsDir(old(disk.tree), Sidecar(target, pid, "old"))) ==>
              r == if !Sound(old(disk.tree), newBinary, runs) then Invalid else if stillRuns then Done else RolledBack
    ensures Backup(target) == target ==>
              if disk.history == old(disk.history) then r.BackupFailed? && disk.tree == old(disk.tree)
              else Emptied(disk.history, |old(disk.history)|, target)
    ensures Backup(target) == target && busy ==> r.BackupFailed? && disk.history == old(disk.history)
    ensures Backup(target) == target && !busy && !disk.faulted ==> !r.BackupFailed?
  {
    hide *;
    ValidIs(disk);
    FileIs(disk.tree, target);
    ghost var apart := Backup(target) != target;
    ghost var t0, h0, bytes := disk.tree, disk.history, disk.tree[target].bytes;
    // Phase 3: backup
    var ok := BackUp(disk, target, busy);
    ghost var t1, h1 := disk.tree, disk.history;
    tested := |h1|;
    if !ok {
      if !apart && h1 != h0 { EmptiedThen(h1, h1, |h0|, target); }
      return BackupFailed, tested;
    }
    NewUntouched(t0, t1, target, newBinary);
    SoundSame(t0, t1, newBinary, runs);
    // Phase 4: validate
    ok := ValidateBinary(disk, newBinary, runs);
    if !ok {
      if !apart { EmptiedThen(h1, disk.history, |h0|, target); }
      return Invalid, tested;
    }
    if apart {
      StillReady(t0, t1, newBinary, target, pid);
      DirStays(t0, t1, Sidecar(target, pid, "old"));
    }
    r, tested := SwapAndTest(disk, target, newBinary, windows, pid, stillRuns, t0, |h0|, bytes);
    if !apart { EmptiedThen(h1, disk.history, |h0|, target); }
  }

  lemma FileIs(t: Tree, p: Path)
    requires IsFile(t, p)
    ensures p in t && t[p].File? && !IsDir(t, p)
  {
  }

  lemma SoundSame(t: Tree, u: Tree, p: Path, runs: bool)
    requires Same(t, u, p)
    ensures Sound(t, p, runs) <==> Sound(u, p, runs)
    ensures Sound(t, p, runs) ==> IsFile(t, p) && u[p] == t[p]
    ensures IsLink(t, p) <==> IsLink(u, p)
  {
  }
}
