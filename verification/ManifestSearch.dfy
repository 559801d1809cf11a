/** Finding the one directory of an unpacked plugin that holds its manifest. */
module ManifestSearch {
  import opened Text
  import opened FileSystem
  import opened Walk

  const MANIFEST := "manifest.toml"

  predicate HoldsManifest(t: Tree, d: Path) {
    IsFile(t, d + [MANIFEST])
  }

  /** A directory strictly below `dir` that holds a manifest. */
  predicate MatchBelow(t: Tree, dir: Path, d: Path) {
    IsDir(t, d) && Under(dir, d) && d != dir && HoldsManifest(t, d)
  }

  /** The matches below those entries of `dir` that have been seen. */
  ghost predicate MatchIn(t: Tree, dir: Path, names: seq<string>, d: Path) {
    MatchBelow(t, dir, d) && d[|dir|] in names
  }

  ghost predicate Collected(found: seq<Path>, t: Tree, dir: Path, names: seq<string>) {
    DistinctPaths(found) && forall d :: d in found <==> MatchIn(t, dir, names, d)
  }

  lemma MatchChild(t: Tree, dir: Path, name: string, d: Path)
    ensures MatchBelow(t, dir, d) && d[|dir|] == name <==>
            MatchBelow(t, dir + [name], d) || (d == dir + [name] && IsDir(t, d) && HoldsManifest(t, d))
  {
    if MatchBelow(t, dir, d) && d[|dir|] == name {
      assert d[..|dir| + 1] == dir + [name];
    }
    if Under(dir + [name], d) { assert d[..|dir|] == dir && d[|dir|] == name; }
  }

  lemma NoChildMatch(t: Tree, dir: Path, name: string, d: Path)
    requires WellFormed(t) && !IsDir(t, dir + [name])
    ensures !(MatchBelow(t, dir, d) && d[|dir|] == name)
  {
    if MatchBelow(t, dir, d) && d[|dir|] == name {
      MatchChild(t, dir, name, d);
      AncestorDir(t, dir + [name], d);
    }
  }

  /** One more entry: what is found at it and below it. */
  lemma CollectedMore(found: seq<Path>, more: seq<Path>, t: Tree, dir: Path, names: seq<string>, name: string)
    requires Collected(found, t, dir, names) && name !in names && DistinctPaths(more)
    requires forall d :: d in more <==> MatchBelow(t, dir, d) && d[|dir|] == name
    ensures Collected(found + more, t, dir, names + [name])
  {
    var out := found + more;
    forall i, j | 0 <= i < j < |out| ensures out[i] != out[j] {
      if i < |found| && j >= |found| {
        assert out[i] in found && out[j] in more;
      }
    }
    forall d ensures d in out <==> MatchIn(t, dir, names + [name], d) {
      assert d in out <==> d in found || d in more;
    }
  }

  lemma CollectedNone(t: Tree, dir: Path)
    ensures Collected([], t, dir, [])
  {
  }

  lemma CollectedAll(found: seq<Path>, t: Tree, dir: Path, names: seq<string>)
    requires WellFormed(t) && Collected(found, t, dir, names) && forall n :: n in names <==> dir + [n] in t
    ensures forall d :: d in found <==> MatchBelow(t, dir, d)
  {
    forall d | MatchBelow(t, dir, d) ensures d[|dir|] in names { BelowEntry(t, dir, d); }
  }

  lemma BelowLess(t: Tree, dir: Path, name: string)
    requires WellFormed(t) && dir + [name] in t
    ensures Below(t, dir + [name]) < Below(t, dir)
  {
    forall q | Under(dir + [name], q) ensures Under(dir, q) { assert q[..|dir|] == (dir + [name])[..|dir|]; }
    AncestorDir(t, dir, dir + [name]);
    assert dir in Below(t, dir) && dir !in Below(t, dir + [name]);
  }

  lemma ChildMatches(t: Tree, dir: Path, name: string, below: seq<Path>, more: seq<Path>)
    requires IsDir(t, dir + [name]) && DistinctPaths(below)
    requires forall d :: d in below <==> MatchBelow(t, dir + [name], d)
    requires more == (if HoldsManifest(t, dir + [name]) then [dir + [name]] else []) + below
    ensures DistinctPaths(more) && forall d :: d in more <==> MatchBelow(t, dir, d) && d[|dir|] == name
  {
    var path := dir + [name];
    assert path !in below;
    forall d ensures d in more <==> MatchBelow(t, dir, d) && d[|dir|] == name {
      MatchChild(t, dir, name, d);
      assert d in more <==> (HoldsManifest(t, path) && d == path) || d in below;
    }
    forall i, j | 0 <= i < j < |more| ensures more[i] != more[j] {
      assert more[j] in below;
      if HoldsManifest(t, path) && i > 0 { assert more[i] == below[i - 1] && more[j] == below[j - 1]; }
    }
  }

  lemma NoMatches(t: Tree, dir: Path, name: string)
    requires WellFormed(t) && !IsDir(t, dir + [name])
    ensures DistinctPaths([]) && forall d :: !(MatchBelow(t, dir, d) && d[|dir|] == name)
  {
    forall d ensures !(MatchBelow(t, dir, d) && d[|dir|] == name) { NoChildMatch(t, dir, name, d); }
  }

  lemma NotSeen(names: seq<string>, i: nat)
    requires Distinct(names) && i < |names|
    ensures names[i] !in names[..i]
  {
  }

  lemma CollectedDistinct(found: seq<Path>, t: Tree, dir: Path, names: seq<string>)
    requires Collected(found, t, dir, names)
    ensures DistinctPaths(found)
  {
  }

  /** Appends all directories below `dir` that hold a manifest, each once. */
  method CollectManifestDirs(disk: Disk, dir: Path, matches: seq<Path>) returns (ok: bool, out: seq<Path>)
    requires disk.Valid()
    modifies disk`faulted
    ensures ok ==> matches <= out && DistinctPaths(out[|matches|..])
    ensures ok ==> forall d :: d in out[|matches|..] <==> MatchBelow(disk.tree, dir, d)
    ensures (old(disk.faulted) ==> disk.faulted) && (!ok ==> disk.faulted || !IsDir(disk.tree, dir))
    decreases Below(disk.tree, dir)
  {
    hide *;
    ValidIs(disk);
    ghost var t := disk.tree;
    ok, out := true, matches;
    var entries := disk.ReadDir(dir);
    if entries.None? { return false, out; }
    var names := entries.value;
    ghost var found: seq<Path> := [];
    CollectedNone(t, dir);
    assert names[..0] == [];
    for i := 0 to |names|
      invariant disk.Valid() && (old(disk.faulted) ==> disk.faulted)
      invariant ok && out == matches + found && Collected(found, t, dir, names[..i])
    {
      var failed := disk.Fails();
      if failed { return false, out; }
      var path := dir + [names[i]];
      ghost var more: seq<Path> := [];
      if IsDir(disk.tree, path) {
        BelowLess(t, dir, names[i]);
        if HoldsManifest(disk.tree, path) {
          out, more := out + [path], [path];
        }
        ghost var mid := |out|;
        assert out == matches + (found + more);
        ok, out := CollectManifestDirs(disk, path, out);
        if !ok { return; }
        ghost var below := out[mid..];
        assert out == matches + (found + (more + below));
        more := more + below;
        ChildMatches(t, dir, names[i], below, more);
      } else {
        NoMatches(t, dir, names[i]);
        assert found + more == found;
      }
      NotSeen(names, i);
      CollectedMore(found, more, t, dir, names[..i], names[i]);
      found := found + more;
      assert names[..i + 1] == names[..i] + [names[i]];
    }
    assert names[..|names|] == names;
    CollectedAll(found, t, dir, names);
    CollectedDistinct(found, t, dir, names);
    assert out[|matches|..] == found;
  }

  /** A directory at or below `root` that holds a manifest. */
  predicate Match(t: Tree, root: Path, d: Path) {
    IsDir(t, d) && Under(root, d) && HoldsManifest(t, d)
  }

  datatype Found = Manifest(dir: Path) | Missing | Multiple | Unreadable

  lemma RootMatch(t: Tree, root: Path, d: Path)
    requires WellFormed(t)
    ensures Match(t, root, d) <==> MatchBelow(t, root, d) || (d == root && HoldsManifest(t, root))
  {
    if HoldsManifest(t, root) {
      var m := root + [MANIFEST];
      assert Parent(m) == root && m in t && m != [];
    }
  }

  /** The manifest's directory is returned exactly when there is one and no other. */
  method FindManifestDir(disk: Disk, root: Path) returns (r: Found)
    requires disk.Valid()
    modifies disk`faulted
    ensures r.Unreadable? ==> disk.faulted || !IsDir(disk.tree, root)
    ensures r.Manifest? ==> Match(disk.tree, root, r.dir) && forall d :: Match(disk.tree, root, d) ==> d == r.dir
    ensures r.Missing? ==> forall d :: !Match(disk.tree, root, d)
    ensures r.Multiple? ==> exists d, e :: d != e && Match(disk.tree, root, d) && Match(disk.tree, root, e)
  {
    hide *;
    ValidIs(disk);
    ghost var t := disk.tree;
    var matches: seq<Path> := [];
    if HoldsManifest(disk.tree, root) {
      matches := [root];
    }
    ghost var first := matches;
    var ok;
    ok, matches := CollectManifestDirs(disk, root, matches);
    if !ok { return Unreadable; }
    ghost var below := matches[|first|..];
    assert matches == first + below;
    AllMatches(t, root, first, below, matches);
    if |matches| == 1 {
      assert forall d :: d in matches ==> d == matches[0];
      return Manifest(matches[0]);
    }
    if |matches| == 0 { return Missing; }
    assert matches[0] in matches && matches[1] in matches;
    r := Multiple;
  }

  lemma AllMatches(t: Tree, root: Path, first: seq<Path>, below: seq<Path>, matches: seq<Path>)
    requires WellFormed(t) && matches == first + below && first == (if HoldsManifest(t, root) then [root] else [])
    requires DistinctPaths(below) && forall d :: d in below <==> MatchBelow(t, root, d)
    ensures forall d :: d in matches <==> Match(t, root, d)
    ensures forall i, j :: 0 <= i < j < |matches| ==> matches[i] != matches[j]
  {
    forall d ensures d in matches <==> Match(t, root, d) {
      RootMatch(t, root, d);
      assert d in matches <==> d in first || d in below;
    }
    assert root !in below;
    forall i, j | 0 <= i < j < |matches| ensures matches[i] != matches[j] {
      assert matches[j] in below;
      if i < |first| { assert matches[i] == root; }
    }
  }
}
