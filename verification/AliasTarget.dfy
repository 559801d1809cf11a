/** `config set section.alias.field`: which section a path means, and making its alias. */
module AliasTarget {
  import opened Text

  datatype Kind = MapKind | ListKind

  datatype MapSection = MapSection(path: string, kind: Kind, resourceKey: bool)

  function Dot(s: string): (i: nat)
    ensures i <= |s| && '.' !in s[..i] && (i < |s| ==> s[i] == '.')
  {
    if s == "" || s[0] == '.' then 0 else
    var i := Dot(s[1..]);
    assert s[..i + 1] == [s[0]] + s[1..][..i];
    i + 1
  }

  /** The part of `path` between the section and the next dot. */
  function MapKey(section: string, path: string): Option<string> {
    if !(section <= path) then None else
    var rest := path[|section|..];
    if rest == "" || rest[0] != '.' then None else
    var tail := rest[1..];
    var i := Dot(tail);
    if i == 0 || i == |tail| then None else Some(tail[..i])
  }

  lemma DotIs(a: string, b: string)
    requires '.' !in a
    ensures Dot(a + "." + b) == |a|
  {
    var s := a + "." + b;
    var i := Dot(s);
    assert s[|a|] == '.' && forall k :: 0 <= k < |a| ==> s[k] == a[k];
  }

  lemma MapKeyOf(section: string, key: string, field: string)
    requires key != "" && '.' !in key
    ensures MapKey(section, section + "." + key + "." + field) == Some(key)
  {
    var path, tail := section + "." + key + "." + field, key + "." + field;
    assert path == section + ("." + tail);
    assert path[..|section|] == section && path[|section|..] == "." + tail && path[|section|..][1..] == tail;
    DotIs(key, field);
    assert tail[..|key|] == key;
  }

  lemma MapKeyGives(section: string, path: string)
    requires MapKey(section, path).Some?
    ensures var key := MapKey(section, path).value;
            key != "" && '.' !in key && exists field: string :: path == section + "." + key + "." + field
  {
    var tail := path[|section|..][1..];
    var i := Dot(tail);
    assert path == section + "." + tail && tail == tail[..i] + "." + tail[i + 1..];
    assert path == section + "." + tail[..i] + "." + tail[i + 1..];
  }

  /** A key is found exactly in paths of the form `section.key.field`. */
  lemma MapKeyWhen(section: string, path: string, key: string)
    ensures MapKey(section, path) == Some(key) <==>
            key != "" && '.' !in key && exists field: string :: path == section + "." + key + "." + field
  {
    hide MapKey;
    if MapKey(section, path) == Some(key) { MapKeyGives(section, path); }
    if key != "" && '.' !in key {
      if field: string :| path == section + "." + key + "." + field { MapKeyOf(section, key, field); }
    }
  }

  /** A section that can make an alias for the path. */
  predicate Candidate(s: MapSection, path: string) {
    s.kind.MapKind? && !s.resourceKey && MapKey(s.path, path).Some?
  }

  /** The section with the longest path, and the alias. */
  ghost predicate IsTarget(sections: seq<MapSection>, path: string, target: Option<(string, string)>) {
    match target
    case None => forall s :: s in sections ==> !Candidate(s, path)
    case Some((section, key)) =>
      && (exists s :: s in sections && Candidate(s, path) && s.path == section)
      && MapKey(section, path) == Some(key)
      && forall s :: s in sections && Candidate(s, path) ==> |s.path| <= |section|
  }

  /** There is only one such target: of the ties that `max_by_key` breaks, all are the same. */
  lemma TargetUnique(sections: seq<MapSection>, path: string, a: Option<(string, string)>, b: Option<(string, string)>)
    requires IsTarget(sections, path, a) && IsTarget(sections, path, b)
    ensures a == b
  {
    if a.Some? && b.Some? {
      assert a.value.0 <= path && b.value.0 <= path;
      assert |a.value.0| == |b.value.0|;
      assert a.value.0 == path[..|a.value.0|] == b.value.0;
    }
  }

  method AliasTargetForPath(sections: seq<MapSection>, path: string) returns (target: Option<(string, string)>)
    ensures IsTarget(sections, path, target)
  {
    hide MapKey;
    target := None;
    for i := 0 to |sections|
      invariant IsTarget(sections[..i], path, target)
    {
      var s := sections[i];
      assert sections[..i + 1] == sections[..i] + [s];
      if Candidate(s, path) && (target.None? || |target.value.0| <= |s.path|) {
        target := Some((s.path, MapKey(s.path, path).value));
      }
    }
    assert sections[..|sections|] == sections;
  }

  // ----- Making the alias -----

  type Aliases = map<string, set<string>>

  function In(a: Aliases, section: string): set<string> {
    if section in a then a[section] else {}
  }

  function With(a: Aliases, section: string, key: string): Aliases {
    a[section := In(a, section) + {key}]
  }

  datatype Created = Made | Existed | Reserved | Refused

  datatype Ensured = Ensured(created: bool) | Failed

  /** A configuration: the aliases of its map sections, and what was marked as changed. */
  class Config {
    var aliases: Aliases
    var dirty: set<string>

    method CreateMapKeyChecked(section: string, key: string, reserved: set<(string, string)>, refused: bool)
      returns (r: Created)
      modifies this`aliases
      ensures r.Reserved? <==> (section, key) in reserved
      ensures r.Refused? <==> refused && (section, key) !in reserved
      ensures r.Existed? <==> !refused && (section, key) !in reserved && key in In(old(aliases), section)
      ensures aliases == if r.Made? then With(old(aliases), section, key) else old(aliases)
    {
      if (section, key) in reserved { return Reserved; }
      if refused { return Refused; }
      if key in In(aliases, section) { return Existed; }
      aliases := With(aliases, section, key);
      r := Made;
    }

    method DeleteMapKey(section: string, key: string, stuck: bool) returns (ok: bool)
      requires key in In(aliases, section)
      modifies this`aliases
      ensures ok == !stuck
      ensures aliases == if ok then old(aliases)[section := In(old(aliases), section) - {key}] else old(aliases)
    {
      ok := !stuck;
      if ok { aliases := aliases[section := In(aliases, section) - {key}]; }
    }

    /** Makes the alias that the path needs. An alias that the path does not resolve with is taken back
        (unless deleting it fails: then it stays, as a `phantom`); nothing else changes, and no alias that
        was there is lost. */
    method EnsureMapKeyForPropPath(sections: seq<MapSection>, path: string, resolves: Aliases -> bool,
                                   reserved: set<(string, string)>, refused: bool, stuck: bool)
      returns (r: Ensured, ghost target: Option<(string, string)>, ghost phantom: bool)
      modifies this
      ensures IsTarget(sections, path, target)
      ensures r == Ensured(true) <==>
              && target.Some? && target.value !in reserved && !refused
              && target.value.1 !in In(old(aliases), target.value.0)
              && resolves(With(old(aliases), target.value.0, target.value.1))
      ensures r.Failed? <==> target.Some? && target.value !in reserved && refused
      ensures r == Ensured(true) || phantom ==>
                target.Some? && aliases == With(old(aliases), target.value.0, target.value.1)
      ensures r != Ensured(true) && !phantom ==> forall s :: In(aliases, s) == In(old(aliases), s)
      ensures phantom <==>
              && stuck && target.Some? && target.value !in reserved && !refused
              && target.value.1 !in In(old(aliases), target.value.0)
              && !resolves(With(old(aliases), target.value.0, target.value.1))
      ensures dirty == old(dirty) + if r == Ensured(true) then {target.value.0 + "." + target.value.1} else {}
      ensures forall s :: In(old(aliases), s) <= In(aliases, s)
    {
      hide MapKey, IsTarget;
      phantom := false;
      var found := AliasTargetForPath(sections, path);
      target := found;
      if found.None? { return Ensured(false), target, false; }
      var (section, key) := found.value;
      var created := CreateMapKeyChecked(section, key, reserved, refused);
      match created
      case Reserved => return Ensured(false), target, false;
      case Refused => return Failed, target, false;
      case Existed => return Ensured(false), target, false;
      case Made =>
        if !resolves(aliases) {
          var ok := DeleteMapKey(section, key, stuck);
          return Ensured(false), target, !ok;
        }
        dirty := dirty + {section + "." + key};
        return Ensured(true), target, false;
    }
  }
}
