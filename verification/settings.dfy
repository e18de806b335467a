/**
 * The loaded `settings.yaml` document as a tree, and the two things the
 * configuration code does with it: read a value along a key path
 * (`cfg["a"]["b"].get("c")`) and assign at a key path
 * (`cfg["a"]["b"]["c"] = v`). Only mappings are indexed by key; indexing
 * anything else, or a missing key on the way, raises in the source.
 */
module Settings {
  import opened Wrappers

  /** A YAML value as `yaml.safe_load` returns it (timestamps and binary scalars aside). */
  datatype Node =
    | Null
    | Bool(flag: bool)
    | Int(number: int)
    | Float(numeric: real)
    | Str(text: string)
    | List(items: seq<Node>)
    | Mapping(entries: map<string, Node>)

  /** A sequence of mapping keys, outermost first. */
  type Path = seq<string>

  /** The node reached by following `p` through mappings, if every key is there. */
  function Lookup(t: Node, p: Path): Option<Node>
    decreases |p|
  {
    if p == [] then Some(t)
    else if t.Mapping? && p[0] in t.entries then Lookup(t.entries[p[0]], p[1..])
    else None
  }

  /** `dict.get` semantics one level down: a missing field reads as `None`. */
  function Field(t: Node, p: Path): Node {
    match Lookup(t, p)
    case Some(n) => n
    case None => Null
  }

  /** Following `p` ends at a mapping. */
  predicate MappingAt(t: Node, p: Path) {
    Lookup(t, p).Some? && Lookup(t, p).value.Mapping?
  }

  predicate IsPrefix(p: Path, q: Path) {
    |p| <= |q| && q[..|p|] == p
  }

  /** Neither path lies on the way to the other. */
  predicate Incomparable(p: Path, q: Path) {
    !IsPrefix(p, q) && !IsPrefix(q, p)
  }

  /** `t[p[0]]...[p[|p|-2]][p[|p|-1]] = v` does not raise: every container on the way is a mapping. */
  predicate CanSet(t: Node, p: Path)
    decreases |p|
  {
    p != [] && t.Mapping?
    && (|p| == 1 || (p[0] in t.entries && CanSet(t.entries[p[0]], p[1..])))
  }

  /** Item assignment at the end of `p`, creating or replacing the last key. */
  function SetPath(t: Node, p: Path, v: Node): (r: Node)
    requires CanSet(t, p)
    ensures r.Mapping?
    decreases |p|
  {
    if |p| == 1 then Mapping(t.entries[p[0] := v])
    else Mapping(t.entries[p[0] := SetPath(t.entries[p[0]], p[1..], v)])
  }

  // ------------------------------------------------------------------ lemmas

  /** Assignment succeeds exactly when the parent path leads to a mapping. */
  lemma {:induction false} CanSetIff(t: Node, p: Path)
    ensures CanSet(t, p) <==> p != [] && MappingAt(t, p[..|p| - 1])
    decreases |p|
  {
    if |p| > 1 && t.Mapping? && p[0] in t.entries {
      CanSetIff(t.entries[p[0]], p[1..]);
      assert p[1..][..|p[1..]| - 1] == p[..|p| - 1][1..];
    }
  }

  /** Reading below the assigned path reads inside the assigned value. */
  lemma {:induction false} SetPathBelow(t: Node, p: Path, v: Node, rest: Path)
    requires CanSet(t, p)
    ensures Lookup(SetPath(t, p, v), p + rest) == Lookup(v, rest)
    decreases |p|
  {
    var r := SetPath(t, p, v);
    assert (p + rest)[0] == p[0];
    assert (p + rest)[1..] == p[1..] + rest;
    if |p| == 1 {
      assert p[1..] + rest == rest;
    } else {
      SetPathBelow(t.entries[p[0]], p[1..], v, rest);
    }
  }

  /** The assigned value is read back at its path. */
  lemma SetPathHit(t: Node, p: Path, v: Node)
    requires CanSet(t, p)
    ensures Lookup(SetPath(t, p, v), p) == Some(v)
  {
    SetPathBelow(t, p, v, []);
    assert p + [] == p;
  }

  /** Prefixes compare head first, then tails. */
  lemma PrefixCons(p: Path, q: Path)
    requires p != [] && q != []
    ensures IsPrefix(p, q) <==> p[0] == q[0] && IsPrefix(p[1..], q[1..])
  {
    if |p| <= |q| {
      assert q[..|p|] == [q[0]] + q[1..][..|p| - 1];
      assert p == [p[0]] + p[1..];
    }
  }

  /** Paths that differ at a common position are on separate branches. */
  lemma DifferAt(p: Path, q: Path, i: nat)
    requires i < |p| && i < |q| && p[i] != q[i]
    ensures Incomparable(p, q)
  {
    if |p| <= |q| {
      assert q[..|p|][i] != p[i];
    }
    if |q| <= |p| {
      assert p[..|q|][i] != q[i];
    }
  }

  /** A path that neither leads to nor goes through the assigned one reads as before. */
  lemma {:induction false} SetPathFrame(t: Node, p: Path, v: Node, q: Path)
    requires CanSet(t, p) && Incomparable(p, q)
    ensures Lookup(SetPath(t, p, v), q) == Lookup(t, q)
    decreases |p|
  {
    PrefixCons(p, q);
    PrefixCons(q, p);
    if q[0] == p[0] && |p| > 1 {
      SetPathFrame(t.entries[p[0]], p[1..], v, q[1..]);
    }
  }

  /**
   * Every container on the way stays a mapping, with the same keys plus
   * the next key of the assigned path.
   */
  lemma {:induction false} SetPathAbove(t: Node, p: Path, v: Node, q: Path)
    requires CanSet(t, p) && IsPrefix(q, p) && |q| < |p|
    ensures MappingAt(t, q) && MappingAt(SetPath(t, p, v), q)
    ensures Lookup(SetPath(t, p, v), q).value.entries.Keys
         == Lookup(t, q).value.entries.Keys + {p[|q|]}
    decreases |q|
  {
    if q != [] {
      assert q[0] == p[0];
      assert IsPrefix(q[1..], p[1..]);
      SetPathAbove(t.entries[p[0]], p[1..], v, q[1..]);
    }
  }

  /** Writing back the value already there changes nothing. */
  lemma {:induction false} SetPathSame(t: Node, p: Path, v: Node)
    requires CanSet(t, p) && Lookup(t, p) == Some(v)
    ensures SetPath(t, p, v) == t
    decreases |p|
  {
    if |p| > 1 {
      SetPathSame(t.entries[p[0]], p[1..], v);
    }
  }

  /** A later assignment still succeeds after an earlier one at a path off its way. */
  lemma SetPathKeepsCanSet(t: Node, p: Path, v: Node, q: Path)
    requires CanSet(t, p) && CanSet(t, q) && !IsPrefix(p, q[..|q| - 1])
    ensures CanSet(SetPath(t, p, v), q)
  {
    var parent := q[..|q| - 1];
    CanSetIff(t, q);
    CanSetIff(SetPath(t, p, v), q);
    if IsPrefix(parent, p) && |parent| < |p| {
      SetPathAbove(t, p, v, parent);
    } else {
      SetPathFrame(t, p, v, parent);
    }
  }
}
