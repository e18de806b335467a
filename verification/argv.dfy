/**
 * The argument templates of the command runners are Python lists whose
 * entries are strings or `None`; `[arg for arg in command if arg]` keeps the
 * truthy ones. This module models that filter once for every builder.
 */
module Argv {
  import opened Wrappers

  /** One template slot: a string, or `None`. */
  type Entry = Option<string>

  /** Python truthiness of a slot: `None` and `""` are falsy. */
  predicate Truthy(e: Entry) {
    e.Some? && e.value != ""
  }

  /** `[arg for arg in command if arg]`. */
  function DropFalsy(t: seq<Entry>): (r: seq<string>)
    ensures |r| <= |t|
    ensures forall i :: 0 <= i < |r| ==> r[i] != ""
  {
    if t == [] then []
    else (if Truthy(t[0]) then [t[0].value] else []) + DropFalsy(t[1..])
  }

  /** What one slot contributes to the filtered list. */
  function Kept(e: Entry): (r: seq<string>)
    ensures Truthy(e) ==> r == [e.value]
    ensures !Truthy(e) ==> r == []
  {
    DropFalsy([e])
  }

  /** One step of the filter: the head slot's contribution, then the rest. */
  lemma DropFalsyUnfold(t: seq<Entry>)
    requires |t| >= 1
    ensures DropFalsy(t) == Kept(t[0]) + DropFalsy(t[1..])
  {
  }

  /** Appending one slot appends its contribution. */
  lemma DropFalsySnoc(t: seq<Entry>, e: Entry)
    ensures DropFalsy(t + [e]) == DropFalsy(t) + Kept(e)
  {
    DropFalsyAppend(t, [e]);
  }

  /** Appending a flag and its value slot appends the flag, then whatever the value contributes. */
  lemma DropFalsyFlagValue(t: seq<Entry>, flag: string, v: Entry)
    requires flag != ""
    ensures DropFalsy(t + [Lit(flag)] + [v]) == DropFalsy(t) + [flag] + Kept(v)
  {
    DropFalsySnoc(t, Lit(flag));
    DropFalsySnoc(t + [Lit(flag)], v);
  }

  /** The filter on a flag/value pair of slots. */
  lemma DropFalsyPair(a: Entry, b: Entry)
    ensures DropFalsy([a, b]) == Kept(a) + Kept(b)
  {
    DropFalsyUnfold([a, b]);
    assert [a, b][1..] == [b];
  }

  /** A slot holding a literal string. */
  function Lit(s: string): Entry {
    Some(s)
  }

  /** Number of slots holding exactly `s`. */
  function Occurrences(t: seq<Entry>, s: string): nat {
    if t == [] then 0 else (if t[0] == Some(s) then 1 else 0) + Occurrences(t[1..], s)
  }

  /** The filter distributes over concatenation: it only deletes, so surviving slots keep their relative order. */
  lemma {:induction false} DropFalsyAppend(a: seq<Entry>, b: seq<Entry>)
    ensures DropFalsy(a + b) == DropFalsy(a) + DropFalsy(b)
    decreases |a|
  {
    if a == [] {
      assert a + b == b;
    } else {
      assert (a + b)[0] == a[0];
      assert (a + b)[1..] == a[1..] + b;
      DropFalsyAppend(a[1..], b);
    }
  }

  /** The filter keeps every non-empty string with its multiplicity and nothing else. */
  lemma {:induction false} DropFalsyCounts(t: seq<Entry>, s: string)
    ensures s != "" ==> multiset(DropFalsy(t))[s] == Occurrences(t, s)
    ensures multiset(DropFalsy(t))[""] == 0
    decreases |t|
  {
    if t != [] {
      DropFalsyCounts(t[1..], s);
      var head := if Truthy(t[0]) then [t[0].value] else [];
      assert DropFalsy(t) == head + DropFalsy(t[1..]);
      assert multiset(DropFalsy(t)) == multiset(head) + multiset(DropFalsy(t[1..]));
    }
  }

  /** A template of literal, non-empty strings passes through unchanged. */
  lemma {:induction false} DropFalsyLiterals(ws: seq<string>)
    requires forall i :: 0 <= i < |ws| ==> ws[i] != ""
    ensures DropFalsy(seq(|ws|, i requires 0 <= i < |ws| => Lit(ws[i]))) == ws
    decreases |ws|
  {
    var t := seq(|ws|, i requires 0 <= i < |ws| => Lit(ws[i]));
    if ws != [] {
      DropFalsyLiterals(ws[1..]);
      assert t[1..] == seq(|ws[1..]|, i requires 0 <= i < |ws[1..]| => Lit(ws[1..][i]));
      assert ws == [ws[0]] + ws[1..];
    }
  }
}
