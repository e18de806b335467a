/**
 * `DotenvManager.read_env`: a line-oriented reader of `KEY=value` files.
 * A line is kept when it is non-blank after stripping and its raw first
 * character is not `#`; a kept line is stripped and split at its first `=`,
 * with no further trimming or unquoting, and later keys overwrite earlier ones.
 */
module Dotenv {
  import opened Wrappers

  /** Python's `str.isspace()`: the characters `str.strip()` removes. */
  predicate IsSpace(c: char) {
    var n := c as int;
    (9 <= n <= 13) || (28 <= n <= 32) || n == 0x85 || n == 0xA0 || n == 0x1680
    || (0x2000 <= n <= 0x200A) || n == 0x2028 || n == 0x2029 || n == 0x202F
    || n == 0x205F || n == 0x3000
  }

  /** Every character is whitespace. */
  predicate AllSpace(s: string) {
    forall i :: 0 <= i < |s| ==> IsSpace(s[i])
  }

  /** Leading whitespace removed. */
  function TrimStart(s: string): (r: string)
    ensures |r| <= |s| && r == s[|s| - |r|..]
    ensures forall i :: 0 <= i < |s| - |r| ==> IsSpace(s[i])
    ensures r != [] ==> !IsSpace(r[0])
  {
    if |s| > 0 && IsSpace(s[0]) then TrimStart(s[1..]) else s
  }

  /** Trailing whitespace removed. */
  function TrimEnd(s: string): (r: string)
    ensures |r| <= |s| && r == s[..|r|]
    ensures forall i :: |r| <= i < |s| ==> IsSpace(s[i])
    ensures r != [] ==> !IsSpace(r[|r| - 1])
  {
    if |s| > 0 && IsSpace(s[|s| - 1]) then TrimEnd(s[..|s| - 1]) else s
  }

  /** `s.strip()`: `s` without its leading and trailing whitespace. */
  function Strip(s: string): (r: string)
    ensures |r| <= |s|
    ensures r != [] ==> !IsSpace(r[0]) && !IsSpace(r[|r| - 1])
    ensures r == [] <==> AllSpace(s)
  {
    TrimEnd(TrimStart(s))
  }

  /** What `TrimStart` removes is whitespace. */
  lemma TrimStartRemovesSpace(s: string)
    ensures AllSpace(s[..|s| - |TrimStart(s)|])
  {
    var i := |s| - |TrimStart(s)|;
    forall k | 0 <= k < i
      ensures IsSpace(s[..i][k])
    {
      assert s[..i][k] == s[k];
    }
  }

  /** What `TrimEnd` removes is whitespace. */
  lemma TrimEndRemovesSpace(a: string)
    ensures AllSpace(a[|TrimEnd(a)|..])
  {
    var j := |TrimEnd(a)|;
    forall k | 0 <= k < |a| - j
      ensures IsSpace(a[j..][k])
    {
      assert a[j..][k] == a[j + k];
    }
  }

  /** What stripping removes is whitespace, from both ends only. */
  lemma StripIsSlice(s: string)
    ensures exists i, j :: 0 <= i <= j <= |s| && Strip(s) == s[i..j]
                           && AllSpace(s[..i]) && AllSpace(s[j..])
  {
    var a := TrimStart(s);
    var b := TrimEnd(a);
    var i := |s| - |a|;
    var j := i + |b|;
    TrimStartRemovesSpace(s);
    TrimEndRemovesSpace(a);
    assert a == s[i..];
    assert b == s[i..j];
    assert a[|b|..] == s[j..];
  }

  lemma StripIdempotent(s: string)
    ensures Strip(Strip(s)) == Strip(s)
  {
    var r := Strip(s);
    if r != [] {
      assert TrimStart(r) == r;
      assert TrimEnd(r) == r;
    }
  }

  /** Index of the first `c` in `s`. */
  function IndexOf(s: string, c: char): (i: nat)
    requires c in s
    ensures i < |s| && s[i] == c
    ensures forall j :: 0 <= j < i ==> s[j] != c
  {
    if s[0] == c then 0 else 1 + IndexOf(s[1..], c)
  }

  /** `key, value = s.split("=", 1)`: fails unless `s` holds an `=`. */
  function SplitAtEquals(s: string): (r: Option<(string, string)>)
    ensures r.None? <==> '=' !in s
    ensures r.Some? ==> s == r.value.0 + "=" + r.value.1 && '=' !in r.value.0
  {
    if '=' !in s then None
    else
      var i := IndexOf(s, '=');
      assert s == s[..i] + "=" + s[i + 1..];
      Some((s[..i], s[i + 1..]))
  }

  /** What one line of the file contributes. */
  datatype Line = Skipped | Pair(key: string, value: string) | NoEquals

  /** A line the reader does not skip: non-blank once stripped, and not starting with `#` before stripping. */
  predicate IsKept(line: string) {
    Strip(line) != "" && !(|line| > 0 && line[0] == '#')
  }

  function ParseLine(line: string): (r: Line)
    ensures r.Skipped? <==> !IsKept(line)
    ensures r.NoEquals? <==> IsKept(line) && '=' !in Strip(line)
    ensures r.Pair? ==> Strip(line) == r.key + "=" + r.value && '=' !in r.key
  {
    if !IsKept(line) then Skipped
    else match SplitAtEquals(Strip(line))
      case None => NoEquals
      case Some((k, v)) => Pair(k, v)
  }

  /** The `ValueError` raised by unpacking a kept line with no `=`, with that line's index. */
  datatype EnvError = NotEnoughValues(line: nat)

  /** The file's lines, each classified. */
  function ParseLines(lines: seq<string>): (r: seq<Line>)
    ensures |r| == |lines|
    ensures forall i :: 0 <= i < |lines| ==> r[i] == ParseLine(lines[i])
  {
    seq(|lines|, i requires 0 <= i < |lines| => ParseLine(lines[i]))
  }

  /** The value of the last `key=value` line for `k`: the reference reading of the file. */
  function LastValue(ls: seq<Line>, k: string): Option<string>
    decreases |ls|
  {
    if ls == [] then None
    else
      var n := |ls| - 1;
      if ls[n].Pair? && ls[n].key == k then Some(ls[n].value) else LastValue(ls[..n], k)
  }

  /** `m.get(k)`. */
  function Get(m: map<string, string>, k: string): Option<string> {
    if k in m then Some(m[k]) else None
  }

  /** No kept line lacks an `=`. */
  predicate Unpackable(ls: seq<Line>) {
    forall i :: 0 <= i < |ls| ==> !ls[i].NoEquals?
  }

  /** Entry `i` is the first kept line without an `=`. */
  predicate FirstMalformed(ls: seq<Line>, i: nat) {
    i < |ls| && ls[i].NoEquals? && Unpackable(ls[..i])
  }

  /**
   * The loop of `read_env` over classified lines: a dictionary assignment per
   * pair, so each key ends with its last value; the unpacking raises at the
   * first line without `=`.
   */
  function Collect(ls: seq<Line>): (r: Result<map<string, string>, EnvError>)
    ensures r.Ok? <==> Unpackable(ls)
    ensures r.Ok? ==> forall k :: Get(r.value, k) == LastValue(ls, k)
    ensures r.Err? ==> FirstMalformed(ls, r.error.line)
    decreases |ls|
  {
    if ls == [] then Ok(map[])
    else
      var n := |ls| - 1;
      var prev := Collect(ls[..n]);
      if prev.Err? then
        assert ls[..prev.error.line] == ls[..n][..prev.error.line];
        prev
      else if ls[n].NoEquals? then
        Err(NotEnoughValues(n))
      else
        assert ls[..n + 1] == ls;
        if ls[n].Pair? then Ok(prev.value[ls[n].key := ls[n].value]) else prev
  }

  /** `read_env` over the file's lines. */
  function ReadEnv(lines: seq<string>): (r: Result<map<string, string>, EnvError>)
    ensures r.Ok? <==> forall i :: 0 <= i < |lines| ==> !ParseLine(lines[i]).NoEquals?
    ensures r.Ok? ==> forall k :: Get(r.value, k) == LastValue(ParseLines(lines), k)
    ensures r.Err? ==> FirstMalformed(ParseLines(lines), r.error.line)
  {
    Collect(ParseLines(lines))
  }

  /** Entry `i` is a `key=value` line whose key is `k`. */
  predicate KeyAt(ls: seq<Line>, i: int, k: string) {
    0 <= i < |ls| && ls[i].Pair? && ls[i].key == k
  }

  /** Entry `i` is the last line with key `k`, and it carries `v`. */
  predicate LastValueAt(ls: seq<Line>, i: int, k: string, v: string) {
    KeyAt(ls, i, k) && ls[i].value == v
    && forall j :: i < j < |ls| ==> !KeyAt(ls, j, k)
  }

  /**
   * The reference reading agrees with the plain description: a key is read
   * exactly when some line carries it, and its value is that of the last such line.
   */
  lemma {:induction false} LastValueIsLastLine(ls: seq<Line>, k: string)
    ensures LastValue(ls, k).None? <==> forall i :: 0 <= i < |ls| ==> !KeyAt(ls, i, k)
    ensures LastValue(ls, k).Some? ==> exists i :: LastValueAt(ls, i, k, LastValue(ls, k).value)
    decreases |ls|
  {
    if ls != [] {
      var n := |ls| - 1;
      var pre := ls[..n];
      LastValueIsLastLine(pre, k);
      assert forall i :: 0 <= i < n ==> (KeyAt(pre, i, k) <==> KeyAt(ls, i, k));
      if KeyAt(ls, n, k) {
        assert LastValueAt(ls, n, k, LastValue(ls, k).value);
      } else if LastValue(pre, k).Some? {
        var i :| LastValueAt(pre, i, k, LastValue(pre, k).value);
        assert LastValueAt(ls, i, k, LastValue(ls, k).value);
      }
    }
  }

  lemma {:induction false} TrimStartPadded(pad: string, s: string)
    requires AllSpace(pad)
    requires s != [] && !IsSpace(s[0])
    ensures TrimStart(pad + s) == s
    decreases |pad|
  {
    if pad == [] {
      assert pad + s == s;
    } else {
      assert (pad + s)[1..] == pad[1..] + s;
      TrimStartPadded(pad[1..], s);
    }
  }

  lemma {:induction false} TrimEndPadded(s: string, pad: string)
    requires AllSpace(pad)
    requires s != [] && !IsSpace(s[|s| - 1])
    ensures TrimEnd(s + pad) == s
    decreases |pad|
  {
    if pad == [] {
      assert s + pad == s;
    } else {
      var shorter := pad[..|pad| - 1];
      assert (s + pad)[..|s + pad| - 1] == s + shorter;
      TrimEndPadded(s, shorter);
    }
  }

  /** Stripping removes exactly the whitespace padding around a text that is not itself padded. */
  lemma StripPadded(before: string, s: string, after: string)
    requires AllSpace(before) && AllSpace(after)
    requires s != [] && !IsSpace(s[0]) && !IsSpace(s[|s| - 1])
    ensures Strip(before + s + after) == s
  {
    assert before + s + after == before + (s + after);
    TrimStartPadded(before, s + after);
    TrimEndPadded(s, after);
  }

  /** A text with no whitespace at either end strips to itself. */
  lemma StripUnpadded(s: string)
    requires s != [] && !IsSpace(s[0]) && !IsSpace(s[|s| - 1])
    ensures Strip(s) == s
  {
    assert TrimStart(s) == s;
    assert TrimEnd(s) == s;
  }

  /** Splitting is the inverse of joining at an `=`-free key. */
  lemma SplitAtEqualsJoin(k: string, v: string)
    requires '=' !in k
    ensures SplitAtEquals(k + "=" + v) == Some((k, v))
  {
    var s := k + "=" + v;
    var r := SplitAtEquals(s);
    assert s[|k|] == '=';
    var i := IndexOf(s, '=');
    assert i == |k|;
    assert s[..i] == k;
    assert s[i + 1..] == v;
  }

  /**
   * A kept line whose stripped text is `k=v`, with no `=` in `k`, yields
   * exactly `k` and `v`: no trimming of either side, no unquoting.
   */
  lemma ParseLineVerbatim(line: string, k: string, v: string)
    requires IsKept(line)
    requires Strip(line) == k + "=" + v && '=' !in k
    ensures ParseLine(line) == Pair(k, v)
  {
    SplitAtEqualsJoin(k, v);
  }

  // ------------------------------------------------------------- edge cases

  /** Spaces around `=` stay in the key and the value; only the line's own ends are stripped. */
  lemma SpacesAroundEqualsKept(k: string, v: string)
    requires k != "" && !IsSpace(k[0]) && k[0] != '#' && '=' !in k
    requires v != "" && !IsSpace(v[|v| - 1])
    ensures ParseLine(k + " = " + v + "\n") == Pair(k + " ", " " + v)
  {
    var body := k + " = " + v;
    SpacedEquals(k, v);
    NewlineStripped(body);
    ParseLineVerbatim(body + "\n", k + " ", " " + v);
  }

  /** `k = v` read as the key `k ` joined at `=` to the value ` v`, with the ends of `k` and `v`. */
  lemma SpacedEquals(k: string, v: string)
    requires k != "" && v != "" && '=' !in k
    ensures k + " = " + v == (k + " ") + "=" + (" " + v)
    ensures (k + " = " + v)[0] == k[0]
    ensures (k + " = " + v)[|k + " = " + v| - 1] == v[|v| - 1]
    ensures '=' !in k + " "
  {
    var l := k + " = " + v;
    var r := (k + " ") + "=" + (" " + v);
    assert |l| == |r|;
    forall i | 0 <= i < |l|
      ensures l[i] == r[i]
    {
    }
  }

  /** A trailing newline is stripped, and the line keeps the text's first character. */
  lemma NewlineStripped(body: string)
    requires body != [] && !IsSpace(body[0]) && !IsSpace(body[|body| - 1])
    ensures Strip(body + "\n") == body
    ensures (body + "\n")[0] == body[0]
  {
    StripPadded("", body, "\n");
    assert "" + body + "\n" == body + "\n";
  }

  /** Quotes around a value are part of the value. */
  lemma QuotesKept(k: string, x: string)
    requires k != "" && !IsSpace(k[0]) && k[0] != '#' && '=' !in k
    ensures ParseLine(k + "=" + ("'" + x + "'")) == Pair(k, "'" + x + "'")
  {
    var v := "'" + x + "'";
    var line := k + "=" + v;
    assert line[0] == k[0];
    assert line[|line| - 1] == v[|v| - 1] == '\'';
    StripUnpadded(line);
    ParseLineVerbatim(line, k, v);
  }

  /** Only the first `=` splits: the value keeps every later one. */
  lemma SplitsAtFirstEquals(line: string, k: string, v: string)
    requires IsKept(line) && Strip(line) == k + "=" + v && '=' !in k
    ensures ParseLine(line).value == v
  {
    ParseLineVerbatim(line, k, v);
  }

  /** A `#` in the first raw column makes a comment, whatever follows. */
  lemma CommentSkipped(rest: string)
    ensures ParseLine("#" + rest) == Skipped
  {
  }

  /**
   * `#` is looked for before stripping: after leading whitespace it is an
   * ordinary key character, and without an `=` the line cannot be unpacked.
   */
  lemma IndentedCommentNoEquals(pad: string, rest: string)
    requires pad != "" && AllSpace(pad)
    requires '=' !in rest && (rest == "" || !IsSpace(rest[|rest| - 1]))
    ensures ParseLine(pad + ("#" + rest)) == NoEquals
  {
    var body := "#" + rest;
    assert body[|body| - 1] == if rest == "" then '#' else rest[|rest| - 1];
    IndentedKept(pad, body);
    HashKeyHasNoEquals(rest);
  }

  /** Behind leading whitespace, a line is kept whatever its first visible character is. */
  lemma IndentedKept(pad: string, body: string)
    requires pad != "" && AllSpace(pad)
    requires body != [] && !IsSpace(body[0]) && !IsSpace(body[|body| - 1])
    ensures IsKept(pad + body) && Strip(pad + body) == body
  {
    TrimStartPadded(pad, body);
    assert TrimEnd(body) == body;
    assert (pad + body)[0] == pad[0] && IsSpace(pad[0]);
  }

  lemma HashKeyHasNoEquals(k: string)
    requires '=' !in k
    ensures '=' !in ['#'] + k
  {
    assert multiset(['#'] + k) == multiset{'#'} + multiset(k);
  }

  /** An indented `#k=v` line is read as the entry with key `#k`. */
  lemma IndentedCommentIsEntry(pad: string, k: string, v: string)
    requires pad != "" && AllSpace(pad)
    requires '=' !in k
    requires v != "" && !IsSpace(v[|v| - 1])
    ensures ParseLine(pad + (['#'] + k + "=" + v)) == Pair(['#'] + k, v)
  {
    var key := ['#'] + k;
    var body := key + "=" + v;
    assert body[0] == '#';
    assert body[|body| - 1] == v[|v| - 1];
    IndentedKept(pad, body);
    HashKeyHasNoEquals(k);
    ParseLineVerbatim(pad + body, key, v);
  }

  /** A kept line without `=` anywhere fails the read, at the first such line. */
  lemma FailsAtFirstMalformed(ls: seq<Line>, j: nat)
    requires j < |ls| && ls[j].NoEquals?
    requires forall i :: 0 <= i < j ==> !ls[i].NoEquals?
    ensures Collect(ls) == Err(NotEnoughValues(j))
  {
  }

  /** The keys read are exactly the keys of the kept `key=value` lines. */
  lemma ReadEnvKeys(lines: seq<string>, k: string)
    ensures ReadEnv(lines).Ok? ==>
              (k in ReadEnv(lines).value <==> exists i :: KeyAt(ParseLines(lines), i, k))
  {
    if ReadEnv(lines).Ok? {
      LastValueIsLastLine(ParseLines(lines), k);
      assert Get(ReadEnv(lines).value, k).Some? <==> k in ReadEnv(lines).value;
    }
  }
}
