/** String helpers with the semantics of the JavaScript built-ins the source
    calls: `includes`, `startsWith`, `split`, `join`, `trim`, `toLowerCase`
    and `replace` with a one-character pattern. */
module Text {
  import opened Wrappers

  /** `t` occurs in `s` starting at index `i`. */
  predicate OccursAt(s: string, t: string, i: int) {
    0 <= i && i + |t| <= |s| && s[i..i + |t|] == t
  }

  predicate StartsWith(s: string, prefix: string) {
    OccursAt(s, prefix, 0)
  }

  /** The first index at or after `k` where `t` occurs in `s` (`s.indexOf(t, k)`). */
  function IndexFrom(s: string, t: string, k: nat): (r: Option<nat>)
    requires k <= |s|
    ensures r.Some? ==> k <= r.value && OccursAt(s, t, r.value)
    ensures r.Some? ==> forall j :: k <= j < r.value ==> !OccursAt(s, t, j)
    ensures r.None? ==> forall j :: k <= j ==> !OccursAt(s, t, j)
    decreases |s| - k
  {
    if k + |t| > |s| then None
    else if s[k..k + |t|] == t then Some(k)
    else IndexFrom(s, t, k + 1)
  }

  /** The first occurrence of `t` in `s` (`s.indexOf(t)`, with `None` for -1). */
  function IndexOf(s: string, t: string): (r: Option<nat>)
    ensures r.Some? ==> OccursAt(s, t, r.value) && forall j :: 0 <= j < r.value ==> !OccursAt(s, t, j)
    ensures r.None? ==> forall j :: !OccursAt(s, t, j)
  {
    IndexFrom(s, t, 0)
  }

  lemma OccursAtHead(s: string, t: string, j: int)
    requires t != [] && OccursAt(s, t, j)
    ensures 0 <= j < |s| && s[j] == t[0]
  {
    assert s[j..j + |t|][0] == s[j];
  }

  /** An occurrence whose first character appears nowhere earlier is the first one. */
  lemma IndexOfFirst(s: string, t: string, i: nat)
    requires t != [] && OccursAt(s, t, i) && t[0] !in s[..i]
    ensures IndexOf(s, t) == Some(i)
  {
    forall j | 0 <= j < i && OccursAt(s, t, j) ensures false {
      OccursAtHead(s, t, j);
    }
  }

  /** A string without the first character of `t` does not contain `t`. */
  lemma IndexOfNone(s: string, t: string)
    requires t != [] && t[0] !in s
    ensures IndexOf(s, t) == None
  {
    forall j | OccursAt(s, t, j) ensures false {
      OccursAtHead(s, t, j);
    }
  }

  /** A string with exactly one `c` splits at `c` into the two sides. */
  lemma SplitAtOnly(a: string, b: string, c: char)
    requires c !in a && c !in b
    ensures SplitOn(a + [c] + b, [c]) == [a, b]
  {
    var s := a + [c] + b;
    assert s[..|a|] == a && s[|a|..|a| + 1] == [c] && s[|a| + 1..] == b;
    IndexOfFirst(s, [c], |a|);
    IndexOfNone(b, [c]);
  }

  /** `s.includes(t)`. */
  function Contains(s: string, t: string): (r: bool)
    ensures r <==> exists i :: OccursAt(s, t, i)
  {
    IndexOf(s, t).Some?
  }

  /** `parts.join(sep)`, for strings and for any other kind of sequence. */
  function Join<T>(parts: seq<seq<T>>, sep: seq<T>): seq<T> {
    if |parts| == 0 then []
    else if |parts| == 1 then parts[0]
    else parts[0] + sep + Join(parts[1..], sep)
  }

  /** `t` appears in `s` as the contiguous run starting at `k`. */
  predicate SliceAt<T(==)>(s: seq<T>, t: seq<T>, k: int) {
    0 <= k && k + |t| <= |s| && s[k..k + |t|] == t
  }

  /** Where part `i` starts in the joined sequence: the parts before it, each
      followed by the separator. */
  function JoinOffset<T>(parts: seq<seq<T>>, sep: seq<T>, i: nat): nat
    requires i < |parts|
  {
    if i == 0 then 0 else |parts[0]| + |sep| + JoinOffset(parts[1..], sep, i - 1)
  }

  /** Every part appears, in one piece, in the joined sequence, at its offset. */
  lemma {:induction false} JoinKeepsParts<T>(parts: seq<seq<T>>, sep: seq<T>, i: nat)
    requires i < |parts|
    ensures SliceAt(Join(parts, sep), parts[i], JoinOffset(parts, sep, i))
    decreases |parts|
  {
    if |parts| > 1 {
      var rest := Join(parts[1..], sep);
      var pre := parts[0] + sep;
      assert Join(parts, sep) == pre + rest;
      if i == 0 {
        assert (pre + rest)[..|parts[0]|] == parts[0];
      } else {
        JoinKeepsParts(parts[1..], sep, i - 1);
        var k, k' := JoinOffset(parts, sep, i), JoinOffset(parts[1..], sep, i - 1);
        assert parts[1..][i - 1] == parts[i];
        assert (pre + rest)[k..k + |parts[i]|] == rest[k'..k' + |parts[i]|];
      }
    }
  }

  /** Every part appears in the joined sequence, each at its own offset. */
  lemma JoinHoldsEveryPart<T>(parts: seq<seq<T>>, sep: seq<T>)
    ensures forall i :: 0 <= i < |parts| ==> SliceAt(Join(parts, sep), parts[i], JoinOffset(parts, sep, i))
  {
    forall i | 0 <= i < |parts| ensures SliceAt(Join(parts, sep), parts[i], JoinOffset(parts, sep, i)) {
      JoinKeepsParts(parts, sep, i);
    }
  }

  /** `s.split(sep)` for a non-empty separator: the pieces between successive
      occurrences of `sep`, scanning left to right. */
  function SplitOn(s: string, sep: string): (parts: seq<string>)
    requires sep != ""
    ensures |parts| >= 1
    ensures forall i :: 0 <= i < |parts| ==> !Contains(parts[i], sep)
    ensures Join(parts, sep) == s
    decreases |s|
  {
    match IndexOf(s, sep)
    case None => [s]
    case Some(i) =>
      var rest := SplitOn(s[i + |sep|..], sep);
      PrefixBeforeFirst(s, sep, i);
      assert s == s[..i] + sep + s[i + |sep|..] by {
        assert s[i..i + |sep|] == sep;
        ThreeSlices(s, i, i + |sep|);
      }
      [s[..i]] + rest
  }

  lemma ThreeSlices<T>(s: seq<T>, i: int, j: int)
    requires 0 <= i <= j <= |s|
    ensures s == s[..i] + s[i..j] + s[j..]
  {
    assert s[..j] == s[..i] + s[i..j];
    assert s == s[..j] + s[j..];
  }

  /** Nothing before the first occurrence of `sep` contains `sep`. */
  lemma PrefixBeforeFirst(s: string, sep: string, i: nat)
    requires sep != ""
    requires OccursAt(s, sep, i)
    requires forall j :: 0 <= j < i ==> !OccursAt(s, sep, j)
    ensures !Contains(s[..i], sep)
  {
    forall j | OccursAt(s[..i], sep, j)
      ensures false
    {
      assert s[..i][j..j + |sep|] == s[j..j + |sep|];
      assert OccursAt(s, sep, j);
    }
  }

  /** The part of `s` before the first occurrence of `sep` (`s.split(sep)[0]`). */
  function Before(s: string, sep: string): (r: string)
    requires sep != ""
    ensures r == SplitOn(s, sep)[0]
    ensures StartsWith(s, r) && !Contains(r, sep)
    ensures Contains(s, sep) <==> |r| < |s|
  {
    match IndexOf(s, sep)
    case None => s
    case Some(i) => s[..i]
  }

  // ----- case mapping -----

  predicate IsAsciiUpper(c: char) { 'A' <= c <= 'Z' }

  function LowerChar(c: char): (d: char)
    ensures !IsAsciiUpper(d)
    ensures !IsAsciiUpper(c) ==> d == c
  {
    if IsAsciiUpper(c) then (c as int - 'A' as int + 'a' as int) as char else c
  }

  /** `s.toLowerCase()` on the ASCII letters. */
  function Lower(s: string): (r: string)
    ensures |r| == |s|
    ensures forall i :: 0 <= i < |s| ==> r[i] == LowerChar(s[i])
  {
    if s == [] then [] else [LowerChar(s[0])] + Lower(s[1..])
  }

  lemma {:induction false} LowerIdempotent(s: string)
    ensures Lower(Lower(s)) == Lower(s)
  {
    var l := Lower(s);
    assert |Lower(l)| == |l|;
    forall i | 0 <= i < |l| ensures Lower(l)[i] == l[i] {
      assert l[i] == LowerChar(s[i]);
    }
  }

  // ----- trimming -----

  /** The ECMAScript WhiteSpace and LineTerminator code points, which `trim` removes. */
  predicate IsSpace(c: char) {
    c == '\t' || c == '\U{000B}' || c == '\U{000C}' || c == ' ' || c == '\U{00A0}' || c == '\U{FEFF}'
    || c == '\U{1680}' || ('\U{2000}' <= c <= '\U{200A}') || c == '\U{202F}' || c == '\U{205F}'
    || c == '\U{3000}' || c == '\n' || c == '\r' || c == '\U{2028}' || c == '\U{2029}'
  }

  function TrimStartFrom(s: string, i: nat): (r: nat)
    requires i <= |s|
    ensures i <= r <= |s|
    ensures forall k :: i <= k < r ==> IsSpace(s[k])
    ensures r < |s| ==> !IsSpace(s[r])
    decreases |s| - i
  {
    if i < |s| && IsSpace(s[i]) then TrimStartFrom(s, i + 1) else i
  }

  function TrimEndFrom(s: string, lo: nat, j: nat): (r: nat)
    requires lo <= j <= |s|
    ensures lo <= r <= j
    ensures forall k :: r <= k < j ==> IsSpace(s[k])
    ensures r > lo ==> !IsSpace(s[r - 1])
    decreases j
  {
    if j > lo && IsSpace(s[j - 1]) then TrimEndFrom(s, lo, j - 1) else j
  }

  /** `s.trim()`: the slice of `s` left after removing leading and trailing white space. */
  function Trim(s: string): (r: string)
    ensures exists i, j ::
              && 0 <= i <= j <= |s| && r == s[i..j]
              && (forall k :: 0 <= k < i ==> IsSpace(s[k]))
              && (forall k :: j <= k < |s| ==> IsSpace(s[k]))
    ensures r != [] ==> !IsSpace(r[0]) && !IsSpace(r[|r| - 1])
  {
    var i := TrimStartFrom(s, 0);
    var j := TrimEndFrom(s, i, |s|);
    assert 0 <= i <= j <= |s| && (forall k :: 0 <= k < i ==> IsSpace(s[k]))
      && (forall k :: j <= k < |s| ==> IsSpace(s[k]));
    s[i..j]
  }

  /** A string that neither starts nor ends with white space is its own trim. */
  lemma TrimUnchanged(s: string)
    requires s != [] && !IsSpace(s[0]) && !IsSpace(s[|s| - 1])
    ensures Trim(s) == s
  {
  }

  // ----- replace -----

  /** `s.replace(from, to)` with one-character strings: only the FIRST
      occurrence of `from` is replaced. */
  function ReplaceFirst(s: string, from: char, to: char): (r: string)
    ensures |r| == |s|
    ensures from !in s ==> r == s
    ensures from in s ==> exists k ::
              && 0 <= k < |s| && s[k] == from
              && (forall j :: 0 <= j < k ==> s[j] != from)
              && r == s[k := to]
  {
    if s == [] then s
    else if s[0] == from then [to] + s[1..]
    else
      var rest := ReplaceFirst(s[1..], from, to);
      var r := [s[0]] + rest;
      assert from in s ==> from in s[1..];
      if from in s then
        var k :| 0 <= k < |s[1..]| && s[1..][k] == from
          && (forall j :: 0 <= j < k ==> s[1..][j] != from) && rest == s[1..][k := to];
        assert r == s[k + 1 := to];
        r
      else r
  }
}
