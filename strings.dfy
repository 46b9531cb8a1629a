/** The few Python `str` operations the handlers use, over Dafny strings
    (sequences of Unicode scalar values). */
module Strings {
  import opened Outcomes

  predicate StartsWith(s: string, p: string) {
    |p| <= |s| && s[..|p|] == p
  }

  predicate EndsWith(s: string, p: string) {
    |p| <= |s| && s[|s| - |p|..] == p
  }

  lemma StartsWithConcat(a: string, b: string)
    ensures StartsWith(a + b, a)
  {
    assert (a + b)[..|a|] == a;
  }

  lemma EndsWithConcat(a: string, b: string)
    ensures EndsWith(a + b, b)
  {
    assert (a + b)[|a|..] == b;
  }

  /** Text appended after a prefix keeps it a prefix. */
  lemma StartsWithAppend(s: string, p: string, t: string)
    requires StartsWith(s, p)
    ensures StartsWith(s + t, p)
  {
    assert (s + t)[..|p|] == s[..|p|];
  }

  /** A common head keeps a prefix a prefix. */
  lemma StartsWithExtend(a: string, b: string, p: string)
    requires StartsWith(b, p)
    ensures StartsWith(a + b, a + p)
  {
    assert b == p + b[|p|..];
    assert a + b == (a + p) + b[|p|..];
    StartsWithConcat(a + p, b[|p|..]);
  }

  /** `p` occurs in `s` starting at index `i`. */
  predicate OccursAt(s: string, p: string, i: nat) {
    i + |p| <= |s| && s[i..i + |p|] == p
  }

  /** The leftmost occurrence of `p` in `s` at or after `from`, as `str.find` computes it. */
  function Find(s: string, p: string, from: nat): (r: Option<nat>)
    ensures r.Some? ==> from <= r.value && OccursAt(s, p, r.value)
    ensures r.Some? ==> forall j: nat :: from <= j < r.value ==> !OccursAt(s, p, j)
    ensures r.None? ==> forall j: nat :: from <= j ==> !OccursAt(s, p, j)
    decreases |s| - from
  {
    if from + |p| > |s| then None
    else if OccursAt(s, p, from) then Some(from)
    else Find(s, p, from + 1)
  }

  /** Python's `p in s` on strings. */
  function Contains(s: string, p: string): (r: bool)
    ensures r <==> exists i: nat :: OccursAt(s, p, i)
  {
    var f := Find(s, p, 0);
    if f.Some? then assert OccursAt(s, p, f.value); true else false
  }

  /** The characters `str.isspace` accepts, which `str.strip()` removes. */
  predicate IsSpace(c: char) {
    var n := c as int;
    (9 <= n <= 13) || (28 <= n <= 32) || n == 0x85 || n == 0xA0 || n == 0x1680
    || (0x2000 <= n <= 0x200A) || n == 0x2028 || n == 0x2029 || n == 0x202F
    || n == 0x205F || n == 0x3000
  }

  predicate AllSpace(s: string) {
    forall i :: 0 <= i < |s| ==> IsSpace(s[i])
  }

  /** `str.lstrip()`: drops the leading whitespace only. */
  function StripLeft(s: string): (r: string)
    ensures |r| <= |s| && r == s[|s| - |r|..]
    ensures AllSpace(s[..|s| - |r|])
    ensures r != [] ==> !IsSpace(r[0])
  {
    if s != [] && IsSpace(s[0]) then
      var t := StripLeft(s[1..]);
      assert s[1..][..|s| - 1 - |t|] == s[1..|s| - |t|];
      t
    else s
  }

  /** `str.rstrip()`: drops the trailing whitespace only. */
  function StripRight(s: string): (r: string)
    ensures |r| <= |s| && r == s[..|r|]
    ensures AllSpace(s[|r|..])
    ensures r != [] ==> !IsSpace(r[|r| - 1])
  {
    if s != [] && IsSpace(s[|s| - 1]) then
      var t := StripRight(s[..|s| - 1]);
      assert s[..|s| - 1][|t|..] + [s[|s| - 1]] == s[|t|..];
      t
    else s
  }

  /** `r` is `s[a..b]`, and everything outside that slice is whitespace. */
  predicate TrimmedAt(s: string, r: string, a: nat, b: nat) {
    a <= b <= |s| && r == s[a..b] && AllSpace(s[..a]) && AllSpace(s[b..])
  }

  /** Stripping the left and then the right end leaves a slice with only
      whitespace around it. */
  lemma TrimmedPieces(s: string, t: string, r: string)
    requires |t| <= |s| && t == s[|s| - |t|..] && AllSpace(s[..|s| - |t|])
    requires |r| <= |t| && r == t[..|r|] && AllSpace(t[|r|..])
    ensures TrimmedAt(s, r, |s| - |t|, |s| - |t| + |r|)
  {
    var a, b := |s| - |t|, |s| - |t| + |r|;
    assert r == s[a..b];
    assert s[b..] == t[|r|..];
  }

  /** `str.strip()`: the text between the leading and the trailing whitespace. */
  function Strip(s: string): (r: string)
    ensures |r| <= |s|
    ensures exists a: nat, b: nat :: TrimmedAt(s, r, a, b)
    ensures r != [] ==> !IsSpace(r[0]) && !IsSpace(r[|r| - 1])
  {
    var t := StripLeft(s);
    var r := StripRight(t);
    TrimmedPieces(s, t, r);
    r
  }

  /** `str.lstrip(c)` with a one-character argument. */
  function LStripChar(s: string, c: char): (r: string)
    ensures |r| <= |s| && r == s[|s| - |r|..]
    ensures forall i :: 0 <= i < |s| - |r| ==> s[i] == c
    ensures r != [] ==> r[0] != c
  {
    if s != [] && s[0] == c then LStripChar(s[1..], c) else s
  }

  function UpperChar(c: char): char {
    if 'a' <= c <= 'z' then (c as int - 32) as char else c
  }

  /** `str.upper()` on ASCII letters; other characters are kept. */
  function Upper(s: string): (r: string)
    ensures |r| == |s|
    ensures forall i :: 0 <= i < |s| ==> r[i] == UpperChar(s[i])
  {
    if s == [] then [] else [UpperChar(s[0])] + Upper(s[1..])
  }

  /** `sep.join(xs)`. */
  function Join(sep: string, xs: seq<string>): string {
    if |xs| == 0 then ""
    else if |xs| == 1 then xs[0]
    else xs[0] + sep + Join(sep, xs[1..])
  }

  /** The slice `s[:n]`. */
  function Take(s: string, n: nat): (r: string)
    ensures |r| <= n && |r| <= |s|
    ensures r == s[..|r|]
    ensures |s| <= n ==> r == s
    ensures n <= |s| ==> |r| == n
  {
    if n < |s| then s[..n] else s
  }

  /** `s.replace(o, n)` for a non-empty `o`: every non-overlapping occurrence,
      scanning from the left, is replaced. */
  function ReplaceAllNonEmpty(s: string, o: string, n: string): string
    requires |o| > 0
    decreases |s|
  {
    if |s| < |o| then s
    else if OccursAt(s, o, 0) then n + ReplaceAllNonEmpty(s[|o|..], o, n)
    else [s[0]] + ReplaceAllNonEmpty(s[1..], o, n)
  }

  /** `s.replace("", n)`: `n` before every character and at the end. */
  function InterleaveEmpty(s: string, n: string): string {
    if s == [] then n else n + [s[0]] + InterleaveEmpty(s[1..], n)
  }

  /** Python's `s.replace(o, n)`. */
  function ReplaceAll(s: string, o: string, n: string): string {
    if o == [] then InterleaveEmpty(s, n) else ReplaceAllNonEmpty(s, o, n)
  }

  /** Python's `s.replace(o, n, 1)`: only the leftmost occurrence is replaced. */
  function ReplaceFirst(s: string, o: string, n: string): (r: string)
    ensures (forall i: nat :: !OccursAt(s, o, i)) ==> r == s
    ensures forall i: nat :: OccursAt(s, o, i) && (forall j: nat :: j < i ==> !OccursAt(s, o, j)) ==>
      r == s[..i] + n + s[i + |o|..]
  {
    match Find(s, o, 0)
    case None => s
    case Some(i) => s[..i] + n + s[i + |o|..]
  }

  /** Replacing the first occurrence of a text by itself leaves the string as it was. */
  lemma ReplaceFirstBySelf(s: string, o: string)
    ensures ReplaceFirst(s, o, o) == s
  {
    match Find(s, o, 0)
    case None =>
    case Some(i) =>
      assert s[..i] + o + s[i + |o|..] == s[..i] + s[i..i + |o|] + s[i + |o|..];
      assert s[..i] + s[i..i + |o|] + s[i + |o|..] == s;
  }

  /** A string that starts with a non-empty `o` has its first `|o|` characters
      replaced by `n`, so the result starts with `n`. */
  lemma ReplaceAllAtStart(s: string, o: string, n: string)
    requires |o| > 0 && StartsWith(s, o)
    ensures ReplaceAll(s, o, n) == n + ReplaceAll(s[|o|..], o, n)
    ensures StartsWith(ReplaceAll(s, o, n), n)
  {
    assert OccursAt(s, o, 0);
  }
}
