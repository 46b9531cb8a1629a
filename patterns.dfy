/** The handful of regular expressions the handlers search with, each written
    out as the leftmost-match search Python's `re.search` performs for that
    particular pattern shape. */
module Patterns {
  import opened Outcomes
  import opened Strings

  /** `\w` (and `[\w_]`, the same set) and `[\w-]`, over ASCII. */
  datatype CharClass = Word | WordOrHyphen

  predicate IsWordChar(c: char) {
    ('a' <= c <= 'z') || ('A' <= c <= 'Z') || ('0' <= c <= '9') || c == '_'
  }

  predicate InClass(c: char, cls: CharClass) {
    IsWordChar(c) || (cls == WordOrHyphen && c == '-')
  }

  predicate NoNewline(t: string) {
    forall k :: 0 <= k < |t| ==> t[k] != '\n'
  }

  /** Length of the longest run of `cls` characters that starts at `i`
      (what a greedy `+` consumes). */
  function RunLength(s: string, i: nat, cls: CharClass): (n: nat)
    requires i <= |s|
    ensures i + n <= |s|
    ensures forall k :: i <= k < i + n ==> InClass(s[k], cls)
    ensures i + n < |s| ==> !InClass(s[i + n], cls)
    decreases |s| - i
  {
    if i < |s| && InClass(s[i], cls) then 1 + RunLength(s, i + 1, cls) else 0
  }

  // ---------------------------------------------------------------------
  // `lit(cls+)`: a literal followed by a greedy non-empty run of a class.
  // ---------------------------------------------------------------------

  /** `lit(cls+)` can start matching at index `i`. */
  predicate RunMatchAt(s: string, lit: string, cls: CharClass, i: nat) {
    OccursAt(s, lit, i) && i + |lit| < |s| && InClass(s[i + |lit|], cls)
  }

  /** `i` is where `re.search` finds `lit(cls+)`: the leftmost start that matches. */
  ghost predicate FirstRunMatch(s: string, lit: string, cls: CharClass, i: nat) {
    RunMatchAt(s, lit, cls, i) && forall j: nat :: j < i ==> !RunMatchAt(s, lit, cls, j)
  }

  /** The text group 1 captures when the match starts at `i`. */
  function RunCapture(s: string, lit: string, cls: CharClass, i: nat): string
    requires OccursAt(s, lit, i)
  {
    s[i + |lit|..i + |lit| + RunLength(s, i + |lit|, cls)]
  }

  function SearchRunFrom(s: string, lit: string, cls: CharClass, from: nat): (r: Option<nat>)
    ensures r.Some? ==> from <= r.value && RunMatchAt(s, lit, cls, r.value)
    ensures r.Some? ==> forall j: nat :: from <= j < r.value ==> !RunMatchAt(s, lit, cls, j)
    ensures r.None? ==> forall j: nat :: from <= j ==> !RunMatchAt(s, lit, cls, j)
    decreases |s| - from
  {
    if from + |lit| >= |s| then None
    else if RunMatchAt(s, lit, cls, from) then Some(from)
    else SearchRunFrom(s, lit, cls, from + 1)
  }

  /** `re.search(lit + r'(cls+)', s).group(1)`, or `None` when there is no match. */
  function SearchRun(s: string, lit: string, cls: CharClass): (r: Option<string>)
    ensures r.None? <==> forall i: nat :: !RunMatchAt(s, lit, cls, i)
    ensures r.Some? ==> exists i: nat :: FirstRunMatch(s, lit, cls, i) && r.value == RunCapture(s, lit, cls, i)
  {
    match SearchRunFrom(s, lit, cls, 0)
    case None => None
    case Some(i) =>
      assert FirstRunMatch(s, lit, cls, i);
      Some(RunCapture(s, lit, cls, i))
  }

  /** `w` is a non-empty run of `cls` characters that follows `lit` at `i` in
      `s` and cannot be extended to the right. */
  predicate MaximalRun(s: string, lit: string, cls: CharClass, i: nat, w: string) {
    && |w| > 0
    && (forall k :: 0 <= k < |w| ==> InClass(w[k], cls))
    && OccursAt(s, lit + w, i)
    && (i + |lit| + |w| == |s| || !InClass(s[i + |lit| + |w|], cls))
  }

  /** What `lit(cls+)` captures is a non-empty run of `cls` characters that
      cannot be extended to the right. */
  lemma RunCaptureMaximal(s: string, lit: string, cls: CharClass, i: nat)
    requires RunMatchAt(s, lit, cls, i)
    ensures MaximalRun(s, lit, cls, i, RunCapture(s, lit, cls, i))
  {
    var w := RunCapture(s, lit, cls, i);
    var n := RunLength(s, i + |lit|, cls);
    assert |w| == n;
    assert InClass(s[i + |lit|], cls);
    assert n > 0;
    assert s[i..i + |lit| + n] == s[i..i + |lit|] + w;
  }

  // ---------------------------------------------------------------------
  // `lit(.+?)term`: a literal, then the shortest non-empty newline-free text
  // that is followed by `term`.
  // ---------------------------------------------------------------------

  /** `lit(.+?)term` matches with `lit` at `i` and `term` at `q`. */
  predicate LazyMatch(s: string, lit: string, term: string, i: nat, q: nat) {
    OccursAt(s, lit, i) && i + |lit| < q && OccursAt(s, term, q) && NoNewline(s[i + |lit|..q])
  }

  ghost predicate NoLazyMatchAt(s: string, lit: string, term: string, i: nat) {
    forall q: nat :: !LazyMatch(s, lit, term, i, q)
  }

  /** The match `re.search` reports: the leftmost start, then the shortest group. */
  ghost predicate FirstLazyMatch(s: string, lit: string, term: string, i: nat, q: nat) {
    && LazyMatch(s, lit, term, i, q)
    && (forall j: nat :: j < i ==> NoLazyMatchAt(s, lit, term, j))
    && (forall q': nat :: q' < q ==> !LazyMatch(s, lit, term, i, q'))
  }

  /** The least `q' >= q` at which `term` occurs with no newline in `s[start..q']`. */
  function LazyEnd(s: string, start: nat, term: string, q: nat): (r: Option<nat>)
    requires start < q <= |s| && NoNewline(s[start..q])
    ensures r.Some? ==> q <= r.value <= |s| && OccursAt(s, term, r.value) && NoNewline(s[start..r.value])
    ensures r.Some? ==> forall q': nat :: q <= q' < r.value ==> !OccursAt(s, term, q')
    ensures r.None? ==> forall q': nat :: q <= q' <= |s| && NoNewline(s[start..q']) ==> !OccursAt(s, term, q')
    decreases |s| - q
  {
    if OccursAt(s, term, q) then Some(q)
    else if q < |s| && s[q] != '\n' then
      assert s[start..q + 1] == s[start..q] + [s[q]];
      LazyEnd(s, start, term, q + 1)
    else
      assert forall q': nat :: q < q' <= |s| ==> s[start..q'][q - start] == '\n';
      None
  }

  function SearchLazyFrom(s: string, lit: string, term: string, from: nat): (r: Option<(nat, nat)>)
    ensures r.Some? ==> from <= r.value.0 && LazyMatch(s, lit, term, r.value.0, r.value.1)
    ensures r.Some? ==> forall j: nat :: from <= j < r.value.0 ==> NoLazyMatchAt(s, lit, term, j)
    ensures r.Some? ==> forall q': nat :: q' < r.value.1 ==> !LazyMatch(s, lit, term, r.value.0, q')
    ensures r.None? ==> forall j: nat :: from <= j ==> NoLazyMatchAt(s, lit, term, j)
    decreases |s| - from
  {
    if from + |lit| >= |s| then
      assert forall j: nat, q: nat :: from <= j ==> !LazyMatch(s, lit, term, j, q);
      None
    else
      var start := from + |lit|;
      var here :=
        if OccursAt(s, lit, from) && s[start] != '\n' then LazyEnd(s, start, term, start + 1) else None;
      if here.Some? then
        Some((from, here.value))
      else
        assert NoLazyMatchAt(s, lit, term, from);
        SearchLazyFrom(s, lit, term, from + 1)
  }

  /** `re.search(lit + r'(.+?)' + term, s).group(1)`, or `None` when there is no match. */
  function SearchLazy(s: string, lit: string, term: string): (r: Option<string>)
    ensures r.None? <==> forall i: nat :: NoLazyMatchAt(s, lit, term, i)
    ensures r.Some? ==> exists i: nat, q: nat :: FirstLazyMatch(s, lit, term, i, q) && r.value == s[i + |lit|..q]
  {
    match SearchLazyFrom(s, lit, term, 0)
    case None => None
    case Some((i, q)) =>
      assert FirstLazyMatch(s, lit, term, i, q);
      assert !NoLazyMatchAt(s, lit, term, i);
      Some(s[i + |lit|..q])
  }
}
