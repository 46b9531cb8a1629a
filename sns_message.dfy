/** The notification text the ingestion job publishes and two handlers parse:
    `"<source> table processed: <table> in <environment>"`, matched with
    `re.match(r'^(.*?) table processed: (.*?) in (.*?)$', message)`. */
module SnsMessage {
  import opened Outcomes
  import opened Strings
  import opened Patterns

  const Marker := " table processed: "
  const InSeparator := " in "

  /** The 400 answer both handlers give when the pattern does not match. */
  const UnparsableBody := "Unable to extract message components from SNS message."

  /** The 400 answer both handlers give when the source name is not part of
      the table name. */
  function MismatchBody(source: string, table: string): string {
    "The source system name '" + source + "' doesn't match what's found in the table name: " + table + "."
  }

  /** The three groups, each `.strip()`ped as both handlers do. */
  datatype Parts = Parts(source: string, table: string, env: string)

  /** Without MULTILINE, `$` matches at the very end or just before one final
      newline; `.` never matches a newline. So the groups must fit in the
      message minus at most one trailing newline. */
  function MatchedText(message: string): string {
    if |message| > 0 && message[|message| - 1] == '\n' then message[..|message| - 1] else message
  }

  /** `pat` occurs at `i` and nowhere in `[from, i)`. */
  ghost predicate FirstAt(s: string, pat: string, from: nat, i: nat) {
    from <= i && OccursAt(s, pat, i) && forall j: nat :: from <= j < i ==> !OccursAt(s, pat, j)
  }

  /** The pattern's condition on one line of text: the marker occurs, and
      `" in "` occurs somewhere after it. */
  ghost predicate HasGroups(t: string) {
    exists p: nat, q: nat :: OccursAt(t, Marker, p) && p + |Marker| <= q && OccursAt(t, InSeparator, q)
  }

  /** Where the lazy groups split `t`: at the first marker, then at the first
      `" in "` after that marker. */
  function SplitPoints(t: string): (r: Option<(nat, nat)>)
    ensures r.Some? <==> HasGroups(t)
    ensures r.Some? ==> FirstAt(t, Marker, 0, r.value.0) && FirstAt(t, InSeparator, r.value.0 + |Marker|, r.value.1)
  {
    match Find(t, Marker, 0)
    case None => None
    case Some(p) =>
      match Find(t, InSeparator, p + |Marker|)
      case None =>
        assert forall p': nat, q: nat :: OccursAt(t, Marker, p') && p' + |Marker| <= q ==> !OccursAt(t, InSeparator, q);
        None
      case Some(q) =>
        Some((p, q))
  }

  /** `re.match` succeeds iff the text fits on one line and has the groups;
      each part is then the stripped text between the split points. */
  function Parse(message: string): (r: Option<Parts>)
    ensures r.Some? <==> NoNewline(MatchedText(message)) && HasGroups(MatchedText(message))
    ensures r.Some? ==>
      SplitPoints(MatchedText(message)).Some? &&
      r.value == PartsAt(MatchedText(message), SplitPoints(MatchedText(message)).value)
  {
    var t := MatchedText(message);
    if !NoNewline(t) then None
    else
      var sp := SplitPoints(t);
      if sp.None? then None else Some(PartsAt(t, sp.value))
  }

  /** The stripped groups when the text is split at `pq`. */
  function PartsAt(t: string, pq: (nat, nat)): Parts
    requires pq.0 + |Marker| <= pq.1 && pq.1 + |InSeparator| <= |t|
  {
    Parts(Strip(t[..pq.0]), Strip(t[pq.0 + |Marker|..pq.1]), Strip(t[pq.1 + |InSeparator|..]))
  }

  /** `re.search(fr'{source}_(\w+)', table).group(1)`, with the source name
      taken literally. */
  function ExtractTable(source: string, table: string): (r: Option<string>)
    ensures r.None? <==> forall i: nat :: !RunMatchAt(table, source + "_", Word, i)
    ensures r.Some? ==> |r.value| > 0 && forall k :: 0 <= k < |r.value| ==> IsWordChar(r.value[k])
    ensures r.Some? ==> exists i: nat :: FirstRunMatch(table, source + "_", Word, i) && MaximalRun(table, source + "_", Word, i, r.value)
  {
    var r := SearchRun(table, source + "_", Word);
    if r.Some? then
      ghost var i: nat :| FirstRunMatch(table, source + "_", Word, i) && r.value == RunCapture(table, source + "_", Word, i);
      RunCaptureMaximal(table, source + "_", Word, i);
      r
    else r
  }
}
