/** The handler that turns a pipeline-failure SNS message into a Microsoft
    Teams card and, for messages that are not JSON, a record in the failures
    table. The clock texts, what `json.loads` makes of the message, and
    whether `put_item` or the webhook POST raises are parameters. */
module FailureNotifications {
  import opened Outcomes
  import opened Strings
  import opened Patterns
  import opened Accounts

  const EnvAccountMapping: Mapping := [("non-prod", "649505956583"), ("pre-prod", "681131072283"), ("prod", "014390686996")]

  /** `current_env`; `None` makes the module raise at load time. */
  function NotifierEnv(accountId: string): Option<string> {
    FirstEnv(EnvAccountMapping, accountId, false)
  }

  /** Each of the three accounts selects its own environment, and no other
      account selects any. */
  lemma NotifierEnvChoice(accountId: string)
    ensures accountId == "649505956583" ==> NotifierEnv(accountId) == Some("non-prod")
    ensures accountId == "681131072283" ==> NotifierEnv(accountId) == Some("pre-prod")
    ensures accountId == "014390686996" ==> NotifierEnv(accountId) == Some("prod")
    ensures NotifierEnv(accountId).None? <==>
      accountId != "649505956583" && accountId != "681131072283" && accountId != "014390686996"
  {
    assert FirstEnvFrom(EnvAccountMapping, accountId, false, 3) == None;
  }

  const NotAvailable := "N/A"
  /** "Please investigate this and update the team on this message. Thank you." */
  const StandardNote := "Please investigate this " + "and update the team " + "on this message. Thank you."
  const SuccessBody := "Message processed successfully"
  const PostFailedBody := "Error sending the HTTP request"

  // ---------------------------------------------------------------------
  // The Teams card text.
  // ---------------------------------------------------------------------

  /** The eight line labels, in the order the card shows them. */
  const Labels: seq<string> := [
    "Environment: ", "Source System: ", "Table Name: ", "Error Message: ",
    "Job Name: ", "JobRun ID: ", "Execution Date/Time: ", "Note to Prod: "
  ]

  /** The values the card shows, one per label. */
  datatype Report = Report(environment: string, sourceSystem: string, tableName: string, errorMessage: string,
                           jobName: string, jobRunId: string, executionTime: string, note: string)

  function Values(r: Report): (vs: seq<string>)
    ensures |vs| == |Labels|
  {
    [r.environment, r.sourceSystem, r.tableName, r.errorMessage, r.jobName, r.jobRunId, r.executionTime, r.note]
  }

  /** Each line followed by the Markdown line break `"  \n"`. */
  function Terminated(lines: seq<string>): string
    decreases |lines|
  {
    if lines == [] then "" else lines[0] + "  \n" + Terminated(lines[1..])
  }

  /** The f-string of eight `"<label><value>  \n"` lines. */
  function Format(r: Report): string {
    Terminated(seq(|Labels|, i requires 0 <= i < |Labels| => Labels[i] + Values(r)[i]))
  }

  // Reading a text back line by line.

  /** The first `'\n'` at or after `i`, or `|s|`. */
  function LineEnd(s: string, i: nat): (k: nat)
    requires i <= |s|
    ensures i <= k <= |s|
    ensures k < |s| ==> s[k] == '\n'
    ensures forall j :: i <= j < k ==> s[j] != '\n'
    decreases |s| - i
  {
    if i == |s| || s[i] == '\n' then i else LineEnd(s, i + 1)
  }

  /** The lines of `s`, split at each `'\n'`, with no empty piece after a final one. */
  function Lines(s: string): seq<string>
    decreases |s|
  {
    if s == [] then []
    else
      var k := LineEnd(s, 0);
      [s[..k]] + (if k < |s| then Lines(s[k + 1..]) else [])
  }

  lemma LinesAfter(a: string, b: string)
    requires NoNewline(a)
    ensures Lines(a + "\n" + b) == [a] + Lines(b)
  {
    var s := a + "\n" + b;
    var k := LineEnd(s, 0);
    assert s[|a|] == '\n';
    assert k == |a|;
    assert s[..k] == a;
    assert s[k + 1..] == b;
  }

  lemma NoNewlineConcat(a: string, b: string)
    requires NoNewline(a) && NoNewline(b)
    ensures NoNewline(a + b)
  {
    forall k | 0 <= k < |a + b| ensures (a + b)[k] != '\n' {
      if k >= |a| { assert (a + b)[k] == b[k - |a|]; }
    }
  }

  /** The terminated lines read back as themselves, each keeping its two
      trailing spaces. */
  lemma {:induction false} LinesOfTerminated(lines: seq<string>)
    requires forall i :: 0 <= i < |lines| ==> NoNewline(lines[i])
    ensures Lines(Terminated(lines)) == seq(|lines|, i requires 0 <= i < |lines| => lines[i] + "  ")
    decreases |lines|
  {
    if lines != [] {
      var head := lines[0] + "  ";
      NoNewlineConcat(lines[0], "  ");
      assert lines[0] + "  \n" + Terminated(lines[1..]) == head + "\n" + Terminated(lines[1..]);
      LinesAfter(head, Terminated(lines[1..]));
      assert forall i :: 0 <= i < |lines[1..]| ==> lines[1..][i] == lines[i + 1];
      LinesOfTerminated(lines[1..]);
    }
  }

  /** When no value spans lines, the card has exactly eight lines: each label
      followed by its value and the two-space line break, in the fixed order. */
  lemma FormatReadsBack(r: Report)
    requires NoNewline(r.environment) && NoNewline(r.sourceSystem) && NoNewline(r.tableName)
    requires NoNewline(r.errorMessage) && NoNewline(r.jobName) && NoNewline(r.jobRunId)
    requires NoNewline(r.executionTime) && NoNewline(r.note)
    ensures var out := Lines(Format(r));
      && |out| == 8
      && out[0] == "Environment: " + r.environment + "  "
      && out[1] == "Source System: " + r.sourceSystem + "  "
      && out[2] == "Table Name: " + r.tableName + "  "
      && out[3] == "Error Message: " + r.errorMessage + "  "
      && out[4] == "Job Name: " + r.jobName + "  "
      && out[5] == "JobRun ID: " + r.jobRunId + "  "
      && out[6] == "Execution Date/Time: " + r.executionTime + "  "
      && out[7] == "Note to Prod: " + r.note + "  "
  {
    var values := Values(r);
    var lines := seq(|Labels|, i requires 0 <= i < |Labels| => Labels[i] + values[i]);
    forall i | 0 <= i < |lines| ensures NoNewline(lines[i]) {
      assert NoNewline(Labels[i]) by {
        assert Labels[i] in Labels;
      }
      assert NoNewline(values[i]) by {
        assert values[i] in values;
      }
      NoNewlineConcat(Labels[i], values[i]);
    }
    LinesOfTerminated(lines);
  }

  lemma UpperNoNewline(s: string)
    requires NoNewline(s)
    ensures NoNewline(Upper(s))
  {
  }

  lemma NoteSingleLine()
    ensures NoNewline(StandardNote)
  {
    var a, b, c := "Please investigate this ", "and update the team ", "on this message. Thank you.";
    assert StandardNote == a + b + c;
    assert NoNewline(a) && NoNewline(b) && NoNewline(c);
    NoNewlineConcat(a, b);
    NoNewlineConcat(a + b, c);
  }

  // ---------------------------------------------------------------------
  // The raw path: regular-expression captures.
  // ---------------------------------------------------------------------

  /** `lit(cls+)`'s group 1 for the leftmost match, or `'N/A'` when there is none. */
  ghost predicate RunField(raw: string, lit: string, cls: CharClass, v: string) {
    || ((forall i: nat :: !RunMatchAt(raw, lit, cls, i)) && v == NotAvailable)
    || (exists i: nat :: FirstRunMatch(raw, lit, cls, i) && v == RunCapture(raw, lit, cls, i))
  }

  /** `lit(.+?)term`'s group 1 for the leftmost, shortest match, or `'N/A'`. */
  ghost predicate LazyField(raw: string, lit: string, term: string, v: string) {
    || ((forall i: nat :: NoLazyMatchAt(raw, lit, term, i)) && v == NotAvailable)
    || (exists i: nat, q: nat :: FirstLazyMatch(raw, lit, term, i, q) && v == raw[i + |lit|..q])
  }

  /** The five captures of the raw path. */
  datatype Captured = Captured(sourceSystem: string, tableName: string, errorMessage: string, jobName: string, jobRunId: string)

  function OrNotAvailable(o: Option<string>): string {
    if o.Some? then o.value else NotAvailable
  }

  const SourceLabel := "Source System: "
  const TableLabel := "Table: "
  const ErrorLabel := "Error: "
  const ErrorEnd := ". Please investigate"
  const JobLabel := "job: "
  const JobRunLabel := "JobRunID: "

  /** `m.group(1) if m else 'N/A'` for `m = re.search(lit + r'(cls+)', raw)`. */
  function RunValue(raw: string, lit: string, cls: CharClass): (v: string)
    ensures RunField(raw, lit, cls, v)
  {
    OrNotAvailable(SearchRun(raw, lit, cls))
  }

  /** `m.group(1) if m else 'N/A'` for `m = re.search(lit + r'(.+?)' + term, raw)`. */
  function LazyValue(raw: string, lit: string, term: string): (v: string)
    ensures LazyField(raw, lit, term, v)
  {
    OrNotAvailable(SearchLazy(raw, lit, term))
  }

  function CaptureRaw(raw: string): (c: Captured)
    ensures RunField(raw, SourceLabel, Word, c.sourceSystem)
    ensures RunField(raw, TableLabel, Word, c.tableName)
    ensures LazyField(raw, ErrorLabel, ErrorEnd, c.errorMessage)
    ensures RunField(raw, JobLabel, WordOrHyphen, c.jobName)
    ensures RunField(raw, JobRunLabel, Word, c.jobRunId)
  {
    Captured(RunValue(raw, SourceLabel, Word), RunValue(raw, TableLabel, Word), LazyValue(raw, ErrorLabel, ErrorEnd),
             RunValue(raw, JobLabel, WordOrHyphen), RunValue(raw, JobRunLabel, Word))
  }

  /** A run field is `'N/A'` exactly when the pattern does not match (no
      capture contains `'/'`), and otherwise a non-empty run of the class
      that cannot be extended to the right. */
  lemma RunFieldShape(raw: string, lit: string, cls: CharClass, v: string)
    requires RunField(raw, lit, cls, v)
    ensures v == NotAvailable <==> forall i: nat :: !RunMatchAt(raw, lit, cls, i)
    ensures v != NotAvailable ==> exists i: nat :: FirstRunMatch(raw, lit, cls, i) && MaximalRun(raw, lit, cls, i, v)
  {
    if exists i: nat :: FirstRunMatch(raw, lit, cls, i) && v == RunCapture(raw, lit, cls, i) {
      var i: nat :| FirstRunMatch(raw, lit, cls, i) && v == RunCapture(raw, lit, cls, i);
      RunCaptureMaximal(raw, lit, cls, i);
      assert !InClass(NotAvailable[1], cls);
      assert v != NotAvailable;
    }
  }

  /** The error field is `'N/A'` or the text between `"Error: "` and the first
      `". Please investigate"` after it, on one line. */
  lemma LazyFieldShape(raw: string, lit: string, term: string, v: string)
    requires LazyField(raw, lit, term, v)
    ensures (forall i: nat :: NoLazyMatchAt(raw, lit, term, i)) ==> v == NotAvailable
    ensures v != NotAvailable ==> exists i: nat, q: nat ::
      && FirstLazyMatch(raw, lit, term, i, q)
      && |v| > 0 && NoNewline(v)
      && OccursAt(raw, lit + v + term, i)
  {
    if exists i: nat, q: nat :: FirstLazyMatch(raw, lit, term, i, q) && v == raw[i + |lit|..q] {
      var i: nat, q: nat :| FirstLazyMatch(raw, lit, term, i, q) && v == raw[i + |lit|..q];
      assert !NoLazyMatchAt(raw, lit, term, i);
      assert raw[i..q + |term|] == raw[i..i + |lit|] + v + raw[q..q + |term|];
    }
  }

  lemma RunFieldSingleLine(raw: string, lit: string, cls: CharClass, v: string)
    requires RunField(raw, lit, cls, v)
    ensures NoNewline(v)
  {
    RunFieldShape(raw, lit, cls, v);
    if v != NotAvailable {
      var i: nat :| FirstRunMatch(raw, lit, cls, i) && MaximalRun(raw, lit, cls, i, v);
      forall k | 0 <= k < |v| ensures v[k] != '\n' {
        assert InClass(v[k], cls);
      }
    }
  }

  lemma LazyFieldSingleLine(raw: string, lit: string, term: string, v: string)
    requires LazyField(raw, lit, term, v)
    ensures NoNewline(v)
  {
    if exists i: nat, q: nat :: FirstLazyMatch(raw, lit, term, i, q) && v == raw[i + |lit|..q] {
      var i: nat, q: nat :| FirstLazyMatch(raw, lit, term, i, q) && v == raw[i + |lit|..q];
      assert LazyMatch(raw, lit, term, i, q);
    } else {
      assert v == NotAvailable;
      assert NoNewline(NotAvailable);
    }
  }

  /** No capture spans lines. */
  lemma CapturesSingleLine(raw: string)
    ensures var c := CaptureRaw(raw);
      NoNewline(c.sourceSystem) && NoNewline(c.tableName) && NoNewline(c.errorMessage) &&
      NoNewline(c.jobName) && NoNewline(c.jobRunId)
  {
    var c := CaptureRaw(raw);
    RunFieldSingleLine(raw, SourceLabel, Word, c.sourceSystem);
    RunFieldSingleLine(raw, TableLabel, Word, c.tableName);
    RunFieldSingleLine(raw, JobLabel, WordOrHyphen, c.jobName);
    RunFieldSingleLine(raw, JobRunLabel, Word, c.jobRunId);
    LazyFieldSingleLine(raw, ErrorLabel, ErrorEnd, c.errorMessage);
  }

  /** `raw_formatted_message`'s values: the environment uppercased, the
      captures, the clock text and the fixed note. */
  function RawReport(c: Captured, env: string, timeNow: string): Report {
    Report(Upper(env), c.sourceSystem, c.tableName, c.errorMessage, c.jobName, c.jobRunId, timeNow, StandardNote)
  }

  /** The record written to the failures table. */
  datatype Item = Item(jobRunId: string, environment: string, sourceSystemName: string, tableName: string,
                       errorMessage: string, glueJobName: string, pipelineRunDate: string, dateInserted: string)

  function RawItem(c: Captured, env: string, timeNow: string, dateInserted: string): Item {
    Item(c.jobRunId, env, c.sourceSystem, c.tableName, c.errorMessage, c.jobName, timeNow, dateInserted)
  }

  /** The raw-path card reads back as eight lines that show the stored item's
      own values: the environment uppercased, each capture under its label,
      the run time, and the fixed note; the item keeps the environment as-is. */
  lemma RawCardMatchesItem(raw: string, env: string, timeNow: string, dateInserted: string)
    requires NoNewline(env) && NoNewline(timeNow)
    ensures var item := RawItem(CaptureRaw(raw), env, timeNow, dateInserted);
      && item.environment == env
      && var lines := Lines(Format(RawReport(CaptureRaw(raw), env, timeNow)));
      && |lines| == 8
      && lines[0] == "Environment: " + Upper(item.environment) + "  "
      && lines[1] == "Source System: " + item.sourceSystemName + "  "
      && lines[2] == "Table Name: " + item.tableName + "  "
      && lines[3] == "Error Message: " + item.errorMessage + "  "
      && lines[4] == "Job Name: " + item.glueJobName + "  "
      && lines[5] == "JobRun ID: " + item.jobRunId + "  "
      && lines[6] == "Execution Date/Time: " + item.pipelineRunDate + "  "
      && lines[7] == "Note to Prod: " + StandardNote + "  "
  {
    CapturesSingleLine(raw);
    UpperNoNewline(env);
    NoteSingleLine();
    FormatReadsBack(RawReport(CaptureRaw(raw), env, timeNow));
  }

  // ---------------------------------------------------------------------
  // The JSON path.
  // ---------------------------------------------------------------------

  /** A JSON value: a string, or anything else by its `str()` text. */
  datatype Json = JStr(s: string) | JOther(text: string)

  /** What `json.loads` makes of the message. */
  datatype Decoded = NotJson | Object(fields: map<string, Json>) | NotObject

  /** Why an invocation raises. */
  datatype Failure =
    | MalformedEvent      // `event['Records'][0]['Sns']['Message']` fails
    | NotAString(key: string) // `.upper()` on a value that is not a string
    | NoDictionary        // `.get` on a decoded value that is not an object
    | StoreFailed         // `put_item` raises

  /** `str(d.get(key, default))`. */
  function TextOr(d: map<string, Json>, key: string, default: string): string {
    if key !in d then default
    else match d[key]
      case JStr(s) => s
      case JOther(t) => t
  }

  /** `d.get(key, 'N/A').upper()`. */
  function UpperOr(d: map<string, Json>, key: string): (r: Result<string, Failure>)
    ensures r.Fail? <==> key in d && d[key].JOther?
    ensures r.Fail? ==> r.error == NotAString(key)
    ensures r.Ok? ==> r.value == Upper(TextOr(d, key, NotAvailable))
  {
    if key !in d then Ok(Upper(NotAvailable))
    else match d[key]
      case JStr(s) => Ok(Upper(s))
      case JOther(_) => Fail(NotAString(key))
  }

  /** `formatted_message`'s values. An absent key shows `'N/A'`, an absent
      `Message` the fixed note; `Environment` and `Source_System` are
      uppercased, and the first of them that is not a string raises. */
  function JsonReport(d: map<string, Json>): (r: Result<Report, Failure>)
    ensures r.Fail? <==> ("Environment" in d && d["Environment"].JOther?) || ("Source_System" in d && d["Source_System"].JOther?)
    ensures r.Fail? ==> r.error == NotAString(if "Environment" in d && d["Environment"].JOther? then "Environment" else "Source_System")
    ensures r.Ok? ==>
      && r.value.environment == Upper(TextOr(d, "Environment", NotAvailable))
      && r.value.sourceSystem == Upper(TextOr(d, "Source_System", NotAvailable))
      && r.value.tableName == TextOr(d, "tgt_table_name", NotAvailable)
      && r.value.errorMessage == TextOr(d, "ErrorMessage", NotAvailable)
      && r.value.jobName == TextOr(d, "JobName", NotAvailable)
      && r.value.jobRunId == TextOr(d, "Id", NotAvailable)
      && r.value.executionTime == TextOr(d, "cdc_batch_date_id", NotAvailable)
      && r.value.note == TextOr(d, "Message", StandardNote)
  {
    var environment :- UpperOr(d, "Environment");
    var source :- UpperOr(d, "Source_System");
    Ok(Report(environment, source, TextOr(d, "tgt_table_name", NotAvailable), TextOr(d, "ErrorMessage", NotAvailable),
              TextOr(d, "JobName", NotAvailable), TextOr(d, "Id", NotAvailable),
              TextOr(d, "cdc_batch_date_id", NotAvailable), TextOr(d, "Message", StandardNote)))
  }

  // ---------------------------------------------------------------------
  // The handler.
  // ---------------------------------------------------------------------

  datatype Outcome = Returned(statusCode: int, body: string) | Raised(failure: Failure)

  /** The outcome, the item written to the failures table, and the card text
      POSTed to the webhook (before `json.dumps`). Bodies are the texts
      before `json.dumps`. */
  datatype Invocation = Invocation(outcome: Outcome, stored: Option<Item>, posted: Option<string>)

  /** The POST and its outcome. `postRaises` is whether the `try` block
      around the request raises: the request itself, or decoding the reply
      as UTF-8 for the log line. That makes a 500; whatever status the
      webhook answers, the result is otherwise 200. */
  function Post(card: string, stored: Option<Item>, postRaises: bool): Invocation {
    if postRaises then Invocation(Returned(500, PostFailedBody), stored, Some(card))
    else Invocation(Returned(200, SuccessBody), stored, Some(card))
  }

  function Handle(message: Option<string>, decoded: Decoded, env: string, timeNow: string, dateInserted: string,
                  putRaises: bool, postRaises: bool): (inv: Invocation)
    ensures message.None? ==> inv == Invocation(Raised(MalformedEvent), None, None)
    ensures inv.outcome.Returned? <==> inv.posted.Some?
    ensures inv.outcome.Returned? ==>
      inv.outcome == (if postRaises then Returned(500, PostFailedBody) else Returned(200, SuccessBody))
    ensures inv.stored.Some? <==> message.Some? && decoded.NotJson? && !putRaises
    ensures message.Some? && decoded.NotJson? ==>
      var c := CaptureRaw(message.value);
      && (inv.outcome.Raised? <==> putRaises)
      && (putRaises ==> inv.outcome == Raised(StoreFailed))
      && (!putRaises ==> inv.stored == Some(RawItem(c, env, timeNow, dateInserted)))
      && (!putRaises ==> inv.posted == Some(Format(RawReport(c, env, timeNow))))
    ensures message.Some? && decoded.Object? ==>
      && (inv.outcome.Raised? <==> JsonReport(decoded.fields).Fail?)
      && (JsonReport(decoded.fields).Fail? ==> inv.outcome == Raised(JsonReport(decoded.fields).error))
      && (JsonReport(decoded.fields).Ok? ==> inv.posted == Some(Format(JsonReport(decoded.fields).value)))
    ensures message.Some? && decoded.NotObject? ==> inv == Invocation(Raised(NoDictionary), None, None)
  {
    if message.None? then Invocation(Raised(MalformedEvent), None, None)
    else
      match decoded
      case NotJson =>
        var c := CaptureRaw(message.value);
        if putRaises then Invocation(Raised(StoreFailed), None, None)
        else Post(Format(RawReport(c, env, timeNow)), Some(RawItem(c, env, timeNow, dateInserted)), postRaises)
      case NotObject => Invocation(Raised(NoDictionary), None, None)
      case Object(d) =>
        match JsonReport(d)
        case Fail(e) => Invocation(Raised(e), None, None)
        case Ok(r) => Post(Format(r), None, postRaises)
  }
}
