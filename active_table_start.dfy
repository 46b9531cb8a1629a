/** The handler that starts the active-table state machine when the ingestion
    job reports a processed table. The clock (`%Y%m%d%H` suffix), the uuid's
    hex text and whether `start_execution` raises are parameters. */
module ActiveTableStart {
  import opened Outcomes
  import opened Strings
  import opened SnsMessage

  /** Source systems for which no execution is started. */
  const SkipSourceSystems: seq<string> := [
    "kenya_exergy", "kenya_turnquest", "stonehouse", "kenya_ohi", "lesotho_ohi",
    "uganda_ohi", "malawi_ohi", "mauritius_ohi", "mozambique_ohi", "uganda_turnquest",
    "everest_botswana_insure", "everest_eswatini_insure", "everest_lesotho_insure",
    "everest_namibia_insure", "everest_uganda_insure", "everest_zambia_insure"
  ]

  /** The one active table that never gets an execution. */
  const SkippedActiveTable := "a_client_contract_reference_delete"

  const MaxTablePart := 60
  const UniqueIdLength := 10

  datatype Payload = Payload(jobName: string, executionEnv: string, executionTableNames: seq<string>)

  /** The arguments of `start_execution`. `input` holds the fields of the one
      `Result` object in the payload's fixed wrapper `{"event": [{"Result": …}]}`,
      before `json.dumps`. */
  datatype StartRequest = StartRequest(stateMachineArn: string, name: string, input: Payload)

  /** What the handler decides once it has the message text. Bodies are the
      texts before `json.dumps`. */
  datatype Decision = BadRequest(body: string) | Skip(body: string) | Start(request: StartRequest)

  function StateMachineArn(env: string, source: string): string {
    "arn:aws:states:eu-west-1:649505956583:stateMachine:sf-" + env + "-active-tables-" + source
  }

  /** `f"{a_add_table[:60]}_{date_suffix}_{uuid_hex[:10]}"`. */
  function ExecutionName(activeTable: string, dateSuffix: string, uuidHex: string): (r: string)
    ensures |r| <= MaxTablePart + 2 + |dateSuffix| + UniqueIdLength
    ensures StartsWith(r, Take(activeTable, MaxTablePart) + "_" + dateSuffix + "_")
  {
    Take(activeTable, MaxTablePart) + "_" + dateSuffix + "_" + Take(uuidHex, UniqueIdLength)
  }

  /** Parse, validate, skip, then build the request (the body of the `try`). */
  function Decide(message: string, dateSuffix: string, uuidHex: string): (d: Decision)
  {
    match Parse(message)
    case None => BadRequest(UnparsableBody)
    case Some(parts) => DecideParts(parts, dateSuffix, uuidHex)
  }

  /** What follows a successful match, from the stripped groups. */
  function DecideParts(parts: Parts, dateSuffix: string, uuidHex: string): (d: Decision)
  {
    var Parts(source, table, env) := parts;
    if !Contains(table, source) then
      BadRequest(MismatchBody(source, table))
    else
      match ExtractTable(source, table)
      case None => BadRequest("No matching table_name found for " + source + " in " + table + ".")
      case Some(extracted) =>
        var activeTable := "a_" + extracted;
        if activeTable == SkippedActiveTable then
          Skip("Skipping StepFunction execution for a_client_contract_reference_delete.")
        else if source in SkipSourceSystems then
          Skip("StepFunction execution skipped for source_system_name '" + source + "'.")
        else
          Start(StartRequest(
            StateMachineArn(env, source),
            ExecutionName(activeTable, dateSuffix, uuidHex),
            Payload("CDC_" + source, env, [activeTable])))
  }

  /** The response, the request handed to `start_execution` (if any) and
      whether a failure notification was sent. */
  datatype Invocation = Invocation(statusCode: int, body: string, attempted: Option<StartRequest>, alerted: bool)

  const ErrorBody := "Lambda function encountered an error, please check the logs."
  const SuccessBody := "Lambda function executed successfully"

  /** The whole handler. `message` is `None` when the event has no
      `Records[0].Sns.Message`; `startSucceeds` is whether `start_execution`
      returns normally. Every exception is caught, notified and answered 500. */
  function Handle(message: Option<string>, dateSuffix: string, uuidHex: string, startSucceeds: bool): (inv: Invocation)
    ensures inv.statusCode == 200 || inv.statusCode == 400 || inv.statusCode == 500
    ensures inv.alerted <==> inv.statusCode == 500
    ensures inv.statusCode == 500 <==>
      message.None? || (Decide(message.value, dateSuffix, uuidHex).Start? && !startSucceeds)
    ensures inv.statusCode == 400 <==> message.Some? && Decide(message.value, dateSuffix, uuidHex).BadRequest?
    ensures inv.attempted.Some? <==> message.Some? && Decide(message.value, dateSuffix, uuidHex).Start?
    ensures inv.attempted.Some? ==> inv.attempted.value == Decide(message.value, dateSuffix, uuidHex).request
    ensures inv.statusCode == 500 ==> inv.body == ErrorBody
    ensures message.Some? && !Decide(message.value, dateSuffix, uuidHex).Start? ==>
      inv.body == Decide(message.value, dateSuffix, uuidHex).body
    ensures message.Some? && Decide(message.value, dateSuffix, uuidHex).Start? && startSucceeds ==>
      inv.statusCode == 200 && inv.body == SuccessBody
  {
    match message
    case None => Invocation(500, ErrorBody, None, true)
    case Some(m) =>
      match Decide(m, dateSuffix, uuidHex)
      case BadRequest(body) => Invocation(400, body, None, false)
      case Skip(body) => Invocation(200, body, None, false)
      case Start(request) =>
        if startSucceeds then Invocation(200, SuccessBody, Some(request), false)
        else Invocation(500, ErrorBody, Some(request), true)
  }

  // ---------------------------------------------------------------------
  // What the handler promises.
  // ---------------------------------------------------------------------

  /** A message the pattern rejects is answered 400 and starts nothing. */
  lemma UnparsableIsRejected(message: string, dateSuffix: string, uuidHex: string)
    requires Parse(message).None?
    ensures Decide(message, dateSuffix, uuidHex) == BadRequest(UnparsableBody)
  {
  }

  /** A source name that is not a substring of the table name is answered 400. */
  lemma MismatchIsRejected(message: string, dateSuffix: string, uuidHex: string)
    requires Parse(message).Some?
    requires !Contains(Parse(message).value.table, Parse(message).value.source)
    ensures Decide(message, dateSuffix, uuidHex).BadRequest?
  {
  }

  /** Without a word character after the first `"<source>_"`, the answer is 400. */
  lemma NoTableIsRejected(message: string, dateSuffix: string, uuidHex: string)
    requires Parse(message).Some?
    requires Contains(Parse(message).value.table, Parse(message).value.source)
    requires ExtractTable(Parse(message).value.source, Parse(message).value.table).None?
    ensures Decide(message, dateSuffix, uuidHex).BadRequest?
  {
  }

  /** The delete table is skipped, and that test comes before the source list:
      its body names the table even when the source is also on the list. */
  lemma DeleteTableSkippedFirst(parts: Parts, dateSuffix: string, uuidHex: string)
    requires Contains(parts.table, parts.source)
    requires ExtractTable(parts.source, parts.table).Some?
    requires "a_" + ExtractTable(parts.source, parts.table).value == SkippedActiveTable
    ensures DecideParts(parts, dateSuffix, uuidHex) == Skip("Skipping StepFunction execution for a_client_contract_reference_delete.")
  {
  }

  /** No source system on the skip list ever gets an execution; once its
      table is found and is not the delete table, the answer is the skip
      naming the source. */
  lemma SkipListNeverStarts(parts: Parts, dateSuffix: string, uuidHex: string)
    requires parts.source in SkipSourceSystems
    ensures !DecideParts(parts, dateSuffix, uuidHex).Start?
    ensures var x := ExtractTable(parts.source, parts.table);
      Contains(parts.table, parts.source) && x.Some? && "a_" + x.value != SkippedActiveTable ==>
        DecideParts(parts, dateSuffix, uuidHex) == Skip("StepFunction execution skipped for source_system_name '" + parts.source + "'.")
  {
  }

  /** A message that passes every check is started: the source occurs in the
      table name, a table is found, it is not the delete table and the source
      is not on the skip list. Together with `StartRequestShape`, these are
      exactly the messages that are started. */
  lemma ChecksPassedStarts(parts: Parts, dateSuffix: string, uuidHex: string)
    ensures var x := ExtractTable(parts.source, parts.table);
      DecideParts(parts, dateSuffix, uuidHex).Start? <==>
        Contains(parts.table, parts.source) && x.Some? && "a_" + x.value != SkippedActiveTable
        && parts.source !in SkipSourceSystems
    ensures var x := ExtractTable(parts.source, parts.table);
      Contains(parts.table, parts.source) && x.Some? && "a_" + x.value != SkippedActiveTable
      && parts.source !in SkipSourceSystems ==>
        DecideParts(parts, dateSuffix, uuidHex) == Start(StartRequest(
          StateMachineArn(parts.env, parts.source),
          ExecutionName("a_" + x.value, dateSuffix, uuidHex),
          Payload("CDC_" + parts.source, parts.env, ["a_" + x.value])))
  {
  }

  /** Every request is for `sf-<env>-active-tables-<source>`, with payload
      `CDC_<source>`, the environment and the single table `a_<extracted>`,
      and an execution name whose table part is at most 60 characters. */
  lemma StartRequestShape(parts: Parts, dateSuffix: string, uuidHex: string)
    requires DecideParts(parts, dateSuffix, uuidHex).Start?
    ensures var x := ExtractTable(parts.source, parts.table);
      var req := DecideParts(parts, dateSuffix, uuidHex).request;
      && x.Some?
      && parts.source !in SkipSourceSystems
      && "a_" + x.value != SkippedActiveTable
      && req.stateMachineArn == StateMachineArn(parts.env, parts.source)
      && req.input == Payload("CDC_" + parts.source, parts.env, ["a_" + x.value])
      && req.name == Take("a_" + x.value, MaxTablePart) + "_" + dateSuffix + "_" + Take(uuidHex, UniqueIdLength)
      && |Take("a_" + x.value, MaxTablePart)| <= MaxTablePart
  {
  }
}
