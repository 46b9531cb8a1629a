/** `lambda_handler` of the config-table populator: the environment chosen at
    load time, one attempt (read the control file, resolve defaults, generate
    the statements, run them on Athena one after another) and the retry loop
    around it. The S3 read is a parameter (`None` when `get_object`,
    `decode` or `json.loads` raises); Athena is an object that records every
    query it is given and answers each with a terminal status. */
module ConfigHandler {
  import opened Outcomes
  import opened Strings
  import opened Accounts
  import opened ConfigDocument
  import opened ConfigDefaults
  import opened ConfigStatements

  const MaxRetries := 3
  const WaitTimeSeconds := 10
  /** `check_timeout_and_notify` raises below this many milliseconds. */
  const TimeoutThresholdMs := 10000

  const Database := "data_control"
  const GenericTable := "edp_generic_file_loads"
  const ActiveTable := "active_table_job_config_attributes_iceberg"
  const SuccessBody := "Processing completed successfully."
  /** The text of the unreachable 500 answer, before `str(e)` is appended. */
  const GaveUpBody := "Lambda processing failed after 3 retries. Error: "

  const EnvAccountMapping: Mapping := [("non-prod", "649505956583"), ("pre-prod", "681131072283"), ("prod", "014390686996")]

  /** `current_env`; `None` makes the module raise at load time. */
  function PopulatorEnv(accountId: string): Option<string> {
    FirstEnv(EnvAccountMapping, accountId, true)
  }

  /** Each of the three accounts selects its own environment, and no other
      account selects any. */
  lemma PopulatorEnvChoice(accountId: string)
    ensures accountId == "649505956583" ==> PopulatorEnv(accountId) == Some("non-prod")
    ensures accountId == "681131072283" ==> PopulatorEnv(accountId) == Some("pre-prod")
    ensures accountId == "014390686996" ==> PopulatorEnv(accountId) == Some("prod")
    ensures PopulatorEnv(accountId).None? <==>
      accountId != "649505956583" && accountId != "681131072283" && accountId != "014390686996"
  {
    var m := EnvAccountMapping;
    assert !EndsWith(m[0].0, "-full-load") && !EndsWith(m[1].0, "-full-load") && !EndsWith(m[2].0, "-full-load");
    assert FirstEnvFrom(m, accountId, true, 3) == None;
  }

  /** `s3_output`. */
  function S3Output(accountId: string): string {
    "s3://aws-athena-query-results-" + accountId + "-eu-west-1/"
  }

  /** The statements one attempt runs, in order: the deletes, the generic
      insert when there are generic fragments, and the active insert when
      active configuration is present and there are active fragments. */
  function ExecutionPlan(gen: Generated): seq<Statement> {
    gen.deletes
      + (if gen.generic != [] then [Insert(GenericTable, gen.generic)] else [])
      + (if gen.activePresent && gen.active != [] then [Insert(ActiveTable, gen.active)] else [])
  }

  /** The texts of the statements of a plan, as they are sent. */
  function Texts(plan: seq<Statement>): seq<string> {
    seq(|plan|, i requires 0 <= i < |plan| => Sql(plan[i]))
  }

  /** `event['Records'][0]['s3']`: the bucket name and object key. */
  datatype ObjectRef = ObjectRef(bucket: string, key: string)

  /** What `generate_statements` is called with. */
  datatype Prepared = Prepared(env: EnvConfig, g: Dict, ga: Dict, ctx: Context)

  /** The timeout check sends its own notification before it raises. */
  predicate TimesOut(event: Option<ObjectRef>, remainingMs: int) {
    event.Some? && remainingMs < TimeoutThresholdMs
  }

  /** The attempt up to `generate_statements`: read the event, check the
      clock, read the file, look up `source_name` and the environment,
      resolve the global defaults. An unknown environment leaves the
      statement lists unbound, which raises when they are first read. */
  function Prepare(event: Option<ObjectRef>, remainingMs: int, read: Option<Document>, currentEnv: string, insertDatetime: string): (r: Result<Prepared, Failure>)
    ensures event.None? ==> r == Fail(MalformedEvent)
    ensures event.Some? && remainingMs < TimeoutThresholdMs ==> r == Fail(TimeoutWarning)
    ensures event.Some? && remainingMs >= TimeoutThresholdMs && read.None? ==> r == Fail(UnreadableObject)
    ensures r.Ok? ==>
      && read.Some? && read.value.sourceName.Some? && read.value.environments.Some?
      && currentEnv in read.value.environments.value
      && var env := read.value.environments.value[currentEnv];
      && r.value.env == env
      && r.value.ctx == Context(read.value.sourceName.value, currentEnv, insertDatetime)
      && env.globalIngestion.Some? && r.value.g == DefaultGlobalIngest(env.globalIngestion.value)
      && ActiveConfigPresent(env).Ok?
      && r.value.ga == (if ActiveConfigPresent(env).value then DefaultGlobalActive(env.globalActive.value, read.value.sourceName.value) else map[])
  {
    if event.None? then Fail(MalformedEvent)
    else if remainingMs < TimeoutThresholdMs then Fail(TimeoutWarning)
    else if read.None? then Fail(UnreadableObject)
    else
      var doc := read.value;
      var source :- Need(doc.sourceName, "source_name");
      var envs :- Need(doc.environments, "environments");
      if currentEnv == "" || currentEnv !in envs then Fail(Unbound("delete_statements"))
      else
        var env := envs[currentEnv];
        var gi :- Need(env.globalIngestion, "global_ingestion_config");
        var present :- ActiveConfigPresent(env);
        var ga := if present then DefaultGlobalActive(env.globalActive.value, source) else map[];
        Ok(Prepared(env, DefaultGlobalIngest(gi), ga, Context(source, currentEnv, insertDatetime)))
  }

  /** The statements one attempt runs, or why it raises before running any. */
  function AttemptPlan(event: Option<ObjectRef>, remainingMs: int, read: Option<Document>, currentEnv: string, insertDatetime: string): Result<seq<Statement>, Failure> {
    var p :- Prepare(event, remainingMs, read, currentEnv, insertDatetime);
    var gen :- GenerateSpec(p.env, p.g, p.ga, p.ctx);
    Ok(ExecutionPlan(gen))
  }

  /** The source's statement that tries to use statement lists that were
      never assigned. */
  lemma UnknownEnvironmentFails(event: Option<ObjectRef>, remainingMs: int, read: Option<Document>, currentEnv: string, insertDatetime: string)
    requires event.Some? && remainingMs >= TimeoutThresholdMs && read.Some?
    requires read.value.sourceName.Some? && read.value.environments.Some?
    requires currentEnv !in read.value.environments.value
    ensures AttemptPlan(event, remainingMs, read, currentEnv, insertDatetime) == Fail(Unbound("delete_statements"))
  {
  }

  /** The plan built from a run of `generate_statements` as the handler
      calls it: deletes first, then each combined INSERT when it has
      fragments. */
  lemma PlanShape(gen: Generated, source: Field)
    requires gen.deletes == [DeleteGeneric(source)] + (if gen.activePresent then [DeleteActive(source)] else [])
    requires gen.activePresent <==> |gen.active| > 0
    ensures var plan := ExecutionPlan(gen);
      var k := if gen.activePresent then 2 else 1;
      && |plan| == k + (if |gen.generic| > 0 then 1 else 0) + (if gen.activePresent then 1 else 0)
      && plan[0] == DeleteGeneric(source)
      && (gen.activePresent ==> plan[1] == DeleteActive(source))
      && (|gen.generic| > 0 ==> plan[k] == Insert(GenericTable, gen.generic))
      && (gen.activePresent ==> plan[|plan| - 1] == Insert(ActiveTable, gen.active))
  {
    var plan := ExecutionPlan(gen);
    var k := |gen.deletes|;
    var inserts := (if gen.generic != [] then [Insert(GenericTable, gen.generic)] else [])
      + (if gen.activePresent then [Insert(ActiveTable, gen.active)] else []);
    assert plan == gen.deletes + inserts;
    assert plan[0] == gen.deletes[0];
    if gen.activePresent {
      assert plan[1] == gen.deletes[1];
      assert plan[|plan| - 1] == inserts[|inserts| - 1];
    }
    if gen.generic != [] {
      assert plan[k] == inserts[0];
    }
  }

  /** Whether active configuration is present: a `global_active_config`
      block and at least one table with an `active_table_config` block. */
  predicate ActivePresent(env: EnvConfig) {
    env.globalActive.Some? && env.tables.Some? && exists i :: 0 <= i < |env.tables.value| && env.tables.value[i].active.Some?
  }

  /** The order the handler runs its statements in: the generic DELETE, the
      active DELETE when active configuration is `present`, the generic
      INSERT (one fragment per table, in document order, each naming its
      table) when there is a table, and the active INSERT (one fragment per
      table with an active block) last when active configuration is present. */
  predicate PlanLayout(plan: seq<Statement>, tables: seq<Table>, source: Field, present: bool) {
    var k := if present then 2 else 1;
    && |plan| == k + (if |tables| > 0 then 1 else 0) + (if present then 1 else 0)
    && plan[0] == DeleteGeneric(source)
    && (present ==> plan[1] == DeleteActive(source))
    && (|tables| > 0 ==> && plan[k].Insert? && plan[k].table == GenericTable
                         && |plan[k].fragments| == |tables|
                         && forall i :: 0 <= i < |tables| ==>
                              tables[i].tableName.Some? && StartsWith(plan[k].fragments[i], "SELECT " + Col(Render(tables[i].tableName.value), "source_file_name_pk") + ", "))
    && (present ==> && plan[|plan| - 1].Insert? && plan[|plan| - 1].table == ActiveTable
                    && |plan[|plan| - 1].fragments| == CountActive(tables))
  }

  /** A successful attempt runs its statements in the order `PlanLayout`
      describes, for the tables and source of the document it read. */
  lemma ExecutionOrder(event: Option<ObjectRef>, remainingMs: int, read: Option<Document>, currentEnv: string, insertDatetime: string)
    requires AttemptPlan(event, remainingMs, read, currentEnv, insertDatetime).Ok?
    ensures && read.Some? && read.value.sourceName.Some? && read.value.environments.Some?
            && currentEnv in read.value.environments.value
            && read.value.environments.value[currentEnv].tables.Some?
    ensures var env := read.value.environments.value[currentEnv];
      PlanLayout(AttemptPlan(event, remainingMs, read, currentEnv, insertDatetime).value,
                 env.tables.value, read.value.sourceName.value, ActivePresent(env))
  {
    var p := Prepare(event, remainingMs, read, currentEnv, insertDatetime).value;
    var gen := GenerateSpec(p.env, p.g, p.ga, p.ctx).value;
    assert AttemptPlan(event, remainingMs, read, currentEnv, insertDatetime).value == ExecutionPlan(gen);
    assert p.env == read.value.environments.value[currentEnv] && p.ctx.source == read.value.sourceName.value;
    assert ActiveConfigPresent(p.env).Ok? && (!ActiveConfigPresent(p.env).value ==> p.ga == map[]);
    PlanOrder(p.env, p.g, p.ga, p.ctx);
  }

  /** `ExecutionOrder` for one call of `generate_statements`. */
  lemma PlanOrder(env: EnvConfig, g: Dict, ga: Dict, ctx: Context)
    requires ActiveConfigPresent(env).Ok? && (!ActiveConfigPresent(env).value ==> ga == map[])
    requires GenerateSpec(env, g, ga, ctx).Ok?
    ensures env.tables.Some?
    ensures PlanLayout(ExecutionPlan(GenerateSpec(env, g, ga, ctx).value), env.tables.value, ctx.source, ActivePresent(env))
    ensures var plan := ExecutionPlan(GenerateSpec(env, g, ga, ctx).value);
      var tables := env.tables.value;
      var k := if ActivePresent(env) then 2 else 1;
      forall i :: 0 <= i < |tables| ==>
        && TableFragments(tables[i], g, ga, ctx).Ok?
        && plan[k].fragments[i] == TableFragments(tables[i], g, ga, ctx).value.0
        && (tables[i].active.Some? ==>
              && ActivePresent(env)
              && CountActive(tables[..i]) < |plan[|plan| - 1].fragments|
              && plan[|plan| - 1].fragments[CountActive(tables[..i])] == TableFragments(tables[i], g, ga, ctx).value.1.value)
  {
    var gen := GenerateSpec(env, g, ga, ctx).value;
    GenerateSpecParts(env, g, ga, ctx);
    StatementCounts(env, g, ga, ctx);
    ActiveFragmentsIffPresent(env, g, ga, ctx);
    PlanShape(gen, ctx.source);
    FragmentsInOrder(env, g, ga, ctx);
  }

  // ---------------------------------------------------------------------
  // Athena.
  // ---------------------------------------------------------------------

  /** How one query ends: the terminal states the handler waits for, or the
      client call raising. */
  datatype RunStatus = Succeeded | Failed | Cancelled | Rejected

  /** One `start_query_execution` call and how it ended. */
  datatype QueryRun = QueryRun(query: string, database: string, outputLocation: string, status: RunStatus)

  /** The Athena service as the handler sees it: every query it was given,
      in order. */
  class Athena {
    var history: seq<QueryRun>

    constructor()
      ensures history == []
    {
      history := [];
    }

    /** `execute_athena_query` followed by `wait_for_athena_query`: the
        query is started and polled until it is terminal. The status is the
        service's choice. */
    method Run(query: string, database: string, outputLocation: string) returns (status: RunStatus)
      modifies this
      ensures history == old(history) + [QueryRun(query, database, outputLocation, status)]
    {
      status :| true;
      history := history + [QueryRun(query, database, outputLocation, status)];
    }
  }

  /** The exception a query that did not succeed raises. */
  function RunFailure(run: QueryRun): Failure
    requires run.status != Succeeded
  {
    match run.status
    case Failed => QueryFailed(run.query, "FAILED")
    case Cancelled => QueryFailed(run.query, "CANCELLED")
    case Rejected => QueryRejected(run.query)
  }

  /** `runs` is how `plan` went: its statements in order, each on
      `data_control` with the given output location, every one but the last
      succeeding, and a statement left out only after one that did not. */
  predicate RanAsPlanned(runs: seq<QueryRun>, plan: seq<string>, output: string) {
    && |runs| <= |plan|
    && (forall i :: 0 <= i < |runs| ==> runs[i].query == plan[i] && runs[i].database == Database && runs[i].outputLocation == output)
    && (forall i :: 0 <= i < |runs| - 1 ==> runs[i].status == Succeeded)
    && (|runs| < |plan| ==> |runs| > 0 && runs[|runs| - 1].status != Succeeded)
  }

  /** What the runs of one attempt raise, if anything. */
  function Verdict(runs: seq<QueryRun>): Option<Failure> {
    if runs != [] && runs[|runs| - 1].status != Succeeded then Some(RunFailure(runs[|runs| - 1])) else None
  }

  /** An attempt raises nothing exactly when every statement ran and succeeded. */
  lemma CleanRunRanEverything(runs: seq<QueryRun>, plan: seq<string>, output: string)
    requires RanAsPlanned(runs, plan, output)
    ensures Verdict(runs).None? <==> |runs| == |plan| && forall i :: 0 <= i < |runs| ==> runs[i].status == Succeeded
  {
  }

  /** Steps 1 to 3 of the handler: each statement is run and waited for; the
      first that does not succeed raises and the rest are not run. */
  method RunStatements(plan: seq<string>, output: string, athena: Athena) returns (failure: Option<Failure>)
    modifies athena
    ensures |old(athena.history)| <= |athena.history|
    ensures athena.history[..|old(athena.history)|] == old(athena.history)
    ensures RanAsPlanned(athena.history[|old(athena.history)|..], plan, output)
    ensures failure == Verdict(athena.history[|old(athena.history)|..])
  {
    ghost var start := |athena.history|;
    for i := 0 to |plan|
      invariant |athena.history| == start + i
      invariant athena.history[..start] == old(athena.history)
      invariant forall j :: 0 <= j < i ==> athena.history[start + j] == QueryRun(plan[j], Database, output, Succeeded)
    {
      var status := athena.Run(plan[i], Database, output);
      if status != Succeeded {
        failure := Some(RunFailure(QueryRun(plan[i], Database, output, status)));
        ghost var runs := athena.history[start..];
        assert forall j :: 0 <= j < i ==> runs[j] == QueryRun(plan[j], Database, output, Succeeded);
        assert |runs| == i + 1 && runs[i] == QueryRun(plan[i], Database, output, status);
        return;
      }
    }
    ghost var runs := athena.history[start..];
    assert |runs| == |plan|;
    assert forall j :: 0 <= j < |runs| ==> runs[j] == QueryRun(plan[j], Database, output, Succeeded);
    failure := None;
  }

  // ---------------------------------------------------------------------
  // One attempt and the retry loop.
  // ---------------------------------------------------------------------

  /** A failure notification: the timeout check's own ("Lambda function is
      approaching its timeout limit."), or the `except` block's with the
      exception. */
  datatype Alert = ApproachingTimeout | AttemptFailed(error: Failure)

  /** The body of the `try`: the alerts it sends itself and what it raises. */
  method Attempt(event: Option<ObjectRef>, remainingMs: int, read: Option<Document>, currentEnv: string,
                 insertDatetime: string, output: string, athena: Athena)
    returns (failure: Option<Failure>, alerts: seq<Alert>)
    modifies athena
    ensures alerts == (if TimesOut(event, remainingMs) then [ApproachingTimeout] else [])
    ensures |old(athena.history)| <= |athena.history|
    ensures athena.history[..|old(athena.history)|] == old(athena.history)
    ensures var plan := AttemptPlan(event, remainingMs, read, currentEnv, insertDatetime);
      var runs := athena.history[|old(athena.history)|..];
      && (plan.Fail? ==> failure == Some(plan.error) && runs == [])
      && (plan.Ok? ==> RanAsPlanned(runs, Texts(plan.value), output) && failure == Verdict(runs))
  {
    alerts := [];
    if event.Some? && remainingMs < TimeoutThresholdMs {
      alerts := [ApproachingTimeout];
    }
    var prepared := Prepare(event, remainingMs, read, currentEnv, insertDatetime);
    if prepared.Fail? {
      assert athena.history[|athena.history|..] == [];
      return Some(prepared.error), alerts;
    }
    var p := prepared.value;
    var gen := GenerateStatements(p.env, p.g, p.ga, p.ctx);
    if gen.Fail? {
      assert athena.history[|athena.history|..] == [];
      return Some(gen.error), alerts;
    }
    failure := RunStatements(Texts(ExecutionPlan(gen.value)), output, athena);
  }

  /** How the handler leaves: a returned answer or a raised exception. */
  datatype Outcome = Returned(statusCode: int, body: string) | Raised(error: Failure)

  function Pow2(n: nat): nat {
    if n == 0 then 1 else 2 * Pow2(n - 1)
  }

  /** What one attempt leaves behind once the handler is done with it. */
  ghost predicate Reported(outcome: Outcome, alerts: seq<Alert>, waits: seq<int>, early: seq<Alert>,
                           plan: Result<seq<Statement>, Failure>, runs: seq<QueryRun>, output: string)
  {
    && (plan.Fail? ==> outcome == Raised(plan.error) && runs == [])
    && (plan.Ok? ==> RanAsPlanned(runs, Texts(plan.value), output))
    && (outcome == Returned(200, SuccessBody) <==> plan.Ok? && Verdict(runs).None?)
    && (outcome.Raised? ==> waits == [20] && alerts == early + [AttemptFailed(outcome.error)]
                            && (plan.Ok? ==> Verdict(runs) == Some(outcome.error)))
    && (outcome.Returned? ==> outcome == Returned(200, SuccessBody) && waits == [] && alerts == early)
  }

  /** `lambda_handler`. The loop allows three attempts, but the `except`
      block re-raises after its first wait, so there is exactly one attempt,
      never a 500 answer, and a failure waits 20 seconds, notifies and
      raises. `waits` are the `time.sleep` durations. */
  method Handle(event: Option<ObjectRef>, remainingMs: int, read: Option<Document>, accountId: string,
                insertDatetime: string, athena: Athena)
    returns (outcome: Outcome, alerts: seq<Alert>, waits: seq<int>, attempts: nat)
    requires PopulatorEnv(accountId).Some?
    modifies athena
    ensures attempts == 1
    ensures |old(athena.history)| <= |athena.history|
    ensures athena.history[..|old(athena.history)|] == old(athena.history)
    ensures Reported(outcome, alerts, waits, if TimesOut(event, remainingMs) then [ApproachingTimeout] else [],
                     AttemptPlan(event, remainingMs, read, PopulatorEnv(accountId).value, insertDatetime),
                     athena.history[|old(athena.history)|..], S3Output(accountId))
  {
    var currentEnv := PopulatorEnv(accountId).value;
    var output := S3Output(accountId);
    ghost var early := if TimesOut(event, remainingMs) then [ApproachingTimeout] else [];
    ghost var plan := AttemptPlan(event, remainingMs, read, currentEnv, insertDatetime);
    var retries := 0;
    var result: Option<Outcome> := None;
    alerts, waits, attempts := [], [], 0;
    while retries < MaxRetries && result.None?
      invariant result.None? ==> retries == 0 && attempts == 0 && alerts == [] && waits == [] && athena.history == old(athena.history)
      invariant result.Some? ==> attempts == 1 && |old(athena.history)| <= |athena.history|
      invariant result.Some? ==> athena.history[..|old(athena.history)|] == old(athena.history)
      invariant result.Some? ==> Reported(result.value, alerts, waits, early, plan, athena.history[|old(athena.history)|..], output)
      decreases MaxRetries - retries, if result.None? then 1 else 0
    {
      var failure, attemptAlerts := Attempt(event, remainingMs, read, currentEnv, insertDatetime, output, athena);
      attempts := attempts + 1;
      alerts := alerts + attemptAlerts;
      if failure.None? {
        result := Some(Returned(200, SuccessBody));
      } else {
        var e := failure.value;
        retries := retries + 1;
        if retries < MaxRetries {
          waits := waits + [WaitTimeSeconds * Pow2(retries)];
          alerts := alerts + [AttemptFailed(e)];
          result := Some(Raised(e));
        } else {
          result := Some(Returned(500, GaveUpBody));
        }
      }
    }
    outcome := result.value;
  }
}
