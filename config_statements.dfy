/** `generate_statements` of the config-table populator: the DELETE
    statements, and one SELECT fragment per table (plus one per table with an
    active block) that the handler later joins into INSERT statements. */
module ConfigStatements {
  import opened Outcomes
  import opened Strings
  import opened ConfigDocument
  import opened ConfigDefaults

  /** What every fragment of one run shares: the document's `source_name`, the
      environment name (the handler passes `current_env`, which also picks
      the bucket tag) and the `%Y-%m-%d-%H-%M` insert time. */
  datatype Context = Context(source: Field, envName: string, insertDatetime: string)

  /** A statement sent to Athena, kept as what it does; `Sql` gives its text. */
  datatype Statement =
    | DeleteGeneric(source: Field)
    | DeleteActive(source: Field)
    | Insert(table: string, fragments: seq<string>)

  /** The SQL text of a statement: the two DELETEs name the source system,
      an INSERT joins its fragments with ` UNION ALL `. */
  function Sql(st: Statement): string {
    match st
    case DeleteGeneric(source) =>
      "DELETE FROM data_control.edp_generic_file_loads WHERE source_system_name = '" + Render(source) + "';"
    case DeleteActive(source) =>
      "DELETE FROM data_control.active_table_job_config_attributes_iceberg WHERE src_system_name = '" + Render(source) + "';"
    case Insert(table, fragments) =>
      "INSERT INTO data_control." + table + " " + Join(" UNION ALL ", fragments) + ";"
  }

  /** The three lists `generate_statements` returns, and whether active-table
      configuration is present. */
  datatype Generated = Generated(deletes: seq<Statement>, generic: seq<string>, active: seq<string>, activePresent: bool)

  /** `'<value>' AS <alias>`. */
  function Col(value: string, alias: string): string {
    Quote(value) + " AS " + alias
  }

  /** `<value> AS <alias>`, for the unquoted columns. */
  function RawCol(value: string, alias: string): string {
    value + " AS " + alias
  }

  /** `SELECT c1, c2, ..., cn ` (the fragment keeps its trailing space). */
  function Select(cols: seq<string>): string {
    "SELECT " + Join(", ", cols) + " "
  }

  /** A fragment starts with its first column. */
  lemma SelectStartsWith(cols: seq<string>)
    requires |cols| >= 2
    ensures StartsWith(Select(cols), "SELECT " + cols[0] + ", ")
  {
    var r := Select(cols);
    assert r == "SELECT " + cols[0] + ", " + Join(", ", cols[1..]) + " ";
    assert r[..|"SELECT " + cols[0] + ", "|] == "SELECT " + cols[0] + ", ";
  }

  /** `s` with its leading run of `c` removed is `rest`. */
  predicate LeadingStripped(s: string, rest: string, c: char) {
    && |rest| <= |s|
    && rest == s[|s| - |rest|..]
    && (forall i :: 0 <= i < |s| - |rest| ==> s[i] == c)
    && (rest != [] ==> rest[0] != c)
  }

  /** The full source path: an `s3://` location as it is; otherwise, with a
      (truthy) bucket, `s3://<bucket>/` and the location without its leading
      slashes; otherwise the location as it is. A location that is not a
      string has no `startswith`. */
  function FullSourcePath(location: Field, bucket: Field): (r: Result<string, Failure>)
    ensures r.Fail? <==> !location.Str?
    ensures r.Fail? ==> r.error == NotSupported("startswith")
    ensures r.Ok? && (StartsWith(location.s, "s3://") || !Truthy(bucket)) ==> r.value == location.s
    ensures r.Ok? && !StartsWith(location.s, "s3://") && Truthy(bucket) ==>
      && StartsWith(r.value, "s3://" + Render(bucket) + "/")
      && LeadingStripped(location.s, r.value[|"s3://" + Render(bucket) + "/"|..], '/')
  {
    match location
    case Str(s) =>
      if StartsWith(s, "s3://") then Ok(s)
      else if Truthy(bucket) then
        var prefix := "s3://" + Render(bucket) + "/";
        var r := prefix + LStripChar(s, '/');
        assert r[..|prefix|] == prefix && r[|prefix|..] == LStripChar(s, '/');
        Ok(r)
      else Ok(s)
    case _ => Fail(NotSupported("startswith"))
  }

  /** The change-audit bucket tag of an environment. */
  function BucketTag(env: string): (r: string)
    ensures r == "prd" <==> env == "prod"
    ensures r == "dev" <==> env == "non-prod"
    ensures r == "pre-prod" <==> env != "prod" && env != "non-prod"
  {
    if env == "prod" then "prd" else if env == "non-prod" then "dev" else "pre-prod"
  }

  /** The `s3://<bucket>` head of `target_s3_location`. */
  function ChangeAuditBucket(g: Dict, tag: string): (head: string)
    ensures Truthy(GetOr(g, "target_s3_location", Null)) ==> head == "s3://" + Render(g["target_s3_location"])
    ensures !Truthy(GetOr(g, "target_s3_location", Null)) ==> head == "s3://ct-ire-edp-" + tag + "-datastaging-op"
  {
    if "target_s3_location" in g && Truthy(g["target_s3_location"]) then "s3://" + Render(g["target_s3_location"])
    else "s3://ct-ire-edp-" + tag + "-datastaging-op"
  }

  /** `target_s3_location`: under a truthy custom `target_s3_location` bucket,
      otherwise under `ct-ire-edp-<tag>-datastaging-op`; always ending in
      `/changeaudit/<source>/<table>`. */
  function TargetS3Location(g: Dict, tag: string, source: Field, tableName: Field): (r: string)
    ensures EndsWith(r, "/changeaudit/" + Render(source) + "/" + Render(tableName))
    ensures Truthy(GetOr(g, "target_s3_location", Null)) ==>
      StartsWith(r, "s3://" + Render(g["target_s3_location"]) + "/changeaudit/")
    ensures !Truthy(GetOr(g, "target_s3_location", Null)) ==>
      StartsWith(r, "s3://ct-ire-edp-" + tag + "-datastaging-op" + "/changeaudit/")
  {
    var head := ChangeAuditBucket(g, tag);
    var tail := "/changeaudit/" + Render(source) + "/" + Render(tableName);
    StartsWithConcat("/changeaudit/", Render(source));
    StartsWithAppend("/changeaudit/" + Render(source), "/changeaudit/", "/");
    StartsWithAppend("/changeaudit/" + Render(source) + "/", "/changeaudit/", Render(tableName));
    StartsWithExtend(head, tail, "/changeaudit/");
    EndsWithConcat(head, tail);
    head + tail
  }

  /** `tgt_location`: a template the active-table job fills in, under a truthy
      custom `target_s3_location` bucket or under the default bucket template. */
  function TargetLocation(target: Field): (r: string)
    ensures EndsWith(r, "/" + LocationTemplate)
    ensures Truthy(target) ==> StartsWith(r, "s3://" + Render(target) + "/active/")
    ensures !Truthy(target) ==> r == DefaultActiveRoot + "/" + LocationTemplate
  {
    var head :=
      if Truthy(target) then "s3://" + Render(target) + "/active"
      else DefaultActiveRoot;
    var r := head + "/" + LocationTemplate;
    assert r[..|head + "/"|] == head + "/";
    assert r[|r| - |"/" + LocationTemplate|..] == "/" + LocationTemplate;
    r
  }

  /** The bucket template `tgt_location` uses without a custom bucket. */
  const DefaultActiveRoot := "s3://ct-ire-edp-${env-name}-${system-area}/${db_prefix}"

  /** The placeholders every `tgt_location` ends with. */
  const LocationTemplate := "${source_system_name}/${tgt_database_name}/${tgt_table_name}/"

  /** `column_names_str`: the first item of a non-empty list (the first
      character of a non-empty string), `''` for a falsy value. */
  function ColumnNames(ingest: Dict): Result<string, Failure> {
    var c :- Get(ingest, "source_file_column_names");
    match c
    case Items(xs) => Ok(if xs != [] then xs[0] else "")
    case Str(s) => Ok(if s != "" then [s[0]] else "")
    case Scalar(_, truthy) => if truthy then Fail(NotSupported("subscript")) else Ok("")
    case Null => Ok("")
  }

  /** `', '.join(global_active_table_config['ignore_column'])`: a list joins its
      items, a string its characters. */
  function IgnoreColumn(ga: Dict): Result<string, Failure> {
    var c :- Get(ga, "ignore_column");
    match c
    case Items(xs) => Ok(Join(", ", xs))
    case Str(s) => Ok(Join(", ", seq(|s|, i requires 0 <= i < |s| => [s[i]])))
    case _ => Fail(NotSupported("join"))
  }

  /** A control-file column: `NULL` for a missing or null value, its `repr` otherwise. */
  function ControlValue(ingest: Dict, key: string): string {
    var v := GetOr(ingest, key, Null);
    if v.Null? then "NULL" else Repr(v)
  }

  /** One subscript of the generic fragment: into the table's
      `ingestion_config` or into the global ingestion config. */
  datatype Lookup = InIngest(key: string) | InGlobal(key: string)

  function Scope(ingest: Dict, g: Dict, l: Lookup): Dict {
    if l.InIngest? then ingest else g
  }

  predicate Present(ingest: Dict, g: Dict, l: Lookup) {
    l.key in Scope(ingest, g, l)
  }

  /** Lookup `i` is the first of `ls` whose key is absent. */
  predicate FirstAbsent(ingest: Dict, g: Dict, ls: seq<Lookup>, i: nat) {
    && i < |ls| && !Present(ingest, g, ls[i])
    && forall j :: 0 <= j < i ==> Present(ingest, g, ls[j])
  }

  /** The subscripts in order: every value when all keys are present,
      otherwise the `KeyError` of the first absent one. */
  function LookupAll(ingest: Dict, g: Dict, ls: seq<Lookup>): (r: Result<seq<Field>, Failure>)
    ensures r.Ok? <==> forall i :: 0 <= i < |ls| ==> Present(ingest, g, ls[i])
    ensures r.Ok? ==> |r.value| == |ls| && forall i :: 0 <= i < |ls| ==> r.value[i] == Scope(ingest, g, ls[i])[ls[i].key]
    ensures r.Fail? ==> exists i: nat :: FirstAbsent(ingest, g, ls, i) && r.error == KeyMissing(ls[i].key)
    decreases |ls|
  {
    if ls == [] then Ok([])
    else
      var v :- Get(Scope(ingest, g, ls[0]), ls[0].key);
      var rest := LookupAll(ingest, g, ls[1..]);
      if rest.Fail? then
        assert forall j :: 0 <= j < |ls| - 1 ==> ls[1..][j] == ls[j + 1];
        ghost var i: nat :| FirstAbsent(ingest, g, ls[1..], i) && rest.error == KeyMissing(ls[1..][i].key);
        assert FirstAbsent(ingest, g, ls, i + 1);
        Fail(rest.error)
      else
        assert forall j :: 1 <= j < |ls| ==> ls[j] == ls[1..][j - 1];
        Ok([v] + rest.value)
  }

  /** The subscripts of the generic fragment, in the order the f-string
      evaluates them. */
  const GenericLookups: seq<Lookup> := [
    InIngest("source_file_type"), InIngest("source_file_name_wild_card"), InIngest("source_file_date_format"),
    InIngest("source_file_extension"), InIngest("source_file_delimiter"), InIngest("source_file_header_row_exist"),
    InIngest("source_file_header_file_exist"), InIngest("source_file_unique_key_cols"), InIngest("load_frequency"),
    InGlobal("target_database"), InGlobal("truncate_table_flag"), InGlobal("drop_table_flag"),
    InIngest("enabled_flag"), InIngest("partition_columns"), InGlobal("soft_rule_template_name"),
    InIngest("worker_type"), InIngest("worker_num")
  ]

  /** The `edp_generic_file_loads` fragment; lookups fail in column order. */
  function GenericFragment(tableName: Field, ingest: Dict, g: Dict, ctx: Context,
                           fullLocation: string, columns: string, target: string): (r: Result<string, Failure>)
    ensures r.Ok? ==> StartsWith(r.value, "SELECT " + Col(Render(tableName), "source_file_name_pk") + ", ")
  {
    var v :- LookupAll(ingest, g, GenericLookups);
    var fileType, wildCard, dateFormat, extension, delimiter := v[0], v[1], v[2], v[3], v[4];
    var headerRow, headerFile, uniqueKeys, frequency := v[5], v[6], v[7], v[8];
    var database, truncate, drop := v[9], v[10], v[11];
    var enabled, partitions, softRule, workerType, workerNum := v[12], v[13], v[14], v[15], v[16];
    var rest := [
      Col(Render(ctx.source), "source_system_name"),
      Col(Render(fileType), "source_file_type"),
      Col(fullLocation, "source_file_location"),
      Col(Render(wildCard), "source_file_name_wild_card"),
      Col(Render(dateFormat), "source_file_date_format"),
      Col(Render(extension), "source_file_extension"),
      Col(Render(delimiter), "source_file_delimiter"),
      Col(Render(headerRow), "source_file_header_row_exist"),
      Col(Render(headerFile), "source_file_header_file_exist"),
      Col(columns, "source_file_column_names"),
      Col(Render(uniqueKeys), "source_file_unique_key_cols"),
      Col(Render(frequency), "load_frequency"),
      Col(Render(database), "target_database"),
      Col(Render(ctx.source) + "_" + Render(tableName), "target_table_name"),
      Col(target, "target_s3_location"),
      Col(Render(truncate), "truncate_table_flag"),
      Col(Render(drop), "drop_table_flag"),
      Col(Render(enabled), "enabled_flag"),
      Col(Render(partitions), "partition_columns"),
      Col(Render(GetOr(ingest, "job_template_name", Str(" "))), "job_template_name"),
      Col(Render(softRule), "soft_rule_template_name"),
      Col(Render(GetOr(ingest, "source_file_control_footer_exist", Str(""))), "source_file_control_footer_exist"),
      Col(ctx.envName, "environment"),
      Col(Render(GetOr(ingest, "control_file_ind", Str("N"))), "control_file_ind"),
      Col(ctx.insertDatetime, "insert_datetime"),
      Col(Render(workerType), "worker_type"),
      RawCol(Render(workerNum), "worker_num"),
      RawCol(ControlValue(ingest, "control_file_header_row_exist"), "control_file_header_row_exist"),
      RawCol(ControlValue(ingest, "control_file_columns_names"), "control_file_columns_names")
    ];
    var cols := [Col(Render(tableName), "source_file_name_pk")] + rest;
    SelectStartsWith(cols);
    Ok(Select(cols))
  }

  /** The generic fragment fails exactly when one of its subscripts finds
      no key, and then with the `KeyError` of the first such key in column
      order. */
  lemma GenericFragmentFailure(tableName: Field, ingest: Dict, g: Dict, ctx: Context,
                               fullLocation: string, columns: string, target: string)
    ensures var r := GenericFragment(tableName, ingest, g, ctx, fullLocation, columns, target);
      && (r.Ok? <==> forall i :: 0 <= i < |GenericLookups| ==> Present(ingest, g, GenericLookups[i]))
      && (r.Fail? ==> exists i: nat :: FirstAbsent(ingest, g, GenericLookups, i) && r.error == KeyMissing(GenericLookups[i].key))
  {
    var l := LookupAll(ingest, g, GenericLookups);
    var r := GenericFragment(tableName, ingest, g, ctx, fullLocation, columns, target);
    if l.Fail? {
      assert r == Fail(l.error);
      var i: nat :| FirstAbsent(ingest, g, GenericLookups, i) && l.error == KeyMissing(GenericLookups[i].key);
    } else {
      assert r.Ok?;
    }
  }

  /** The `active_table_job_config_attributes_iceberg` fragment; lookups fail
      in column order, the first one into the global active configuration. */
  function ActiveFragment(active: Dict, ga: Dict, ingest: Dict, source: Field, tgtLocation: string): (r: Result<string, Failure>)
    ensures "src_system_name" !in ga ==> r == Fail(KeyMissing("src_system_name"))
    ensures r.Ok? ==> StartsWith(r.value, "SELECT " + Col(Render(ga["src_system_name"]), "src_system_name") + ", ")
  {
    var system :- Get(ga, "src_system_name");
    var tgtTable :- Get(active, "tgt_table_name");
    var tgtDatabase :- Get(ga, "tgt_database_name");
    var softRule :- Get(active, "soft_rule_template_name");
    var srcDatabase :- Get(ga, "src_database_name");
    var srcTable :- Get(active, "src_table_name");
    var keyCols :- Get(active, "key_cols");
    var orderCols :- Get(active, "order_cols");
    var filter :- Get(active, "filter_condition");
    var sortOrder :- Get(active, "sort_order");
    var jobTemplate :- Get(ga, "job_template_name");
    var group :- Get(active, "group_number");
    var changeAudit :- Get(active, "change_audit_flag");
    var ignore :- IgnoreColumn(ga);
    var enabled :- Get(ingest, "enabled_flag");
    var contractSync :- Get(ga, "contract_sync_flag");
    var incremental :- Get(active, "incremental_column_name");
    var order1 :- Get(active, "order_cols_1");
    var order2 :- Get(active, "order_cols_2");
    var workerType :- Get(active, "worker_type");
    var workerNum :- Get(active, "worker_num");
    var rest := [
      Col(Render(tgtTable), "tgt_table_name"),
      Col(Render(tgtDatabase), "tgt_database_name"),
      Col(tgtLocation, "tgt_location"),
      Col(Render(softRule), "soft_rule_template_name"),
      Col(Render(srcDatabase), "src_database_name"),
      Col(Render(source) + "_" + Render(srcTable), "src_table_name"),
      Col(Render(keyCols), "key_cols"),
      Col(Render(orderCols), "order_cols"),
      Col(Render(filter), "filter_condition"),
      Col(Render(sortOrder), "sort_order"),
      Col(Render(jobTemplate), "job_template_name"),
      Col(Render(group), "group_number"),
      Col(Render(changeAudit), "change_audit_flag"),
      Col(ignore, "ignore_column"),
      Col(Render(enabled), "enabled_flag"),
      Col(Render(contractSync), "contract_sync_flag"),
      Col(Render(incremental), "incremental_column_name"),
      Col(Render(order1), "order_cols_1"),
      Col(Render(order2), "order_cols_2"),
      Col(Render(workerType), "worker_type"),
      RawCol(Render(workerNum), "worker_num")
    ];
    var cols := [Col(Render(system), "src_system_name")] + rest;
    SelectStartsWith(cols);
    Ok(Select(cols))
  }

  /** One iteration of the loop over `tables`: the defaults, the table's
      generic fragment and, when it has an active block, its active fragment. */
  function TableFragments(t: Table, g: Dict, ga: Dict, ctx: Context): (r: Result<(string, Option<string>), Failure>)
    ensures r.Ok? ==> (r.value.1.Some? <==> t.active.Some?)
    ensures r.Ok? ==> t.tableName.Some? && StartsWith(r.value.0, "SELECT " + Col(Render(t.tableName.value), "source_file_name_pk") + ", ")
    ensures t.active.Some? && "src_system_name" !in ga ==> r.Fail?
  {
    var d :- DefaultTableConfig(t);
    var ingest := d.ingestion.value;
    var location :- Get(ingest, "source_file_location");
    var full :- FullSourcePath(location, GetOr(g, "source_file_bucket", Str("")));
    var name :- Need(d.tableName, "table_name");
    var tgtLocation := TargetLocation(GetOr(g, "target_s3_location", Null));
    var columns :- ColumnNames(ingest);
    var target := TargetS3Location(g, BucketTag(ctx.envName), ctx.source, name);
    var generic :- GenericFragment(name, ingest, g, ctx, full, columns, target);
    if d.active.None? then Ok((generic, None))
    else
      var active :- ActiveFragment(d.active.value, ga, ingest, ctx.source, tgtLocation);
      Ok((generic, Some(active)))
  }

  /** How many tables have an active block. */
  function CountActive(tables: seq<Table>): nat
    decreases |tables|
  {
    if tables == [] then 0
    else CountActive(tables[..|tables| - 1]) + (if tables[|tables| - 1].active.Some? then 1 else 0)
  }

  /** One result per table, in document order. */
  function TableResults(tables: seq<Table>, g: Dict, ga: Dict, ctx: Context): seq<Result<(string, Option<string>), Failure>> {
    seq(|tables|, i requires 0 <= i < |tables| => TableFragments(tables[i], g, ga, ctx))
  }

  /** Every table's result carries the per-table guarantees. */
  lemma TableResultsFacts(tables: seq<Table>, g: Dict, ga: Dict, ctx: Context)
    ensures var rs := TableResults(tables, g, ga, ctx);
      && |rs| == |tables|
      && (forall i :: 0 <= i < |tables| && rs[i].Ok? ==>
            && (rs[i].value.1.Some? <==> tables[i].active.Some?)
            && tables[i].tableName.Some?
            && StartsWith(rs[i].value.0, "SELECT " + Col(Render(tables[i].tableName.value), "source_file_name_pk") + ", "))
      && (forall i :: 0 <= i < |tables| && tables[i].active.Some? && "src_system_name" !in ga ==> rs[i].Fail?)
  {
    var rs := TableResults(tables, g, ga, ctx);
    forall i | 0 <= i < |tables|
      ensures rs[i] == TableFragments(tables[i], g, ga, ctx)
    {
    }
  }

  /** How many results carry an active fragment. */
  function CountSome(rs: seq<Result<(string, Option<string>), Failure>>): nat
    decreases |rs|
  {
    if rs == [] then 0
    else CountSome(rs[..|rs| - 1]) + (if rs[|rs| - 1].Ok? && rs[|rs| - 1].value.1.Some? then 1 else 0)
  }

  /** The loop's two lists from the per-table results: every generic fragment
      in order, the active ones in order; the first failure stops the loop. */
  function Collect(rs: seq<Result<(string, Option<string>), Failure>>): (r: Result<(seq<string>, seq<string>), Failure>)
    ensures r.Ok? <==> forall i :: 0 <= i < |rs| ==> rs[i].Ok?
    ensures r.Ok? ==>
      && |r.value.0| == |rs|
      && (forall i :: 0 <= i < |rs| ==> r.value.0[i] == rs[i].value.0)
      && |r.value.1| == CountSome(rs)
      && ActiveInOrder(rs, r.value.1)
    ensures r.Fail? ==>
      exists i :: 0 <= i < |rs| && rs[i].Fail? && r.error == rs[i].error && forall j :: 0 <= j < i ==> rs[j].Ok?
    decreases |rs|
  {
    if rs == [] then Ok(([], []))
    else
      var init := rs[..|rs| - 1];
      assert forall i :: 0 <= i < |init| ==> init[i] == rs[i];
      match Collect(init)
      case Fail(e) => Fail(e)
      case Ok(done) =>
        match rs[|rs| - 1]
        case Fail(e) => Fail(e)
        case Ok(last) =>
          ActiveInOrderSnoc(init, rs[|rs| - 1], done.1);
          assert init + [rs[|rs| - 1]] == rs;
          Ok((done.0 + [last.0], done.1 + (if last.1.Some? then [last.1.value] else [])))
  }

  /** The active list holds, at position `CountSome(rs[..i])`, the active
      fragment of every result `i` that carries one. With its length being
      `CountSome(rs)`, this fixes the list: the active fragments in order. */
  predicate ActiveInOrder(rs: seq<Result<(string, Option<string>), Failure>>, active: seq<string>) {
    forall i :: 0 <= i < |rs| && rs[i].Ok? && rs[i].value.1.Some? ==>
      CountSome(rs[..i]) < |active| && active[CountSome(rs[..i])] == rs[i].value.1.value
  }

  /** One more result keeps the active list in order. */
  lemma ActiveInOrderSnoc(rs: seq<Result<(string, Option<string>), Failure>>, last: Result<(string, Option<string>), Failure>, active: seq<string>)
    requires last.Ok? && |active| == CountSome(rs) && ActiveInOrder(rs, active)
    ensures ActiveInOrder(rs + [last], active + (if last.value.1.Some? then [last.value.1.value] else []))
  {
    var rs', active' := rs + [last], active + (if last.value.1.Some? then [last.value.1.value] else []);
    assert rs'[..|rs|] == rs;
    forall i | 0 <= i < |rs'| && rs'[i].Ok? && rs'[i].value.1.Some?
      ensures CountSome(rs'[..i]) < |active'| && active'[CountSome(rs'[..i])] == rs'[i].value.1.value
    {
      if i < |rs| {
        assert rs'[..i] == rs[..i];
        assert rs'[i] == rs[i];
      }
    }
  }

  /** Results that carry an active fragment exactly for the tables with an
      active block count those tables. */
  lemma {:induction false} CountSomeIsCountActive(rs: seq<Result<(string, Option<string>), Failure>>, tables: seq<Table>)
    requires |rs| == |tables|
    requires forall i :: 0 <= i < |rs| ==> rs[i].Ok? && (rs[i].value.1.Some? <==> tables[i].active.Some?)
    ensures CountSome(rs) == CountActive(tables)
    decreases |tables|
  {
    if tables != [] {
      CountSomeIsCountActive(rs[..|rs| - 1], tables[..|tables| - 1]);
    }
  }

  /** Whether active-table configuration is present: a global active block
      and at least one table with an active block (`tables` is only read when
      the global block is there). */
  function ActiveConfigPresent(env: EnvConfig): (r: Result<bool, Failure>)
    ensures r.Fail? <==> env.globalActive.Some? && env.tables.None?
    ensures r.Ok? ==> (r.value <==> env.globalActive.Some? && exists i :: 0 <= i < |env.tables.value| && env.tables.value[i].active.Some?)
  {
    if env.globalActive.None? then Ok(false)
    else
      var tables :- Need(env.tables, "tables");
      Ok(exists i :: 0 <= i < |tables| && tables[i].active.Some?)
  }

  /** `generate_statements` as a value. */
  function GenerateSpec(env: EnvConfig, g: Dict, ga: Dict, ctx: Context): Result<Generated, Failure> {
    var present :- ActiveConfigPresent(env);
    var tables :- Need(env.tables, "tables");
    var frags :- Collect(TableResults(tables, g, ga, ctx));
    Ok(Generated([DeleteGeneric(ctx.source)] + (if present then [DeleteActive(ctx.source)] else []),
                 frags.0, frags.1, present))
  }

  /** A successful `generate_statements` is made of its three parts. */
  lemma GenerateSpecParts(env: EnvConfig, g: Dict, ga: Dict, ctx: Context)
    requires GenerateSpec(env, g, ga, ctx).Ok?
    ensures env.tables.Some? && ActiveConfigPresent(env).Ok?
    ensures Collect(TableResults(env.tables.value, g, ga, ctx)).Ok?
    ensures var present := ActiveConfigPresent(env).value;
      var frags := Collect(TableResults(env.tables.value, g, ga, ctx)).value;
      GenerateSpec(env, g, ga, ctx).value ==
        Generated([DeleteGeneric(ctx.source)] + (if present then [DeleteActive(ctx.source)] else []),
                  frags.0, frags.1, present)
  {
  }

  /** A failing prefix makes the whole loop fail with the same error. */
  lemma {:induction false} CollectPrefixFails(rs: seq<Result<(string, Option<string>), Failure>>, n: nat)
    requires n <= |rs| && Collect(rs[..n]).Fail?
    ensures Collect(rs) == Collect(rs[..n])
    decreases |rs| - n
  {
    if n < |rs| {
      assert rs[..n + 1][..n] == rs[..n];
      CollectPrefixFails(rs, n + 1);
    } else {
      assert rs[..n] == rs;
    }
  }

  /** The loop over the per-table results, appending each table's fragments
      to the two lists and stopping at the first failure. */
  method CollectResults(rs: seq<Result<(string, Option<string>), Failure>>) returns (r: Result<(seq<string>, seq<string>), Failure>)
    ensures r == Collect(rs)
  {
    var generic: seq<string> := [];
    var active: seq<string> := [];
    for i := 0 to |rs|
      invariant Collect(rs[..i]) == Ok((generic, active))
    {
      var t := rs[i];
      ghost var p := rs[..i + 1];
      assert p[..|p| - 1] == rs[..i] && p[|p| - 1] == t;
      if t.Fail? {
        assert Collect(p) == Fail(t.error);
        CollectPrefixFails(rs, i + 1);
        return Fail(t.error);
      }
      assert Collect(p) == Ok((generic + [t.value.0], active + (if t.value.1.Some? then [t.value.1.value] else [])));
      generic := generic + [t.value.0];
      if t.value.1.Some? {
        active := active + [t.value.1.value];
      } else {
        assert active + [] == active;
      }
    }
    assert rs[..|rs|] == rs;
    return Ok((generic, active));
  }

  /** `generate_statements`: the DELETE list, then the loop over `tables`. */
  method GenerateStatements(env: EnvConfig, g: Dict, ga: Dict, ctx: Context) returns (r: Result<Generated, Failure>)
    ensures r == GenerateSpec(env, g, ga, ctx)
  {
    var deletes := [DeleteGeneric(ctx.source)];
    var present :- ActiveConfigPresent(env);
    if present {
      deletes := deletes + [DeleteActive(ctx.source)];
    }
    if env.tables.None? {
      return Fail(KeyMissing("tables"));
    }
    assert deletes == [DeleteGeneric(ctx.source)] + (if present then [DeleteActive(ctx.source)] else []);
    var frags :- CollectResults(TableResults(env.tables.value, g, ga, ctx));
    return Ok(Generated(deletes, frags.0, frags.1, present));
  }

  // ---------------------------------------------------------------------
  // What `generate_statements` promises.
  // ---------------------------------------------------------------------

  lemma {:induction false} CountActivePositive(tables: seq<Table>, i: nat)
    requires i < |tables| && tables[i].active.Some?
    ensures CountActive(tables) > 0
    decreases |tables|
  {
    if i < |tables| - 1 {
      CountActivePositive(tables[..|tables| - 1], i);
    }
  }

  lemma {:induction false} CountActiveZero(tables: seq<Table>)
    requires forall i :: 0 <= i < |tables| ==> tables[i].active.None?
    ensures CountActive(tables) == 0
    decreases |tables|
  {
    if tables != [] {
      CountActiveZero(tables[..|tables| - 1]);
    }
  }

  /** The `edp_generic_file_loads` DELETE comes first; the active-table
      DELETE follows exactly when active configuration is present. There is
      one generic fragment per table, in document order, naming that table,
      and one active fragment per table with an active block. */
  lemma StatementCounts(env: EnvConfig, g: Dict, ga: Dict, ctx: Context)
    requires GenerateSpec(env, g, ga, ctx).Ok?
    ensures var gen := GenerateSpec(env, g, ga, ctx).value;
      var tables := env.tables.value;
      && env.tables.Some?
      && (gen.activePresent <==> env.globalActive.Some? && exists i :: 0 <= i < |tables| && tables[i].active.Some?)
      && gen.deletes[0] == DeleteGeneric(ctx.source)
      && |gen.deletes| == (if gen.activePresent then 2 else 1)
      && (gen.activePresent ==> gen.deletes[1] == DeleteActive(ctx.source))
      && |gen.generic| == |tables|
      && (forall i :: 0 <= i < |tables| ==>
            tables[i].tableName.Some? && StartsWith(gen.generic[i], "SELECT " + Col(Render(tables[i].tableName.value), "source_file_name_pk") + ", "))
      && |gen.active| == CountActive(tables)
  {
    GenerateSpecParts(env, g, ga, ctx);
    var tables := env.tables.value;
    var rs := TableResults(tables, g, ga, ctx);
    TableResultsFacts(tables, g, ga, ctx);
    var gen := GenerateSpec(env, g, ga, ctx).value;
    assert gen.generic == Collect(rs).value.0 && gen.active == Collect(rs).value.1;
    forall i | 0 <= i < |tables|
      ensures tables[i].tableName.Some? && StartsWith(gen.generic[i], "SELECT " + Col(Render(tables[i].tableName.value), "source_file_name_pk") + ", ")
    {
      assert gen.generic[i] == rs[i].value.0;
    }
    CountSomeIsCountActive(rs, tables);
  }

  /** The generic fragments are the tables' own, in document order, and the
      active fragment of the `i`-th table sits at position
      `CountActive(tables[..i])`: the active fragments in table order. */
  lemma FragmentsInOrder(env: EnvConfig, g: Dict, ga: Dict, ctx: Context)
    requires GenerateSpec(env, g, ga, ctx).Ok?
    ensures env.tables.Some? && |GenerateSpec(env, g, ga, ctx).value.generic| == |env.tables.value|
    ensures var gen := GenerateSpec(env, g, ga, ctx).value;
      var tables := env.tables.value;
      forall i :: 0 <= i < |tables| ==>
        && TableFragments(tables[i], g, ga, ctx).Ok?
        && gen.generic[i] == TableFragments(tables[i], g, ga, ctx).value.0
        && (tables[i].active.Some? ==>
              CountActive(tables[..i]) < |gen.active| &&
              gen.active[CountActive(tables[..i])] == TableFragments(tables[i], g, ga, ctx).value.1.value)
  {
    GenerateSpecParts(env, g, ga, ctx);
    var tables := env.tables.value;
    var rs := TableResults(tables, g, ga, ctx);
    TableResultsFacts(tables, g, ga, ctx);
    var gen := GenerateSpec(env, g, ga, ctx).value;
    assert gen.generic == Collect(rs).value.0 && gen.active == Collect(rs).value.1;
    forall i | 0 <= i < |tables|
      ensures TableFragments(tables[i], g, ga, ctx).Ok?
      ensures gen.generic[i] == TableFragments(tables[i], g, ga, ctx).value.0
      ensures tables[i].active.Some? ==>
        CountActive(tables[..i]) < |gen.active| &&
        gen.active[CountActive(tables[..i])] == TableFragments(tables[i], g, ga, ctx).value.1.value
    {
      assert rs[i] == TableFragments(tables[i], g, ga, ctx);
      if tables[i].active.Some? {
        PrefixCount(rs, tables, i);
      }
    }
  }

  /** The active fragments before result `i` are those of the tables before it. */
  lemma PrefixCount(rs: seq<Result<(string, Option<string>), Failure>>, tables: seq<Table>, i: nat)
    requires i <= |rs| == |tables|
    requires forall j :: 0 <= j < |rs| ==> rs[j].Ok? && (rs[j].value.1.Some? <==> tables[j].active.Some?)
    ensures CountSome(rs[..i]) == CountActive(tables[..i])
  {
    CountSomeIsCountActive(rs[..i], tables[..i]);
  }

  /** A table with an active block under an environment without
      `global_active_table_config` makes `generate_statements` fail: the
      handler passes `{}` and the fragment's first lookup raises. */
  lemma ActiveWithoutGlobalFails(env: EnvConfig, g: Dict, ctx: Context, i: nat)
    requires env.globalActive.None? && env.tables.Some?
    requires i < |env.tables.value| && env.tables.value[i].active.Some?
    ensures GenerateSpec(env, g, map[], ctx).Fail?
  {
    var rs := TableResults(env.tables.value, g, map[], ctx);
    TableResultsFacts(env.tables.value, g, map[], ctx);
    assert rs[i].Fail?;
    assert Collect(rs).Fail?;
  }

  /** With the global active configuration the handler passes (`{}` when
      active configuration is absent), a successful run has active fragments
      exactly when active configuration is present, so the handler's extra
      `and active_table_insert_statements` test never changes the outcome. */
  lemma ActiveFragmentsIffPresent(env: EnvConfig, g: Dict, ga: Dict, ctx: Context)
    requires GenerateSpec(env, g, ga, ctx).Ok?
    requires !GenerateSpec(env, g, ga, ctx).value.activePresent ==> ga == map[]
    ensures var gen := GenerateSpec(env, g, ga, ctx).value;
      gen.activePresent <==> |gen.active| > 0
  {
    var gen := GenerateSpec(env, g, ga, ctx).value;
    var tables := env.tables.value;
    StatementCounts(env, g, ga, ctx);
    if gen.activePresent {
      var i :| 0 <= i < |tables| && tables[i].active.Some?;
      CountActivePositive(tables, i);
    } else {
      assert forall i :: 0 <= i < |tables| ==> tables[i].active.None? by {
        GenerateSpecParts(env, g, ga, ctx);
        var rs := TableResults(tables, g, ga, ctx);
        TableResultsFacts(tables, g, ga, ctx);
        assert forall i :: 0 <= i < |tables| ==> rs[i].Ok?;
      }
      CountActiveZero(tables);
    }
  }
}
