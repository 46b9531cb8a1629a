/** The three `setdefault` resolvers of the config-table populator. */
module ConfigDefaults {
  import opened Outcomes
  import opened Strings
  import opened ConfigDocument

  /** `default_global_ingest_config`. */
  function GlobalIngestDefaults(): seq<(string, Field)> {
    [ ("truncate_table_flag", Str("Y")),
      ("drop_table_flag", Str("N")),
      ("soft_rule_template_name", Str("")),
      ("target_database", Str("changeaudit")),
      ("source_file_bucket", Str("")) ]
  }

  /** `default_global_active_table_config`; `source` is the document's `source_name`. */
  function GlobalActiveDefaults(source: Field): seq<(string, Field)> {
    [ ("src_system_name", source),
      ("tgt_database_name", Str(Render(source) + "_main")),
      ("src_database_name", Str("changeaudit")),
      ("contract_sync_flag", Str("Y")) ]
  }

  /** The active-block half of `default_table_config`. */
  function TableActiveDefaults(tableName: Field): seq<(string, Field)> {
    [ ("tgt_table_name", Str("a_" + Render(tableName))),
      ("src_table_name", tableName),
      ("group_number", Str("1")),
      ("incremental_column_name", Str("")),
      ("change_audit_flag", Str("N")) ]
  }

  /** The ingestion half of `default_table_config`. */
  function IngestionDefaults(): seq<(string, Field)> {
    [ ("source_file_date_format", Str("YYYYMMDD")),
      ("source_file_type", Str("csv")),
      ("source_file_extension", Str(".csv")),
      ("source_file_delimiter", Str(";")),
      ("source_file_header_row_exist", Str("true")),
      ("source_file_header_file_exist", Str("N")),
      ("enabled_flag", Str("Y")) ]
  }

  function DefaultGlobalIngest(d: Dict): Dict {
    ApplyDefaults(d, GlobalIngestDefaults())
  }

  function DefaultGlobalActive(d: Dict, source: Field): Dict {
    ApplyDefaults(d, GlobalActiveDefaults(source))
  }

  function DefaultIngestion(d: Dict): Dict {
    ApplyDefaults(d, IngestionDefaults())
  }

  function DefaultActive(d: Dict, tableName: Field): Dict {
    ApplyDefaults(d, TableActiveDefaults(tableName))
  }

  /** `default_table_config`: the active block is filled in only when it is
      there, and then `table_name` must be; the ingestion block must be there. */
  function DefaultTableConfig(t: Table): (r: Result<Table, Failure>)
    ensures r.Ok? <==> t.ingestion.Some? && (t.active.Some? ==> t.tableName.Some?)
    ensures r.Fail? ==> r.error == (if t.active.Some? && t.tableName.None? then KeyMissing("table_name") else KeyMissing("ingestion_config"))
    ensures r.Ok? ==>
      && r.value.tableName == t.tableName
      && r.value.ingestion == Some(DefaultIngestion(t.ingestion.value))
      && r.value.active == (if t.active.Some? then Some(DefaultActive(t.active.value, t.tableName.value)) else None)
  {
    if t.active.Some? && t.tableName.None? then Fail(KeyMissing("table_name"))
    else if t.ingestion.None? then Fail(KeyMissing("ingestion_config"))
    else
      var active := if t.active.Some? then Some(DefaultActive(t.active.value, t.tableName.value)) else None;
      Ok(Table(t.tableName, Some(DefaultIngestion(t.ingestion.value)), active))
  }

  // ---------------------------------------------------------------------
  // What the resolvers promise.
  // ---------------------------------------------------------------------

  /** The global ingestion resolver keeps every existing value, adds only its
      own five keys, gives each absent one its default, and is idempotent. */
  lemma GlobalIngestResolved(d: Dict)
    ensures var r := DefaultGlobalIngest(d);
      && r.Keys == d.Keys + {"truncate_table_flag", "drop_table_flag", "soft_rule_template_name", "target_database", "source_file_bucket"}
      && (forall k :: k in d ==> r[k] == d[k])
      && ("truncate_table_flag" !in d ==> r["truncate_table_flag"] == Str("Y"))
      && ("drop_table_flag" !in d ==> r["drop_table_flag"] == Str("N"))
      && ("soft_rule_template_name" !in d ==> r["soft_rule_template_name"] == Str(""))
      && ("target_database" !in d ==> r["target_database"] == Str("changeaudit"))
      && ("source_file_bucket" !in d ==> r["source_file_bucket"] == Str(""))
      && DefaultGlobalIngest(r) == r
  {
    var defs := GlobalIngestDefaults();
    assert DefaultKeys(defs) == {defs[0].0, defs[1].0, defs[2].0, defs[3].0, defs[4].0};
    assert DistinctKeys(defs) by {
      assert defs == GlobalIngestDefaults();
    }
    ApplyDefaultsAbsent(d, defs);
    ApplyDefaultsIdempotent(d, defs);
  }

  /** The global active resolver keeps every existing value, defaults the
      system name to `source_name` and the target database to
      `<source_name>_main`, and is idempotent. */
  lemma GlobalActiveResolved(d: Dict, source: Field)
    ensures var r := DefaultGlobalActive(d, source);
      && r.Keys == d.Keys + {"src_system_name", "tgt_database_name", "src_database_name", "contract_sync_flag"}
      && (forall k :: k in d ==> r[k] == d[k])
      && ("src_system_name" !in d ==> r["src_system_name"] == source)
      && ("tgt_database_name" !in d ==> r["tgt_database_name"] == Str(Render(source) + "_main"))
      && ("src_database_name" !in d ==> r["src_database_name"] == Str("changeaudit"))
      && ("contract_sync_flag" !in d ==> r["contract_sync_flag"] == Str("Y"))
      && DefaultGlobalActive(r, source) == r
  {
    var defs := GlobalActiveDefaults(source);
    assert DefaultKeys(defs) == {defs[0].0, defs[1].0, defs[2].0, defs[3].0};
    assert DistinctKeys(defs) by {
      assert defs == GlobalActiveDefaults(source);
    }
    ApplyDefaultsAbsent(d, defs);
    ApplyDefaultsIdempotent(d, defs);
  }

  /** The ingestion defaults of `default_table_config`. */
  lemma IngestionResolved(d: Dict)
    ensures var r := DefaultIngestion(d);
      && r.Keys == d.Keys + {"source_file_date_format", "source_file_type", "source_file_extension", "source_file_delimiter",
                             "source_file_header_row_exist", "source_file_header_file_exist", "enabled_flag"}
      && (forall k :: k in d ==> r[k] == d[k])
      && ("source_file_date_format" !in d ==> r["source_file_date_format"] == Str("YYYYMMDD"))
      && ("source_file_type" !in d ==> r["source_file_type"] == Str("csv"))
      && ("source_file_extension" !in d ==> r["source_file_extension"] == Str(".csv"))
      && ("source_file_delimiter" !in d ==> r["source_file_delimiter"] == Str(";"))
      && ("source_file_header_row_exist" !in d ==> r["source_file_header_row_exist"] == Str("true"))
      && ("source_file_header_file_exist" !in d ==> r["source_file_header_file_exist"] == Str("N"))
      && ("enabled_flag" !in d ==> r["enabled_flag"] == Str("Y"))
      && DefaultIngestion(r) == r
  {
    var defs := IngestionDefaults();
    assert DefaultKeys(defs) == {defs[0].0, defs[1].0, defs[2].0, defs[3].0, defs[4].0, defs[5].0, defs[6].0};
    assert DistinctKeys(defs) by {
      assert defs == IngestionDefaults();
    }
    ApplyDefaultsAbsent(d, defs);
    ApplyDefaultsIdempotent(d, defs);
  }

  /** The active-block defaults of `default_table_config`: the target table is
      `a_<table_name>` and the source table is `table_name` unless given. */
  lemma ActiveResolved(d: Dict, tableName: Field)
    ensures var r := DefaultActive(d, tableName);
      && r.Keys == d.Keys + {"tgt_table_name", "src_table_name", "group_number", "incremental_column_name", "change_audit_flag"}
      && (forall k :: k in d ==> r[k] == d[k])
      && ("tgt_table_name" !in d ==> r["tgt_table_name"] == Str("a_" + Render(tableName)))
      && ("src_table_name" !in d ==> r["src_table_name"] == tableName)
      && ("group_number" !in d ==> r["group_number"] == Str("1"))
      && ("incremental_column_name" !in d ==> r["incremental_column_name"] == Str(""))
      && ("change_audit_flag" !in d ==> r["change_audit_flag"] == Str("N"))
      && DefaultActive(r, tableName) == r
  {
    var defs := TableActiveDefaults(tableName);
    assert DefaultKeys(defs) == {defs[0].0, defs[1].0, defs[2].0, defs[3].0, defs[4].0};
    assert DistinctKeys(defs) by {
      assert defs == TableActiveDefaults(tableName);
    }
    ApplyDefaultsAbsent(d, defs);
    ApplyDefaultsIdempotent(d, defs);
  }

  /** `default_table_config` touches the active block only when it exists, and
      running it a second time changes nothing. */
  lemma TableConfigResolved(t: Table)
    requires t.ingestion.Some? && (t.active.Some? ==> t.tableName.Some?)
    ensures DefaultTableConfig(t).Ok?
    ensures var r := DefaultTableConfig(t).value;
      && r.tableName == t.tableName
      && (r.active.Some? <==> t.active.Some?)
      && DefaultTableConfig(r) == Ok(r)
  {
    var r := DefaultTableConfig(t).value;
    IngestionResolved(t.ingestion.value);
    if t.active.Some? {
      ActiveResolved(t.active.value, t.tableName.value);
    }
  }
}
