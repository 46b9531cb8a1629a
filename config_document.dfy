/** The JSON control document the config-table populator reads, the dict
    operations it performs on it, and the ways a lookup can raise. */
module ConfigDocument {
  import opened Outcomes
  import opened Strings

  /** A JSON value as the populator uses it. `Scalar` is a number or a boolean:
      its `str()`/`repr()` text and its truthiness. */
  datatype Field =
    | Str(s: string)
    | Scalar(text: string, truthy: bool)
    | Items(xs: seq<string>)
    | Null

  /** A JSON object: keys to values. */
  type Dict = map<string, Field>

  /** One entry of `tables`. A missing key is `None`. */
  datatype Table = Table(tableName: Option<Field>, ingestion: Option<Dict>, active: Option<Dict>)

  /** One entry of `environments`. */
  datatype EnvConfig = EnvConfig(globalIngestion: Option<Dict>, globalActive: Option<Dict>, tables: Option<seq<Table>>)

  /** The whole control file. */
  datatype Document = Document(sourceName: Option<Field>, environments: Option<map<string, EnvConfig>>)

  /** What makes one attempt of the handler raise. */
  datatype Failure =
    | MalformedEvent                 // `event['Records'][0]['s3'][...]` fails
    | TimeoutWarning                 // "Timeout warning raised."
    | UnreadableObject               // `get_object`, `decode` or `json.loads` raises
    | KeyMissing(key: string)        // `KeyError`
    | NotSupported(operation: string) // `TypeError`/`AttributeError` on a value of the wrong JSON type
    | Unbound(name: string)          // a local read before assignment
    | QueryFailed(statement: string, status: string) // the query ended `FAILED` or `CANCELLED`
    | QueryRejected(statement: string) // the Athena client call itself raised

  /** Python truthiness. */
  predicate Truthy(f: Field) {
    match f
    case Str(s) => s != ""
    case Scalar(_, t) => t
    case Items(xs) => xs != []
    case Null => false
  }

  function Quote(s: string): string {
    "'" + s + "'"
  }

  function QuoteAll(xs: seq<string>): (r: seq<string>)
    ensures |r| == |xs| && forall i :: 0 <= i < |xs| ==> r[i] == Quote(xs[i])
  {
    seq(|xs|, i requires 0 <= i < |xs| => Quote(xs[i]))
  }

  /** `str(f)`, as an f-string interpolates it. */
  function Render(f: Field): string {
    match f
    case Str(s) => s
    case Scalar(t, _) => t
    case Items(xs) => "[" + Join(", ", QuoteAll(xs)) + "]"
    case Null => "None"
  }

  /** `repr(f)`: strings are quoted, everything else prints as `str`. */
  function Repr(f: Field): string {
    if f.Str? then Quote(f.s) else Render(f)
  }

  /** `d[k]`. */
  function Get(d: Dict, k: string): (r: Result<Field, Failure>)
    ensures r.Ok? <==> k in d
    ensures r.Ok? ==> r.value == d[k]
    ensures r.Fail? ==> r.error == KeyMissing(k)
  {
    if k in d then Ok(d[k]) else Fail(KeyMissing(k))
  }

  /** `d.get(k, default)`. */
  function GetOr(d: Dict, k: string, default: Field): (r: Field)
    ensures k in d ==> r == d[k]
    ensures k !in d ==> r == default
  {
    if k in d then d[k] else default
  }

  /** A required key of a fixed-shape object. */
  function Need<T>(o: Option<T>, key: string): (r: Result<T, Failure>)
    ensures r.Ok? <==> o.Some?
    ensures r.Ok? ==> r.value == o.value
    ensures r.Fail? ==> r.error == KeyMissing(key)
  {
    if o.Some? then Ok(o.value) else Fail(KeyMissing(key))
  }

  // ---------------------------------------------------------------------
  // `setdefault`
  // ---------------------------------------------------------------------

  /** `d.setdefault(k, v)`, as the new dict (the returned value is unused). */
  function SetDefault(d: Dict, k: string, v: Field): Dict {
    if k in d then d else d[k := v]
  }

  function DefaultKeys(defs: seq<(string, Field)>): set<string> {
    set i | 0 <= i < |defs| :: defs[i].0
  }

  /** The `setdefault` calls of one resolver, made in order. */
  function ApplyDefaults(d: Dict, defs: seq<(string, Field)>): (r: Dict)
    ensures r.Keys == d.Keys + DefaultKeys(defs)
    ensures forall k :: k in d ==> r[k] == d[k]
    decreases |defs|
  {
    if defs == [] then d
    else
      var r := ApplyDefaults(SetDefault(d, defs[0].0, defs[0].1), defs[1..]);
      assert DefaultKeys(defs) == {defs[0].0} + DefaultKeys(defs[1..]) by {
        forall k | k in DefaultKeys(defs) ensures k in {defs[0].0} + DefaultKeys(defs[1..]) {
          var i :| 0 <= i < |defs| && defs[i].0 == k;
          if i > 0 { assert defs[1..][i - 1].0 == k; }
        }
        forall k | k in DefaultKeys(defs[1..]) ensures k in DefaultKeys(defs) {
          var i :| 0 <= i < |defs[1..]| && defs[1..][i].0 == k;
          assert defs[i + 1].0 == k;
        }
      }
      r
  }

  /** A key absent from `d` gets the value of its first default. */
  lemma {:induction false} ApplyDefaultsFirst(d: Dict, defs: seq<(string, Field)>, i: nat)
    requires i < |defs| && defs[i].0 !in d
    requires forall j :: 0 <= j < i ==> defs[j].0 != defs[i].0
    ensures defs[i].0 in ApplyDefaults(d, defs)
    ensures ApplyDefaults(d, defs)[defs[i].0] == defs[i].1
    decreases i
  {
    var d' := SetDefault(d, defs[0].0, defs[0].1);
    if i == 0 {
      assert d'[defs[0].0] == defs[0].1;
    } else {
      assert defs[1..][i - 1] == defs[i];
      ApplyDefaultsFirst(d', defs[1..], i - 1);
    }
  }

  /** No key is defaulted twice. */
  predicate DistinctKeys(defs: seq<(string, Field)>) {
    forall i, j :: 0 <= i < j < |defs| ==> defs[i].0 != defs[j].0
  }

  /** Every defaulted key ends up present, and an absent one gets its default. */
  lemma ApplyDefaultsAbsent(d: Dict, defs: seq<(string, Field)>)
    requires DistinctKeys(defs)
    ensures forall i :: 0 <= i < |defs| ==>
      && defs[i].0 in ApplyDefaults(d, defs)
      && (defs[i].0 !in d ==> ApplyDefaults(d, defs)[defs[i].0] == defs[i].1)
  {
    forall i | 0 <= i < |defs|
      ensures defs[i].0 in ApplyDefaults(d, defs)
      ensures defs[i].0 !in d ==> ApplyDefaults(d, defs)[defs[i].0] == defs[i].1
    {
      assert defs[i].0 in DefaultKeys(defs);
      if defs[i].0 !in d {
        ApplyDefaultsFirst(d, defs, i);
      }
    }
  }

  /** Defaults whose keys are all present change nothing. */
  lemma {:induction false} ApplyDefaultsPresent(d: Dict, defs: seq<(string, Field)>)
    requires DefaultKeys(defs) <= d.Keys
    ensures ApplyDefaults(d, defs) == d
    decreases |defs|
  {
    if defs != [] {
      assert defs[0].0 in DefaultKeys(defs);
      assert DefaultKeys(defs[1..]) <= DefaultKeys(defs) by {
        forall k | k in DefaultKeys(defs[1..]) ensures k in DefaultKeys(defs) {
          var i :| 0 <= i < |defs[1..]| && defs[1..][i].0 == k;
          assert defs[i + 1].0 == k;
        }
      }
      ApplyDefaultsPresent(d, defs[1..]);
    }
  }

  /** Running a resolver a second time changes nothing. */
  lemma ApplyDefaultsIdempotent(d: Dict, defs: seq<(string, Field)>)
    ensures ApplyDefaults(ApplyDefaults(d, defs), defs) == ApplyDefaults(d, defs)
  {
    ApplyDefaultsPresent(ApplyDefaults(d, defs), defs);
  }
}
