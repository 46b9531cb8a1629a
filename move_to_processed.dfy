/** The handler that moves a processed table's landing files into a dated
    `processed/` folder. It parses the same notification text as the
    active-table starter, picks the landing bucket from the source system and
    the environment, and for each of `control/`, `data/` and `header/` copies
    every listed object to its new key and deletes the original. S3 is an
    in-memory object store; the clock's `%Y-%m-%d-%H-%M` partition is a
    parameter. */
module MoveToProcessed {
  import opened Outcomes
  import opened Strings
  import opened Accounts
  import opened SnsMessage

  const EnvAccountMapping: Mapping := [("dev", "649505956583"), ("pre-prod", "681131072283"), ("prod", "014390686996")]

  /** `current_env` (this handler has no `-full-load` test); `None` makes the
      module raise at load time. */
  function MoverEnv(accountId: string): Option<string> {
    FirstEnv(EnvAccountMapping, accountId, false)
  }

  /** Each of the three accounts selects its own environment, and no other
      account selects any. */
  lemma MoverEnvChoice(accountId: string)
    ensures accountId == "649505956583" ==> MoverEnv(accountId) == Some("dev")
    ensures accountId == "681131072283" ==> MoverEnv(accountId) == Some("pre-prod")
    ensures accountId == "014390686996" ==> MoverEnv(accountId) == Some("prod")
    ensures MoverEnv(accountId).None? <==>
      accountId != "649505956583" && accountId != "681131072283" && accountId != "014390686996"
  {
    assert FirstEnvFrom(EnvAccountMapping, accountId, false, 3) == None;
  }

  // ---------------------------------------------------------------------
  // Paths and buckets.
  // ---------------------------------------------------------------------

  /** The landing sub-folders, in the order they are moved. */
  const Folders: seq<string> := ["control", "data", "header"]

  function BasePath(source: string, table: string): string {
    "landing/" + source + "/" + table + "/"
  }

  function DestinationBase(base: string, partition: string): string {
    base + "processed/" + partition + "/"
  }

  /** The `(source_prefix, destination_prefix)` of each loop iteration. */
  function FolderPrefixes(base: string, destinationBase: string): (r: seq<(string, string)>)
    ensures |r| == |Folders|
    ensures forall i :: 0 <= i < |Folders| ==> r[i] == (base + Folders[i] + "/", destinationBase + Folders[i] + "/")
  {
    seq(|Folders|, i requires 0 <= i < |Folders| => (base + Folders[i] + "/", destinationBase + Folders[i] + "/"))
  }

  /** `source_bucket`: `None` where the source leaves it unassigned (an
      `insure` or `ohi` system outside `dev` and `prod`). */
  function SourceBucket(source: string, env: string): (r: Option<string>)
    ensures r.None? <==> (Contains(source, "insure") || Contains(source, "ohi")) && env != "dev" && env != "prod"
    ensures Contains(source, "insure") && r.Some? ==>
      r.value == (if env == "dev" then "ct-ire-edp-non-prod-africa-insure" else "ct-ire-edp-prod-africa-insure")
    ensures !Contains(source, "insure") && Contains(source, "ohi") && r.Some? ==>
      r.value == (if env == "dev" then "ct-ire-edp-non-prod-africa-health" else "ct-ire-edp-prod-africa-health")
    ensures !Contains(source, "insure") && !Contains(source, "ohi") ==> r == Some("ct-ire-edp-prd-dumps")
  {
    if Contains(source, "insure") then
      if env == "dev" then Some("ct-ire-edp-non-prod-africa-insure")
      else if env == "prod" then Some("ct-ire-edp-prod-africa-insure")
      else None
    else if Contains(source, "ohi") then
      if env == "dev" then Some("ct-ire-edp-non-prod-africa-health")
      else if env == "prod" then Some("ct-ire-edp-prod-africa-health")
      else None
    else Some("ct-ire-edp-prd-dumps")
  }

  // ---------------------------------------------------------------------
  // The decision.
  // ---------------------------------------------------------------------

  /** A JSON-ready response value. */
  datatype Value = Int(i: int) | Text(s: string)

  /** The dict the handler returns; bodies are the texts before `json.dumps`. */
  type Response = map<string, Value>

  function Answer(statusCode: int, body: string): Response {
    map["statusCode" := Int(statusCode), "body" := Text(body)]
  }

  /** The literal `'statusCode: 200,' 'body'` is one key, so the success
      dict has no status code entry at all. */
  const SuccessResponse: Response := map["statusCode: 200,body" := Text("Files moved successfully")]

  datatype Failure =
    | MalformedEvent            // no `Records[0].Sns.Message`
    | Unbound(name: string)     // a local read before assignment
    | MissingObject             // `copy_object` of a key that is not there

  /** Answer at once, or move the files under `pairs` inside `bucket`. */
  datatype Plan = Respond(response: Response) | Moves(bucket: string, pairs: seq<(string, string)>)

  /** The handler up to the loop over the folders. */
  function Decide(message: Option<string>, currentEnv: string, partition: string): Result<Plan, Failure> {
    if message.None? then Fail(MalformedEvent)
    else
      match Parse(message.value)
      case None => Ok(Respond(Answer(400, UnparsableBody)))
      case Some(parts) => DecideParts(parts, currentEnv, partition)
  }

  /** What follows a successful match, from the stripped groups. It answers
      400 only for a source name that is not part of the table name, raises
      exactly when the table search or the bucket choice comes up empty, and
      does not depend on the environment named in the message. */
  function DecideParts(parts: Parts, currentEnv: string, partition: string): (r: Result<Plan, Failure>)
    ensures r.Ok? && r.value.Respond? <==> !Contains(parts.table, parts.source)
    ensures r.Fail? <==>
      Contains(parts.table, parts.source) &&
      (ExtractTable(parts.source, parts.table).None? || SourceBucket(parts.source, currentEnv).None?)
    ensures r.Fail? ==> r.error == (if ExtractTable(parts.source, parts.table).None? then Unbound("extracted_table_name") else Unbound("source_bucket"))
  {
    var Parts(source, table, _) := parts;
    if !Contains(table, source) then Ok(Respond(Answer(400, MismatchBody(source, table))))
    else
      match ExtractTable(source, table)
      case None => Fail(Unbound("extracted_table_name"))
      case Some(extracted) =>
        var base := BasePath(source, extracted);
        match SourceBucket(source, currentEnv)
        case None => Fail(Unbound("source_bucket"))
        case Some(bucket) => Ok(Moves(bucket, FolderPrefixes(base, DestinationBase(base, partition))))
  }

  /** A message the pattern rejects is answered 400 and moves nothing. */
  lemma UnparsableIsRejected(message: string, currentEnv: string, partition: string)
    requires Parse(message).None?
    ensures Decide(Some(message), currentEnv, partition) == Ok(Respond(Answer(400, UnparsableBody)))
  {
  }

  /** A move covers exactly the folders `control/`, `data/` and `header/`
      under `landing/<source>/<table>/`, in that order, each into
      `landing/<source>/<table>/processed/<partition>/`, in the chosen bucket. */
  lemma MovesFolders(parts: Parts, currentEnv: string, partition: string)
    requires DecideParts(parts, currentEnv, partition).Ok?
    requires DecideParts(parts, currentEnv, partition).value.Moves?
    ensures var x := ExtractTable(parts.source, parts.table);
      var d := DecideParts(parts, currentEnv, partition).value;
      var base := "landing/" + parts.source + "/" + x.value + "/";
      && x.Some? && SourceBucket(parts.source, currentEnv).Some?
      && d.bucket == SourceBucket(parts.source, currentEnv).value
      && |d.pairs| == 3
      && forall i :: 0 <= i < 3 ==>
           d.pairs[i] == (base + Folders[i] + "/", base + "processed/" + partition + "/" + Folders[i] + "/")
  {
  }

  /** The environment named in the message plays no part. */
  lemma IgnoresMessageEnvironment(parts: Parts, env: string, currentEnv: string, partition: string)
    ensures DecideParts(Parts(parts.source, parts.table, env), currentEnv, partition) == DecideParts(parts, currentEnv, partition)
  {
  }

  /** The success dict has a single, oddly named key and no `statusCode`. */
  lemma SuccessResponseHasNoStatusCode()
    ensures SuccessResponse.Keys == {"statusCode: 200,body"}
    ensures "statusCode" !in SuccessResponse && "body" !in SuccessResponse
  {
    assert "statusCode" != "statusCode: 200,body";
  }

  // ---------------------------------------------------------------------
  // The object store and `move_files`.
  // ---------------------------------------------------------------------

  datatype ObjectId = ObjectId(bucket: string, key: string)

  type Body = seq<bv8>

  type Objects = map<ObjectId, Body>

  /** The keys under `prefix` in `bucket`. */
  function KeysUnder(objects: Objects, bucket: string, prefix: string): set<string> {
    set id | id in objects && id.bucket == bucket && StartsWith(id.key, prefix) :: id.key
  }

  /** `keys` lists the keys under `prefix`, each once, in some order. */
  ghost predicate Listing(objects: Objects, bucket: string, prefix: string, keys: seq<string>) {
    && (forall i, j :: 0 <= i < j < |keys| ==> keys[i] != keys[j])
    && (forall k :: k in keys <==> k in KeysUnder(objects, bucket, prefix))
  }

  /** `item['Key'].replace(source_prefix, destination_prefix)`. */
  function NewKey(key: string, sourcePrefix: string, destinationPrefix: string): string {
    ReplaceAll(key, sourcePrefix, destinationPrefix)
  }

  /** The key rewrite of one `move_files` call, as a function of the key. */
  function RenameBy(sourcePrefix: string, destinationPrefix: string): string -> string {
    key => NewKey(key, sourcePrefix, destinationPrefix)
  }

  /** One iteration: copy to `target`, then delete; `None` when the copy raises. */
  function MoveOne(objects: Objects, bucket: string, key: string, target: string): Option<Objects> {
    var from := ObjectId(bucket, key);
    if from !in objects then None
    else Some(objects[ObjectId(bucket, target) := objects[from]] - {from})
  }

  /** The loop over `keys`: the store it leaves and whether it ran to the end. */
  function MoveAll(objects: Objects, bucket: string, keys: seq<string>, rename: string -> string): (Objects, bool)
    decreases |keys|
  {
    if keys == [] then (objects, true)
    else
      var (m, ok) := MoveAll(objects, bucket, keys[..|keys| - 1], rename);
      if !ok then (m, false)
      else
        match MoveOne(m, bucket, keys[|keys| - 1], rename(keys[|keys| - 1]))
        case None => (m, false)
        case Some(m') => (m', true)
  }

  /** Once a copy has raised, the rest of the keys change nothing. */
  lemma {:induction false} MoveAllStops(objects: Objects, bucket: string, keys: seq<string>, rename: string -> string, n: nat)
    requires n <= |keys| && !MoveAll(objects, bucket, keys[..n], rename).1
    ensures MoveAll(objects, bucket, keys, rename) == MoveAll(objects, bucket, keys[..n], rename)
    decreases |keys| - n
  {
    if n < |keys| {
      assert keys[..n + 1][..n] == keys[..n];
      MoveAllStops(objects, bucket, keys, rename, n + 1);
    } else {
      assert keys[..n] == keys;
    }
  }

  /** S3, as the mover uses it. */
  class ObjectStore {
    var objects: Objects

    constructor(initial: Objects)
      ensures objects == initial
    {
      objects := initial;
    }

    /** `list_objects_v2(Bucket=bucket, Prefix=prefix)['Contents']`. */
    method ListKeys(bucket: string, prefix: string) returns (keys: seq<string>)
      ensures Listing(objects, bucket, prefix, keys)
    {
      var remaining := KeysUnder(objects, bucket, prefix);
      keys := [];
      while remaining != {}
        invariant forall i, j :: 0 <= i < j < |keys| ==> keys[i] != keys[j]
        invariant forall k :: k in keys ==> k !in remaining
        invariant forall k :: k in keys || k in remaining <==> k in KeysUnder(objects, bucket, prefix)
        decreases |remaining|
      {
        var k :| k in remaining;
        keys := keys + [k];
        remaining := remaining - {k};
      }
    }

    /** `copy_object`; copying a key that is not there raises. */
    method Copy(bucket: string, sourceKey: string, targetKey: string) returns (ok: bool)
      modifies this
      ensures ok <==> ObjectId(bucket, sourceKey) in old(objects)
      ensures objects == if ok then old(objects)[ObjectId(bucket, targetKey) := old(objects)[ObjectId(bucket, sourceKey)]] else old(objects)
    {
      ok := ObjectId(bucket, sourceKey) in objects;
      if ok {
        objects := objects[ObjectId(bucket, targetKey) := objects[ObjectId(bucket, sourceKey)]];
      }
    }

    /** `delete_object`; deleting a missing key is not an error. */
    method Delete(bucket: string, key: string)
      modifies this
      ensures objects == old(objects) - {ObjectId(bucket, key)}
    {
      objects := objects - {ObjectId(bucket, key)};
    }

    /** `move_files`: every listed key is copied to the key with each
        occurrence of the source prefix replaced, then deleted. Returns the
        listing and whether every copy found its object. */
    method MoveFiles(bucket: string, sourcePrefix: string, destinationPrefix: string) returns (listed: seq<string>, ok: bool)
      modifies this
      ensures Listing(old(objects), bucket, sourcePrefix, listed)
      ensures (objects, ok) == MoveAll(old(objects), bucket, listed, RenameBy(sourcePrefix, destinationPrefix))
    {
      listed := ListKeys(bucket, sourcePrefix);
      ghost var rename := RenameBy(sourcePrefix, destinationPrefix);
      for i := 0 to |listed|
        invariant (objects, true) == MoveAll(old(objects), bucket, listed[..i], rename)
      {
        var key := listed[i];
        assert listed[..i + 1][..i] == listed[..i];
        var copied := Copy(bucket, key, NewKey(key, sourcePrefix, destinationPrefix));
        if !copied {
          assert MoveAll(old(objects), bucket, listed[..i + 1], rename) == (objects, false);
          MoveAllStops(old(objects), bucket, listed, rename, i + 1);
          return listed, false;
        }
        Delete(bucket, key);
      }
      assert listed[..|listed|] == listed;
      ok := true;
    }
  }

  // ---------------------------------------------------------------------
  // What `move_files` does to the store.
  // ---------------------------------------------------------------------

  /** A key under the source prefix whose new key is no longer under it. */
  predicate Leaves(key: string, src: string, rename: string -> string) {
    StartsWith(key, src) && !StartsWith(rename(key), src)
  }

  /** The keys are distinct, present and each leaves the source prefix. */
  predicate Movable(objects: Objects, bucket: string, keys: seq<string>, src: string, rename: string -> string) {
    && (forall i, j :: 0 <= i < j < |keys| ==> keys[i] != keys[j])
    && (forall i :: 0 <= i < |keys| ==> ObjectId(bucket, keys[i]) in objects && Leaves(keys[i], src, rename))
  }

  /** `id` is neither a listed key nor the new key of one. */
  predicate Untouched(id: ObjectId, bucket: string, keys: seq<string>, rename: string -> string) {
    id.bucket != bucket || (id.key !in keys && forall i :: 0 <= i < |keys| ==> id.key != rename(keys[i]))
  }

  /** No other listed key has the same new key as `keys[i]`. */
  predicate UniqueTarget(keys: seq<string>, i: int, rename: string -> string)
    requires 0 <= i < |keys|
  {
    forall j :: 0 <= j < |keys| && j != i ==> rename(keys[j]) != rename(keys[i])
  }

  /** Every listed key is gone from `r` and its new key is there. */
  ghost predicate KeysMoved(bucket: string, keys: seq<string>, rename: string -> string, r: Objects) {
    forall i :: 0 <= i < |keys| ==> ObjectId(bucket, keys[i]) !in r && ObjectId(bucket, rename(keys[i])) in r
  }

  /** Nothing appears in `r` but the new keys. */
  ghost predicate NothingElseAdded(objects: Objects, bucket: string, keys: seq<string>, rename: string -> string, r: Objects) {
    forall id :: id in r ==> id in objects || (id.bucket == bucket && exists i :: 0 <= i < |keys| && id.key == rename(keys[i]))
  }

  /** Every other object is as it was. */
  ghost predicate OthersKept(objects: Objects, bucket: string, keys: seq<string>, rename: string -> string, r: Objects) {
    forall id :: id in objects && Untouched(id, bucket, keys, rename) ==> id in r && r[id] == objects[id]
  }

  /** A new key that no other listed key maps to holds its original's body. */
  ghost predicate BodiesCarried(objects: Objects, bucket: string, keys: seq<string>, rename: string -> string, r: Objects) {
    forall i :: 0 <= i < |keys| && ObjectId(bucket, keys[i]) in objects && UniqueTarget(keys, i, rename) ==>
      ObjectId(bucket, rename(keys[i])) in r && r[ObjectId(bucket, rename(keys[i]))] == objects[ObjectId(bucket, keys[i])]
  }

  /** What moving `keys` out of `objects` leaves in `r`: every listed key is
      gone, every new key is there, nothing else appears, every other object
      is as it was, and a new key that no other listed key maps to holds its
      original's body. */
  ghost predicate MovedOut(objects: Objects, bucket: string, keys: seq<string>, rename: string -> string, r: Objects) {
    && KeysMoved(bucket, keys, rename, r)
    && NothingElseAdded(objects, bucket, keys, rename, r)
    && OthersKept(objects, bucket, keys, rename, r)
    && BodiesCarried(objects, bucket, keys, rename, r)
  }

  /** The last key, moved from `m`. */
  function AfterLast(bucket: string, keys: seq<string>, rename: string -> string, m: Objects): Objects
    requires keys != [] && ObjectId(bucket, keys[|keys| - 1]) in m
  {
    var last := keys[|keys| - 1];
    m[ObjectId(bucket, rename(last)) := m[ObjectId(bucket, last)]] - {ObjectId(bucket, last)}
  }

  /** The last key is still where it was. */
  lemma LastStillThere(objects: Objects, bucket: string, keys: seq<string>, src: string, rename: string -> string, m: Objects)
    requires keys != [] && Movable(objects, bucket, keys, src, rename)
    requires OthersKept(objects, bucket, keys[..|keys| - 1], rename, m)
    ensures ObjectId(bucket, keys[|keys| - 1]) in m && m[ObjectId(bucket, keys[|keys| - 1])] == objects[ObjectId(bucket, keys[|keys| - 1])]
  {
    var n := |keys| - 1;
    var prev := keys[..n];
    var last := keys[n];
    assert forall i :: 0 <= i < n ==> prev[i] == keys[i];
    assert Untouched(ObjectId(bucket, last), bucket, prev, rename) by {
      assert last !in prev;
      forall i | 0 <= i < n ensures last != rename(prev[i]) {
        assert Leaves(prev[i], src, rename);
      }
    }
  }

  lemma StepKeys(objects: Objects, bucket: string, keys: seq<string>, src: string, rename: string -> string, m: Objects)
    requires keys != [] && Movable(objects, bucket, keys, src, rename) && ObjectId(bucket, keys[|keys| - 1]) in m
    requires KeysMoved(bucket, keys[..|keys| - 1], rename, m)
    ensures KeysMoved(bucket, keys, rename, AfterLast(bucket, keys, rename, m))
  {
    var n := |keys| - 1;
    var r := AfterLast(bucket, keys, rename, m);
    forall i | 0 <= i < |keys|
      ensures ObjectId(bucket, keys[i]) !in r && ObjectId(bucket, rename(keys[i])) in r
    {
      assert Leaves(keys[i], src, rename) && Leaves(keys[n], src, rename);
      if i < n {
        assert keys[..n][i] == keys[i];
      }
    }
  }

  lemma StepNothingElse(objects: Objects, bucket: string, keys: seq<string>, rename: string -> string, m: Objects)
    requires keys != [] && ObjectId(bucket, keys[|keys| - 1]) in m
    requires NothingElseAdded(objects, bucket, keys[..|keys| - 1], rename, m)
    ensures NothingElseAdded(objects, bucket, keys, rename, AfterLast(bucket, keys, rename, m))
  {
    var n := |keys| - 1;
    var prev := keys[..n];
    var r := AfterLast(bucket, keys, rename, m);
    forall id | id in r
      ensures id in objects || (id.bucket == bucket && exists i :: 0 <= i < |keys| && id.key == rename(keys[i]))
    {
      if id == ObjectId(bucket, rename(keys[n])) {
        assert id.key == rename(keys[n]);
      } else if id !in objects {
        var i :| 0 <= i < n && id.key == rename(prev[i]);
        assert prev[i] == keys[i];
      }
    }
  }

  lemma StepOthers(objects: Objects, bucket: string, keys: seq<string>, rename: string -> string, m: Objects)
    requires keys != [] && ObjectId(bucket, keys[|keys| - 1]) in m
    requires OthersKept(objects, bucket, keys[..|keys| - 1], rename, m)
    ensures OthersKept(objects, bucket, keys, rename, AfterLast(bucket, keys, rename, m))
  {
    var n := |keys| - 1;
    var prev := keys[..n];
    forall id | id in objects && Untouched(id, bucket, keys, rename)
      ensures Untouched(id, bucket, prev, rename)
    {
      assert forall i :: 0 <= i < n ==> prev[i] == keys[i];
    }
  }

  lemma StepBodies(objects: Objects, bucket: string, keys: seq<string>, src: string, rename: string -> string, m: Objects)
    requires keys != [] && Movable(objects, bucket, keys, src, rename)
    requires ObjectId(bucket, keys[|keys| - 1]) in m && m[ObjectId(bucket, keys[|keys| - 1])] == objects[ObjectId(bucket, keys[|keys| - 1])]
    requires BodiesCarried(objects, bucket, keys[..|keys| - 1], rename, m)
    ensures BodiesCarried(objects, bucket, keys, rename, AfterLast(bucket, keys, rename, m))
  {
    var n := |keys| - 1;
    var prev := keys[..n];
    var r := AfterLast(bucket, keys, rename, m);
    forall i | 0 <= i < |keys| && ObjectId(bucket, keys[i]) in objects && UniqueTarget(keys, i, rename)
      ensures ObjectId(bucket, rename(keys[i])) in r && r[ObjectId(bucket, rename(keys[i]))] == objects[ObjectId(bucket, keys[i])]
    {
      assert Leaves(keys[i], src, rename) && Leaves(keys[n], src, rename);
      if i < n {
        assert prev[i] == keys[i];
        assert UniqueTarget(prev, i, rename) by {
          forall j | 0 <= j < n && j != i ensures rename(prev[j]) != rename(prev[i]) {
            assert prev[j] == keys[j];
          }
        }
        assert rename(keys[n]) != rename(keys[i]);
      }
    }
  }

  /** One more key moved keeps `MovedOut`. */
  lemma MoveOneStep(objects: Objects, bucket: string, keys: seq<string>, src: string, rename: string -> string, m: Objects)
    requires keys != [] && Movable(objects, bucket, keys, src, rename)
    requires MovedOut(objects, bucket, keys[..|keys| - 1], rename, m)
    ensures MoveOne(m, bucket, keys[|keys| - 1], rename(keys[|keys| - 1])).Some?
    ensures MovedOut(objects, bucket, keys, rename, MoveOne(m, bucket, keys[|keys| - 1], rename(keys[|keys| - 1])).value)
  {
    LastStillThere(objects, bucket, keys, src, rename, m);
    assert MoveOne(m, bucket, keys[|keys| - 1], rename(keys[|keys| - 1])) == Some(AfterLast(bucket, keys, rename, m));
    StepKeys(objects, bucket, keys, src, rename, m);
    StepNothingElse(objects, bucket, keys, rename, m);
    StepOthers(objects, bucket, keys, rename, m);
    StepBodies(objects, bucket, keys, src, rename, m);
  }

  /** Moving movable keys: every copy finds its object, and the store ends
      up as `MovedOut` describes. */
  lemma {:induction false} MoveAllEffect(objects: Objects, bucket: string, keys: seq<string>, src: string, rename: string -> string)
    requires Movable(objects, bucket, keys, src, rename)
    ensures MoveAll(objects, bucket, keys, rename).1
    ensures MovedOut(objects, bucket, keys, rename, MoveAll(objects, bucket, keys, rename).0)
    decreases |keys|
  {
    if keys != [] {
      var n := |keys| - 1;
      assert forall i :: 0 <= i < n ==> keys[..n][i] == keys[i];
      MoveAllEffect(objects, bucket, keys[..n], src, rename);
      var m := MoveAll(objects, bucket, keys[..n], rename).0;
      MoveOneStep(objects, bucket, keys, src, rename, m);
    } else {
      assert MovedOut(objects, bucket, keys, rename, objects);
    }
  }

  /** A folder name that does not start with `p` is never a prefix of
      `processed/`, so every key under `<base><folder>/` leaves it. */
  lemma FolderRenames(base: string, partition: string, folder: string, key: string)
    requires |folder| > 0 && folder[0] != 'p'
    requires StartsWith(key, base + folder + "/")
    ensures Leaves(key, base + folder + "/", RenameBy(base + folder + "/", base + "processed/" + partition + "/" + folder + "/"))
  {
    var src := base + folder + "/";
    var dst := base + "processed/" + partition + "/" + folder + "/";
    ReplaceAllAtStart(key, src, dst);
    assert NewKey(key, src, dst)[|base|] == 'p';
  }

  /** Every key under a pair's source prefix leaves it. */
  ghost predicate PairRenames(pair: (string, string)) {
    forall key :: StartsWith(key, pair.0) ==> Leaves(key, pair.0, RenameBy(pair.0, pair.1))
  }

  /** The handler's three pairs all rename. */
  lemma FolderPrefixesRename(base: string, partition: string)
    ensures forall i :: 0 <= i < |Folders| ==> PairRenames(FolderPrefixes(base, DestinationBase(base, partition))[i])
  {
    var pairs := FolderPrefixes(base, DestinationBase(base, partition));
    forall i, key | 0 <= i < |Folders| && StartsWith(key, pairs[i].0)
      ensures Leaves(key, pairs[i].0, RenameBy(pairs[i].0, pairs[i].1))
    {
      assert pairs[i].1 == base + "processed/" + partition + "/" + Folders[i] + "/";
      FolderRenames(base, partition, Folders[i], key);
    }
  }

  // ---------------------------------------------------------------------
  // The handler.
  // ---------------------------------------------------------------------

  /** The folder loop: each pair moved in turn with the listing it was given,
      stopping at the first copy that raises. */
  function MoveEach(objects: Objects, bucket: string, pairs: seq<(string, string)>, listings: seq<seq<string>>): (Objects, bool)
    requires |listings| == |pairs|
    decreases |pairs|
  {
    if pairs == [] then (objects, true)
    else
      var n := |pairs| - 1;
      var (m, ok) := MoveEach(objects, bucket, pairs[..n], listings[..n]);
      if !ok then (m, false) else MoveAll(m, bucket, listings[n], RenameBy(pairs[n].0, pairs[n].1))
  }

  /** Each listing lists the store as the earlier folders left it. */
  ghost predicate Listed(objects: Objects, bucket: string, pairs: seq<(string, string)>, listings: seq<seq<string>>)
    requires |listings| == |pairs|
    decreases |pairs|
  {
    pairs != [] ==>
      var n := |pairs| - 1;
      && Listed(objects, bucket, pairs[..n], listings[..n])
      && var (m, ok) := MoveEach(objects, bucket, pairs[..n], listings[..n]);
         ok ==> Listing(m, bucket, pairs[n].0, listings[n])
  }

  /** With faithful listings and pairs that rename, no copy ever raises. */
  lemma {:induction false} EachMoveCompletes(objects: Objects, bucket: string, pairs: seq<(string, string)>, listings: seq<seq<string>>)
    requires |listings| == |pairs|
    requires forall i :: 0 <= i < |pairs| ==> PairRenames(pairs[i])
    requires Listed(objects, bucket, pairs, listings)
    ensures MoveEach(objects, bucket, pairs, listings).1
    decreases |pairs|
  {
    if pairs != [] {
      var n := |pairs| - 1;
      assert forall i :: 0 <= i < n ==> pairs[..n][i] == pairs[i];
      EachMoveCompletes(objects, bucket, pairs[..n], listings[..n]);
      var m := MoveEach(objects, bucket, pairs[..n], listings[..n]).0;
      var keys := listings[n];
      var rename := RenameBy(pairs[n].0, pairs[n].1);
      assert Listing(m, bucket, pairs[n].0, keys);
      assert PairRenames(pairs[n]);
      forall i | 0 <= i < |keys|
        ensures ObjectId(bucket, keys[i]) in m && Leaves(keys[i], pairs[n].0, rename)
      {
        assert keys[i] in KeysUnder(m, bucket, pairs[n].0);
      }
      MoveAllEffect(m, bucket, keys, pairs[n].0, rename);
    }
  }

  /** One more folder: the loop moves it with its listing unless an earlier
      copy raised, and the new listing must list the store as left so far. */
  lemma EachSnoc(objects: Objects, bucket: string, pairs: seq<(string, string)>, listings: seq<seq<string>>,
                 pair: (string, string), listed: seq<string>)
    requires |listings| == |pairs|
    ensures var (m, ok) := MoveEach(objects, bucket, pairs, listings);
      && MoveEach(objects, bucket, pairs + [pair], listings + [listed])
         == (if !ok then (m, false) else MoveAll(m, bucket, listed, RenameBy(pair.0, pair.1)))
      && (Listed(objects, bucket, pairs + [pair], listings + [listed])
          <==> Listed(objects, bucket, pairs, listings) && (ok ==> Listing(m, bucket, pair.0, listed)))
  {
    assert (pairs + [pair])[..|pairs|] == pairs;
    assert (listings + [listed])[..|listings|] == listings;
  }

  /** How the handler leaves: a returned dict or a raised exception (after
      the failure notification). */
  datatype Outcome = Returned(response: Response) | Raised(error: Failure)

  /** The `for folder in folders` loop: each pair moved in turn, stopping at
      the first copy that raises. `listings` are the listings it made. */
  method RunFolders(bucket: string, pairs: seq<(string, string)>, store: ObjectStore)
    returns (ok: bool, listings: seq<seq<string>>)
    modifies store
    ensures |listings| <= |pairs|
    ensures Listed(old(store.objects), bucket, pairs[..|listings|], listings)
    ensures (store.objects, ok) == MoveEach(old(store.objects), bucket, pairs[..|listings|], listings)
    ensures ok ==> |listings| == |pairs|
  {
    listings := [];
    var i := 0;
    while i < |pairs|
      invariant 0 <= i <= |pairs| && |listings| == i
      invariant Listed(old(store.objects), bucket, pairs[..i], listings)
      invariant (store.objects, true) == MoveEach(old(store.objects), bucket, pairs[..i], listings)
    {
      var listed, moved := store.MoveFiles(bucket, pairs[i].0, pairs[i].1);
      EachSnoc(old(store.objects), bucket, pairs[..i], listings, pairs[i], listed);
      assert pairs[..i + 1] == pairs[..i] + [pairs[i]];
      listings := listings + [listed];
      if !moved {
        return false, listings;
      }
      i := i + 1;
    }
    assert pairs[..|pairs|] == pairs;
    return true, listings;
  }

  /** `lambda_handler` once the plan is known. `listings` are the object
      listings the folder loop made, in order. */
  method RunPlan(plan: Result<Plan, Failure>, store: ObjectStore)
    returns (outcome: Outcome, alerted: bool, listings: seq<seq<string>>)
    modifies store
    ensures alerted <==> outcome.Raised?
    ensures plan.Fail? ==> outcome == Raised(plan.error) && store.objects == old(store.objects) && listings == []
    ensures plan.Ok? && plan.value.Respond? ==> outcome == Returned(plan.value.response) && store.objects == old(store.objects) && listings == []
    ensures plan.Ok? && plan.value.Moves? ==>
      var Moves(bucket, pairs) := plan.value;
      && |listings| <= |pairs|
      && Listed(old(store.objects), bucket, pairs[..|listings|], listings)
      && store.objects == MoveEach(old(store.objects), bucket, pairs[..|listings|], listings).0
      && (outcome == Returned(SuccessResponse) <==> MoveEach(old(store.objects), bucket, pairs[..|listings|], listings).1)
      && (MoveEach(old(store.objects), bucket, pairs[..|listings|], listings).1 ==> |listings| == |pairs|)
      && (outcome != Returned(SuccessResponse) ==> outcome == Raised(MissingObject))
  {
    if plan.Fail? {
      return Raised(plan.error), true, [];
    }
    if plan.value.Respond? {
      return Returned(plan.value.response), false, [];
    }
    var ok;
    ok, listings := RunFolders(plan.value.bucket, plan.value.pairs, store);
    if ok {
      outcome, alerted := Returned(SuccessResponse), false;
    } else {
      outcome, alerted := Raised(MissingObject), true;
    }
  }

  /** `lambda_handler`. */
  method Handle(message: Option<string>, currentEnv: string, partition: string, store: ObjectStore)
    returns (outcome: Outcome, alerted: bool, listings: seq<seq<string>>)
    modifies store
    ensures var plan := Decide(message, currentEnv, partition);
      && (alerted <==> outcome.Raised?)
      && (plan.Fail? ==> outcome == Raised(plan.error) && store.objects == old(store.objects) && listings == [])
      && (plan.Ok? && plan.value.Respond? ==> outcome == Returned(plan.value.response) && store.objects == old(store.objects) && listings == [])
      && (plan.Ok? && plan.value.Moves? ==>
            var Moves(bucket, pairs) := plan.value;
            && |listings| == |pairs|
            && Listed(old(store.objects), bucket, pairs, listings)
            && store.objects == MoveEach(old(store.objects), bucket, pairs, listings).0
            && outcome == Returned(SuccessResponse))
  {
    var plan := Decide(message, currentEnv, partition);
    outcome, alerted, listings := RunPlan(plan, store);
    if plan.Ok? && plan.value.Moves? {
      PlanMovesEverything(message, currentEnv, partition, old(store.objects), listings);
      assert plan.value.pairs[..|listings|] == plan.value.pairs;
    }
  }

  /** `HandlerMovesEverything` for the plan of a whole message. */
  lemma PlanMovesEverything(message: Option<string>, currentEnv: string, partition: string, objects: Objects, listings: seq<seq<string>>)
    requires Decide(message, currentEnv, partition).Ok? && Decide(message, currentEnv, partition).value.Moves?
    requires var Moves(bucket, pairs) := Decide(message, currentEnv, partition).value;
      |listings| <= |pairs| && Listed(objects, bucket, pairs[..|listings|], listings)
    ensures var Moves(bucket, pairs) := Decide(message, currentEnv, partition).value;
      MoveEach(objects, bucket, pairs[..|listings|], listings).1
  {
    HandlerMovesEverything(Parse(message.value).value, currentEnv, partition, objects, listings);
  }

  /** Given listings that list the store, every copy the folder loop makes
      for a plan that moves files finds its object, since each folder's
      rename takes every key out of that folder. */
  lemma HandlerMovesEverything(parts: Parts, currentEnv: string, partition: string, objects: Objects, listings: seq<seq<string>>)
    requires DecideParts(parts, currentEnv, partition).Ok? && DecideParts(parts, currentEnv, partition).value.Moves?
    requires var pairs := DecideParts(parts, currentEnv, partition).value.pairs;
      |listings| <= |pairs| && Listed(objects, DecideParts(parts, currentEnv, partition).value.bucket, pairs[..|listings|], listings)
    ensures var d := DecideParts(parts, currentEnv, partition).value;
      MoveEach(objects, d.bucket, d.pairs[..|listings|], listings).1
  {
    var d := DecideParts(parts, currentEnv, partition).value;
    var base := BasePath(parts.source, ExtractTable(parts.source, parts.table).value);
    assert d.pairs == FolderPrefixes(base, DestinationBase(base, partition));
    FolderPrefixesRename(base, partition);
    var k := |listings|;
    assert forall i :: 0 <= i < k ==> d.pairs[..k][i] == d.pairs[i];
    EachMoveCompletes(objects, d.bucket, d.pairs[..k], listings);
  }
}
