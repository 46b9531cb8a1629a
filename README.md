# Data-platform Lambda handlers, modelled in Dafny

This project models six small AWS Lambda handlers and maintenance scripts of
an ingestion platform. With their service calls taken out, what is left is
dictionary and string logic, and the model states that logic as written
(where it shows a defect, a corrected version sits beside it; see Findings):

- **Config-table populator** (`config_table_populator.py`). It reads a JSON
  control file and fills in defaults with `setdefault`. It builds one or two
  DELETE statements and one SELECT fragment per table, plus one per table
  with an active block. It runs these on Athena in a fixed order and wraps
  the attempt in a retry loop. As written, that loop makes exactly one
  attempt: the `except` block re-raises after its first wait.
- **Active-table starter** (`active_table_start.py`). It parses
  `"<source> table processed: <table> in <env>"` and derives `a_<table>`.
  It applies two skip rules, then builds the state-machine ARN, the payload
  and the execution name.
- **Landing-file mover** (`move_to_processed.py`). It uses the same parse,
  chooses a landing bucket and moves `control/`, `data/` and `header/` into
  a dated `processed/` folder by copy-then-delete.
- **Failure notifier** (`ms_teams_failure_notifications.py`). For a
  non-JSON message it extracts labelled fields with regular expressions,
  builds an eight-line Teams card and a record for the failures table. For
  a JSON message it builds the card from the message's keys.
- **Bucket emptier** (`delete_all_objects_s3.py`). It lists every version
  and delete marker and sends them in buffered `delete_objects` batches.
- **Version restorer** (`restore_delete_markers.py`). It selects old
  Parquet versions, copies each over its own key, and counts the copies
  that succeed.

Shared pieces:

- `Outcomes` holds `Option` and `Result`; a raised exception is a `Fail`.
- The populator's SQL statements are values of a `Statement` datatype (the
  two DELETEs and the combined INSERT); `Sql` gives each one's text, and the
  Athena model runs those texts.
- `Strings` holds the Python `str` operations used.
- `Patterns` hand-models the few regular-expression shapes used.
- `Accounts` is the account-to-environment lookup every handler performs at
  load time.
- `SnsMessage` is the notification parse the two SNS handlers share.

What the model takes as parameters or objects:

- The account id, clock texts, the uuid's hex text and the Lambda's
  remaining time are parameters.
- So are the result of reading and decoding the S3 object, and whether each
  `start_execution`, `put_item` or the restorer's `copy_object` raises, and
  whether the webhook POST's `try` block (the request and decoding its reply)
  raises. The mover's S3 calls are not parameters (see "## Left out").
- Athena is an object that records every query and answers each with a
  terminal status of its choosing.
- S3 is an in-memory object store (the mover) or a client that records its
  `delete_objects` requests (the emptier).
- The restorer's thread pool is a completion order: any sequence holding
  every task's result once.

## Model

| member | source | states |
|---|---|---|
| Accounts.FirstEnv | config_table_populator.py:60-67 | The environment is that of the first mapping entry with the caller's account (and, for the populator, a name not ending in `-full-load`); `None` exactly when no entry qualifies |
| Accounts.LookupEnv | move_to_processed.py:64-72 | The `for ... break` loop over the mapping returns the first qualifying environment, or `None` when the loop runs out |
| ConfigHandler.PopulatorEnvChoice | config_table_populator.py:51-67 | Each of the three accounts selects its own environment (`non-prod`, `pre-prod`, `prod`); every other account selects none, so the module raises |
| MoveToProcessed.MoverEnvChoice | move_to_processed.py:55-74 | Each of the three accounts selects `dev`, `pre-prod` or `prod`; any other account leaves the environment unset and the module raises |
| FailureNotifications.NotifierEnvChoice | ms_teams_failure_notifications.py:28-44 | Each of the three accounts selects its environment; any other account makes the module raise |
| Strings.Contains | active_table_start.py:102 | `p in s` holds exactly when `p` occurs in `s` at some index |
| Strings.Strip | active_table_start.py:86-88 | `strip()` gives a slice of the input with only whitespace before and after it, and the slice neither starts nor ends with whitespace |
| Strings.LStripChar | config_table_populator.py:150 | `lstrip('/')` removes exactly the leading run of `/`: it drops only `/` characters, and what remains is a suffix of the input that does not start with `/` |
| Strings.Upper | ms_teams_failure_notifications.py:69 | `upper()` keeps the length and uppercases each ASCII letter in place |
| Strings.Take | active_table_start.py:159 | `s[:n]` is a prefix of `s` of length `min(n, len(s))` |
| Strings.ReplaceFirst | restore_delete_markers.py:33 | `replace(o, n, 1)` puts `n` in place of the leftmost occurrence of `o` and keeps the text before and after it; a string without `o` is unchanged |
| Strings.ReplaceFirstBySelf | restore_delete_markers.py:33 | Replacing the first occurrence of a text by itself gives back the same string |
| Strings.ReplaceAllAtStart | move_to_processed.py:49 | `replace` on a key that starts with the (non-empty) prefix puts the replacement at the start and continues on the rest |
| Patterns.SearchRun | ms_teams_failure_notifications.py:62 | `re.search(lit + '(cls+)')` finds nothing iff no index starts the literal followed by a class character; otherwise it returns the capture at the leftmost such index |
| Patterns.RunCaptureMaximal | ms_teams_failure_notifications.py:62-66 | A `lit(cls+)` capture is a non-empty run of class characters following the literal, and the character after it is not in the class (greedy) |
| Patterns.SearchLazy | ms_teams_failure_notifications.py:64 | `re.search(lit + '(.+?)' + term)` is `None` iff no start matches; otherwise the capture is the leftmost start's shortest non-empty newline-free text followed by the terminator |
| SnsMessage.SplitPoints | active_table_start.py:84 | The lazy groups split at the first ` table processed: ` and then at the first ` in ` after it; there is a split exactly when both occur in that order |
| SnsMessage.Parse | active_table_start.py:84-88 | `re.match` succeeds iff the message (less one trailing newline) is a single line with the marker and a later ` in `; the three parts are then the stripped texts around those split points |
| SnsMessage.ExtractTable | active_table_start.py:109-111 | The search for `<source>_(\w+)` fails iff no occurrence of `<source>_` is followed by a word character; otherwise the result is the maximal run of word characters after the leftmost such occurrence |
| ActiveTableStart.ExecutionName | active_table_start.py:157-160 | The execution name starts with the active table cut to 60 characters, `_`, the date suffix and `_`, and is at most 72 characters longer than the date suffix |
| ActiveTableStart.Handle | active_table_start.py:62-180 | Every answer is 200, 400 or 500; 500, with the error body and a notification, exactly when the event has no message or the start call raises; 400 exactly for a rejected message; a start is attempted exactly when the decision is to start, with the request the decision built; a skip or rejection answers with the decision's body, and a start that succeeds answers 200 with the success body |
| ActiveTableStart.UnparsableIsRejected | active_table_start.py:84-97 | A message the pattern rejects is answered 400 with the fixed body |
| ActiveTableStart.MismatchIsRejected | active_table_start.py:102-107 | A source name that is not a substring of the table name is answered 400 |
| ActiveTableStart.NoTableIsRejected | active_table_start.py:109-120 | With no word character after any `<source>_` in the table name, the answer is 400 |
| ActiveTableStart.DeleteTableSkippedFirst | active_table_start.py:122-127 | `a_client_contract_reference_delete` is skipped with its own body, even when the source is also on the skip list |
| ActiveTableStart.SkipListNeverStarts | active_table_start.py:130-135 | No source system on the skip list ever gets an execution; once its table is found and is not the delete table, the answer is the skip message naming the source |
| ActiveTableStart.StartRequestShape | active_table_start.py:138-160 | A started request is for `sf-<env>-active-tables-<source>`, with payload `CDC_<source>`, the environment and `[a_<extracted>]`; its name's table part is at most 60 characters; the source is not on the skip list and the table is not the skipped one |
| ActiveTableStart.ChecksPassedStarts | active_table_start.py:102-160 | The decision is a start iff the source occurs in the table name, a table is found, it is not `a_client_contract_reference_delete` and the source is not on the skip list; such a message gets the request for `sf-<env>-active-tables-<source>` with payload `CDC_<source>`, the environment and `[a_<extracted>]`, and the execution name built from the table, date suffix and uuid |
| ConfigDocument.ApplyDefaults | config_table_populator.py:75-79 | A run of `setdefault` calls adds exactly the defaulted keys and keeps every existing value |
| ConfigDocument.ApplyDefaultsFirst | config_table_populator.py:75-79 | An absent key gets the value of its first `setdefault` |
| ConfigDocument.ApplyDefaultsAbsent | config_table_populator.py:88-91 | With distinct keys, every defaulted key ends up present, and each absent one has its default |
| ConfigDocument.ApplyDefaultsPresent | config_table_populator.py:102-106 | Defaults whose keys are all present change nothing |
| ConfigDocument.ApplyDefaultsIdempotent | config_table_populator.py:109-115 | Applying a resolver twice gives the same dict as applying it once |
| ConfigDefaults.GlobalIngestResolved | config_table_populator.py:69-79 | The global ingestion resolver adds only its five keys, keeps existing values, gives each absent key its default (`Y`, `N`, `''`, `changeaudit`, `''`) and is idempotent |
| ConfigDefaults.GlobalActiveResolved | config_table_populator.py:81-91 | The global active resolver defaults `src_system_name` to `source_name` and `tgt_database_name` to `<source_name>_main`, keeps existing values, adds only its four keys and is idempotent |
| ConfigDefaults.IngestionResolved | config_table_populator.py:108-115 | The seven ingestion defaults are added when absent, nothing else changes, and re-running changes nothing |
| ConfigDefaults.ActiveResolved | config_table_populator.py:100-106 | The active block gets `tgt_table_name` = `a_<table_name>` and `src_table_name` = `table_name` when absent, keeps existing values, and is idempotent |
| ConfigDefaults.DefaultTableConfig | config_table_populator.py:93-115 | It fails only for a missing `ingestion_config`, or for an active block without `table_name` (that error first); it touches the active block only when it exists and always applies the ingestion defaults |
| ConfigDefaults.TableConfigResolved | config_table_populator.py:93-115 | On a well-formed table, `default_table_config` keeps the table name and the presence of the active block, and a second run changes nothing |
| ConfigStatements.FullSourcePath | config_table_populator.py:146-152 | An `s3://` location is kept; otherwise, with a truthy bucket, the path is `s3://<bucket>/` followed by the location with exactly its leading `/` run removed; otherwise the location is kept; a non-string location raises |
| ConfigStatements.BucketTag | config_table_populator.py:166-171 | The tag is `prd` iff `prod`, `dev` iff `non-prod`, `pre-prod` for every other environment |
| ConfigStatements.TargetS3Location | config_table_populator.py:172-176 | The location uses a truthy custom `target_s3_location` bucket, else `ct-ire-edp-<tag>-datastaging-op`, and always ends in `/changeaudit/<source>/<table>` |
| ConfigStatements.TargetLocation | config_table_populator.py:158-162 | `tgt_location` ends with the `${...}` placeholder path; it is under `s3://<bucket>/active/` for a truthy custom bucket, and is the default bucket template followed by that path otherwise |
| ConfigStatements.GenericFragment | config_table_populator.py:181-213 | A generic fragment starts `SELECT '<table_name>' AS source_file_name_pk, ` |
| ConfigStatements.LookupAll | config_table_populator.py:181-213 | A run of subscripts succeeds iff every key is present, giving each looked-up value in order; otherwise it raises the `KeyError` of the first absent key |
| ConfigStatements.GenericFragmentFailure | config_table_populator.py:181-213 | The generic fragment fails exactly when one of its seventeen subscripts finds no key, and then with the `KeyError` of the first such key in column order |
| ConfigStatements.ActiveFragment | config_table_populator.py:217-242 | An active fragment raises `KeyError('src_system_name')` when the global active config lacks it (as the `{}` passed in does); a fragment starts with that system name's column |
| ConfigStatements.TableFragments | config_table_populator.py:142-244 | One loop iteration gives a generic fragment naming the table and an active fragment exactly when the table has an active block; an active block without global active config fails |
| ConfigStatements.TableResultsFacts | config_table_populator.py:142-244 | There is one result per table, in document order; each success has a generic fragment naming its table, and an active fragment iff the table has an active block; an active block without `src_system_name` in the global active config fails |
| ConfigStatements.Collect | config_table_populator.py:142-246 | The loop succeeds iff every table does, giving each table's generic fragment in table order and exactly the active fragments of the tables that have one, in table order (`ActiveInOrder`); otherwise it fails with the first failing table's error |
| ConfigStatements.ActiveConfigPresent | config_table_populator.py:136 | Active configuration is present iff the global active block exists and some table has an active block; `tables` is read (and can raise) only when the global block exists |
| ConfigStatements.CollectResults | config_table_populator.py:142-246 | The append loop over tables computes exactly `Collect`, stopping at the first failure |
| ConfigStatements.GenerateStatements | config_table_populator.py:117-246 | `generate_statements` returns exactly the DELETE list and fragment lists that the specification value describes |
| ConfigStatements.StatementCounts | config_table_populator.py:129-144 | The generic DELETE is first; the active DELETE follows iff active configuration is present; there is one generic fragment per table in order naming it, and one active fragment per table with an active block |
| ConfigStatements.FragmentsInOrder | config_table_populator.py:142-244 | Every table's own fragments succeed; generic fragment `i` is table `i`'s, and table `i`'s active fragment sits at position `CountActive(tables[..i])` of the active list, so the active fragments come in table order |
| ConfigStatements.ActiveWithoutGlobalFails | config_table_populator.py:360 | A table with an active block in an environment without global active config makes the statement generation fail |
| ConfigStatements.ActiveFragmentsIffPresent | config_table_populator.py:391 | With the arguments the handler passes, there are active fragments exactly when active configuration is present |
| ConfigHandler.Prepare | config_table_populator.py:329-363 | A malformed event, a timeout (below 10000 ms) and an unreadable object fail in that order; success means the document has `source_name` and the current environment, and the global configs are resolved (the active one only when present, `{}` otherwise) |
| ConfigHandler.UnknownEnvironmentFails | config_table_populator.py:343-370 | When `current_env` is not a key of `environments` the statement lists are unbound and the attempt fails before running anything |
| ConfigHandler.PlanShape | config_table_populator.py:368-401 | The plan has the deletes first, then `INSERT INTO data_control.edp_generic_file_loads` over exactly the generic fragments when there are any, and the active table's INSERT over exactly the active fragments last when active config is present |
| ConfigHandler.PlanOrder | config_table_populator.py:117-246 | For one run of `generate_statements` with the resolved configs, the plan is laid out as `PlanLayout` states: the generic DELETE, the active DELETE iff active config is present, the generic INSERT with one fragment per table naming it iff there is a table, the active INSERT with one fragment per active block last iff active config is present; fragment `i` of the generic INSERT is table `i`'s, and fragment `CountActive(tables[..i])` of the active INSERT is table `i`'s active fragment |
| ConfigHandler.ExecutionOrder | config_table_populator.py:343-401 | A successful attempt read a document with `source_name` and the current environment, and its plan is laid out as `PlanLayout` states for that environment's tables and source |
| ConfigHandler.Athena.constructor | config_table_populator.py:258 | A new client has run nothing |
| ConfigHandler.Athena.Run | config_table_populator.py:248-301 | Starting and waiting for a query appends exactly that run, with its terminal status, to the history |
| ConfigHandler.CleanRunRanEverything | config_table_populator.py:370-401 | An attempt raises nothing exactly when every planned statement ran and succeeded |
| ConfigHandler.RunStatements | config_table_populator.py:368-401 | Statements run in plan order on `data_control` with the account's output location; the first that does not succeed raises and the rest are not run; earlier history is kept |
| ConfigHandler.Attempt | config_table_populator.py:325-401 | One attempt sends the timeout alert iff under 10000 ms remain, runs nothing when preparation or generation fails (raising that error), and otherwise runs the plan as `RunStatements` describes |
| ConfigHandler.Handle | config_table_populator.py:323-423 | Exactly one attempt is made; success answers 200; a failure waits 20 seconds, notifies once with the error and re-raises; the 500 answer is never reached |
| MoveToProcessed.FolderPrefixes | move_to_processed.py:133-136 | The three iterations move `<base>control/`, `<base>data/`, `<base>header/` each to the same folder under the destination base |
| MoveToProcessed.SourceBucket | move_to_processed.py:116-127 | `insure` systems use the insure buckets and (otherwise) `ohi` systems the health buckets, for `dev` and `prod`; other systems use `ct-ire-edp-prd-dumps`; `insure`/`ohi` in any other environment leave the bucket unbound |
| MoveToProcessed.DecideParts | move_to_processed.py:99-136 | The handler answers 400 only for a source name that is not in the table name, and raises exactly when the table search or the bucket choice comes up empty, naming the unbound variable |
| MoveToProcessed.UnparsableIsRejected | move_to_processed.py:84-97 | A message the pattern rejects is answered 400 and nothing moves |
| MoveToProcessed.MovesFolders | move_to_processed.py:113-136 | A move covers `control`, `data`, `header` of `landing/<source>/<table>/`, in order, into `.../processed/<partition>/<folder>/`, in the chosen bucket |
| MoveToProcessed.IgnoresMessageEnvironment | move_to_processed.py:88-136 | The environment named in the message plays no part in the decision |
| MoveToProcessed.SuccessResponseHasNoStatusCode | move_to_processed.py:140-143 | The success dict's only key is `statusCode: 200,body`; it has neither `statusCode` nor `body` |
| MoveToProcessed.ObjectStore.constructor | move_to_processed.py:53 | The store starts with the given objects |
| MoveToProcessed.ObjectStore.ListKeys | move_to_processed.py:46-47 | The listing holds each key under the prefix exactly once and nothing else |
| MoveToProcessed.ObjectStore.Copy | move_to_processed.py:50 | A copy succeeds iff the source object exists, and then writes its body under the target key; otherwise nothing changes |
| MoveToProcessed.ObjectStore.Delete | move_to_processed.py:51 | The deleted key is gone and nothing else changes |
| MoveToProcessed.ObjectStore.MoveFiles | move_to_processed.py:45-51 | `move_files` lists the prefix and leaves the store as copying each listed key to its renamed key and deleting it, in order, stopping at the first missing object |
| MoveToProcessed.MoveAllEffect | move_to_processed.py:45-51 | For distinct present keys that leave the prefix, every key is gone, every renamed key is present, nothing else appears, untouched objects are kept, and a renamed key no other key maps to holds its original body |
| MoveToProcessed.FolderRenames | move_to_processed.py:49 | Replacing `<base><folder>/` by `<base>processed/<partition>/<folder>/` moves every key out of the source folder |
| MoveToProcessed.FolderPrefixesRename | move_to_processed.py:133-136 | All three of the handler's prefix pairs move keys out of their source folder |
| MoveToProcessed.EachMoveCompletes | move_to_processed.py:133-136 | With listings that list the store as each earlier folder left it, no copy in the folder loop ever misses |
| MoveToProcessed.EachSnoc | move_to_processed.py:133-136 | One more folder is moved with its listing unless an earlier copy raised, and the listings stay faithful iff the new one lists the store as the earlier folders left it |
| MoveToProcessed.RunFolders | move_to_processed.py:133-136 | The folder loop's listings are faithful, the store is as the folder moves so far describe, and it stops before the last folder only when a copy raised |
| MoveToProcessed.RunPlan | move_to_processed.py:99-148 | A raise notifies; a 400 or a raise before the loop changes nothing; a move leaves the store as the folder moves describe, succeeds iff no copy raised, and then has moved every folder; otherwise it raises for the missing object |
| MoveToProcessed.Handle | move_to_processed.py:76-148 | A raise before the loop or a 400 changes nothing and follows the decision; every plan that moves files lists each folder faithfully, moves all three folders as the folder moves describe, and returns the success dict |
| MoveToProcessed.HandlerMovesEverything | move_to_processed.py:133-143 | For any plan that moves files, given faithful listings, no copy among the folders moved so far meets a missing object |
| FailureNotifications.FormatReadsBack | ms_teams_failure_notifications.py:68-77 | A card with single-line values reads back as exactly eight lines, `Environment: `, `Source System: `, `Table Name: `, `Error Message: `, `Job Name: `, `JobRun ID: `, `Execution Date/Time: `, `Note to Prod: `, each followed by its value and two spaces |
| FailureNotifications.CaptureRaw | ms_teams_failure_notifications.py:62-88 | Each raw field is its regex capture or `N/A`: source, table and job-run id a `[\w_]+` run, the job name a `[\w-]+` run, the error the shortest text before `. Please investigate` |
| FailureNotifications.RunFieldShape | ms_teams_failure_notifications.py:70-74 | A run field is `N/A` exactly when its pattern does not match, and otherwise a non-empty maximal class run after the leftmost label |
| FailureNotifications.LazyFieldShape | ms_teams_failure_notifications.py:64 | A non-`N/A` error field is a non-empty single-line text that sits between `Error: ` and `. Please investigate` at the leftmost, shortest match |
| FailureNotifications.LazyFieldSingleLine | ms_teams_failure_notifications.py:64 | The error capture, or its `N/A` stand-in, holds no line break |
| FailureNotifications.CapturesSingleLine | ms_teams_failure_notifications.py:62-66 | No capture spans lines |
| FailureNotifications.RawCardMatchesItem | ms_teams_failure_notifications.py:68-100 | The raw-path card's eight lines show the stored item's values (the environment uppercased, the rest as stored, the fixed note); the item keeps the environment as it is |
| FailureNotifications.JsonReport | ms_teams_failure_notifications.py:127-136 | Each JSON card value is the key's value or `N/A`, the note defaults to the fixed text, Environment and Source_System are uppercased, and the card fails iff one of those two is not a string |
| FailureNotifications.Handle | ms_teams_failure_notifications.py:48-162 | A missing message raises and does nothing else; the answer is returned iff the card was posted, and is 500 with the error body iff the POST's `try` block raised, else 200 with the success body; for a non-JSON message a failed write raises, and otherwise the record and the posted card are built from the same captures; a JSON object posts its card, or raises the failure of the first value that cannot be uppercased; a JSON non-object raises |
| DeleteAllObjects.ScanFacts | delete_all_objects_s3.py:11-24 | After any number of pages, the sent batches followed by the buffer are exactly the entries listed so far; every sent batch has at least 1000 entries and the buffer fewer |
| DeleteAllObjects.BatchesProperties | delete_all_objects_s3.py:11-27 | All requests together are every listed entry once, in order; no request is empty; all but the last hold at least 1000; there are none iff nothing was listed; the last is a flush or a leftover of 1 to 999 |
| DeleteAllObjects.PageOrder | delete_all_objects_s3.py:12-20 | In the full listing, each page's entries follow those of the earlier pages and precede those of the later ones, and are all its versions followed by all its delete markers, each in listed order |
| DeleteAllObjects.FlushesOnPageBoundaries | delete_all_objects_s3.py:11-24 | Each sent batch is exactly the entries of the pages between two consecutive flush points, so no page is split across requests |
| DeleteAllObjects.VersionedBucket.constructor | delete_all_objects_s3.py:4 | A new client has sent nothing |
| DeleteAllObjects.VersionedBucket.DeleteObjects | delete_all_objects_s3.py:31-35 | `_delete_batch` sends exactly one request with the given entries |
| DeleteAllObjects.AppendEntries | delete_all_objects_s3.py:16-20 | The entry loop appends each listed entry, with its key and version id, to the buffer, every one once and in order |
| DeleteAllObjects.DeleteAll | delete_all_objects_s3.py:6-29 | As written, the nested loops send exactly the batches `BatchesProperties` describes, after whatever was sent before |
| DeleteAllObjects.Run | delete_all_objects_s3.py:40 | As written, the script sends to `ct-ire-edp-prd-s3-logs` exactly the batches `BatchesProperties` describes: every listed entry once in order, in no empty request |
| DeleteAllObjects.RunCapped | delete_all_objects_s3.py:40 | The script with the corrected flush (see Findings) sends every listed entry once in order, each request within the 1000-key limit |
| DeleteAllObjects.OversizedRequest | delete_all_objects_s3.py:22-24 | Pages of 500 and then 1000 versions give a single request of 1500 entries, over the 1000-key limit of a request |
| DeleteAllObjects.SendFull | delete_all_objects_s3.py:16-24 | Appending entries one at a time and sending at exactly 1000 loses nothing, and each request sent holds 1000 |
| DeleteAllObjects.DeleteAllCapped | delete_all_objects_s3.py:6-29 | The corrected script still sends every entry once and in order, and every request holds 1 to 1000 entries, all but the last exactly 1000 |
| RestoreDeleteMarkers.RestoredKeyUnchanged | restore_delete_markers.py:6-9 | With equal source and target prefixes, the restored key is the original key |
| RestoreDeleteMarkers.CopyFor | restore_delete_markers.py:41-46 | The copy reads the exact version of the key and writes it to the same key in the same bucket |
| RestoreDeleteMarkers.RestoreObject | restore_delete_markers.py:18-51 | A copy is issued iff the key ends `.parquet`, the version is neither a delete marker nor latest, and it is not under `changeaudit/everest_kenya`; the key is returned iff that copy succeeds, `None` otherwise |
| RestoreDeleteMarkers.TasksAreVersions | restore_delete_markers.py:53-56 | Every task is an entry of some page's `Versions` |
| RestoreDeleteMarkers.TasksIgnoreDeleteMarkers | restore_delete_markers.py:53-56 | Pages that differ only in their delete markers give the same tasks |
| RestoreDeleteMarkers.CollectTasks | restore_delete_markers.py:53-56 | The append loop collects every page's versions, in page order |
| RestoreDeleteMarkers.TallyByMultiset | restore_delete_markers.py:58-64 | The count is the number of results that are neither `None` nor empty, so it depends only on how often each result occurs |
| RestoreDeleteMarkers.TallyOrderIndependent | restore_delete_markers.py:59-64 | Any completion order of the same results gives the same count |
| RestoreDeleteMarkers.TallyCountsRestored | restore_delete_markers.py:58-64 | The restored count is the number of non-`None` results, and a result is non-`None` iff its version is eligible and its copy succeeded |
| RestoreDeleteMarkers.CountRestored | restore_delete_markers.py:61-64 | The `as_completed` loop counts the truthy results |
| RestoreDeleteMarkers.Run | restore_delete_markers.py:13-64 | The script's tasks are the listed versions, its copies are those of the eligible tasks, and the count is the number of successful copies whatever the completion order |

## Left out

- Service calls are parameters or small objects. These are STS, S3 get, list, copy and delete, Athena, Step Functions, DynamoDB and the webhook. No network behaviour, retry inside boto3 or eventual consistency is modelled.
- The Athena polling loops and `time.sleep` are represented by one terminal status per query. Not modelled: an Athena query that never terminates, and the `not query_execution_id` tests, since a started query always has an id.
- `send_lambda_failure_notification` is represented only as a recorded alert or a flag. Its payload text, timestamp and own error handling are not modelled.
- Clocks, time zones and `uuid` are parameters. The populator's `insert_datetime` is one parameter for all its tables, although the source reads the clock once per table.
- `json.loads` and `json.dumps` are not modelled: documents and messages are given already decoded, and answer bodies are the texts before encoding. The S3 object's UTF-8 decoding is folded into "unreadable object".
- Python `str()`/`repr()` of non-string JSON values is a given text. Dict and nested-object values inside fragments are out of scope. So are `repr` escaping rules beyond single quotes.
- ConfigDocument.ApplyDefaults: the in-place mutation of the caller's dict is modelled as a returned dict. The handler reads the resolved dict back, so aliasing plays no part.
- Regular expressions are written out for their five shapes. Character classes are ASCII, as are `upper()`, and `strip()` uses Python's whitespace set. `\w` is not Unicode-aware.
- SnsMessage.ExtractTable treats the source name literally. The source interpolates it unescaped into a pattern, and regex metacharacters in a source name are not modelled.
- `list_objects_v2` returns each key under the prefix once. The 1000-key page limit of that call is not modelled, so a folder of more than 1000 objects moves completely in the model.
- MoveToProcessed.Handle: the mover's S3 calls fail only when a copy's source key is missing; `delete_object` and `list_objects_v2` never fail. Access denied, the 5 GB `copy_object` limit and throttling are not modelled. So the notify-and-re-raise path after a partial move (move_to_processed.py:144-148) is not reached for a move plan, and the contract states that every move plan returns the success dict.
- MoveToProcessed.MoveAllEffect: the body of a renamed key that two listed keys both map to is not stated.
- The responses of `delete_objects` are not modelled. That covers the `Deleted` list it prints and any per-key errors.
- `IsDeleteMarker` and `IsLatest` are booleans with `False` for an absent key.
- The thread pool's concurrency is modelled as independent tasks whose results arrive in any order.
- `partition_compaction.py` (a Spark job with no logic of its own) is not part of this model.
- Logging and `print` output are not modelled.

## Findings

| source | as written | input that shows it | evidently intended | confidence | as-written member | corrected member |
|---|---|---|---|---|---|---|
| delete_all_objects_s3.py:22-24 | The buffer is flushed only after a whole page is appended, so one request can hold more than the 1000 keys a request allows (up to 1999 when no page lists more than 1000 entries) | A page of 500 versions followed by a page of 1000 versions gives one `delete_objects` request of 1500 keys, over the 1000-key request limit | Send the buffer whenever it reaches 1000 entries, so that no request exceeds the limit | medium, not executed | DeleteAllObjects.OversizedRequest | DeleteAllObjects.DeleteAllCapped |
