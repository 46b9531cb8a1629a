/** The script that brings back overwritten or deleted Parquet files: it
    lists every object version under the `changeaudit` prefix and copies each
    eligible non-current version over its own key in the same bucket. The
    pages of `list_object_versions`, whether each `copy_object` call succeeds,
    and the order in which the worker pool completes its tasks are
    parameters. */
module RestoreDeleteMarkers {
  import opened Outcomes
  import opened Strings

  const BucketName := "ct-ire-edp-prod-africa-everest"
  const SourcePrefix := "changeaudit"
  const TargetPrefix := "changeaudit"
  const ExcludedCountry := "everest_kenya"
  const ParquetSuffix := ".parquet"

  /** One entry of a page's `Versions`. An absent `IsDeleteMarker` or
      `IsLatest` is `false`. */
  datatype Version = Version(key: string, versionId: string, isDeleteMarker: bool, isLatest: bool)

  /** One page of `list_object_versions`; a missing list is `None`. */
  datatype Page = Page(versions: Option<seq<Version>>, deleteMarkers: Option<seq<Version>>)

  function OrEmpty(o: Option<seq<Version>>): seq<Version> {
    if o.Some? then o.value else []
  }

  // ---------------------------------------------------------------------
  // `restore_object`.
  // ---------------------------------------------------------------------

  /** The four filters: a Parquet file, not a delete marker, not the current
      version, and not under `changeaudit/everest_kenya`. */
  predicate ShouldRestore(v: Version) {
    && EndsWith(v.key, ParquetSuffix)
    && !v.isDeleteMarker
    && !v.isLatest
    && !Contains(v.key, SourcePrefix + "/" + ExcludedCountry)
  }

  /** `key.replace(source_prefix, target_prefix, 1)`. */
  function RestoredKey(key: string): string {
    ReplaceFirst(key, SourcePrefix, TargetPrefix)
  }

  /** The two prefixes are the same, so a version is restored over its own key. */
  lemma RestoredKeyUnchanged(key: string)
    ensures RestoredKey(key) == key
  {
    ReplaceFirstBySelf(key, SourcePrefix);
  }

  /** The arguments of `copy_object`. */
  datatype CopyRequest = CopyRequest(bucket: string, sourceBucket: string, sourceKey: string, sourceVersionId: string, key: string)

  /** The copy names the exact version as its source and writes it back under
      the same key of the same bucket, which makes it the current version. */
  function CopyFor(v: Version): (c: CopyRequest)
    ensures c.bucket == BucketName && c.sourceBucket == BucketName
    ensures c.sourceKey == v.key && c.sourceVersionId == v.versionId
    ensures c.key == v.key
  {
    RestoredKeyUnchanged(v.key);
    CopyRequest(BucketName, BucketName, v.key, v.versionId, RestoredKey(v.key))
  }

  /** The copy `restore_object` issues, if any, and what it returns. */
  datatype Restore = Restore(copy: Option<CopyRequest>, result: Option<string>)

  /** A filtered-out version issues no copy; an eligible one issues its copy
      and returns its key when the copy succeeds and `None` when it raises. */
  function RestoreObject(v: Version, copySucceeds: bool): (r: Restore)
    ensures r.copy.Some? <==> ShouldRestore(v)
    ensures r.copy.Some? ==> r.copy.value == CopyFor(v)
    ensures r.result.Some? <==> ShouldRestore(v) && copySucceeds
    ensures r.result.Some? ==> r.result.value == v.key && r.result.value != ""
  {
    if !EndsWith(v.key, ParquetSuffix) then Restore(None, None)
    else if v.isDeleteMarker then Restore(None, None)
    else if v.isLatest then Restore(None, None)
    else if Contains(v.key, SourcePrefix + "/" + ExcludedCountry) then Restore(None, None)
    else
      var copy := CopyFor(v);
      if copySucceeds then Restore(Some(copy), Some(v.key)) else Restore(Some(copy), None)
  }

  // ---------------------------------------------------------------------
  // Collecting the tasks.
  // ---------------------------------------------------------------------

  /** The `Versions` entries of the first `n` pages, in page order. */
  function Versions(pages: seq<Page>, n: nat): seq<Version>
    requires n <= |pages|
  {
    if n == 0 then [] else Versions(pages, n - 1) + OrEmpty(pages[n - 1].versions)
  }

  /** `v` is entry `t` of the `Versions` of page `j`, for some `j < n`. */
  ghost predicate ListedIn(pages: seq<Page>, n: nat, v: Version)
    requires n <= |pages|
  {
    exists j, t :: 0 <= j < n && 0 <= t < |OrEmpty(pages[j].versions)| && OrEmpty(pages[j].versions)[t] == v
  }

  /** Every task was listed under some page's `Versions`. */
  lemma {:induction false} TasksAreVersions(pages: seq<Page>, n: nat)
    requires n <= |pages|
    ensures forall k :: 0 <= k < |Versions(pages, n)| ==> ListedIn(pages, n, Versions(pages, n)[k])
  {
    if n > 0 {
      TasksAreVersions(pages, n - 1);
      var before := Versions(pages, n - 1);
      var page := OrEmpty(pages[n - 1].versions);
      var all := Versions(pages, n);
      assert all == before + page;
      forall k | 0 <= k < |all| ensures ListedIn(pages, n, all[k]) {
        if k < |before| {
          assert ListedIn(pages, n - 1, before[k]);
          var j, t :| 0 <= j < n - 1 && 0 <= t < |OrEmpty(pages[j].versions)| && OrEmpty(pages[j].versions)[t] == before[k];
          assert all[k] == before[k];
        } else {
          var t := k - |before|;
          assert all[k] == page[t];
        }
      }
    }
  }

  /** Delete markers never become tasks: pages that differ only in their
      `DeleteMarkers` give the same tasks. */
  lemma {:induction false} TasksIgnoreDeleteMarkers(pages: seq<Page>, others: seq<Page>, n: nat)
    requires n <= |pages| && |others| == |pages|
    requires forall j :: 0 <= j < |pages| ==> pages[j].versions == others[j].versions
    ensures Versions(pages, n) == Versions(others, n)
  {
    if n > 0 {
      TasksIgnoreDeleteMarkers(pages, others, n - 1);
    }
  }

  /** The loop that fills `restore_tasks`. */
  method CollectTasks(pages: seq<Page>) returns (tasks: seq<Version>)
    ensures tasks == Versions(pages, |pages|)
  {
    tasks := [];
    for p := 0 to |pages|
      invariant tasks == Versions(pages, p)
    {
      var versions := OrEmpty(pages[p].versions);
      ghost var start := tasks;
      for j := 0 to |versions|
        invariant tasks == start + versions[..j]
      {
        tasks := tasks + [versions[j]];
      }
      assert versions[..|versions|] == versions;
    }
  }

  // ---------------------------------------------------------------------
  // Counting what was restored.
  // ---------------------------------------------------------------------

  /** `if result:` on what a task returned. */
  predicate Truthy(result: Option<string>) {
    result.Some? && result.value != ""
  }

  /** How many results count as restored. */
  function Tally(results: seq<Option<string>>): nat
    decreases |results|
  {
    if results == [] then 0
    else Tally(results[..|results| - 1]) + (if Truthy(results[|results| - 1]) then 1 else 0)
  }

  /** The tally depends only on how often each result occurs. */
  lemma {:induction false} TallyByMultiset(results: seq<Option<string>>)
    ensures Tally(results) == |results| - multiset(results)[None] - multiset(results)[Some("")]
    decreases |results|
  {
    if results != [] {
      var init := results[..|results| - 1];
      var last := results[|results| - 1];
      TallyByMultiset(init);
      assert results == init + [last];
      var m, m' := multiset(init), multiset(results);
      assert m' == m + multiset{last};
      assert m'[None] == m[None] + (if last == None then 1 else 0);
      assert m'[Some("")] == m[Some("")] + (if last == Some("") then 1 else 0);
      assert m[None] + m[Some("")] <= |init| by {
        assert m[None] + m[Some("")] <= |m|;
      }
      assert Tally(results) == Tally(init) + (if Truthy(last) then 1 else 0);
    }
  }

  /** The order in which the tasks complete does not change the count. */
  lemma TallyOrderIndependent(a: seq<Option<string>>, b: seq<Option<string>>)
    requires multiset(a) == multiset(b)
    ensures Tally(a) == Tally(b)
  {
    TallyByMultiset(a);
    TallyByMultiset(b);
    assert |a| == |multiset(a)| == |multiset(b)| == |b|;
  }

  /** What each task returns, in task order. */
  function Results(tasks: seq<Version>, copySucceeds: seq<bool>): (rs: seq<Option<string>>)
    requires |copySucceeds| == |tasks|
    ensures |rs| == |tasks|
    ensures forall i :: 0 <= i < |tasks| ==> rs[i] == RestoreObject(tasks[i], copySucceeds[i]).result
  {
    seq(|tasks|, i requires 0 <= i < |tasks| => RestoreObject(tasks[i], copySucceeds[i]).result)
  }

  /** The copies the tasks issue, in no particular order. */
  function Copies(tasks: seq<Version>): multiset<CopyRequest>
    decreases |tasks|
  {
    if tasks == [] then multiset{}
    else
      var last := tasks[|tasks| - 1];
      Copies(tasks[..|tasks| - 1]) + (if ShouldRestore(last) then multiset{CopyFor(last)} else multiset{})
  }

  /** The restored count is the number of tasks whose result is not `None`:
      an eligible version whose copy succeeded. */
  lemma {:induction false} TallyCountsRestored(tasks: seq<Version>, copySucceeds: seq<bool>)
    requires |copySucceeds| == |tasks|
    ensures Tally(Results(tasks, copySucceeds)) == |tasks| - multiset(Results(tasks, copySucceeds))[None]
    ensures forall i :: 0 <= i < |tasks| ==>
      (Results(tasks, copySucceeds)[i].Some? <==> ShouldRestore(tasks[i]) && copySucceeds[i])
  {
    var rs := Results(tasks, copySucceeds);
    TallyByMultiset(rs);
    forall i | 0 <= i < |rs| ensures rs[i] != Some("") {
      assert rs[i] == RestoreObject(tasks[i], copySucceeds[i]).result;
    }
    assert Some("") !in rs;
  }

  /** The `as_completed` loop, over the results in the order they arrive. */
  method CountRestored(completed: seq<Option<string>>) returns (restoredCount: nat)
    ensures restoredCount == Tally(completed)
  {
    restoredCount := 0;
    for k := 0 to |completed|
      invariant restoredCount == Tally(completed[..k])
    {
      assert completed[..k + 1][..k] == completed[..k];
      var result := completed[k];
      if result.Some? && result.value != "" {
        restoredCount := restoredCount + 1;
      }
    }
    assert completed[..|completed|] == completed;
  }

  /** The whole script: collect the tasks, run each (`copySucceeds[i]` for task
      `i`), and count the results in completion order `completed`, which holds
      every task's result once. */
  method Run(pages: seq<Page>, copySucceeds: seq<bool>, completed: seq<Option<string>>)
    returns (tasks: seq<Version>, copies: multiset<CopyRequest>, restoredCount: nat)
    requires |copySucceeds| == |Versions(pages, |pages|)|
    requires multiset(completed) == multiset(Results(Versions(pages, |pages|), copySucceeds))
    ensures tasks == Versions(pages, |pages|)
    ensures copies == Copies(tasks)
    ensures restoredCount == Tally(Results(tasks, copySucceeds))
    ensures restoredCount == |tasks| - multiset(Results(tasks, copySucceeds))[None]
  {
    tasks := CollectTasks(pages);
    copies := Copies(tasks);
    restoredCount := CountRestored(completed);
    TallyOrderIndependent(completed, Results(tasks, copySucceeds));
    TallyCountsRestored(tasks, copySucceeds);
  }
}
