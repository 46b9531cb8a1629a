/** The script that empties a versioned bucket: it lists every object version
    and delete marker page by page and removes them with batched
    `delete_objects` requests. The pages the `list_object_versions` paginator
    yields are a parameter; the client records the requests it is sent. */
module DeleteAllObjects {
  import opened Outcomes

  const BucketName := "ct-ire-edp-prd-s3-logs"

  /** The buffer is sent once a page leaves it holding at least this many entries. */
  const FlushThreshold := 1000

  /** The most keys one `DeleteObjects` request may name. */
  const RequestLimit := 1000

  /** One `{'Key': ..., 'VersionId': ...}` entry. */
  datatype ObjectVersion = ObjectVersion(key: string, versionId: string)

  /** One page of `list_object_versions`; a missing list is `None`. */
  datatype Page = Page(versions: Option<seq<ObjectVersion>>, deleteMarkers: Option<seq<ObjectVersion>>)

  /** `page.get(name, [])`. */
  function OrEmpty(o: Option<seq<ObjectVersion>>): seq<ObjectVersion> {
    if o.Some? then o.value else []
  }

  /** `versions + delete_markers`, the entries one page contributes. */
  function PageEntries(p: Page): seq<ObjectVersion> {
    OrEmpty(p.versions) + OrEmpty(p.deleteMarkers)
  }

  /** The entries of pages `a` up to (not including) `b`, page after page. */
  function Between(pages: seq<Page>, a: nat, b: nat): seq<ObjectVersion>
    requires a <= b <= |pages|
    decreases b - a
  {
    if a == b then [] else Between(pages, a, b - 1) + PageEntries(pages[b - 1])
  }

  /** Every listed entry, page after page. */
  function Entries(pages: seq<Page>): seq<ObjectVersion> {
    Between(pages, 0, |pages|)
  }

  /** The requests' entries, one request after another. */
  function Flatten(batches: seq<seq<ObjectVersion>>): seq<ObjectVersion>
    decreases |batches|
  {
    if batches == [] then [] else Flatten(batches[..|batches| - 1]) + batches[|batches| - 1]
  }

  lemma FlattenSnoc(batches: seq<seq<ObjectVersion>>, b: seq<ObjectVersion>)
    ensures Flatten(batches + [b]) == Flatten(batches) + b
  {
    assert (batches + [b])[..|batches|] == batches;
  }

  lemma Assoc<T>(a: seq<T>, b: seq<T>, c: seq<T>)
    ensures a + (b + c) == (a + b) + c
  {
  }

  // ---------------------------------------------------------------------
  // The loop over pages, as a function of how many pages it has handled.
  // ---------------------------------------------------------------------

  /** The requests sent so far and the `to_delete` buffer. */
  datatype Progress = Progress(sent: seq<seq<ObjectVersion>>, buffer: seq<ObjectVersion>)

  /** One page: append its entries, then send the buffer if it is large enough. */
  function AfterPage(s: Progress, p: Page): Progress {
    var buffer := s.buffer + PageEntries(p);
    if |buffer| >= FlushThreshold then Progress(s.sent + [buffer], []) else Progress(s.sent, buffer)
  }

  /** The state after the loop has handled the first `n` pages. */
  function Scan(pages: seq<Page>, n: nat): Progress
    requires n <= |pages|
  {
    if n == 0 then Progress([], []) else AfterPage(Scan(pages, n - 1), pages[n - 1])
  }

  /** Nothing is lost or duplicated, every request sent inside the loop holds
      at least `FlushThreshold` entries, and what is left over is fewer than that. */
  lemma {:induction false} ScanFacts(pages: seq<Page>, n: nat)
    requires n <= |pages|
    ensures Flatten(Scan(pages, n).sent) + Scan(pages, n).buffer == Between(pages, 0, n)
    ensures forall i :: 0 <= i < |Scan(pages, n).sent| ==> |Scan(pages, n).sent[i]| >= FlushThreshold
    ensures |Scan(pages, n).buffer| < FlushThreshold
  {
    if n > 0 {
      ScanFacts(pages, n - 1);
      var s := Scan(pages, n - 1);
      var entries := PageEntries(pages[n - 1]);
      var buffer := s.buffer + entries;
      assert Between(pages, 0, n) == Between(pages, 0, n - 1) + entries;
      Assoc(Flatten(s.sent), s.buffer, entries);
      if |buffer| >= FlushThreshold {
        var sent := s.sent + [buffer];
        assert Scan(pages, n) == Progress(sent, []);
        FlattenSnoc(s.sent, buffer);
        assert Flatten(sent) + [] == Flatten(sent);
        assert forall i :: 0 <= i < |s.sent| ==> sent[i] == s.sent[i];
      } else {
        assert Scan(pages, n) == Progress(s.sent, buffer);
      }
    }
  }

  /** Every request the script sends: the loop's, then the leftover if any. */
  function Batches(pages: seq<Page>): seq<seq<ObjectVersion>> {
    var s := Scan(pages, |pages|);
    if s.buffer != [] then s.sent + [s.buffer] else s.sent
  }

  /** Every listed entry is sent exactly once and in order, no request is
      empty, every request but the last holds at least `FlushThreshold`
      entries, and the last is either one of those or the leftover of fewer. */
  lemma BatchesProperties(pages: seq<Page>)
    ensures Flatten(Batches(pages)) == Entries(pages)
    ensures forall i :: 0 <= i < |Batches(pages)| ==> |Batches(pages)[i]| > 0
    ensures forall i :: 0 <= i < |Batches(pages)| - 1 ==> |Batches(pages)[i]| >= FlushThreshold
    ensures Batches(pages) == [] <==> Entries(pages) == []
    ensures var s := Scan(pages, |pages|);
      || (Batches(pages) == s.sent && s.buffer == [])
      || (Batches(pages) == s.sent + [s.buffer] && 0 < |s.buffer| < FlushThreshold)
  {
    var s := Scan(pages, |pages|);
    ScanFacts(pages, |pages|);
    if s.buffer != [] {
      FlattenSnoc(s.sent, s.buffer);
    } else {
      assert s.buffer + [] == s.buffer;
      if s.sent != [] {
        assert |Flatten(s.sent)| >= |s.sent[|s.sent| - 1]| by {
          assert Flatten(s.sent) == Flatten(s.sent[..|s.sent| - 1]) + s.sent[|s.sent| - 1];
        }
      }
    }
  }

  /** The entries of the first `b` pages are those of the first `m`
      followed by those of pages `m` to `b`. */
  lemma {:induction false} BetweenSplit(pages: seq<Page>, m: nat, b: nat)
    requires m <= b <= |pages|
    ensures Between(pages, 0, b) == Between(pages, 0, m) + Between(pages, m, b)
    decreases b - m
  {
    if m == b {
      assert Between(pages, m, b) == [];
    } else {
      var x, y, e := Between(pages, 0, m), Between(pages, m, b - 1), PageEntries(pages[b - 1]);
      assert Between(pages, 0, b) == (x + y) + e by {
        BetweenSplit(pages, m, b - 1);
      }
      assert Between(pages, m, b) == y + e;
      Assoc(x, y, e);
    }
  }

  /** The entries of pages `j` to `b` are those of page `j` followed by
      those of the pages after it. */
  lemma {:induction false} BetweenTail(pages: seq<Page>, j: nat, b: nat)
    requires j < b <= |pages|
    ensures Between(pages, j, b) == Between(pages, j, j + 1) + Between(pages, j + 1, b)
    decreases b - j
  {
    if b == j + 1 {
      assert Between(pages, j + 1, b) == [];
    } else {
      var x, y, e := Between(pages, j, j + 1), Between(pages, j + 1, b - 1), PageEntries(pages[b - 1]);
      assert Between(pages, j, b) == (x + y) + e by {
        BetweenTail(pages, j, b - 1);
      }
      assert Between(pages, j + 1, b) == y + e;
      Assoc(x, y, e);
    }
  }

  /** The listing is the pages in order, and each page's part of it is all of
      its versions followed by all of its delete markers, each in listed order. */
  lemma PageOrder(pages: seq<Page>, j: nat)
    requires j < |pages|
    ensures Entries(pages) ==
      Between(pages, 0, j) + OrEmpty(pages[j].versions) + OrEmpty(pages[j].deleteMarkers) + Between(pages, j + 1, |pages|)
  {
    var before, page, after := Between(pages, 0, j), Between(pages, j, j + 1), Between(pages, j + 1, |pages|);
    var v, m := OrEmpty(pages[j].versions), OrEmpty(pages[j].deleteMarkers);
    PageSplit(pages, j);
    assert page == v + m by {
      assert page == Between(pages, j, j) + PageEntries(pages[j]);
    }
    Assoc(before, v, m);
  }

  /** The listing around page `j`. */
  lemma PageSplit(pages: seq<Page>, j: nat)
    requires j < |pages|
    ensures Entries(pages) == Between(pages, 0, j) + Between(pages, j, j + 1) + Between(pages, j + 1, |pages|)
  {
    BetweenSplit(pages, j, |pages|);
    BetweenTail(pages, j, |pages|);
    Assoc(Between(pages, 0, j), Between(pages, j, j + 1), Between(pages, j + 1, |pages|));
  }

  // ---------------------------------------------------------------------
  // Requests end on page boundaries.
  // ---------------------------------------------------------------------

  /** After how many pages each request of the loop was sent. */
  function FlushPoints(pages: seq<Page>, n: nat): seq<nat>
    requires n <= |pages|
  {
    if n == 0 then []
    else
      var s := Scan(pages, n - 1);
      FlushPoints(pages, n - 1) + (if |s.buffer + PageEntries(pages[n - 1])| >= FlushThreshold then [n] else [])
  }

  function Start(points: seq<nat>, i: nat): nat
    requires i <= |points|
  {
    if i == 0 then 0 else points[i - 1]
  }

  /** Each of the loop's requests holds the entries of the pages between two
      consecutive flush points. */
  ghost predicate SentOnBoundaries(pages: seq<Page>, n: nat, f: seq<nat>, sent: seq<seq<ObjectVersion>>)
    requires n <= |pages|
  {
    && |f| == |sent|
    && (forall i :: 0 <= i < |f| ==> Start(f, i) < f[i] <= n)
    && (forall i :: 0 <= i < |f| ==> sent[i] == Between(pages, Start(f, i), f[i]))
  }

  lemma SentOnBoundariesSnoc(pages: seq<Page>, n: nat, f: seq<nat>, sent: seq<seq<ObjectVersion>>, b: seq<ObjectVersion>)
    requires 0 < n <= |pages|
    requires SentOnBoundaries(pages, n - 1, f, sent)
    requires Start(f, |f|) < n && b == Between(pages, Start(f, |f|), n)
    ensures SentOnBoundaries(pages, n, f, sent)
    ensures SentOnBoundaries(pages, n, f + [n], sent + [b])
  {
    var f', sent' := f + [n], sent + [b];
    forall i | 0 <= i < |f'|
      ensures Start(f', i) < f'[i] <= n
      ensures sent'[i] == Between(pages, Start(f', i), f'[i])
    {
      if i < |f| {
        assert Start(f', i) == Start(f, i) && f'[i] == f[i] && sent'[i] == sent[i];
      } else {
        assert i == |f|;
        if i > 0 {
          assert f'[i - 1] == f[i - 1];
        }
        assert f'[i] == n;
        assert sent'[i] == b;
      }
    }
  }

  /** Handling page `n`: the flush points and the loop state after it, on
      each side of the threshold. */
  lemma FlushStep(pages: seq<Page>, n: nat)
    requires 0 < n <= |pages|
    ensures var s0 := Scan(pages, n - 1);
      var buffer := s0.buffer + PageEntries(pages[n - 1]);
      && (|buffer| >= FlushThreshold ==>
            FlushPoints(pages, n) == FlushPoints(pages, n - 1) + [n] && Scan(pages, n) == Progress(s0.sent + [buffer], []))
      && (|buffer| < FlushThreshold ==>
            FlushPoints(pages, n) == FlushPoints(pages, n - 1) && Scan(pages, n) == Progress(s0.sent, buffer))
  {
  }

  /** Request `i` holds exactly the entries of the pages between two
      consecutive flush points, and the buffer those after the last one, so a
      page's entries are never split across requests. */
  lemma {:induction false} FlushesOnPageBoundaries(pages: seq<Page>, n: nat)
    requires n <= |pages|
    ensures SentOnBoundaries(pages, n, FlushPoints(pages, n), Scan(pages, n).sent)
    ensures var f := FlushPoints(pages, n);
      Start(f, |f|) <= n && Scan(pages, n).buffer == Between(pages, Start(f, |f|), n)
  {
    if n > 0 {
      FlushesOnPageBoundaries(pages, n - 1);
      var f0, s0 := FlushPoints(pages, n - 1), Scan(pages, n - 1);
      var a := Start(f0, |f0|);
      var buffer := s0.buffer + PageEntries(pages[n - 1]);
      assert buffer == Between(pages, a, n);
      SentOnBoundariesSnoc(pages, n, f0, s0.sent, buffer);
      FlushStep(pages, n);
      if |buffer| >= FlushThreshold {
        var f := f0 + [n];
        assert Start(f, |f|) == n;
      }
    }
  }

  // ---------------------------------------------------------------------
  // The script.
  // ---------------------------------------------------------------------

  /** The S3 client, as far as the bucket's `delete_objects` requests go. */
  class VersionedBucket {
    const name: string
    var deleteRequests: seq<seq<ObjectVersion>>

    constructor(name: string)
      ensures this.name == name && deleteRequests == []
    {
      this.name := name;
      deleteRequests := [];
    }

    /** `_delete_batch`: one `delete_objects` request. */
    method DeleteObjects(objects: seq<ObjectVersion>)
      modifies this
      ensures deleteRequests == old(deleteRequests) + [objects]
    {
      deleteRequests := deleteRequests + [objects];
    }
  }

  /** The `for obj in all_versions` loop: each entry's key and version id
      appended to the buffer, in order. */
  method AppendEntries(toDelete: seq<ObjectVersion>, allVersions: seq<ObjectVersion>) returns (r: seq<ObjectVersion>)
    ensures r == toDelete + allVersions
  {
    r := toDelete;
    for j := 0 to |allVersions|
      invariant r == toDelete + allVersions[..j]
    {
      assert allVersions[..j + 1] == allVersions[..j] + [allVersions[j]];
      r := r + [ObjectVersion(allVersions[j].key, allVersions[j].versionId)];
    }
    assert allVersions[..|allVersions|] == allVersions;
  }

  /** `delete_all_objects`, over the pages the paginator yields. */
  method DeleteAll(bucket: VersionedBucket, pages: seq<Page>)
    modifies bucket
    ensures bucket.deleteRequests == old(bucket.deleteRequests) + Batches(pages)
  {
    ghost var before := bucket.deleteRequests;
    var toDelete: seq<ObjectVersion> := [];
    for p := 0 to |pages|
      invariant bucket.deleteRequests == before + Scan(pages, p).sent
      invariant toDelete == Scan(pages, p).buffer
    {
      var versions := OrEmpty(pages[p].versions);
      var deleteMarkers := OrEmpty(pages[p].deleteMarkers);
      var allVersions := versions + deleteMarkers;
      ghost var s := Scan(pages, p);
      toDelete := AppendEntries(toDelete, allVersions);
      if |toDelete| >= FlushThreshold {
        assert Scan(pages, p + 1) == Progress(s.sent + [toDelete], []);
        bucket.DeleteObjects(toDelete);
        toDelete := [];
      } else {
        assert Scan(pages, p + 1) == Progress(s.sent, toDelete);
      }
    }
    ghost var s := Scan(pages, |pages|);
    if toDelete != [] {
      bucket.DeleteObjects(toDelete);
      assert bucket.deleteRequests == before + (s.sent + [s.buffer]);
    }
  }


  // ---------------------------------------------------------------------
  // Requests over the per-request limit.
  // ---------------------------------------------------------------------

  function Listed(n: nat): seq<ObjectVersion> {
    seq(n, i => ObjectVersion("k", "v"))
  }

  /** A page of 500 versions followed by a full page of 1000 makes the script
      send one request of 1500 entries, more than a `DeleteObjects` request
      may name. */
  lemma OversizedRequest()
    ensures var pages := [Page(Some(Listed(500)), None), Page(Some(Listed(1000)), None)];
      Batches(pages) == [Listed(500) + Listed(1000)] && |Batches(pages)[0]| > RequestLimit
  {
    var pages := [Page(Some(Listed(500)), None), Page(Some(Listed(1000)), None)];
    assert Listed(500) + [] == Listed(500);
    assert Listed(1000) + [] == Listed(1000);
    assert Scan(pages, 1) == Progress([], Listed(500));
  }

  lemma {:induction false} FlattenAppend(a: seq<seq<ObjectVersion>>, b: seq<seq<ObjectVersion>>)
    ensures Flatten(a + b) == Flatten(a) + Flatten(b)
    decreases |b|
  {
    if b == [] {
      assert a + b == a;
    } else {
      var b', x := b[..|b| - 1], b[|b| - 1];
      var fa, fb' := Flatten(a), Flatten(b');
      assert b == b' + [x];
      assert a + b == (a + b') + [x];
      FlattenAppend(a, b');
      FlattenSnoc(a + b', x);
      FlattenSnoc(b', x);
      Assoc(fa, fb', x);
    }
  }

  /** Appends `entries` to the buffer one at a time, sending the buffer each
      time it reaches `RequestLimit`. */
  method SendFull(bucket: VersionedBucket, buffer: seq<ObjectVersion>, entries: seq<ObjectVersion>)
    returns (rest: seq<ObjectVersion>, ghost sent: seq<seq<ObjectVersion>>)
    requires |buffer| < RequestLimit
    modifies bucket
    ensures bucket.deleteRequests == old(bucket.deleteRequests) + sent
    ensures Flatten(sent) + rest == buffer + entries
    ensures forall i :: 0 <= i < |sent| ==> |sent[i]| == RequestLimit
    ensures |rest| < RequestLimit
  {
    rest := buffer;
    sent := [];
    for j := 0 to |entries|
      invariant bucket.deleteRequests == old(bucket.deleteRequests) + sent
      invariant Flatten(sent) + rest == buffer + entries[..j]
      invariant forall i :: 0 <= i < |sent| ==> |sent[i]| == RequestLimit
      invariant |rest| < RequestLimit
    {
      assert entries[..j + 1] == entries[..j] + [entries[j]];
      Assoc(Flatten(sent), rest, [entries[j]]);
      Assoc(buffer, entries[..j], [entries[j]]);
      rest := rest + [entries[j]];
      if |rest| == RequestLimit {
        FlattenSnoc(sent, rest);
        bucket.DeleteObjects(rest);
        sent := sent + [rest];
        rest := [];
        assert Flatten(sent) + rest == Flatten(sent);
      }
    }
    assert entries[..|entries|] == entries;
  }

  /** Requests sent while handling one page extend those sent before it. */
  lemma CappedStep(sent: seq<seq<ObjectVersion>>, more: seq<seq<ObjectVersion>>, held: seq<ObjectVersion>,
                   entries: seq<ObjectVersion>, rest: seq<ObjectVersion>, prior: seq<ObjectVersion>)
    requires Flatten(sent) + held == prior
    requires Flatten(more) + rest == held + entries
    requires forall i :: 0 <= i < |sent| ==> |sent[i]| == RequestLimit
    requires forall i :: 0 <= i < |more| ==> |more[i]| == RequestLimit
    ensures Flatten(sent + more) + rest == prior + entries
    ensures forall i :: 0 <= i < |sent + more| ==> |(sent + more)[i]| == RequestLimit
  {
    FlattenAppend(sent, more);
    Assoc(Flatten(sent), Flatten(more), rest);
    Assoc(Flatten(sent), held, entries);
  }

  /** The same listing, sending the buffer the moment it reaches the limit:
      every entry is still sent exactly once and in order, every request holds
      between 1 and `RequestLimit` entries, and all but the last exactly that many. */
  method DeleteAllCapped(bucket: VersionedBucket, pages: seq<Page>)
    modifies bucket
    ensures |bucket.deleteRequests| >= |old(bucket.deleteRequests)|
    ensures bucket.deleteRequests[..|old(bucket.deleteRequests)|] == old(bucket.deleteRequests)
    ensures var sent := bucket.deleteRequests[|old(bucket.deleteRequests)|..];
      && Flatten(sent) == Entries(pages)
      && (forall i :: 0 <= i < |sent| ==> 0 < |sent[i]| <= RequestLimit)
      && (forall i :: 0 <= i < |sent| - 1 ==> |sent[i]| == RequestLimit)
  {
    ghost var before := bucket.deleteRequests;
    ghost var sent: seq<seq<ObjectVersion>> := [];
    var toDelete: seq<ObjectVersion> := [];
    for p := 0 to |pages|
      invariant bucket.deleteRequests == before + sent
      invariant Flatten(sent) + toDelete == Between(pages, 0, p)
      invariant forall i :: 0 <= i < |sent| ==> |sent[i]| == RequestLimit
      invariant |toDelete| < RequestLimit
    {
      var allVersions := OrEmpty(pages[p].versions) + OrEmpty(pages[p].deleteMarkers);
      assert allVersions == PageEntries(pages[p]);
      ghost var more;
      ghost var held := toDelete;
      toDelete, more := SendFull(bucket, toDelete, allVersions);
      assert Between(pages, 0, p + 1) == Between(pages, 0, p) + allVersions;
      CappedStep(sent, more, held, allVersions, toDelete, Between(pages, 0, p));
      Assoc(before, sent, more);
      sent := sent + more;
    }
    if toDelete != [] {
      FlattenSnoc(sent, toDelete);
      bucket.DeleteObjects(toDelete);
      sent := sent + [toDelete];
    } else {
      assert Flatten(sent) + [] == Flatten(sent);
    }
    assert bucket.deleteRequests[|before|..] == sent;
  }

  /** The module-level call `delete_all_objects(bucket_name)` as written: a
      fresh client sends exactly `Batches`, so every listed entry once and in
      order, in no empty request. */
  method Run(pages: seq<Page>) returns (bucket: VersionedBucket)
    ensures bucket.name == BucketName
    ensures bucket.deleteRequests == Batches(pages)
    ensures Flatten(bucket.deleteRequests) == Entries(pages)
    ensures forall i :: 0 <= i < |bucket.deleteRequests| ==> |bucket.deleteRequests[i]| > 0
  {
    bucket := new VersionedBucket(BucketName);
    DeleteAll(bucket, pages);
    BatchesProperties(pages);
  }

  /** The same call with the corrected flush: every request also stays
      within the limit of `RequestLimit` keys. */
  method RunCapped(pages: seq<Page>) returns (bucket: VersionedBucket)
    ensures bucket.name == BucketName
    ensures Flatten(bucket.deleteRequests) == Entries(pages)
    ensures forall i :: 0 <= i < |bucket.deleteRequests| ==> 0 < |bucket.deleteRequests[i]| <= RequestLimit
  {
    bucket := new VersionedBucket(BucketName);
    DeleteAllCapped(bucket, pages);
    assert bucket.deleteRequests[0..] == bucket.deleteRequests;
  }
}
