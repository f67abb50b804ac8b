/** The exporter (export.py:39-158) once the session and the files are set
    aside: group the tracked ids by status, fetch each batch of ids, derive
    one record per id and append it to the list that started from the
    records already in the export file. */
module Export {
  import opened Wrappers
  import opened PyDict
  import opened Chunking
  import opened Buckets
  import opened Ratings
  import opened Titles
  import opened ChapterFeed

  /** export.py:14-19: one exported record. */
  datatype Manga = Manga(
    id: MangaId,
    title: Option<string>,
    rating: Option<int>,
    lastChapter: Option<int>,
    status: Status)

  /** An entry of the `/manga` response: its id and localized titles. */
  datatype MangaInfo = MangaInfo(id: MangaId, titles: Dict<Lang, string>)

  /** What stops an export run (an exception Python does not catch). */
  datatype ExportError =
    /** `manga_data[manga_id]`: the id is missing from the `/manga` response (KeyError). */
    | MissingManga(id: MangaId)
    /** `next(titles.values())` was reached (TypeError). */
    | NoTitle(id: MangaId)

  /** The remote catalog as the exporter sees it: each endpoint as a
      function of what is requested, and the chapter-number parse. */
  datatype Catalog = Catalog(
    ratings: seq<MangaId> -> RatingsResponse,
    manga: seq<MangaId> -> seq<MangaInfo>,
    readMarkers: seq<MangaId> -> Dict<MangaId, seq<ChapterId>>,
    feed: MangaId -> FeedServer,
    parseChapter: string -> Option<int>,
    feedBound: int)

  /** Every item's feed reports at most `feedBound` chapters. */
  ghost predicate FeedsBounded(catalog: Catalog)
  {
    forall id: MangaId :: Bounded(catalog.feed(id), catalog.feedBound)
  }

  /** What the three requests of export.py:57-81 return for one batch. */
  datatype BatchData = BatchData(
    ratings: RatingsResponse,
    manga: map<MangaId, MangaInfo>,
    readMarkers: Dict<MangaId, seq<ChapterId>>)

  function MangaKey(m: MangaInfo): MangaId { m.id }

  function FetchBatch(catalog: Catalog, batch: seq<MangaId>): BatchData
  {
    BatchData(catalog.ratings(batch), IndexBy(catalog.manga(batch), MangaKey), catalog.readMarkers(batch))
  }

  /** `read_marker_data.get(manga_id) or []`. */
  function ReadMarkersOf(readMarkers: Dict<MangaId, seq<ChapterId>>, id: MangaId): seq<ChapterId>
  {
    match Get(readMarkers, id)
    case Some(markers) => markers
    case None => []
  }

  /** The merged feed of one item. */
  function FeedOf(catalog: Catalog, id: MangaId): map<ChapterId, Chapter>
  {
    var server := catalog.feed(id);
    MergePages(PagesAt(server, Offsets(server, catalog.feedBound, 0)))
  }

  /** The record export.py:86-151 derives for one id of a batch. */
  function RecordFor(catalog: Catalog, data: BatchData, id: MangaId, status: Status): (r: Result<Manga, ExportError>)
    ensures r.Success? ==> r.value.id == id && r.value.status == status
  {
    if id !in data.manga then Failure(MissingManga(id))
    else match SelectTitle(data.manga[id].titles)
      case Failure(_) => Failure(NoTitle(id))
      case Success(title) =>
        var markers := ReadMarkersOf(data.readMarkers, id);
        var numbers := ReadChapterNumbers(markers, FeedOf(catalog, id), catalog.parseChapter);
        Success(Manga(id, Some(title), SelectRating(data.ratings, id), LastChapter(numbers, markers), status))
  }

  /** One id of one batch of one bucket: the unit of work of the exporter. */
  datatype Job = Job(id: MangaId, status: Status, batch: seq<MangaId>)

  /** The record of a job, from the data fetched for its batch. */
  function Derive(catalog: Catalog, job: Job): Result<Manga, ExportError>
  {
    RecordFor(catalog, FetchBatch(catalog, job.batch), job.id, job.status)
  }

  /** A way of deriving each job's record. The append loop below is stated
      for any of them; the exporter's own is `DeriveFrom(catalog)`. */
  type Deriver = Job -> Result<Manga, ExportError>

  function DeriveFrom(catalog: Catalog): Deriver
  {
    job => Derive(catalog, job)
  }

  /** A derived record carries its job's id and status. */
  ghost predicate KeepsIdentity(derive: Deriver)
  {
    forall job :: derive(job).Success? ==> derive(job).value.id == job.id && derive(job).value.status == job.status
  }

  lemma DeriveKeepsIdentity(catalog: Catalog)
    ensures KeepsIdentity(DeriveFrom(catalog))
  {
    forall job | DeriveFrom(catalog)(job).Success?
      ensures DeriveFrom(catalog)(job).value.id == job.id && DeriveFrom(catalog)(job).value.status == job.status
    {
      assert DeriveFrom(catalog)(job) == RecordFor(catalog, FetchBatch(catalog, job.batch), job.id, job.status);
    }
  }

  function ItemJobs(ids: seq<MangaId>, status: Status, batch: seq<MangaId>): seq<Job>
  {
    seq(|ids|, i requires 0 <= i < |ids| => Job(ids[i], status, batch))
  }

  function BatchJobs(batches: seq<seq<MangaId>>, status: Status): seq<Job>
  {
    if batches == [] then []
    else BatchJobs(batches[..|batches| - 1], status) + ItemJobs(batches[|batches| - 1], status, batches[|batches| - 1])
  }

  /** The jobs of one bucket: its ids in batches of 100. */
  function BucketJobs(bucket: (Status, seq<MangaId>)): seq<Job>
  {
    BatchJobs(Chunks(bucket.1, BatchSize), bucket.0)
  }

  /** The jobs of a run of buckets, bucket after bucket, for any way
      `jobsOf` of listing one bucket's jobs. */
  function ConcatJobs(jobsOf: ((Status, seq<MangaId>)) -> seq<Job>, lists: Dict<Status, seq<MangaId>>): seq<Job>
  {
    if lists == [] then []
    else ConcatJobs(jobsOf, lists[..|lists| - 1]) + jobsOf(lists[|lists| - 1])
  }

  /** Every id of every bucket, batch by batch, in the order the exporter
      visits them. */
  function Jobs(lists: Dict<Status, seq<MangaId>>): seq<Job>
  {
    ConcatJobs(BucketJobs, lists)
  }

  /** The exporter's state: the records accumulated so far, and the error
      that stopped it, if any. */
  datatype ExportState = ExportState(records: seq<Manga>, error: Option<ExportError>)

  /** One job: append its record, or stop with its error; a stopped run
      stays stopped. */
  function Step(derive: Deriver, state: ExportState, job: Job): ExportState
  {
    if state.error.Some? then state
    else match derive(job)
      case Success(m) => ExportState(state.records + [m], None)
      case Failure(e) => ExportState(state.records, Some(e))
  }

  function Run(derive: Deriver, state: ExportState, jobs: seq<Job>): ExportState
  {
    if jobs == [] then state
    else Step(derive, Run(derive, state, jobs[..|jobs| - 1]), jobs[|jobs| - 1])
  }

  lemma {:induction false} RunAppend(derive: Deriver, state: ExportState, a: seq<Job>, b: seq<Job>)
    ensures Run(derive, state, a + b) == Run(derive, Run(derive, state, a), b)
    decreases |b|
  {
    if b == [] {
      assert a + b == a;
    } else {
      var n := |b| - 1;
      assert (a + b)[..|a + b| - 1] == a + b[..n];
      RunAppend(derive, state, a, b[..n]);
    }
  }

  lemma {:induction false} RunStopped(derive: Deriver, state: ExportState, jobs: seq<Job>)
    requires state.error.Some?
    ensures Run(derive, state, jobs) == state
  {
    if jobs != [] {
      RunStopped(derive, state, jobs[..|jobs| - 1]);
    }
  }

  /** One id of a batch, as the loop of `ExportBatch` takes it: a record
      extends the run by one, an error ends the whole batch. */
  lemma ItemStep(derive: Deriver, state: ExportState, batch: seq<MangaId>, status: Status, i: nat,
                 records: seq<Manga>, r: Result<Manga, ExportError>)
    requires i < |batch|
    requires Run(derive, state, ItemJobs(batch[..i], status, batch)) == ExportState(records, None)
    requires derive(Job(batch[i], status, batch)) == r
    ensures r.Success? ==> Run(derive, state, ItemJobs(batch[..i + 1], status, batch)) == ExportState(records + [r.value], None)
    ensures r.Failure? ==> Run(derive, state, ItemJobs(batch, status, batch)) == ExportState(records, Some(r.error))
  {
    var jobs := ItemJobs(batch[..i + 1], status, batch);
    assert jobs[..|jobs| - 1] == ItemJobs(batch[..i], status, batch);
    assert Run(derive, state, jobs) == Step(derive, ExportState(records, None), Job(batch[i], status, batch));
    if r.Failure? {
      var rest := ItemJobs(batch[i + 1..], status, batch);
      RunStopped(derive, ExportState(records, Some(r.error)), rest);
      RunAppend(derive, state, jobs, rest);
      assert jobs + rest == ItemJobs(batch, status, batch);
    }
  }

  /** export.py:86-151 for one id: title, rating, paginated feed, read
      chapters, last chapter. */
  method ExportItem(catalog: Catalog, data: BatchData, id: MangaId, status: Status) returns (r: Result<Manga, ExportError>)
    requires FeedsBounded(catalog)
    ensures r == RecordFor(catalog, data, id, status)
  {
    if id !in data.manga {
      return Failure(MissingManga(id));
    }
    var titles := data.manga[id].titles;
    var title;
    match SelectTitle(titles) {
      case Failure(_) => return Failure(NoTitle(id));
      case Success(t) => title := t;
    }
    var rating := SelectRating(data.ratings, id);
    var markers := ReadMarkersOf(data.readMarkers, id);
    var chapterFeed, _ := FetchFeed(catalog.feed(id), catalog.feedBound);
    var readChapters := CollectReadChapters(markers, chapterFeed, catalog.parseChapter);
    var lastChapter := LastChapter(readChapters, markers);
    r := Success(Manga(id, Some(title), rating, lastChapter, status));
  }

  /** export.py:57-153 for one batch: fetch, then one record per id in
      order, stopping at the first error. */
  method ExportBatch(catalog: Catalog, state: ExportState, batch: seq<MangaId>, status: Status) returns (next: ExportState)
    requires FeedsBounded(catalog) && state.error.None?
    ensures next == Run(DeriveFrom(catalog), state, ItemJobs(batch, status, batch))
  {
    var data := FetchBatch(catalog, batch);
    ghost var derive := DeriveFrom(catalog);
    var allManga := state.records;
    for i := 0 to |batch|
      invariant Run(derive, state, ItemJobs(batch[..i], status, batch)) == ExportState(allManga, None)
    {
      var r := ExportItem(catalog, data, batch[i], status);
      assert derive(Job(batch[i], status, batch)) == r;
      ItemStep(derive, state, batch, status, i, allManga, r);
      match r {
        case Failure(e) =>
          return ExportState(allManga, Some(e));
        case Success(m) =>
          allManga := allManga + [m];
      }
    }
    assert batch[..|batch|] == batch;
    next := ExportState(allManga, None);
  }

  /** export.py:56-153 for one bucket: its ids in batches of 100. */
  method ExportBucket(catalog: Catalog, state: ExportState, ids: seq<MangaId>, status: Status) returns (next: ExportState)
    requires FeedsBounded(catalog) && state.error.None?
    ensures next == Run(DeriveFrom(catalog), state, BatchJobs(Chunks(ids, BatchSize), status))
  {
    var batches := Chunk(ids, BatchSize);
    ghost var derive := DeriveFrom(catalog);
    next := state;
    for c := 0 to |batches|
      invariant next == Run(derive, state, BatchJobs(batches[..c], status))
      invariant next.error.None?
    {
      assert BatchJobs(batches[..c + 1], status) == BatchJobs(batches[..c], status) + ItemJobs(batches[c], status, batches[c]) by {
        assert batches[..c + 1][..c] == batches[..c];
      }
      RunAppend(derive, state, BatchJobs(batches[..c], status), ItemJobs(batches[c], status, batches[c]));
      next := ExportBatch(catalog, next, batches[c], status);
      if next.error.Some? {
        ghost var rest := BatchJobs(batches[c + 1..], status);
        BatchJobsAppend(batches[..c + 1], batches[c + 1..], status);
        assert batches[..c + 1] + batches[c + 1..] == batches;
        RunAppend(derive, state, BatchJobs(batches[..c + 1], status), rest);
        RunStopped(derive, next, rest);
        return;
      }
    }
    assert batches[..|batches|] == batches;
  }

  lemma {:induction false} BatchJobsAppend(a: seq<seq<MangaId>>, b: seq<seq<MangaId>>, status: Status)
    ensures BatchJobs(a + b, status) == BatchJobs(a, status) + BatchJobs(b, status)
    decreases |b|
  {
    if b == [] {
      assert a + b == a;
    } else {
      var n := |b| - 1;
      assert (a + b)[..|a + b| - 1] == a + b[..n];
      BatchJobsAppend(a, b[..n], status);
    }
  }

  lemma {:induction false} ConcatJobsAppend(jobsOf: ((Status, seq<MangaId>)) -> seq<Job>, a: Dict<Status, seq<MangaId>>, b: Dict<Status, seq<MangaId>>)
    ensures ConcatJobs(jobsOf, a + b) == ConcatJobs(jobsOf, a) + ConcatJobs(jobsOf, b)
    decreases |b|
  {
    if b == [] {
      assert a + b == a;
    } else {
      var n := |b| - 1;
      assert (a + b)[..|a + b| - 1] == a + b[..n];
      assert (a + b)[|a + b| - 1] == b[n];
      ConcatJobsAppend(jobsOf, a, b[..n]);
    }
  }

  lemma JobsAppend(a: Dict<Status, seq<MangaId>>, b: Dict<Status, seq<MangaId>>)
    ensures Jobs(a + b) == Jobs(a) + Jobs(b)
  {
    ConcatJobsAppend(BucketJobs, a, b);
  }

  /** One bucket, as the loop of `Export` takes it: a bucket that completes
      extends the run, an error ends the whole run. */
  lemma BucketStep(derive: Deriver, start: ExportState, lists: Dict<Status, seq<MangaId>>, b: nat,
                   state: ExportState, next: ExportState)
    requires b < |lists|
    requires state == Run(derive, start, Jobs(lists[..b]))
    requires next == Run(derive, state, BucketJobs(lists[b]))
    ensures next.error.None? ==> next == Run(derive, start, Jobs(lists[..b + 1]))
    ensures next.error.Some? ==> next == Run(derive, start, Jobs(lists))
  {
    assert Jobs(lists[..b + 1]) == Jobs(lists[..b]) + BucketJobs(lists[b]) by {
      assert lists[..b + 1][..b] == lists[..b];
    }
    RunAppend(derive, start, Jobs(lists[..b]), BucketJobs(lists[b]));
    if next.error.Some? {
      var rest := Jobs(lists[b + 1..]);
      JobsAppend(lists[..b + 1], lists[b + 1..]);
      assert lists[..b + 1] + lists[b + 1..] == lists;
      RunAppend(derive, start, Jobs(lists[..b + 1]), rest);
      RunStopped(derive, next, rest);
    }
  }

  /** The exporter's main loop: `existing` holds the records read back from
      the export file. `allManga` is what the file holds when the run ends,
      normally or at the first error (the file is rewritten after every
      record). */
  method Export(catalog: Catalog, existing: seq<Manga>, statuses: Dict<MangaId, Status>)
    returns (allManga: seq<Manga>, error: Option<ExportError>)
    requires FeedsBounded(catalog)
    ensures ExportState(allManga, error) == Run(DeriveFrom(catalog), ExportState(existing, None), Jobs(Grouped(statuses)))
  {
    var lists := GroupByStatus(statuses);
    ghost var derive := DeriveFrom(catalog);
    var start := ExportState(existing, None);
    var state := start;
    for b := 0 to |lists|
      invariant state == Run(derive, start, Jobs(lists[..b]))
      invariant state.error.None?
    {
      var (status, ids) := lists[b];
      ghost var before := state;
      state := ExportBucket(catalog, state, ids, status);
      assert BucketJobs(lists[b]) == BatchJobs(Chunks(ids, BatchSize), status);
      BucketStep(derive, start, lists, b, before, state);
      if state.error.Some? {
        return state.records, state.error;
      }
    }
    assert lists[..|lists|] == lists;
    return state.records, state.error;
  }

  /** Records already in the list are never looked at: the run from
      `existing` is `existing` followed by the run from an empty list, so
      records are appended without any deduplication. */
  lemma {:induction false} RunKeepsExisting(derive: Deriver, existing: seq<Manga>, jobs: seq<Job>)
    ensures var clean := Run(derive, ExportState([], None), jobs);
      Run(derive, ExportState(existing, None), jobs) == ExportState(existing + clean.records, clean.error)
  {
    if jobs != [] {
      var n := |jobs| - 1;
      RunKeepsExisting(derive, existing, jobs[..n]);
      var clean := Run(derive, ExportState([], None), jobs[..n]);
      if clean.error.None? {
        match derive(jobs[n])
        case Success(m) =>
          assert existing + clean.records + [m] == existing + (clean.records + [m]);
        case Failure(_) =>
      }
    }
  }

  /** Each job appends exactly one record, carrying the job's id and
      status, until the first job whose record cannot be derived; that job's
      error ends the run. Records present before are left as they were. */
  lemma {:induction false} RunAppendsOnePerJob(derive: Deriver, state: ExportState, jobs: seq<Job>)
    requires KeepsIdentity(derive) && state.error.None?
    ensures var r := Run(derive, state, jobs);
      var before := |state.records|;
      && before <= |r.records| <= before + |jobs|
      && r.records[..before] == state.records
      && (forall i :: before <= i < |r.records| ==>
            r.records[i].id == jobs[i - before].id && r.records[i].status == jobs[i - before].status)
      && (r.error.None? <==> |r.records| == before + |jobs|)
      && (r.error.Some? ==> derive(jobs[|r.records| - before]) == Failure(r.error.value))
  {
    if jobs != [] {
      var n := |jobs| - 1;
      RunAppendsOnePerJob(derive, state, jobs[..n]);
      var p := Run(derive, state, jobs[..n]);
      var before := |state.records|;
      if p.error.None? {
        StepAppends(derive, p, jobs[n]);
        var r := Step(derive, p, jobs[n]);
        assert r.records[..|p.records|] == p.records;
        assert r.records[..before] == p.records[..before];
        forall i | before <= i < |r.records|
          ensures r.records[i].id == jobs[i - before].id && r.records[i].status == jobs[i - before].status
        {
          if i < |p.records| {
            assert r.records[i] == p.records[i];
            assert jobs[..n][i - before] == jobs[i - before];
          }
        }
      } else {
        forall i | before <= i < |p.records|
          ensures p.records[i].id == jobs[i - before].id && p.records[i].status == jobs[i - before].status
        {
          assert jobs[..n][i - before] == jobs[i - before];
        }
        assert jobs[..n][|p.records| - before] == jobs[|p.records| - before];
      }
    }
  }

  /** One step from a running state appends the job's record or stops with
      the job's error. */
  lemma StepAppends(derive: Deriver, state: ExportState, job: Job)
    requires KeepsIdentity(derive) && state.error.None?
    ensures var r := Step(derive, state, job);
      match derive(job)
      case Success(m) =>
        r == ExportState(state.records + [m], None) && m.id == job.id && m.status == job.status
      case Failure(e) => r == ExportState(state.records, Some(e))
  {}

  /** The ids of a list of jobs, in order. */
  function JobIds(jobs: seq<Job>): seq<MangaId>
  {
    seq(|jobs|, i requires 0 <= i < |jobs| => jobs[i].id)
  }

  /** The ids of all buckets, bucket after bucket. */
  function AllIds(lists: Dict<Status, seq<MangaId>>): seq<MangaId>
  {
    if lists == [] then [] else AllIds(lists[..|lists| - 1]) + lists[|lists| - 1].1
  }

  lemma {:induction false} FlattenAppend(a: seq<seq<MangaId>>, x: seq<MangaId>)
    ensures Flatten(a + [x]) == Flatten(a) + x
  {
    if a != [] {
      assert (a + [x])[1..] == a[1..] + [x];
      FlattenAppend(a[1..], x);
    }
  }

  lemma {:induction false} BatchJobsIds(batches: seq<seq<MangaId>>, status: Status)
    ensures JobIds(BatchJobs(batches, status)) == Flatten(batches)
    ensures forall i :: 0 <= i < |BatchJobs(batches, status)| ==> BatchJobs(batches, status)[i].status == status
  {
    if batches != [] {
      var n := |batches| - 1;
      var prev := BatchJobs(batches[..n], status);
      var mine := ItemJobs(batches[n], status, batches[n]);
      BatchJobsIds(batches[..n], status);
      assert JobIds(mine) == batches[n];
      JobIdsAppend(prev, mine);
      assert Flatten(batches) == Flatten(batches[..n]) + batches[n] by {
        FlattenAppend(batches[..n], batches[n]);
        assert batches[..n] + [batches[n]] == batches;
      }
      forall i | 0 <= i < |prev + mine|
        ensures (prev + mine)[i].status == status
      {
        if i >= |prev| {
          assert (prev + mine)[i] == mine[i - |prev|];
        }
      }
    }
  }

  lemma JobIdsAppend(a: seq<Job>, b: seq<Job>)
    ensures JobIds(a + b) == JobIds(a) + JobIds(b)
  {
    assert |JobIds(a + b)| == |JobIds(a) + JobIds(b)|;
    forall i | 0 <= i < |a + b|
      ensures JobIds(a + b)[i] == (JobIds(a) + JobIds(b))[i]
    {
      if i >= |a| {
        assert (a + b)[i] == b[i - |a|];
      }
    }
  }

  /** The exporter visits every id of every bucket exactly once, bucket
      after bucket and in each bucket's order, with that bucket's status:
      batching neither drops nor repeats an id. */
  lemma {:induction false} JobsVisitEveryId(lists: Dict<Status, seq<MangaId>>)
    ensures JobIds(Jobs(lists)) == AllIds(lists)
    ensures |Jobs(lists)| == BucketSizes(lists)
  {
    if lists != [] {
      var n := |lists| - 1;
      var last := lists[n];
      var prev := Jobs(lists[..n]);
      var mine := BatchJobs(Chunks(last.1, BatchSize), last.0);
      JobsVisitEveryId(lists[..n]);
      assert Jobs(lists) == prev + mine;
      assert JobIds(mine) == last.1 by {
        BatchJobsIds(Chunks(last.1, BatchSize), last.0);
        ChunksFlatten(last.1, BatchSize);
      }
      JobIdsAppend(prev, mine);
      assert |mine| == |last.1|;
      assert BucketSizes(lists) == BucketSizes(lists[..n]) + |last.1| by {
        BucketSizesAppend(lists[..n], last);
        assert lists[..n] + [last] == lists;
      }
    }
  }

  /** A run that raises no error appends exactly one record per tracked id
      (the status mapping's size in all), leaving the records that were
      already in the export file unchanged in front. */
  lemma ExportAppendsOnePerId(catalog: Catalog, existing: seq<Manga>, statuses: Dict<MangaId, Status>)
    ensures var r := Run(DeriveFrom(catalog), ExportState(existing, None), Jobs(Grouped(statuses)));
      && |existing| <= |r.records|
      && r.records[..|existing|] == existing
      && (r.error.None? ==> |r.records| == |existing| + |statuses|)
      && (r.error.None? ==> r.records[|existing|..] == Run(DeriveFrom(catalog), ExportState([], None), Jobs(Grouped(statuses))).records)
  {
    var jobs := Jobs(Grouped(statuses));
    DeriveKeepsIdentity(catalog);
    RunAppendsOnePerJob(DeriveFrom(catalog), ExportState(existing, None), jobs);
    JobsVisitEveryId(Grouped(statuses));
    BucketSizesTotal(statuses);
    RunKeepsExisting(DeriveFrom(catalog), existing, jobs);
  }

  /** A job belongs to one of the buckets: its status is the bucket's and
      its id one of the bucket's ids. */
  ghost predicate JobInBucket(lists: Dict<Status, seq<MangaId>>, job: Job)
  {
    exists b :: 0 <= b < |lists| && lists[b].0 == job.status && job.id in lists[b].1
  }

  /** Every job comes from a bucket, with that bucket's status. */
  lemma {:induction false} JobsInBuckets(lists: Dict<Status, seq<MangaId>>)
    ensures forall i :: 0 <= i < |Jobs(lists)| ==> JobInBucket(lists, Jobs(lists)[i])
  {
    if lists != [] {
      var n := |lists| - 1;
      var last := lists[n];
      var prev := Jobs(lists[..n]);
      var mine := BatchJobs(Chunks(last.1, BatchSize), last.0);
      JobsInBuckets(lists[..n]);
      assert Jobs(lists) == prev + mine;
      BatchJobsIds(Chunks(last.1, BatchSize), last.0);
      ChunksFlatten(last.1, BatchSize);
      forall i | 0 <= i < |prev + mine|
        ensures JobInBucket(lists, (prev + mine)[i])
      {
        if i < |prev| {
          assert JobInBucket(lists[..n], prev[i]);
          var b :| 0 <= b < n && lists[..n][b].0 == prev[i].status && prev[i].id in lists[..n][b].1;
          assert lists[b] == lists[..n][b];
        } else {
          var j := i - |prev|;
          assert (prev + mine)[i] == mine[j];
          assert mine[j].id == JobIds(mine)[j] == last.1[j];
        }
      }
    }
  }

  /** The ids of a list of records, in order. */
  function RecordIds(records: seq<Manga>): (ids: seq<MangaId>)
    ensures |ids| == |records|
    ensures forall i :: 0 <= i < |records| ==> ids[i] == records[i].id
  {
    seq(|records|, i requires 0 <= i < |records| => records[i].id)
  }

  /** A run that raises no error appends one record per job, carrying the
      job's id, in job order. */
  lemma RunRecordIds(derive: Deriver, state: ExportState, jobs: seq<Job>)
    requires KeepsIdentity(derive) && state.error.None?
    ensures var r := Run(derive, state, jobs);
      r.error.None? ==>
        && |state.records| <= |r.records|
        && RecordIds(r.records[|state.records|..]) == JobIds(jobs)
  {
    var r := Run(derive, state, jobs);
    RunAppendsOnePerJob(derive, state, jobs);
    if r.error.None? {
      var before := |state.records|;
      var added := r.records[before..];
      forall j | 0 <= j < |added|
        ensures RecordIds(added)[j] == JobIds(jobs)[j]
      {
        assert added[j] == r.records[before + j];
      }
    }
  }

  /** A job drawn from the buckets of a status mapping is an entry of it. */
  lemma GroupedJobIsEntry(statuses: Dict<MangaId, Status>, job: Job)
    requires JobInBucket(Grouped(statuses), job)
    ensures (job.id, job.status) in statuses
  {
    var lists := Grouped(statuses);
    var b :| 0 <= b < |lists| && lists[b].0 == job.status && job.id in lists[b].1;
    assert lists[b].1 == IdsWithStatus(statuses, job.status);
    IdsMembers(statuses, job.status, job.id);
    var k :| 0 <= k < |statuses| && statuses[k] == (job.id, job.status);
  }

  /** A run that raises no error appends the records of the tracked ids in
      bucket order, each carrying the status the mapping gives its id: the
      appended ids are every bucket's ids, bucket after bucket, and every
      appended (id, status) pair is an entry of the status mapping. */
  lemma ExportRecordsFollowStatuses(catalog: Catalog, existing: seq<Manga>, statuses: Dict<MangaId, Status>)
    ensures var r := Run(DeriveFrom(catalog), ExportState(existing, None), Jobs(Grouped(statuses)));
      r.error.None? ==>
        && |existing| <= |r.records|
        && RecordIds(r.records[|existing|..]) == AllIds(Grouped(statuses))
        && forall i :: |existing| <= i < |r.records| ==> (r.records[i].id, r.records[i].status) in statuses
  {
    var lists := Grouped(statuses);
    var jobs := Jobs(lists);
    var start := ExportState(existing, None);
    var r := Run(DeriveFrom(catalog), start, jobs);
    DeriveKeepsIdentity(catalog);
    RunRecordIds(DeriveFrom(catalog), start, jobs);
    JobsVisitEveryId(lists);
    if r.error.None? {
      RunAppendsOnePerJob(DeriveFrom(catalog), start, jobs);
      JobsInBuckets(lists);
      forall i | |existing| <= i < |r.records|
        ensures (r.records[i].id, r.records[i].status) in statuses
      {
        GroupedJobIsEntry(statuses, jobs[i - |existing|]);
      }
    }
  }

  /** Exporting twice against the same catalog, the second time starting
      from the first run's records, doubles the records: nothing is
      deduplicated across runs. */
  lemma ExportTwiceDuplicates(catalog: Catalog, statuses: Dict<MangaId, Status>)
    ensures var first := Run(DeriveFrom(catalog), ExportState([], None), Jobs(Grouped(statuses)));
      first.error.None? ==>
        Run(DeriveFrom(catalog), ExportState(first.records, None), Jobs(Grouped(statuses))) ==
          ExportState(first.records + first.records, None)
  {
    var jobs := Jobs(Grouped(statuses));
    RunKeepsExisting(DeriveFrom(catalog), Run(DeriveFrom(catalog), ExportState([], None), jobs).records, jobs);
  }
}
