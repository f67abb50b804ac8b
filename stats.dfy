/** The statistics program (stats.py): group the account's manga by reading
    status, fetch the ratings of each bucket in batches of 100, and report
    per bucket, then over all buckets, how often each rating occurs. The
    printed lines are modelled as values of `Line`. */
module Stats {
  import opened Wrappers
  import opened PyDict
  import opened Chunking
  import opened Buckets
  import opened Ratings
  import opened Maximum

  /** The `/rating` endpoint, as a function of the ids of one batch. */
  type RatingsApi = seq<MangaId> -> RatingsResponse

  /** One printed line. `MeanAndStdev` stands for the line with the mean and
      population standard deviation of `ratings`; those floating-point
      values are not computed here. */
  datatype Line =
    | BucketHeading(status: Status)   // "<status>:"
    | AllHeading                      // "All"
    | NotAvailable                    // "n/a"
    | RatingCount(rating: int, count: nat)
    | MeanAndStdev(ratings: seq<int>)
    | Blank

  // ---------------------------------------------------------------------
  // Counting

  /** Occurrences of `v` in `xs`. */
  function Count(xs: seq<int>, v: int): (c: nat)
    ensures c <= |xs|
    ensures c > 0 <==> v in xs
  {
    if xs == [] then 0
    else (if xs[0] == v then 1 else 0) + Count(xs[1..], v)
  }

  /** `xs` without any occurrence of `v`. */
  function Without(xs: seq<int>, v: int): (r: seq<int>)
    ensures |r| == |xs| - Count(xs, v)
    ensures forall x :: x in r <==> x in xs && x != v
    ensures forall y :: y != v ==> Count(r, y) == Count(xs, y)
  {
    if xs == [] then []
    else if xs[0] == v then Without(xs[1..], v)
    else
      var rest := Without(xs[1..], v);
      assert ([xs[0]] + rest)[1..] == rest;
      [xs[0]] + rest
  }

  /** `sorted(Counter(xs).items(), reverse=True)` (stats.py:16-17): each
      distinct value with its number of occurrences, largest value first.
      Values are distinct, so the pairs are ordered by value alone. */
  function CountTable(xs: seq<int>): (t: seq<(int, nat)>)
    ensures forall i :: 0 <= i < |t| ==> t[i].0 in xs && t[i].1 == Count(xs, t[i].0)
    decreases |xs|
  {
    if xs == [] then []
    else
      var m := Max(xs);
      var rest := CountTable(Without(xs, m));
      assert forall i :: 0 <= i < |rest| ==> rest[i].0 != m && rest[i].0 in xs;
      [(m, Count(xs, m))] + rest
  }

  /** The values of the table strictly decrease. */
  lemma {:induction false} CountTableDescending(xs: seq<int>)
    ensures var t := CountTable(xs);
      forall i, j :: 0 <= i < j < |t| ==> t[i].0 > t[j].0
    decreases |xs|
  {
    if xs != [] {
      var m := Max(xs);
      var w := Without(xs, m);
      CountTableDescending(w);
      var t := CountTable(xs);
      assert t[1..] == CountTable(w);
      forall i, j | 0 <= i < j < |t|
        ensures t[i].0 > t[j].0
      {
        assert t[j] == CountTable(w)[j - 1];
        if i > 0 {
          assert t[i] == CountTable(w)[i - 1];
        } else {
          assert t[j].0 in w;
        }
      }
    }
  }

  /** The position of a value of `xs` in its table. */
  lemma {:induction false} CountTableIndex(xs: seq<int>, v: int) returns (i: nat)
    requires v in xs
    ensures i < |CountTable(xs)| && CountTable(xs)[i].0 == v
    decreases |xs|
  {
    var m := Max(xs);
    var w := Without(xs, m);
    assert CountTable(xs) == [(m, Count(xs, m))] + CountTable(w);
    if v == m {
      i := 0;
    } else {
      assert v in w;
      var j := CountTableIndex(w, v);
      i := j + 1;
    }
  }

  /** The table lists exactly the values that occur in `xs`. */
  lemma CountTableCovers(xs: seq<int>, v: int)
    ensures var t := CountTable(xs);
      v in xs <==> exists i :: 0 <= i < |t| && t[i].0 == v
  {
    if v in xs {
      var i := CountTableIndex(xs, v);
    }
  }

  /** Sum of the counts of a table. */
  function TotalCount(t: seq<(int, nat)>): nat
  {
    if t == [] then 0 else t[0].1 + TotalCount(t[1..])
  }

  /** The counts add up to the number of ratings. */
  lemma {:induction false} CountTableTotal(xs: seq<int>)
    ensures TotalCount(CountTable(xs)) == |xs|
    decreases |xs|
  {
    if xs != [] {
      var m := Max(xs);
      CountTableTotal(Without(xs, m));
      assert CountTable(xs)[1..] == CountTable(Without(xs, m));
    }
  }

  // ---------------------------------------------------------------------
  // print_rating_summary

  /** The lines `print_rating_summary` prints (stats.py:12-21). */
  function Summary(ratings: seq<int>): seq<Line>
  {
    if ratings == [] then [NotAvailable]
    else TableLines(CountTable(ratings)) + [MeanAndStdev(ratings)]
  }

  function TableLines(t: seq<(int, nat)>): (lines: seq<Line>)
    ensures |lines| == |t|
    ensures forall i :: 0 <= i < |t| ==> lines[i] == RatingCount(t[i].0, t[i].1)
  {
    if t == [] then [] else [RatingCount(t[0].0, t[0].1)] + TableLines(t[1..])
  }

  /** stats.py:12-21: "n/a" for no ratings; otherwise one line per distinct
      rating, then the mean and deviation line. */
  method PrintRatingSummary(ratings: seq<int>) returns (lines: seq<Line>)
    ensures lines == Summary(ratings)
  {
    if ratings == [] {
      return [NotAvailable];
    }
    var table := CountTable(ratings);
    lines := [];
    for k := 0 to |table|
      invariant lines == TableLines(table[..k])
    {
      TableLinesStep(table, k);
      lines := lines + [RatingCount(table[k].0, table[k].1)];
    }
    assert table[..|table|] == table;
    lines := lines + [MeanAndStdev(ratings)];
  }

  /** One more table entry adds its line at the end. */
  lemma TableLinesStep(table: seq<(int, nat)>, k: nat)
    requires k < |table|
    ensures TableLines(table[..k + 1]) == TableLines(table[..k]) + [RatingCount(table[k].0, table[k].1)]
  {
    var a, b := TableLines(table[..k + 1]), TableLines(table[..k]) + [RatingCount(table[k].0, table[k].1)];
    assert |a| == |b|;
    forall i | 0 <= i < |a| ensures a[i] == b[i] {
      assert table[..k + 1][i] == table[i];
    }
  }

  /** The summary of a non-empty list: one line per distinct rating, in
      strictly descending order, each with its number of occurrences, the
      counts adding up to the list's length, then the mean line. An empty
      list gives "n/a" alone. */
  lemma SummaryShape(ratings: seq<int>)
    ensures ratings == [] <==> Summary(ratings) == [NotAvailable]
    ensures ratings != [] ==>
      var t := CountTable(ratings);
      && Summary(ratings) == TableLines(t) + [MeanAndStdev(ratings)]
      && (forall i, j :: 0 <= i < j < |t| ==> t[i].0 > t[j].0)
      && (forall i :: 0 <= i < |t| ==> t[i].1 == Count(ratings, t[i].0) > 0)
      && TotalCount(t) == |ratings|
  {
    if ratings != [] {
      var t := CountTable(ratings);
      CountTableDescending(ratings);
      CountTableTotal(ratings);
      assert Summary(ratings)[|Summary(ratings)| - 1] == MeanAndStdev(ratings);
    }
  }

  /** Ratings [5, 5, 3]: 5 twice, then 3 once. */
  lemma CountTableExample()
    ensures CountTable([5, 5, 3]) == [(5, 2), (3, 1)]
  {
    var xs := [5, 5, 3];
    assert Max(xs) == 5 by {
      assert 5 in xs && 3 in xs;
      assert forall x :: x in xs ==> x == 5 || x == 3;
    }
    assert Count(xs, 5) == 2 by {
      assert xs[1..] == [5, 3] && xs[1..][1..] == [3] && [3][1..] == [];
    }
    var w := Without(xs, 5);
    assert w == [3] by {
      assert |w| == 1 && 3 in w;
    }
    assert CountTable(w) == [(3, 1)] by {
      assert Max([3]) == 3 && Count([3], 3) == 1 && Without([3], 3) == [];
    }
  }

  /** Ratings [5, 5, 3]: "5: 2", "3: 1", then the mean line; no ratings:
      "n/a". */
  lemma SummaryExample()
    ensures Summary([5, 5, 3]) == [RatingCount(5, 2), RatingCount(3, 1), MeanAndStdev([5, 5, 3])]
    ensures Summary([]) == [NotAvailable]
  {
    CountTableExample();
    var t := [(5, 2), (3, 1)];
    assert TableLines(t) == [RatingCount(5, 2), RatingCount(3, 1)];
  }

  // ---------------------------------------------------------------------
  // main

  /** The ratings of each batch, concatenated in batch order, for any way
      `ratingsOf` of rating one batch. */
  function ConcatChunks(ratingsOf: seq<MangaId> -> seq<int>, chunks: seq<seq<MangaId>>): seq<int>
  {
    if chunks == [] then []
    else ConcatChunks(ratingsOf, chunks[..|chunks| - 1]) + ratingsOf(chunks[|chunks| - 1])
  }

  function ResponseRatingsOf(api: RatingsApi): seq<MangaId> -> seq<int>
  {
    c => RatingsOf(api(c))
  }

  /** The ratings a sequence of batches yields: a list-shaped response
      adds nothing, a mapping adds all its ratings in order
      (stats.py:48-54). */
  function ChunkRatings(api: RatingsApi, chunks: seq<seq<MangaId>>): seq<int>
  {
    ConcatChunks(ResponseRatingsOf(api), chunks)
  }

  /** The ratings of one bucket: its ids in batches of 100. */
  function BucketRatings(api: RatingsApi, ids: seq<MangaId>): seq<int>
  {
    ChunkRatings(api, Chunks(ids, BatchSize))
  }

  lemma {:induction false} ConcatChunksAppend(ratingsOf: seq<MangaId> -> seq<int>, a: seq<seq<MangaId>>, b: seq<seq<MangaId>>)
    ensures ConcatChunks(ratingsOf, a + b) == ConcatChunks(ratingsOf, a) + ConcatChunks(ratingsOf, b)
    decreases |b|
  {
    if b == [] {
      assert a + b == a;
    } else {
      var n := |b| - 1;
      assert (a + b)[..|a + b| - 1] == a + b[..n];
      assert (a + b)[|a + b| - 1] == b[n];
      ConcatChunksAppend(ratingsOf, a, b[..n]);
    }
  }

  /** Fetching batch after batch is fetching their concatenation's
      ratings one batch at a time: the split point does not matter. */
  lemma ChunkRatingsAppend(api: RatingsApi, a: seq<seq<MangaId>>, b: seq<seq<MangaId>>)
    ensures ChunkRatings(api, a + b) == ChunkRatings(api, a) + ChunkRatings(api, b)
  {
    ConcatChunksAppend(ResponseRatingsOf(api), a, b);
  }

  /** Batches whose responses are all the empty-list sentinel contribute
      no ratings at all; otherwise the number of ratings is the number of
      entries of the mapping-shaped responses. */
  function ResponseSize(r: RatingsResponse): nat
  {
    if r.NoRatings? then 0 else |r.ratings|
  }

  function TotalResponseSize(api: RatingsApi, chunks: seq<seq<MangaId>>): nat
  {
    if chunks == [] then 0
    else TotalResponseSize(api, chunks[..|chunks| - 1]) + ResponseSize(api(chunks[|chunks| - 1]))
  }

  lemma {:induction false} ChunkRatingsCount(api: RatingsApi, chunks: seq<seq<MangaId>>)
    ensures |ChunkRatings(api, chunks)| == TotalResponseSize(api, chunks)
    ensures (forall c :: c in chunks ==> api(c).NoRatings?) ==> ChunkRatings(api, chunks) == []
  {
    if chunks != [] {
      var n := |chunks| - 1;
      assert forall c :: c in chunks[..n] ==> c in chunks;
      ChunkRatingsCount(api, chunks[..n]);
    }
  }

  /** stats.py:47-54: the per-bucket loop over batches. */
  method CollectBucketRatings(ids: seq<MangaId>, api: RatingsApi) returns (ratings: seq<int>)
    ensures ratings == BucketRatings(api, ids)
  {
    var batches := Chunk(ids, BatchSize);
    ratings := [];
    for c := 0 to |batches|
      invariant ratings == ChunkRatings(api, batches[..c])
    {
      assert batches[..c + 1][..c] == batches[..c];
      var response := api(batches[c]);
      if response.NoRatings? {
        continue;
      }
      ratings := ratings + RatingsOf(response);
    }
    assert batches[..|batches|] == batches;
  }

  /** The ratings of each bucket, concatenated in bucket order, for any way
      `ratingsOf` of rating one bucket. */
  function ConcatBuckets(ratingsOf: seq<MangaId> -> seq<int>, lists: Dict<Status, seq<MangaId>>): seq<int>
  {
    if lists == [] then []
    else ConcatBuckets(ratingsOf, lists[..|lists| - 1]) + ratingsOf(lists[|lists| - 1].1)
  }

  function BucketRatingsOf(api: RatingsApi): seq<MangaId> -> seq<int>
  {
    ids => BucketRatings(api, ids)
  }

  /** `all_ratings`: every bucket's ratings, concatenated in bucket order. */
  function AllRatings(api: RatingsApi, lists: Dict<Status, seq<MangaId>>): seq<int>
  {
    ConcatBuckets(BucketRatingsOf(api), lists)
  }

  /** The per-bucket part of the report: heading, summary, blank line. */
  function BucketReports(api: RatingsApi, lists: Dict<Status, seq<MangaId>>): seq<Line>
  {
    if lists == [] then []
    else
      var (status, ids) := lists[|lists| - 1];
      BucketReports(api, lists[..|lists| - 1]) + [BucketHeading(status)] + Summary(BucketRatings(api, ids)) + [Blank]
  }

  /** The whole output of stats.py's `main`. */
  function Report(api: RatingsApi, lists: Dict<Status, seq<MangaId>>): seq<Line>
  {
    BucketReports(api, lists) + [AllHeading] + Summary(AllRatings(api, lists))
  }

  /** stats.py:34-62 after login: bucket the ids, then report each bucket
      and all of them together. */
  method CollectStats(statuses: Dict<MangaId, Status>, api: RatingsApi) returns (report: seq<Line>, allRatings: seq<int>)
    ensures allRatings == AllRatings(api, Grouped(statuses))
    ensures report == Report(api, Grouped(statuses))
  {
    var lists := GroupByStatus(statuses);
    allRatings := [];
    report := [];
    for b := 0 to |lists|
      invariant allRatings == ConcatBuckets(BucketRatingsOf(api), lists[..b])
      invariant report == BucketReports(api, lists[..b])
    {
      CollectStatsStep(api, lists, b);
      var (status, ids) := lists[b];
      var ratings := CollectBucketRatings(ids, api);
      var summary := PrintRatingSummary(ratings);
      report := report + [BucketHeading(status)] + summary + [Blank];
      allRatings := allRatings + ratings;
    }
    assert lists[..|lists|] == lists;
    var summary := PrintRatingSummary(allRatings);
    report := report + [AllHeading] + summary;
  }

  /** One more bucket adds its ratings and its report lines at the end. */
  lemma CollectStatsStep(api: RatingsApi, lists: Dict<Status, seq<MangaId>>, b: nat)
    requires b < |lists|
    ensures ConcatBuckets(BucketRatingsOf(api), lists[..b + 1])
      == ConcatBuckets(BucketRatingsOf(api), lists[..b]) + BucketRatings(api, lists[b].1)
    ensures BucketReports(api, lists[..b + 1])
      == BucketReports(api, lists[..b]) + [BucketHeading(lists[b].0)] + Summary(BucketRatings(api, lists[b].1)) + [Blank]
  {
    assert lists[..b + 1][..b] == lists[..b];
  }

  /** Every rating counted for a bucket is counted once more under "All":
      the combined list of two runs of buckets is the first run's list
      followed by the second's. */
  lemma {:induction false} ConcatBucketsAppend(ratingsOf: seq<MangaId> -> seq<int>, a: Dict<Status, seq<MangaId>>, b: Dict<Status, seq<MangaId>>)
    ensures ConcatBuckets(ratingsOf, a + b) == ConcatBuckets(ratingsOf, a) + ConcatBuckets(ratingsOf, b)
    decreases |b|
  {
    if b == [] {
      assert a + b == a;
    } else {
      var n := |b| - 1;
      assert (a + b)[..|a + b| - 1] == a + b[..n];
      assert (a + b)[|a + b| - 1] == b[n];
      ConcatBucketsAppend(ratingsOf, a, b[..n]);
    }
  }

  /** The same for the statistics' own bucket ratings. */
  lemma AllRatingsAppend(api: RatingsApi, a: Dict<Status, seq<MangaId>>, b: Dict<Status, seq<MangaId>>)
    ensures AllRatings(api, a + b) == AllRatings(api, a) + AllRatings(api, b)
  {
    ConcatBucketsAppend(BucketRatingsOf(api), a, b);
  }
}
