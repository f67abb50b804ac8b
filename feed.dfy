/** One item's chapter feed and the last chapter derived from it
    (export.py:103-143): page through the feed 100 chapters at a time,
    merge the pages into one mapping keyed by chapter id, look up each read
    marker in it, and pick the highest chapter number read. */
module ChapterFeed {
  import opened Wrappers
  import opened PyDict
  import opened Maximum

  type ChapterId = string

  /** A feed entry: its id and its `attributes.chapter` field, which is a
      decimal string or null. */
  datatype Chapter = Chapter(id: ChapterId, number: Option<string>)

  /** One page of the feed: its chapters and the total the server reports. */
  datatype FeedPage = FeedPage(data: seq<Chapter>, total: int)

  /** The feed endpoint of one item, as a function of the requested offset. */
  type FeedServer = nat -> FeedPage

  /** The page size the feed endpoint uses. */
  const PageSize: nat := 100

  /** The server never reports more than `bound` chapters. Without such a
      bound the program's `itertools.count` loop need not end. */
  ghost predicate Bounded(server: FeedServer, bound: int)
  {
    forall offset: nat :: server(offset).total <= bound
  }

  /** The offsets requested from `offset` on: one request per page until the
      reported total fits in the pages fetched so far. The second stopping
      condition never holds of a server `Bounded` by `bound`; it only makes
      the definition total. */
  function Offsets(server: FeedServer, bound: int, offset: nat): seq<nat>
    decreases bound - offset
  {
    var total := server(offset).total;
    if total <= offset + PageSize || total > bound then [offset]
    else [offset] + Offsets(server, bound, offset + PageSize)
  }

  function ChapterKey(c: Chapter): ChapterId { c.id }

  /** `{chapter["id"]: chapter for chapter in page}`. */
  function PageMap(page: seq<Chapter>): map<ChapterId, Chapter>
  {
    IndexBy(page, ChapterKey)
  }

  /** `chapter_feed |= ...` over the pages in request order. */
  function MergePages(pages: seq<seq<Chapter>>): map<ChapterId, Chapter>
  {
    if pages == [] then map[]
    else MergePages(pages[..|pages| - 1]) + PageMap(pages[|pages| - 1])
  }

  /** The pages the server returns at the given offsets. */
  function PagesAt(server: FeedServer, offsets: seq<nat>): seq<seq<Chapter>>
  {
    seq(|offsets|, i requires 0 <= i < |offsets| => server(offsets[i]).data)
  }

  /** The pagination loop of export.py:104-121. */
  method FetchFeed(server: FeedServer, ghost bound: int) returns (feed: map<ChapterId, Chapter>, requested: seq<nat>)
    requires Bounded(server, bound)
    ensures requested == Offsets(server, bound, 0)
    ensures feed == MergePages(PagesAt(server, requested))
  {
    feed := map[];
    requested := [];
    assert PagesAt(server, requested) == [];
    var offset: nat := 0;
    while true
      invariant Offsets(server, bound, 0) == requested + Offsets(server, bound, offset)
      invariant feed == MergePages(PagesAt(server, requested))
      decreases bound - offset
    {
      var page := server(offset);
      FetchStep(server, bound, requested, offset);
      requested := requested + [offset];
      feed := feed + PageMap(page.data);
      if page.total <= offset + PageSize {
        break;
      }
      offset := offset + PageSize;
    }
  }

  /** One request of the loop: the merged feed grows by the new page, and
      the request is the last one exactly when the reported total fits;
      otherwise the requests from the next page on follow it. */
  lemma FetchStep(server: FeedServer, bound: int, requested: seq<nat>, offset: nat)
    requires Bounded(server, bound)
    requires Offsets(server, bound, 0) == requested + Offsets(server, bound, offset)
    ensures MergePages(PagesAt(server, requested + [offset])) ==
      MergePages(PagesAt(server, requested)) + PageMap(server(offset).data)
    ensures server(offset).total <= offset + PageSize ==> Offsets(server, bound, 0) == requested + [offset]
    ensures server(offset).total > offset + PageSize ==>
      && offset + PageSize <= bound
      && Offsets(server, bound, 0) == (requested + [offset]) + Offsets(server, bound, offset + PageSize)
  {
    MergeNextPage(server, requested, offset);
    var rest := Offsets(server, bound, offset + PageSize);
    if server(offset).total > offset + PageSize {
      assert Offsets(server, bound, offset) == [offset] + rest;
      assert requested + ([offset] + rest) == (requested + [offset]) + rest;
    }
  }

  lemma MergeNextPage(server: FeedServer, requested: seq<nat>, offset: nat)
    ensures MergePages(PagesAt(server, requested + [offset])) ==
      MergePages(PagesAt(server, requested)) + PageMap(server(offset).data)
  {
    var pages := PagesAt(server, requested + [offset]);
    assert pages[..|requested|] == PagesAt(server, requested);
  }

  /** The requested offsets are 0, 100, 200, ...; every request but the last
      saw a total beyond its page, and the last one did not. */
  lemma {:induction false} OffsetsShape(server: FeedServer, bound: int, offset: nat)
    requires Bounded(server, bound)
    ensures var r := Offsets(server, bound, offset);
      && |r| >= 1
      && (forall i :: 0 <= i < |r| ==> r[i] == offset + PageSize * i)
      && (forall i :: 0 <= i < |r| - 1 ==> server(r[i]).total > r[i] + PageSize)
      && server(r[|r| - 1]).total <= r[|r| - 1] + PageSize
    decreases bound - offset
  {
    if server(offset).total > offset + PageSize {
      var rest := Offsets(server, bound, offset + PageSize);
      OffsetsShape(server, bound, offset + PageSize);
      var r := Offsets(server, bound, offset);
      assert r == [offset] + rest;
      forall i | 1 <= i < |r|
        ensures r[i] == offset + PageSize * i
      {
        assert r[i] == rest[i - 1];
        assert PageSize * i == PageSize * (i - 1) + PageSize;
      }
    }
  }

  /** With a fixed total, the feed takes max(1, ceil(total / 100)) requests:
      `n` requests cover more than `100 * (n - 1)` and at most `100 * n`
      chapters, and a total of at most 100 takes exactly one. */
  lemma RequestCount(server: FeedServer, bound: int, total: int)
    requires Bounded(server, bound)
    requires forall offset: nat :: server(offset).total == total
    ensures var n := |Offsets(server, bound, 0)|;
      && n >= 1
      && total <= PageSize * n
      && (n > 1 ==> PageSize * (n - 1) < total)
      && (n == 1 <==> total <= PageSize)
  {
    OffsetsShape(server, bound, 0);
    var r := Offsets(server, bound, 0);
    var n := |r|;
    assert r[n - 1] == PageSize * (n - 1);
    if n > 1 {
      assert r[n - 2] == PageSize * (n - 2);
      assert server(r[n - 2]).total > PageSize * (n - 2) + PageSize;
    }
  }

  lemma {:induction false} MergeKeys(pages: seq<seq<Chapter>>, k: ChapterId)
    ensures k in MergePages(pages) <==> exists j :: 0 <= j < |pages| && k in PageMap(pages[j])
  {
    if pages != [] {
      var n := |pages| - 1;
      MergeKeys(pages[..n], k);
      if exists j :: 0 <= j < |pages| && k in PageMap(pages[j]) {
        var j :| 0 <= j < |pages| && k in PageMap(pages[j]);
        if j < n {
          assert pages[..n][j] == pages[j];
        }
      }
    }
  }

  /** The merged feed is keyed by chapter id, and a later page's entry
      replaces an earlier page's entry with the same id: the entry kept is
      the one from the last page holding that id. */
  lemma {:induction false} MergeLastPageWins(pages: seq<seq<Chapter>>, j: nat, k: ChapterId)
    requires j < |pages| && k in PageMap(pages[j])
    requires forall j' :: j < j' < |pages| ==> k !in PageMap(pages[j'])
    ensures k in MergePages(pages) && MergePages(pages)[k] == PageMap(pages[j])[k]
  {
    var n := |pages| - 1;
    if j < n {
      forall j' | j < j' < n
        ensures k !in PageMap(pages[..n][j'])
      {
        assert pages[..n][j'] == pages[j'];
      }
      assert pages[..n][j] == pages[j];
      MergeLastPageWins(pages[..n], j, k);
    }
  }

  /** Within one page the last chapter with a given id wins as well. */
  lemma PageLastWins(page: seq<Chapter>, i: nat)
    requires i < |page|
    requires forall j :: i < j < |page| ==> page[j].id != page[i].id
    ensures page[i].id in PageMap(page) && PageMap(page)[page[i].id] == page[i]
  {
    IndexByLastWins(page, ChapterKey, i);
  }

  /** A read marker's chapter number, when the marker is in the feed and its
      number is non-null and parses. `parse` stands for
      `int(float(chapter_num))`, None where that raises ValueError. */
  function MarkerNumber(marker: ChapterId, feed: map<ChapterId, Chapter>, parse: string -> Option<int>): Option<int>
  {
    if marker in feed && feed[marker].number.Some? then parse(feed[marker].number.value) else None
  }

  /** `read_chapters`: the parsed numbers of the read markers, in marker
      order, skipping those that give none. */
  function ReadChapterNumbers(markers: seq<ChapterId>, feed: map<ChapterId, Chapter>, parse: string -> Option<int>): seq<int>
  {
    if markers == [] then []
    else
      var last := markers[|markers| - 1];
      ReadChapterNumbers(markers[..|markers| - 1], feed, parse) +
        (match MarkerNumber(last, feed, parse) case Some(n) => [n] case None => [])
  }

  /** The loop of export.py:123-132. */
  method CollectReadChapters(markers: seq<ChapterId>, feed: map<ChapterId, Chapter>, parse: string -> Option<int>)
    returns (readChapters: seq<int>)
    ensures readChapters == ReadChapterNumbers(markers, feed, parse)
  {
    readChapters := [];
    for i := 0 to |markers|
      invariant readChapters == ReadChapterNumbers(markers[..i], feed, parse)
    {
      assert markers[..i + 1][..i] == markers[..i];
      var marker := markers[i];
      if marker in feed {
        var chapter := feed[marker];
        var chapterNum := chapter.number;
        if chapterNum.Some? {
          match parse(chapterNum.value)
          case Some(n) => readChapters := readChapters + [n];
          case None =>
        }
      }
    }
    assert markers[..|markers|] == markers;
  }

  /** A number is in `read_chapters` exactly when some read marker is in the
      feed with a non-null chapter number that parses to it. */
  lemma {:induction false} ReadChapterMembers(markers: seq<ChapterId>, feed: map<ChapterId, Chapter>, parse: string -> Option<int>, n: int)
    ensures n in ReadChapterNumbers(markers, feed, parse) <==>
      exists i :: 0 <= i < |markers| && MarkerNumber(markers[i], feed, parse) == Some(n)
  {
    if markers != [] {
      var m := |markers| - 1;
      ReadChapterMembers(markers[..m], feed, parse, n);
      if exists i :: 0 <= i < |markers| && MarkerNumber(markers[i], feed, parse) == Some(n) {
        var i :| 0 <= i < |markers| && MarkerNumber(markers[i], feed, parse) == Some(n);
        if i < m {
          assert markers[..m][i] == markers[i];
        }
      }
    }
  }

  /** export.py:134-143: the highest chapter read; failing any, 1 for a
      single read marker (a one-shot), and None for several markers (the
      ambiguous case the program reports) or for none. */
  function LastChapter(readChapters: seq<int>, markers: seq<ChapterId>): (r: Option<int>)
    ensures |readChapters| > 0 ==>
      r.Some? && r.value in readChapters && forall n :: n in readChapters ==> n <= r.value
    ensures |readChapters| == 0 ==> (r.Some? <==> |markers| == 1)
    ensures |readChapters| == 0 && r.Some? ==> r.value == 1
  {
    if |readChapters| > 0 then Some(Max(readChapters))
    else if |markers| > 0 then (if |markers| == 1 then Some(1) else None)
    else None
  }

  /** The last-chapter policy end to end: a result is either the highest
      number among matched, parseable read markers, or 1 for a lone marker
      none of which matched; None exactly when nothing matched and the
      marker count is not one. */
  lemma LastChapterPolicy(markers: seq<ChapterId>, feed: map<ChapterId, Chapter>, parse: string -> Option<int>)
    ensures var nums := ReadChapterNumbers(markers, feed, parse);
      var r := LastChapter(nums, markers);
      && (r.None? <==> (nums == [] && |markers| != 1))
      && (nums != [] ==>
           (exists i :: 0 <= i < |markers| && MarkerNumber(markers[i], feed, parse) == r)
           && forall i :: 0 <= i < |markers| && MarkerNumber(markers[i], feed, parse).Some? ==>
                MarkerNumber(markers[i], feed, parse).value <= r.value)
      && (nums == [] && |markers| == 1 ==> r == Some(1))
  {
    var nums := ReadChapterNumbers(markers, feed, parse);
    var r := LastChapter(nums, markers);
    if nums != [] {
      ReadChapterMembers(markers, feed, parse, r.value);
      forall i | 0 <= i < |markers| && MarkerNumber(markers[i], feed, parse).Some?
        ensures MarkerNumber(markers[i], feed, parse).value <= r.value
      {
        ReadChapterMembers(markers, feed, parse, MarkerNumber(markers[i], feed, parse).value);
      }
    }
  }

  /** Example: one read marker "c1" whose chapter "3.0"
      parses to 3 gives 3; one unmatched marker gives 1; two unmatched give
      None; no markers give None. */
  lemma LastChapterExamples(parse: string -> Option<int>)
    requires parse("3.0") == Some(3)
    ensures LastChapter(ReadChapterNumbers(["c1"], map["c1" := Chapter("c1", Some("3.0"))], parse), ["c1"]) == Some(3)
    ensures LastChapter(ReadChapterNumbers(["c1"], map[], parse), ["c1"]) == Some(1)
    ensures LastChapter(ReadChapterNumbers(["c1", "c2"], map[], parse), ["c1", "c2"]) == None
    ensures LastChapter(ReadChapterNumbers([], map[], parse), []) == None
  {
    var one: seq<ChapterId> := ["c1"];
    assert one[..0] == [];
    var two: seq<ChapterId> := ["c1", "c2"];
    assert two[..1] == one;
    assert Max([3]) == 3;
  }
}
