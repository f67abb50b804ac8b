# mangadex-stats in Dafny

A model of the two command-line programs of mangadex-stats and of the
MangaDex client they share:

- **the exporter** (`export.py`) groups the account's tracked manga by
  reading status, fetches each bucket in batches of 100 ids, derives one
  record per manga (preferred title, rating, last read chapter, status) and
  appends it to the records already in the export file;
- **the statistics** (`stats.py`) group the same way, fetch the ratings of
  each bucket in batches of 100, and print, per bucket and then over all
  buckets, each distinct rating with its number of occurrences;
- **the client** (`md_api.py`) holds a session token, a refresh token and
  the session's expiration, renews the session through the `/auth`
  endpoints, and builds the keyword arguments of every authenticated
  request.

Modules, one concept each:

| module | file | models |
|---|---|---|
| `Wrappers` | wrappers.dfy | `Option` and `Result` |
| `PyDict` | pydict.dfy | Python's insertion-ordered `dict` as a sequence of pairs: `get`, item assignment, `{**d, **e}`, dict comprehensions |
| `Chunking` | chunking.dfy | `chunk(it, size)` |
| `Buckets` | buckets.dfy | the `defaultdict(list)` grouping of ids by status |
| `Titles` | titles.dfy | the preferred-title expression |
| `Ratings` | ratings.dfy | the two shapes of the `/rating` response |
| `ChapterFeed` | feed.dfy | the paginated chapter feed, read chapters and last chapter |
| `Maximum` | maximum.dfy | `max` over integers |
| `Export` | export.dfy | the exporter's main loop |
| `Stats` | stats.dfy | the statistics' main loop and `print_rating_summary` |
| `MdApi`, `MdClient` | md_api.dfy | the credential exchange as functions of the session, and the `MangadexAPI` object whose methods update its three attributes in place |

Each loop of the source is a method proved against a function that
defines its result (`GroupByStatus` against `Grouped`, `FetchFeed`
against `Offsets` and `MergePages`, `Export` against `Run`), and the
properties are lemmas about those functions. Remote endpoints are
function-valued parameters: the `/rating`, `/manga`, `/manga/read` and
chapter-feed endpoints of a `Catalog`, the `/rating` endpoint of a
`RatingsApi`, and the `/auth` endpoints of an `AuthServer`. The exceptions
the programs do not catch become error values: `ExportError` stops the
exporter, and `ApiError` (a missing key, an attribute read before it is
assigned, a keyword passed twice) comes out of the client.

The code behaves in these ways that one might not expect of it, and the
model follows the code:

- When a manga has no usable English, romanized-Japanese or Japanese title,
  the fallback `next(titles.values())` (export.py:92) raises TypeError
  because a dict view is not an iterator. So the exporter stops there
  (`NoTitle`) instead of recording some other title.
- Caller keywords override the default `url`, `headers` and `timeout` of a
  request. They cannot override `method`: a `method` keyword passed to
  `get` or `post` reaches `request` twice and raises TypeError
  (`DuplicateArgument`).
- `API_URL` ends in "/", so the login and refresh URLs, which are built by
  plain concatenation, contain "//auth/".
- `chunk(xs, 0)` yields no batches at all.

## Model

| member | source | states |
|---|---|---|
| Chunking.Chunk | export.py:22-24 | the batches `chunk` yields are exactly `Chunks(xs, size)`: consecutive slices of at most `size` elements, none for an empty input or size 0 (the copy at stats.py:8-10 is identical) |
| Chunking.ChunksFlatten | export.py:22-24 | for size > 0, concatenating the batches gives back the input, in order |
| Chunking.ChunkSizes | export.py:22-24 | every batch holds between 1 and `size` ids; every batch but the last holds exactly `size` |
| Chunking.ChunkCount | export.py:22-24 | the number of batches c satisfies (c-1)·size < n ≤ c·size, i.e. c = ceil(n/size); there are no batches exactly when the input is empty |
| Buckets.GroupByStatus | export.py:49-51 | the loop builds `Grouped(statuses)`: one bucket per status, in the order statuses are first seen, each holding its ids in input order (stats.py:39-41 groups the same way) |
| Buckets.IdInOwnBucketOnly | export.py:49-51 | an id is in the bucket of a status if and only if that is its own status |
| Buckets.BucketKeys | export.py:49-51 | a status has a bucket if and only if some id has that status |
| Buckets.BucketsInFirstSeenOrder | export.py:49-53 | buckets are visited in the order their statuses first occur in the status mapping |
| Buckets.BucketSizesTotal | export.py:49-51 | the bucket sizes add up to the number of ids: none is lost, none is counted twice |
| PyDict.GetUpdate | md_api.py:43-51 | `{**d, **e}` holds `e`'s value under every key of `e`, and `d`'s value under every other key |
| PyDict.UpdateKeepsPositions | md_api.py:43-51 | spreading caller keywords over the defaults keeps each default key at its position |
| PyDict.IndexByKeys | export.py:61-75 | a dict comprehension keyed by id has exactly the ids of the response as keys |
| PyDict.IndexByLastWins | export.py:61-75 | in such a comprehension, the last entry with a given id wins |
| Titles.FirstUsable | export.py:88-91 | the first language, in order, whose title is present and non-empty supplies the title; None when there is no such language |
| Titles.SelectTitle | export.py:86-93 | the title is the English one if usable, else the romanized Japanese, else the Japanese; with none of the three usable the exporter fails |
| Titles.TitleEnglishFirst | export.py:88-93 | an English title wins over a romanised one |
| Titles.TitleRomajiNext | export.py:88-93 | without English, the romanised Japanese title is taken before the Japanese one |
| Titles.TitleSkipsEmpty | export.py:88-93 | an empty English title is passed over like a missing one |
| Titles.TitleNoPreferred | export.py:88-93 | a French-only entry fails instead of yielding its title |
| Ratings.SelectRating | export.py:95-100 | no rating for the list-shaped response; otherwise the rating under the id if present, None if absent |
| Ratings.RatingsOf | stats.py:51-54 | the list-shaped response contributes nothing; a mapping contributes each entry's rating, in mapping order |
| Ratings.SelectedRatingIsCounted | export.py:95-100 | the rating the exporter records for an id is the one the statistics count at that id's position |
| ChapterFeed.FetchFeed | export.py:104-121 | the pagination loop requests exactly the offsets `Offsets(server, bound, 0)` and its feed is the pages merged in request order |
| ChapterFeed.OffsetsShape | export.py:105-121 | the offsets are 0, 100, 200, …; every page but the last reported a total beyond its offset + 100, and the last one did not |
| ChapterFeed.RequestCount | export.py:105-121 | for a fixed total t the loop makes n requests with 100·(n-1) < t ≤ 100·n when n > 1; it makes one request exactly when t ≤ 100 |
| ChapterFeed.MergeKeys | export.py:117-119 | a chapter id is in the merged feed if and only if some page contains it |
| ChapterFeed.MergeLastPageWins | export.py:117-119 | a chapter appearing on several pages keeps its entry from the last of them |
| ChapterFeed.PageLastWins | export.py:117-119 | within a page, the last chapter with a given id wins |
| ChapterFeed.CollectReadChapters | export.py:123-132 | the loop collects `ReadChapterNumbers`: in marker order, the parsed number of each read marker that is in the feed with a non-null, parseable number |
| ChapterFeed.ReadChapterMembers | export.py:123-132 | a number is collected if and only if some read marker yields it |
| ChapterFeed.LastChapter | export.py:134-143 | the maximum of the read chapters; with none, 1 for a single read marker (a oneshot) and None otherwise |
| ChapterFeed.LastChapterPolicy | export.py:123-143 | the last chapter is the largest number any read marker yields, it is None exactly when no marker yields one and there is not exactly one marker, and a lone marker without a number gives 1 |
| ChapterFeed.LastChapterExamples | export.py:134-143 | a parsed "3.0" gives 3, a lone unnumbered marker gives 1, two unnumbered markers or none give None |
| Maximum.Max | export.py:135 | `max` returns an element of the list that is at least every element |
| Export.RecordFor | export.py:86-151 | a derived record carries the id and status it was derived for |
| Export.DeriveKeepsIdentity | export.py:145-151 | every record the exporter derives has its job's id and status |
| Export.ExportItem | export.py:86-151 | the per-id body computes `RecordFor`: title, rating, paginated feed, read chapters and last chapter |
| Export.ExportBatch | export.py:57-153 | one batch fetched once, then one record appended per id in batch order, stopping at the first error; this is `Run` over the batch's jobs |
| Export.ExportBucket | export.py:53-153 | a bucket's ids are processed batch after batch of 100, as `Run` over its jobs |
| Export.Export | export.py:39-153 | the whole run is `Run` over every job of every bucket, starting from the records already in the export file |
| Export.RunKeepsExisting | export.py:41-46 | the records read from the export file stay in front, and the new records are those a run from an empty list derives |
| Export.RunAppendsOnePerJob | export.py:145-153 | a run appends at most one record per job, in job order, each with its job's id and status; it completes every job exactly when it does not fail, and a failure comes from the next job |
| Export.JobsVisitEveryId | export.py:53-83 | the jobs visit every id of every bucket once, bucket by bucket and batch by batch |
| Export.ExportAppendsOnePerId | export.py:41-153 | the existing records are kept, and a run that does not fail appends exactly one record per tracked id |
| Export.JobsInBuckets | export.py:49-86 | every job belongs to a bucket: its status is that bucket's status and its id one of that bucket's ids |
| Export.RunRecordIds | export.py:145-153 | a run without error appends one record per job, with the job's id, in job order |
| Export.GroupedJobIsEntry | export.py:49-51 | a job drawn from the status buckets pairs an id with the status the mapping gives it |
| Export.ExportRecordsFollowStatuses | export.py:145-153 | a run without error appends the records of every bucket's ids, bucket after bucket, and each appended (id, status) pair is an entry of the status mapping |
| Export.ExportTwiceDuplicates | export.py:41-46 | exporting twice against an unchanged catalog duplicates every record: nothing is deduplicated |
| Stats.CountTable | stats.py:16-17 | each entry of the table is a value of the list together with its number of occurrences |
| Stats.CountTableDescending | stats.py:17 | the table's values strictly decrease |
| Stats.CountTableCovers | stats.py:16-18 | a value has an entry in the table if and only if it occurs in the list |
| Stats.CountTableTotal | stats.py:16-18 | the counts add up to the number of ratings |
| Stats.PrintRatingSummary | stats.py:12-21 | the lines printed are `Summary(ratings)` |
| Stats.SummaryShape | stats.py:12-18 | an empty list gives "n/a" alone, and only an empty list does; otherwise one line per distinct rating in strictly descending order with its count, counts summing to the length, then the mean line |
| Stats.CountTableExample | stats.py:16-17 | [5, 5, 3] tabulates as (5, 2) then (3, 1) |
| Stats.SummaryExample | stats.py:12-21 | [5, 5, 3] gives "5: 2", "3: 1" and the mean line; [] gives "n/a" |
| Stats.ChunkRatingsAppend | stats.py:48-54 | the ratings of consecutive batches are the ratings of the first followed by those of the second |
| Stats.ChunkRatingsCount | stats.py:48-54 | the number of ratings collected is the number of entries of the mapping-shaped responses; batches that all come back list-shaped contribute nothing |
| Stats.CollectBucketRatings | stats.py:46-54 | the per-bucket loop collects `BucketRatings`: list-shaped responses are skipped, mappings add their ratings in order |
| Stats.CollectStats | stats.py:34-62 | the report is each bucket's heading, summary and blank line in bucket order, then "All" and the summary of all ratings; `all_ratings` is the buckets' ratings concatenated in bucket order |
| Stats.CollectStatsStep | stats.py:43-59 | one more bucket appends its ratings to the combined list and its heading, summary and blank line to the report |
| Stats.ConcatBucketsAppend | stats.py:43-59 | concatenating bucket ratings over two runs of buckets is the concatenation of the two results |
| Stats.AllRatingsAppend | stats.py:43-59 | the same for the statistics' own bucket ratings |
| MdApi.ParseLogin | md_api.py:27-31 | success exactly when the response has `token.session` and `token.refresh`; both tokens are then stored and the expiration is now + 15 minutes; on a missing key the refresh token and expiration stay as they were (a missing `refresh` leaves the new session token stored) |
| MdApi.Refresh | md_api.py:33-38 | posts the stored refresh token to the refresh URL with a 5-second timeout, and the new session and error are exactly `ParseLogin` of that call's response; an unset refresh token fails without a call |
| MdApi.LoadRefreshToken | md_api.py:23-25 | stores the given token, then makes exactly one refresh call carrying that token |
| MdApi.Login | md_api.py:12-21 | posts the credentials to the login URL; the new session is `ParseLogin` of the response, a failure carries its error, and on success it returns the refresh token it stored, the session expiring 15 minutes from now |
| MdApi.StripLeadingSlash | md_api.py:45 | removes one leading "/" if there is one, and leaves the endpoint unchanged otherwise |
| MdApi.Request | md_api.py:40-53 | refreshes if and only if now is strictly past the expiration (not at the instant itself); after a refresh the session is the one `Refresh` produced and a refresh error is the request's error; otherwise it fails only on an unset session token; a successful request leaves a session valid at `now` and sends the defaults updated with the caller's keywords |
| MdApi.RefreshedBearer | md_api.py:40-48 | after an expired session is refreshed, the bearer token sent is the session token of the refresh response |
| MdApi.RequestArguments | md_api.py:43-52 | each caller keyword replaces the default of that name; otherwise method, URL, the bearer header carrying the session token as it stands after the optional refresh, and the 5-second timeout |
| MdApi.Forward | md_api.py:55-61 | `get`/`post` put `params`/`json` first and forward to `request`; a caller's `method` keyword fails with a duplicate argument and no call |
| MdApi.ForwardedKwargs | md_api.py:55-61 | the forwarded keywords are acceptable to `request` and keep distinct keys |
| MdApi.ForwardMethod | md_api.py:55-61 | the request sent by `get` or `post` always has their method and the `params` or `json` value given |
| MdApi.LeadingSlashIrrelevant | md_api.py:45 | an endpoint reaches the same URL with or without its leading slash |
| MdApi.StatusUrl | md_api.py:45 | "/manga/status" becomes "https://api.mangadex.org/manga/status" |
| MdApi.LoginUrlDoubledSlash | md_api.py:15 | the login URL contains "//auth/login" |
| MdApi.StripsOneSlash | md_api.py:45 | only one leading slash is stripped |
| MdClient.MangadexApi.constructor | md_api.py:7-10 | a new client has none of its three attributes set |
| MdClient.MangadexApi.ParseLoginData | md_api.py:27-31 | assigns the attributes in place as `ParseLogin` describes |
| MdClient.MangadexApi.Refresh | md_api.py:33-38 | updates the attributes as `Refresh` describes |
| MdClient.MangadexApi.LoadRefreshToken | md_api.py:23-25 | updates the attributes as `LoadRefreshToken` describes |
| MdClient.MangadexApi.Login | md_api.py:12-21 | updates the attributes and returns the refresh token as `Login` describes |
| MdClient.MangadexApi.Request | md_api.py:40-53 | refreshes in place when expired, then returns the call's keyword arguments, as `Request` describes |
| MdClient.MangadexApi.Get | md_api.py:55-57 | `Forward` with method "GET" and `params` |
| MdClient.MangadexApi.Post | md_api.py:59-61 | `Forward` with method "POST" and `json` |

## Left out

- HTTP traffic (`requests.post`, `requests.request`) and JSON decoding are not modelled. Responses are inputs: the `Catalog`, `RatingsApi` and `AuthServer` functions.
- MdApi.Request: returns the keyword arguments that `requests.request` is given, not the response body.
- The query parameters of the `/rating`, `/manga`, `/manga/read` and feed requests (content-rating and language filters, `limit`, `grouped`) are not modelled. Each endpoint is a function of the batch of ids or of the feed offset.
- The session is not threaded through the exporter and the statistics. Their endpoints stand for already-authenticated calls, so renewal during a long export appears only in `MdApi`.
- File I/O is not modelled: the `refresh_token` file, and reading and rewriting `md_export.json` after every record and at the end. `Export.Export` takes the records read from the file as `existing` and returns the in-memory list that each rewrite stores.
- `login()` (export.py:27-36, stats.py:23-32) is not modelled: it is file and environment-variable glue around `load_refresh_token` and `login`, which are both modelled.
- Pydantic validation of the stored records and `model_dump` are not modelled.
- The `print` diagnostics of the exporter are not modelled.
- The statistics' printed lines are the values of `Stats.Line`, not text.
- The mean and population standard deviation are floating point and are not computed. `MeanAndStdev` records the list they are computed over.
- `int(float(chapter))` is an abstract `parse` function that returns None where Python raises ValueError. The OverflowError for "inf" is not modelled.
- The clock is an integer number of seconds. `request` and the refresh it triggers see the same `now`.
- ChapterFeed.FetchFeed: requires a bound on the total that the feed reports (`Bounded`), because `itertools.count` makes the source loop forever against a server whose total keeps growing. `Offsets` also stops when a reported total exceeds the bound, which never happens under that requirement.
- Export.Export: requires the same feed bound for every manga (`FeedsBounded`), for the same reason.
- Export.ExportBatch and Export.ExportBucket require the same feed bound, for the same reason.
- Response shapes other than the ones described are not modelled, for example a list where a mapping is expected, which raises TypeError in Python. The only shape variation modelled is the list-shaped `/rating` sentinel.
- Token values are strings. The f-string formatting of a non-string token is not modelled.
- Keywords that bind to a named parameter (`self`, `method` and `endpoint` for `request`; `self`, `endpoint` and `params`/`json` for `get`/`post`) never reach `**kwargs` in Python. They are excluded by a precondition.
