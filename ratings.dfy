/** The two shapes of the `/rating` response for a batch of ids: a mapping
    from id to rating object, or, when none of the ids has a rating, an
    empty list. export.py:96-100 reads one id's rating from it; stats.py:
    49-54 collects every rating it holds. */
module Ratings {
  import opened Wrappers
  import opened PyDict

  type MangaId = string

  datatype RatingsResponse =
    /** The list-shaped sentinel: no ratings at all. */
    | NoRatings
    /** The mapping shape, keyed by id; each value's `rating` field. */
    | RatingsById(ratings: Dict<MangaId, int>)

  /** export.py:96-100: None for the sentinel or an id without an entry,
      otherwise that entry's rating. */
  function SelectRating(response: RatingsResponse, id: MangaId): (r: Option<int>)
    ensures response.NoRatings? ==> r == None
    ensures response.RatingsById? ==> (r.Some? <==> HasKey(response.ratings, id))
    ensures r.Some? ==> exists i :: 0 <= i < |response.ratings| && response.ratings[i] == (id, r.value)
  {
    match response
    case NoRatings => None
    case RatingsById(ratings) => Get(ratings, id)
  }

  /** stats.py:52-54: the sentinel contributes nothing; a mapping
      contributes its ratings in the mapping's order. */
  function RatingsOf(response: RatingsResponse): (r: seq<int>)
    ensures response.NoRatings? ==> r == []
    ensures response.RatingsById? ==>
      |r| == |response.ratings| && forall i :: 0 <= i < |r| ==> r[i] == response.ratings[i].1
  {
    match response
    case NoRatings => []
    case RatingsById(ratings) => seq(|ratings|, i requires 0 <= i < |ratings| => ratings[i].1)
  }

  /** The exporter and the statistics agree on a response: the rating the
      exporter records for an id is the one the statistics count for it,
      and the ids the exporter finds a rating for are exactly the keys. */
  lemma SelectedRatingIsCounted(response: RatingsResponse, k: nat)
    requires response.RatingsById? && DistinctKeys(response.ratings) && k < |response.ratings|
    ensures SelectRating(response, response.ratings[k].0) == Some(RatingsOf(response)[k])
  {
    GetAtIndex(response.ratings, k);
  }

  /** Examples: the sentinel yields no ratings and no
      per-id rating; `{"m1": {"rating": 7}}` yields 7 for "m1" only. */
  lemma RatingExamples(id: MangaId)
    ensures RatingsOf(NoRatings) == [] && SelectRating(NoRatings, id) == None
    ensures SelectRating(RatingsById([("m1", 7)]), "m1") == Some(7)
    ensures id != "m1" ==> SelectRating(RatingsById([("m1", 7)]), id) == None
    ensures RatingsOf(RatingsById([("m1", 7)])) == [7]
  {
    var d: Dict<MangaId, int> := [("m1", 7)];
    assert d[1..] == [];
  }
}
