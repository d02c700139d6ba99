/**
 * `recommenderBaseModelItemBased.RecommenderBaseModel`: the ratings table
 * with its per-item means and mean-centred copy, the item-item similarity
 * table, the catalog, each signed-in user's pool of items still to rate, and
 * the current user.
 */
module ItemBased {

  import opened Seqs
  import opened Wrappers
  import opened ItemIds
  import opened Ratings
  import opened Similarity
  import opened Predictions
  import opened Ranking
  import opened Sampler

  class RecommenderBaseModel {
    /** `self.ratings`. */
    var log: seq<Rating>
    /** `self.rating_mean`. */
    var ratingMean: map<string, real>
    /** `self.adjusted_ratings`. */
    var adjusted: seq<AdjustedRating>
    /** `self.similarity_matrix`. */
    var similarity: seq<SimilarityEntry>
    /** `self.items`. */
    var items: seq<nat>
    /** `self.users`: each signed-in user's items left to rate. */
    var users: map<string, seq<nat>>
    /** `self.cur_user`; "" before anyone signs in. */
    var curUser: string

    /**
     * The means and the adjusted table are those of the current log, the
     * catalog is 1..60, and a signed-in current user has a pool. The
     * similarity table is not part of this: it is built once and goes stale
     * when ratings are added.
     */
    ghost predicate Valid()
      reads this
    {
      ratingMean == RatingMeans(log) &&
      HasAllMeans(log, ratingMean) &&
      adjusted == AdjustRatings(log, ratingMean) &&
      items == Catalog() &&
      (curUser != "" ==> curUser in users) &&
      (forall u | u in users :: InCatalog(users[u]))
    }

    /**
     * `__init__`, with the CSV file's rows given as `ratings` and the pickled
     * similarity matrix as `stored` when it is to be loaded.
     */
    constructor (ratings: seq<Rating>, stored: Option<seq<SimilarityEntry>>, sqrt: real -> real)
      ensures Valid()
      ensures log == ratings
      ensures stored.Some? ==> similarity == stored.value
      ensures stored.None? ==> similarity == SimilarityTable(adjusted, sqrt)
      ensures users == map[] && curUser == ""
    {
      log := ratings;
      ratingMean := map[];
      adjusted := [];
      similarity := [];
      items := [];
      users := map[];
      curUser := "";
      new;
      ProcessRatingsData();
      InitSimilarityMatrix(stored, sqrt);
      items := Catalog();
    }

    /** `process_ratings_data`: recomputes the means and the adjusted table from the log. */
    method ProcessRatingsData()
      modifies this
      ensures ratingMean == RatingMeans(log)
      ensures HasAllMeans(log, ratingMean)
      ensures adjusted == AdjustRatings(log, ratingMean)
      ensures log == old(log) && similarity == old(similarity) && items == old(items)
      ensures users == old(users) && curUser == old(curUser)
    {
      CoversFromLog(log);
      ratingMean := RatingMeans(log);
      adjusted := AdjustRatings(log, ratingMean);
    }

    /** `init_similarity_matrix`: load the stored table, or build it from the adjusted ratings. */
    method InitSimilarityMatrix(stored: Option<seq<SimilarityEntry>>, sqrt: real -> real)
      modifies this`similarity
      ensures stored.Some? ==> similarity == stored.value
      ensures stored.None? ==> similarity == SimilarityTable(adjusted, sqrt)
    {
      if stored.Some? {
        similarity := stored.value;
      } else {
        similarity := BuildSimilarityMatrix(adjusted, sqrt);
      }
    }

    /** `login_user`: a new user gets the whole catalog to rate; a known user keeps their pool. */
    method LoginUser(username: string)
      requires Valid()
      modifies this
      ensures Valid()
      ensures username in old(users) ==> users == old(users)
      ensures username !in old(users) ==> users == old(users)[username := Catalog()]
      ensures curUser == username
      ensures log == old(log) && ratingMean == old(ratingMean) && adjusted == old(adjusted)
      ensures similarity == old(similarity) && items == old(items)
    {
      if username !in users {
        users := users[username := items];
      }
      curUser := username;
    }

    /**
     * The `for item_j in user_distinct_items` loop of `predict(item)`: sums
     * (raw rating - mean) * w and |w| over the items j of `js` that have a
     * table entry (item, j) with weight w.
     */
    method AccumulateEvidence(item: string, js: seq<string>) returns (e: Evidence)
      requires forall j | j in js :: j in ratingMean && RatedBy(adjusted, curUser, j)
      ensures e == EvidenceOver(adjusted, ratingMean, similarity, curUser, item, js)
    {
      var weighted, absWeights := 0.0, 0.0;
      for t := 0 to |js|
        invariant Evidence(weighted, absWeights) == EvidenceOver(adjusted, ratingMean, similarity, curUser, item, js[..t])
      {
        var j := js[t];
        ghost var upTo := js[..t + 1];
        assert upTo[..t] == js[..t] && upTo[t] == j;
        assert forall x | x in upTo :: x in js;
        EvidenceStep(adjusted, ratingMean, similarity, curUser, item, upTo);
        var meanJ := ratingMean[j];
        var w := WeightLookup(similarity, item, j);
        if w.Some? {
          var rating := FirstRating(adjusted, curUser, j);
          weighted := weighted + Weighted(rating as real - meanJ, w.value);
          absWeights := absWeights + Abs(w.value);
        }
      }
      assert js[..|js|] == js;
      e := Evidence(weighted, absWeights);
    }

    /** `predict(item)`: the current user's estimated rating of `item`. */
    method Predict(item: string) returns (p: real)
      requires item in ratingMean && Covers(adjusted, ratingMean)
      ensures p == Prediction(adjusted, ratingMean, similarity, curUser, item)
    {
      var meanRating := ratingMean[item];
      UserItemsHaveMeans(adjusted, ratingMean, curUser);
      var js := UserItems(adjusted, curUser);
      var e := AccumulateEvidence(item, js);
      p := if e.absWeights == 0.0 then meanRating else meanRating + e.weighted / e.absWeights;
    }

    /**
     * The `user_ratings_all_items` loop: the current user's own rating or the
     * prediction for every distinct item, in table order.
     */
    method ScoreItems() returns (scores: seq<Scored>)
      requires Valid()
      ensures Covers(adjusted, ratingMean)
      ensures scores == Scores(adjusted, ratingMean, similarity, curUser)
    {
      CoversFromLog(log);
      ghost var all := Scores(adjusted, ratingMean, similarity, curUser);
      var distinct := DistinctItems(adjusted);
      scores := [];
      for t := 0 to |distinct|
        invariant scores == all[..t]
      {
        var item := distinct[t];
        var value: real;
        if RatedBy(adjusted, curUser, item) {
          value := FirstRating(adjusted, curUser, item) as real;
        } else {
          value := Predict(item);
        }
        assert all[t].item == item && all[t].rating == value;
        PrefixExtend(all, t);
        scores := scores + [Scored(item, value)];
      }
      assert scores == all;
    }

    /**
     * `get_recommendations(n)`: the scored items sorted descending, the
     * first n decoded.
     */
    method GetRecommendations(n: int) returns (r: Option<seq<nat>>)
      requires Valid()
      ensures Covers(adjusted, ratingMean)
      ensures r == Recommendations(adjusted, ratingMean, similarity, curUser, n)
    {
      var scores := ScoreItems();
      var chosen := Head(SortDescending(scores), n);
      r := DecodeItemIds(ItemColumn(chosen));
    }

    /**
     * `update_ratings(items, ratings)`: appends the current user's ratings
     * and recomputes the means; the similarity table is left as it was.
     */
    method UpdateRatings(newItems: seq<string>, newRatings: seq<int>)
      requires Valid() && |newItems| == |newRatings|
      modifies this
      ensures Valid()
      ensures log == old(log) + NewRows(curUser, newItems, newRatings)
      ensures similarity == old(similarity) && items == old(items)
      ensures users == old(users) && curUser == old(curUser)
    {
      log := log + NewRows(curUser, newItems, newRatings);
      ProcessRatingsData();
    }

    /**
     * The exclusive bound `randint` is given on the next `get_item_for_rating`;
     * for a signed-in user the pool drawn from is never empty.
     */
    function DrawBound(): (b: nat)
      reads this
      requires curUser != "" ==> curUser in users
      ensures curUser != "" ==> b > 0
    {
      if curUser == "" then |items| else |Refilled(users[curUser])|
    }

    /**
     * `get_item_for_rating`, with `randint` returning idx: anyone may draw
     * from the catalog, a signed-in user pops from their pool, which starts
     * over once empty.
     */
    method GetItemForRating(idx: nat) returns (item: nat)
      requires Valid() && idx < DrawBound()
      modifies this
      ensures Valid()
      ensures 1 <= item <= ItemsNum
      ensures old(curUser) == "" ==> item == Catalog()[idx] && users == old(users)
      ensures old(curUser) != "" ==>
                var d := Draw(old(users)[old(curUser)], idx);
                item == d.0 && users == old(users)[old(curUser) := d.1]
      ensures log == old(log) && ratingMean == old(ratingMean) && adjusted == old(adjusted)
      ensures similarity == old(similarity) && items == old(items) && curUser == old(curUser)
    {
      if curUser == "" {
        return items[idx];
      }
      if |users[curUser]| == 0 {
        users := users[curUser := items];
      }
      var pool := users[curUser];
      DrawInCatalog(old(users)[curUser], idx);
      item := pool[idx];
      users := users[curUser := pool[..idx] + pool[idx + 1..]];
    }
  }
}
