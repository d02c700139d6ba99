/**
 * `predict`: the item-based estimate of the current user's rating for an
 * item, as the item's mean plus the similarity-weighted average deviation of
 * the user's own ratings from their items' means.
 */
module Predictions {

  import opened Seqs
  import opened Ratings
  import opened Similarity
  import opened Wrappers

  /** Every item of the adjusted table has a mean. */
  predicate Covers(adj: seq<AdjustedRating>, means: map<string, real>) {
    forall k :: 0 <= k < |adj| ==> adj[k].item in means
  }

  /** `np.unique(user_other_ratings['itemId'])`: the items `user` rated. */
  function UserItems(adj: seq<AdjustedRating>, user: string): (js: seq<string>)
    ensures forall j :: j in js <==> RatedBy(adj, user, j)
  {
    forall j | RatedBy(adj, user, j) ensures j in DistinctItems(adj) {
      RatedByListed(adj, user, j);
    }
    Filter(DistinctItems(adj), j => RatedBy(adj, user, j))
  }

  /** `(sum_weighted_other_ratings, sum_weights)`. */
  datatype Evidence = Evidence(weighted: real, absWeights: real)

  function Abs(x: real): real {
    if x < 0.0 then -x else x
  }

  /** One weighted deviation, (rating - mean) * w. */
  function Weighted(dev: real, w: real): real {
    dev * w
  }

  /**
   * What item j adds to the accumulators: nothing when the table has no
   * entry (item, j); otherwise (first raw rating - mean of j) * w and |w|.
   * The weight part is never negative, and without weight nothing is added.
   */
  function Contribution(adj: seq<AdjustedRating>, means: map<string, real>, table: seq<SimilarityEntry>,
                        user: string, item: string, j: string): (c: Evidence)
    requires j in means && RatedBy(adj, user, j)
    ensures c.absWeights >= 0.0
    ensures c.absWeights == 0.0 ==> c.weighted == 0.0
    ensures WeightLookup(table, item, j).None? ==> c == Evidence(0.0, 0.0)
  {
    var lookup := WeightLookup(table, item, j);
    if lookup.None? then Evidence(0.0, 0.0)
    else Evidence(Weighted(FirstRating(adj, user, j) as real - means[j], lookup.value), Abs(lookup.value))
  }

  /** Rows derived from the log carry the means of their items. */
  lemma CoversFromLog(log: seq<Rating>)
    ensures HasAllMeans(log, RatingMeans(log))
    ensures Covers(AdjustRatings(log, RatingMeans(log)), RatingMeans(log))
  {
    forall r | r in log ensures r.item in RatingMeans(log) {
      assert r.item in ItemSet(log);
    }
    var adj := AdjustRatings(log, RatingMeans(log));
    forall k | 0 <= k < |adj| ensures adj[k].item in RatingMeans(log) {
      AdjustedRowsMatchLog(log, k);
      assert log[k] in log;
    }
  }

  /**
   * The accumulators after the items of `js`: the sum of weights is never
   * negative, and when it is zero so is the weighted sum.
   */
  function EvidenceOver(adj: seq<AdjustedRating>, means: map<string, real>, table: seq<SimilarityEntry>,
                        user: string, item: string, js: seq<string>): (e: Evidence)
    requires forall j | j in js :: j in means && RatedBy(adj, user, j)
    ensures e.absWeights >= 0.0
    ensures e.absWeights == 0.0 ==> e.weighted == 0.0
  {
    if js == [] then Evidence(0.0, 0.0)
    else
      var e := EvidenceOver(adj, means, table, user, item, js[..|js| - 1]);
      var c := Contribution(adj, means, table, user, item, js[|js| - 1]);
      Evidence(e.weighted + c.weighted, e.absWeights + c.absWeights)
  }

  lemma UserItemsHaveMeans(adj: seq<AdjustedRating>, means: map<string, real>, user: string)
    requires Covers(adj, means)
    ensures forall j | j in UserItems(adj, user) :: j in means && RatedBy(adj, user, j)
  {
    forall j | j in UserItems(adj, user) ensures j in means {
      var k := Find(adj, user, j, 0);
      assert adj[k].item == j;
    }
  }

  /**
   * The mean plus the weighted average deviation; just the mean when no
   * weight was met. Otherwise the distance from the mean, times the sum of
   * weights, is the weighted sum.
   */
  function Estimate(mean: real, e: Evidence): (p: real)
    ensures e.absWeights == 0.0 ==> p == mean
    ensures e.absWeights != 0.0 ==> (p - mean) * e.absWeights == e.weighted
  {
    if e.absWeights == 0.0 then mean
    else
      assert e.weighted / e.absWeights * e.absWeights == e.weighted;
      mean + e.weighted / e.absWeights
  }

  /**
   * What `predict(item)` returns for `user`: the item's mean when none of the
   * user's rated items j has an entry (item, j).
   */
  function Prediction(adj: seq<AdjustedRating>, means: map<string, real>, table: seq<SimilarityEntry>,
                      user: string, item: string): (p: real)
    requires item in means && Covers(adj, means)
    ensures (forall j | RatedBy(adj, user, j) :: WeightLookup(table, item, j).None?) ==> p == means[item]
  {
    UserItemsHaveMeans(adj, means, user);
    NoEvidenceUnlessWeighted(adj, means, table, user, item, UserItems(adj, user));
    Estimate(means[item], EvidenceOver(adj, means, table, user, item, UserItems(adj, user)))
  }

  // ---------------------------------------------------------------------
  // Properties.

  /** Items without an entry (item, j) add nothing to the accumulators. */
  lemma {:induction false} NoEvidenceUnlessWeighted(adj: seq<AdjustedRating>, means: map<string, real>,
                                                    table: seq<SimilarityEntry>, user: string, item: string,
                                                    js: seq<string>)
    requires forall j | j in js :: j in means && RatedBy(adj, user, j)
    ensures (forall j | j in js :: WeightLookup(table, item, j).None?) ==>
              EvidenceOver(adj, means, table, user, item, js) == Evidence(0.0, 0.0)
  {
    if js != [] {
      assert forall j | j in js[..|js| - 1] :: j in js;
      NoEvidenceUnlessWeighted(adj, means, table, user, item, js[..|js| - 1]);
    }
  }

  /** A user with no ratings at all is predicted the item's mean (cold start). */
  lemma PredictionForNewUser(adj: seq<AdjustedRating>, means: map<string, real>, table: seq<SimilarityEntry>,
                             user: string, item: string)
    requires item in means && Covers(adj, means)
    requires forall k :: 0 <= k < |adj| ==> adj[k].user != user
    ensures Prediction(adj, means, table, user, item) == means[item]
  {
  }

  lemma ProductBound(dev: real, w: real, d: real)
    requires Abs(dev) <= d
    ensures Abs(dev * w) <= d * Abs(w)
  {
    if w >= 0.0 {
      if dev >= 0.0 { assert dev * w <= d * w; } else { assert -dev * w <= d * w; }
    } else {
      if dev >= 0.0 { assert dev * -w <= d * -w; } else { assert -dev * -w <= d * -w; }
    }
  }

  /** The accumulated |weighted| is at most d times the accumulated |w|. */
  predicate Bounded(e: Evidence, d: real) {
    e.absWeights >= 0.0 && Abs(e.weighted) <= d * e.absWeights
  }

  lemma ContributionBounded(adj: seq<AdjustedRating>, means: map<string, real>, table: seq<SimilarityEntry>,
                             user: string, item: string, j: string, d: real)
    requires j in means && RatedBy(adj, user, j)
    requires Abs(FirstRating(adj, user, j) as real - means[j]) <= d
    ensures Bounded(Contribution(adj, means, table, user, item, j), d)
  {
    var lookup := WeightLookup(table, item, j);
    if lookup.Some? {
      ProductBound(FirstRating(adj, user, j) as real - means[j], lookup.value, d);
    }
  }

  lemma SumBound(e: Evidence, c: Evidence, d: real)
    requires Bounded(e, d) && Bounded(c, d)
    ensures Bounded(Evidence(e.weighted + c.weighted, e.absWeights + c.absWeights), d)
  {
    assert d * (e.absWeights + c.absWeights) == d * e.absWeights + d * c.absWeights;
  }

  lemma {:induction false} EvidenceBounded(adj: seq<AdjustedRating>, means: map<string, real>, table: seq<SimilarityEntry>,
                                           user: string, item: string, js: seq<string>, d: real)
    requires forall j | j in js :: j in means && RatedBy(adj, user, j)
    requires d >= 0.0
    requires forall j | j in js :: Abs(FirstRating(adj, user, j) as real - means[j]) <= d
    ensures Bounded(EvidenceOver(adj, means, table, user, item, js), d)
  {
    if js != [] {
      var init, j := js[..|js| - 1], js[|js| - 1];
      EvidenceStep(adj, means, table, user, item, js);
      assert forall x | x in init :: x in js;
      assert j in js;
      EvidenceBounded(adj, means, table, user, item, init, d);
      ContributionBounded(adj, means, table, user, item, j, d);
      SumBound(EvidenceOver(adj, means, table, user, item, init), Contribution(adj, means, table, user, item, j), d);
    }
  }

  lemma EvidenceStep(adj: seq<AdjustedRating>, means: map<string, real>, table: seq<SimilarityEntry>,
                     user: string, item: string, js: seq<string>)
    requires js != []
    requires forall j | j in js :: j in means && RatedBy(adj, user, j)
    ensures forall j | j in js[..|js| - 1] :: j in means && RatedBy(adj, user, j)
    ensures js[|js| - 1] in means && RatedBy(adj, user, js[|js| - 1])
    ensures var e := EvidenceOver(adj, means, table, user, item, js[..|js| - 1]);
            var c := Contribution(adj, means, table, user, item, js[|js| - 1]);
            EvidenceOver(adj, means, table, user, item, js) == Evidence(e.weighted + c.weighted, e.absWeights + c.absWeights)
  {
    assert forall x | x in js[..|js| - 1] :: x in js;
  }

  lemma QuotientAbsBound(x: real, a: real, d: real)
    requires a > 0.0 && Abs(x) <= d * a
    ensures Abs(x / a) <= d
  {
    assert x / a * a == x;
    if x / a > d {
      assert x / a * a > d * a;
    } else if x / a < -d {
      assert x / a * a < -d * a;
    }
  }

  /**
   * A weighted average of deviations: the prediction never moves further
   * from the item's mean than the user's largest deviation from a mean.
   */
  lemma PredictionWithinDeviation(adj: seq<AdjustedRating>, means: map<string, real>, table: seq<SimilarityEntry>,
                                  user: string, item: string, d: real)
    requires item in means && Covers(adj, means)
    requires d >= 0.0
    requires forall j | RatedBy(adj, user, j) :: j in means && Abs(FirstRating(adj, user, j) as real - means[j]) <= d
    ensures Abs(Prediction(adj, means, table, user, item) - means[item]) <= d
  {
    UserItemsHaveMeans(adj, means, user);
    var js := UserItems(adj, user);
    EvidenceBounded(adj, means, table, user, item, js, d);
    EstimateWithin(means[item], EvidenceOver(adj, means, table, user, item, js), d,
                   Prediction(adj, means, table, user, item));
  }

  lemma EstimateWithin(m: real, e: Evidence, d: real, p: real)
    requires d >= 0.0 && Bounded(e, d) && p == Estimate(m, e)
    ensures Abs(p - m) <= d
  {
    if e.absWeights != 0.0 {
      QuotientAbsBound(e.weighted, e.absWeights, d);
    }
  }

  /** A duplicate-free sequence whose only member is j is [j]. */
  lemma {:induction false} OnlyMember(s: seq<string>, j: string)
    requires NoDuplicates(s)
    requires forall x :: x in s <==> x == j
    ensures s == [j]
  {
    assert j in s;
    assert s[0] in s && s[|s| - 1] in s;
    assert s[0] == s[|s| - 1];
    assert |s| == 1;
  }

  lemma CancelPositive(dev: real, w: real)
    requires w > 0.0
    ensures dev * w / w == dev
  {
    var q := dev * w / w;
    assert q * w == dev * w;
    assert (q - dev) * w == 0.0;
  }

  /** The prediction formula over one term dev * w: the mean moved by dev with the sign of w. */
  lemma OneTermQuotient(m: real, dev: real, w: real, c: Evidence, p: real)
    requires w != 0.0 && c == Evidence(Weighted(dev, w), Abs(w)) && p == Estimate(m, c)
    ensures w > 0.0 ==> p == m + dev
    ensures w < 0.0 ==> p == m - dev
  {
    if w > 0.0 {
      CancelPositive(dev, w);
    } else {
      CancelPositive(-dev, -w);
      assert dev * w == -dev * -w;
    }
  }

  /** The accumulators of a user who rated exactly one item j hold j's contribution alone. */
  lemma OneItemEvidence(adj: seq<AdjustedRating>, means: map<string, real>, table: seq<SimilarityEntry>,
                        user: string, item: string, j: string)
    requires Covers(adj, means)
    requires forall x :: RatedBy(adj, user, x) <==> x == j
    ensures j in means && RatedBy(adj, user, j)
    ensures forall x | x in UserItems(adj, user) :: x in means && RatedBy(adj, user, x)
    ensures EvidenceOver(adj, means, table, user, item, UserItems(adj, user))
            == Contribution(adj, means, table, user, item, j)
  {
    UserItemsHaveMeans(adj, means, user);
    var js := UserItems(adj, user);
    FilterNoDuplicates(DistinctItems(adj), x => RatedBy(adj, user, x));
    OnlyMember(js, j);
    assert js[..0] == [];
  }

  /**
   * A user who rated exactly one item j: with no entry (item, j) the
   * prediction is the item's mean, and with an entry of weight w != 0 it is
   * the mean moved by the user's deviation on j, towards it when w > 0 and
   * away from it when w < 0.
   */
  lemma PredictionFromOneItem(adj: seq<AdjustedRating>, means: map<string, real>, table: seq<SimilarityEntry>,
                              user: string, item: string, j: string)
    requires item in means && Covers(adj, means)
    requires forall x :: RatedBy(adj, user, x) <==> x == j
    ensures j in means && RatedBy(adj, user, j)
    ensures WeightLookup(table, item, j).None? ==> Prediction(adj, means, table, user, item) == means[item]
    ensures WeightLookup(table, item, j).Some? && WeightLookup(table, item, j).value > 0.0 ==>
              Prediction(adj, means, table, user, item)
                == means[item] + (FirstRating(adj, user, j) as real - means[j])
    ensures WeightLookup(table, item, j).Some? && WeightLookup(table, item, j).value < 0.0 ==>
              Prediction(adj, means, table, user, item)
                == means[item] - (FirstRating(adj, user, j) as real - means[j])
  {
    OneItemEvidence(adj, means, table, user, item, j);
    var lookup := WeightLookup(table, item, j);
    if lookup.Some? && lookup.value != 0.0 {
      WeightedContribution(adj, means, table, user, item, j);
      OneTermQuotient(means[item], FirstRating(adj, user, j) as real - means[j], lookup.value,
                      Contribution(adj, means, table, user, item, j), Prediction(adj, means, table, user, item));
    }
  }

  lemma WeightedContribution(adj: seq<AdjustedRating>, means: map<string, real>, table: seq<SimilarityEntry>,
                             user: string, item: string, j: string)
    requires j in means && RatedBy(adj, user, j)
    ensures WeightLookup(table, item, j).Some? ==>
              var w := WeightLookup(table, item, j).value;
              Contribution(adj, means, table, user, item, j)
                == Evidence(Weighted(FirstRating(adj, user, j) as real - means[j], w), Abs(w))
  {
  }
}
