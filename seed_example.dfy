/**
 * A worked example: three items rated twice each by three users, and a new
 * user who then rates item 1 with 5.
 */
module SeedExample {

  import opened Ratings
  import opened Similarity
  import opened Predictions

  /** (u1, 1, 5), (u1, 2, 1), (u2, 1, 4), (u2, 3, 5), (u3, 2, 2), (u3, 3, 4). */
  function SeedLog(): seq<Rating> {
    [Rating("u1", "i1", 5), Rating("u1", "i2", 1), Rating("u2", "i1", 4),
     Rating("u2", "i3", 5), Rating("u3", "i2", 2), Rating("u3", "i3", 4)]
  }

  /** The seed after `update_ratings(["i1"], [5])` by user "new". */
  function UpdatedLog(): seq<Rating> {
    SeedLog() + [Rating("new", "i1", 5)]
  }

  /** Count and Total after appending one row. */
  lemma AppendOne(a: seq<Rating>, r: Rating, item: string)
    ensures Count(a + [r], item) == Count(a, item) + (if r.item == item then 1 else 0)
    ensures Total(a + [r], item) == Total(a, item) + (if r.item == item then r.rating else 0)
  {
    CountTotalAppend(a, [r], item);
    assert [r][..0] == [];
  }

  lemma KeysDiffer()
    ensures "i1" != "i2" && "i1" != "i3" && "i2" != "i3"
  {
    assert "i1"[1] == '1' && "i2"[1] == '2' && "i3"[1] == '3';
  }

  /** Count and Total of the seed rows for one item, one row at a time. */
  lemma SeedTally(item: string)
    ensures Count(SeedLog(), item) == if item == "i1" || item == "i2" || item == "i3" then 2 else 0
    ensures Total(SeedLog(), item) == if item == "i1" then 9 else if item == "i2" then 3 else if item == "i3" then 9 else 0
  {
    var log := SeedLog();
    KeysDiffer();
    assert [] + [log[0]] == log[..1];
    assert log[..1] + [log[1]] == log[..2];
    assert log[..2] + [log[2]] == log[..3];
    assert log[..3] + [log[3]] == log[..4];
    assert log[..4] + [log[4]] == log[..5];
    assert log[..5] + [log[5]] == log;
    AppendOne([], log[0], item);
    AppendOne(log[..1], log[1], item);
    AppendOne(log[..2], log[2], item);
    AppendOne(log[..3], log[3], item);
    AppendOne(log[..4], log[4], item);
    AppendOne(log[..5], log[5], item);
  }

  /** Item means of the seed: 4.5, 1.5 and 4.5. */
  lemma SeedMeans()
    ensures var m := RatingMeans(SeedLog());
            m.Keys == {"i1", "i2", "i3"} && m["i1"] == 4.5 && m["i2"] == 1.5 && m["i3"] == 4.5
  {
    var log := SeedLog();
    SeedTally("i1");
    SeedTally("i2");
    SeedTally("i3");
    KeysDiffer();
    assert ItemSet(log) == {"i1", "i2", "i3"} by {
      assert log[0].item == "i1" && log[1].item == "i2" && log[3].item == "i3";
    }
    MeansOfSeedTallies(log);
  }

  /**
   * `update_ratings` recomputes the means before any prediction, so the new
   * rating moves item 1's mean to 14/3 and the new user's deviation on item 1
   * is 1/3.
   */
  lemma UpdatedMeans()
    ensures var m := RatingMeans(UpdatedLog());
            m.Keys == {"i1", "i2", "i3"} && m["i1"] == 14.0 / 3.0 && m["i2"] == 1.5 && m["i3"] == 4.5
  {
    var log := UpdatedLog();
    KeysDiffer();
    SeedTally("i1");
    SeedTally("i2");
    SeedTally("i3");
    AppendOne(SeedLog(), Rating("new", "i1", 5), "i1");
    AppendOne(SeedLog(), Rating("new", "i1", 5), "i2");
    AppendOne(SeedLog(), Rating("new", "i1", 5), "i3");
    assert ItemSet(log) == {"i1", "i2", "i3"} by {
      assert log[0].item == "i1" && log[1].item == "i2" && log[3].item == "i3";
      assert forall r | r in log :: r in SeedLog() || r == Rating("new", "i1", 5);
    }
    MeansOfUpdatedTallies(log);
  }

  /** The means of a log over items 1, 2 and 3 with the seed's tallies. */
  lemma MeansOfSeedTallies(log: seq<Rating>)
    requires ItemSet(log) == {"i1", "i2", "i3"}
    requires Count(log, "i1") == 2 && Total(log, "i1") == 9
    requires Count(log, "i2") == 2 && Total(log, "i2") == 3
    requires Count(log, "i3") == 2 && Total(log, "i3") == 9
    ensures var m := RatingMeans(log);
            m.Keys == {"i1", "i2", "i3"} && m["i1"] == 4.5 && m["i2"] == 1.5 && m["i3"] == 4.5
  {
    MeanNineHalves(log, "i1");
    MeanThreeHalves(log, "i2");
    MeanNineHalves(log, "i3");
  }

  /** The same after one more rating 5 of item 1. */
  lemma MeansOfUpdatedTallies(log: seq<Rating>)
    requires ItemSet(log) == {"i1", "i2", "i3"}
    requires Count(log, "i1") == 3 && Total(log, "i1") == 14
    requires Count(log, "i2") == 2 && Total(log, "i2") == 3
    requires Count(log, "i3") == 2 && Total(log, "i3") == 9
    ensures var m := RatingMeans(log);
            m.Keys == {"i1", "i2", "i3"} && m["i1"] == 14.0 / 3.0 && m["i2"] == 1.5 && m["i3"] == 4.5
  {
    MeanFourteenThirds(log, "i1");
    MeanThreeHalves(log, "i2");
    MeanNineHalves(log, "i3");
  }

  /** The mean of an item of the log with the given tally. */
  lemma MeanValue(log: seq<Rating>, item: string, total: int, count: nat, mean: real)
    requires item in ItemSet(log) && Count(log, item) == count && Total(log, item) == total
    requires mean * count as real == total as real
    ensures item in RatingMeans(log) && RatingMeans(log)[item] == mean
  {
    Quotient(total as real, count as real, mean);
  }

  /** The three tallies the seed log has; each its own lemma keeps the real arithmetic apart. */
  lemma MeanFourteenThirds(log: seq<Rating>, item: string)
    requires item in ItemSet(log) && Count(log, item) == 3 && Total(log, item) == 14
    ensures RatingMeans(log)[item] == 14.0 / 3.0
  {
    MeanValue(log, item, 14, 3, 14.0 / 3.0);
  }

  lemma MeanThreeHalves(log: seq<Rating>, item: string)
    requires item in ItemSet(log) && Count(log, item) == 2 && Total(log, item) == 3
    ensures RatingMeans(log)[item] == 1.5
  {
    MeanValue(log, item, 3, 2, 1.5);
  }

  lemma MeanNineHalves(log: seq<Rating>, item: string)
    requires item in ItemSet(log) && Count(log, item) == 2 && Total(log, item) == 9
    ensures RatingMeans(log)[item] == 4.5
  {
    MeanValue(log, item, 9, 2, 4.5);
  }

  /** A product undone by division. */
  lemma Quotient(t: real, c: real, q: real)
    requires c != 0.0 && q * c == t
    ensures t / c == q
  {
  }

  /** Row 6 is the only row of "new" in the updated log. */
  lemma OneRowOfNewUser()
    ensures |UpdatedLog()| == 7 && UpdatedLog()[6] == Rating("new", "i1", 5)
    ensures forall t | 0 <= t < 6 :: UpdatedLog()[t].user != "new"
  {
    var log := UpdatedLog();
    assert "u1"[0] != "new"[0] && "u2"[0] != "new"[0] && "u3"[0] != "new"[0];
    forall t | 0 <= t < 6 ensures log[t].user != "new" {
      assert log[t] in SeedLog();
    }
  }

  /** In the updated table, "new" rated item 1 only, with 5. */
  lemma NewUserRatedOnlyItem1()
    ensures HasAllMeans(UpdatedLog(), RatingMeans(UpdatedLog()))
    ensures var adj := AdjustRatings(UpdatedLog(), RatingMeans(UpdatedLog()));
            (forall x :: RatedBy(adj, "new", x) <==> x == "i1") &&
            FirstRating(adj, "new", "i1") == 5
  {
    var log := UpdatedLog();
    var adj := AdjustRatings(log, RatingMeans(log));
    OneRowOfNewUser();
    AdjustedRowsMatchLog(log, 6);
    forall t | 0 <= t < |adj| && t != 6 ensures adj[t].user != "new" {
      AdjustedRowsMatchLog(log, t);
    }
    SingleRow(adj, "new", 6);
  }

  /**
   * The new user's prediction for item 2, whatever the (stale) similarity
   * table: item 2's mean 1.5 with no entry (i2, i1), and with an entry of
   * weight w that mean moved by the deviation 5 - 14/3 = 1/3 in the
   * direction of w's sign, giving 11/6 or 7/6.
   */
  lemma NewUserPredictionForItem2(table: seq<SimilarityEntry>)
    ensures HasAllMeans(UpdatedLog(), RatingMeans(UpdatedLog()))
    ensures var means := RatingMeans(UpdatedLog());
            var adj := AdjustRatings(UpdatedLog(), means);
            var lookup := WeightLookup(table, "i2", "i1");
            "i2" in means && Covers(adj, means) &&
            (lookup.None? ==> Prediction(adj, means, table, "new", "i2") == 1.5) &&
            (lookup.Some? && lookup.value > 0.0 ==> Prediction(adj, means, table, "new", "i2") == 11.0 / 6.0) &&
            (lookup.Some? && lookup.value < 0.0 ==> Prediction(adj, means, table, "new", "i2") == 7.0 / 6.0)
  {
    var log := UpdatedLog();
    var means := RatingMeans(log);
    CoversFromLog(log);
    var adj := AdjustRatings(log, means);
    UpdatedMeans();
    assert means["i1"] == 14.0 / 3.0 && means["i2"] == 1.5;
    NewUserRatedOnlyItem1();
    PredictionFromOneItem(adj, means, table, "new", "i2", "i1");
  }
}
