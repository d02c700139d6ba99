/**
 * The rating log (`self.ratings`) and the mean-centering derived from it by
 * `process_ratings_data`: the per-item mean (`rating_mean`) and one adjusted
 * row per raw row (`adjusted_ratings`).
 */
module Ratings {

  import opened Seqs

  /** One raw row `(userId, itemId, rating)`. Repeated (user, item) pairs are separate rows. */
  datatype Rating = Rating(user: string, item: string, rating: int)

  /** One row of the left merge of the log with the means, plus `rating_adjusted`. */
  datatype AdjustedRating = AdjustedRating(user: string, item: string, rating: int, mean: real, adjusted: real)

  /** The value substituted for an adjusted rating that comes out exactly zero. */
  const Epsilon: real := 0.00000001

  /** The items that occur in the log. */
  function ItemSet(log: seq<Rating>): set<string> {
    set r | r in log :: r.item
  }

  /** The number of rows for `item`. */
  function Count(log: seq<Rating>, item: string): nat {
    if log == [] then 0
    else Count(log[..|log| - 1], item) + (if log[|log| - 1].item == item then 1 else 0)
  }

  /** The sum of the ratings in the rows for `item`. */
  function Total(log: seq<Rating>, item: string): int {
    if log == [] then 0
    else Total(log[..|log| - 1], item) + (if log[|log| - 1].item == item then log[|log| - 1].rating else 0)
  }

  /**
   * The arithmetic mean of every row for `item` (`groupby('itemId').mean()`):
   * the item has rows, and the mean times their number is their total.
   */
  function Mean(log: seq<Rating>, item: string): (m: real)
    requires item in ItemSet(log)
    ensures Count(log, item) > 0
    ensures m * Count(log, item) as real == Total(log, item) as real
  {
    CountPositive(log, item);
    Total(log, item) as real / Count(log, item) as real
  }

  /** An item of the log has at least one row. */
  lemma {:induction false} CountPositive(log: seq<Rating>, item: string)
    requires item in ItemSet(log)
    ensures Count(log, item) > 0
  {
    var init := log[..|log| - 1];
    if log[|log| - 1].item != item {
      var r :| r in log && r.item == item;
      assert r in init by {
        var k :| 0 <= k < |log| && log[k] == r;
        assert k < |log| - 1 && init[k] == r;
      }
      CountPositive(init, item);
    }
  }

  /**
   * `rating_mean`: an entry for exactly the items some row rates, each the
   * total of all their rows over their number, repeated ratings included.
   */
  function RatingMeans(log: seq<Rating>): (means: map<string, real>)
    ensures means.Keys == ItemSet(log)
    ensures forall i :: i in means <==> exists k :: 0 <= k < |log| && log[k].item == i
    ensures forall i | i in means :: Count(log, i) > 0 && means[i] == Total(log, i) as real / Count(log, i) as real
  {
    forall i | i in ItemSet(log) ensures exists k :: 0 <= k < |log| && log[k].item == i {
      var r :| r in log && r.item == i;
      var k :| 0 <= k < |log| && log[k] == r;
    }
    map i | i in ItemSet(log) :: Mean(log, i)
  }

  /** `rating - rating_mean`, with an exact zero replaced by Epsilon. */
  function Adjust(rating: int, mean: real): (a: real)
    ensures a != 0.0
    ensures rating as real != mean ==> a == rating as real - mean
    ensures rating as real == mean ==> a == Epsilon
  {
    var d := rating as real - mean;
    if d == 0.0 then Epsilon else d
  }

  predicate HasAllMeans(log: seq<Rating>, means: map<string, real>) {
    forall r | r in log :: r.item in means
  }

  /**
   * `adjusted_ratings`: the log, row by row, joined with its item's mean;
   * no adjusted value is zero.
   */
  function AdjustRatings(log: seq<Rating>, means: map<string, real>): (adj: seq<AdjustedRating>)
    requires HasAllMeans(log, means)
    ensures |adj| == |log|
    ensures forall k :: 0 <= k < |adj| ==>
              adj[k].user == log[k].user && adj[k].item == log[k].item && adj[k].rating == log[k].rating &&
              adj[k].mean == means[log[k].item] && adj[k].adjusted != 0.0
  {
    seq(|log|, k requires 0 <= k < |log| =>
      var r := log[k];
      AdjustedRating(r.user, r.item, r.rating, means[r.item], Adjust(r.rating, means[r.item])))
  }

  /** The rows `update_ratings` appends: one per rated item, all for `user`, paired by position. */
  function NewRows(user: string, items: seq<string>, ratings: seq<int>): (rows: seq<Rating>)
    requires |items| == |ratings|
    ensures |rows| == |items|
    ensures forall r | r in rows :: r.user == user
    ensures forall k :: 0 <= k < |rows| ==> rows[k].item == items[k] && rows[k].rating == ratings[k]
  {
    seq(|items|, k requires 0 <= k < |items| => Rating(user, items[k], ratings[k]))
  }

  // ---------------------------------------------------------------------
  // Lookups on the adjusted table, as the engine does them with a boolean
  // mask followed by `.iloc[0]`.

  /** The index of the first row of `user` for `item` at or after `from`; `|adj|` when there is none. */
  function Find(adj: seq<AdjustedRating>, user: string, item: string, from: nat): (k: nat)
    requires from <= |adj|
    ensures from <= k <= |adj|
    ensures k < |adj| ==> adj[k].user == user && adj[k].item == item
    ensures forall t :: from <= t < k ==> !(adj[t].user == user && adj[t].item == item)
    decreases |adj| - from
  {
    if from == |adj| then from
    else if adj[from].user == user && adj[from].item == item then from
    else Find(adj, user, item, from + 1)
  }

  /** `user` has at least one row for `item`. */
  predicate RatedBy(adj: seq<AdjustedRating>, user: string, item: string) {
    Find(adj, user, item, 0) < |adj|
  }

  /** The adjusted value of the first row of `user` for `item`. */
  function FirstAdjusted(adj: seq<AdjustedRating>, user: string, item: string): real
    requires RatedBy(adj, user, item)
  {
    adj[Find(adj, user, item, 0)].adjusted
  }

  /** The raw rating of the first row of `user` for `item`. */
  function FirstRating(adj: seq<AdjustedRating>, user: string, item: string): int
    requires RatedBy(adj, user, item)
  {
    adj[Find(adj, user, item, 0)].rating
  }

  /**
   * The users of the table, each once. The source only takes the distinct
   * users of item_1's rows, which `Similarity.UsersWho` filters out of this.
   */
  function DistinctUsers(adj: seq<AdjustedRating>): (us: seq<string>)
    ensures NoDuplicates(us)
    ensures forall u :: u in us <==> exists k :: 0 <= k < |adj| && adj[k].user == u
  {
    var column := seq(|adj|, k requires 0 <= k < |adj| => adj[k].user);
    assert forall u :: (u in column <==> exists k :: 0 <= k < |adj| && adj[k].user == u) by {
      forall u ensures u in column <==> exists k :: 0 <= k < |adj| && adj[k].user == u {
        if u in column {
          var k :| 0 <= k < |column| && column[k] == u;
          assert adj[k].user == u;
        }
        if exists k :: 0 <= k < |adj| && adj[k].user == u {
          var k :| 0 <= k < |adj| && adj[k].user == u;
          assert column[k] == u;
        }
      }
    }
    Dedup(column)
  }

  /** `np.unique(adjusted_ratings['itemId'])`. */
  function DistinctItems(adj: seq<AdjustedRating>): (items: seq<string>)
    ensures NoDuplicates(items)
    ensures forall i :: i in items <==> exists k :: 0 <= k < |adj| && adj[k].item == i
  {
    var column := seq(|adj|, k requires 0 <= k < |adj| => adj[k].item);
    assert forall i :: (i in column <==> exists k :: 0 <= k < |adj| && adj[k].item == i) by {
      forall i ensures i in column <==> exists k :: 0 <= k < |adj| && adj[k].item == i {
        if i in column {
          var k :| 0 <= k < |column| && column[k] == i;
          assert adj[k].item == i;
        }
        if exists k :: 0 <= k < |adj| && adj[k].item == i {
          var k :| 0 <= k < |adj| && adj[k].item == i;
          assert column[k] == i;
        }
      }
    }
    Dedup(column)
  }

  /** A row of `user` for `item` anywhere in the table means `user` rated `item`. */
  lemma RatedByRow(adj: seq<AdjustedRating>, k: nat)
    requires k < |adj|
    ensures RatedBy(adj, adj[k].user, adj[k].item)
  {
  }

  /** Whoever rated an item is a user of the table, and the item is an item of the table. */
  lemma RatedByListed(adj: seq<AdjustedRating>, user: string, item: string)
    requires RatedBy(adj, user, item)
    ensures user in DistinctUsers(adj) && item in DistinctItems(adj)
  {
    var k := Find(adj, user, item, 0);
    assert adj[k].user == user && adj[k].item == item;
  }

  /** A user with a single row k rated exactly that row's item, with that row's rating. */
  lemma SingleRow(adj: seq<AdjustedRating>, user: string, k: nat)
    requires k < |adj| && adj[k].user == user
    requires forall t | 0 <= t < |adj| && t != k :: adj[t].user != user
    ensures forall x :: RatedBy(adj, user, x) <==> x == adj[k].item
    ensures FirstRating(adj, user, adj[k].item) == adj[k].rating
  {
    RatedByRow(adj, k);
    forall x | RatedBy(adj, user, x) ensures x == adj[k].item {
      assert Find(adj, user, x, 0) == k;
    }
    assert Find(adj, user, adj[k].item, 0) == k;
  }

  // ---------------------------------------------------------------------
  // Properties of mean-centering.

  lemma {:induction false} CountTotalAppend(a: seq<Rating>, b: seq<Rating>, item: string)
    ensures Count(a + b, item) == Count(a, item) + Count(b, item)
    ensures Total(a + b, item) == Total(a, item) + Total(b, item)
    decreases |b|
  {
    if b != [] {
      var b' := b[..|b| - 1];
      assert (a + b)[..|a + b| - 1] == a + b';
      assert (a + b)[|a + b| - 1] == b[|b| - 1];
      CountTotalAppend(a, b', item);
    } else {
      assert a + b == a;
    }
  }

  /** c ratings between lo and hi sum to t. */
  predicate Between(c: int, t: int, lo: int, hi: int) {
    c * lo <= t <= c * hi
  }

  lemma BetweenStep(c: int, t: int, r: int, lo: int, hi: int)
    requires Between(c, t, lo, hi) && lo <= r <= hi
    ensures Between(c + 1, t + r, lo, hi)
  {
    assert (c + 1) * lo == c * lo + lo && (c + 1) * hi == c * hi + hi;
  }

  lemma {:induction false} CountTotalBounds(log: seq<Rating>, item: string, lo: int, hi: int)
    requires forall r | r in log && r.item == item :: lo <= r.rating <= hi
    ensures Between(Count(log, item), Total(log, item), lo, hi)
  {
    if log == [] {
      assert Between(0, 0, lo, hi);
    } else {
      var init, last := log[..|log| - 1], log[|log| - 1];
      assert forall r | r in init :: r in log;
      CountTotalBounds(init, item, lo, hi);
      if last.item == item {
        assert last in log;
        BetweenStep(Count(init, item), Total(init, item), last.rating, lo, hi);
      }
    }
  }

  /** A mean lies between the smallest and the largest rating it averages. */
  lemma MeanWithinRatings(log: seq<Rating>, item: string, lo: int, hi: int)
    requires item in ItemSet(log)
    requires forall r | r in log && r.item == item :: lo <= r.rating <= hi
    ensures lo as real <= Mean(log, item) <= hi as real
  {
    CountTotalBounds(log, item, lo, hi);
    CountPositive(log, item);
    QuotientBounds(Total(log, item), Count(log, item), lo, hi, Mean(log, item));
  }

  lemma QuotientBounds(t: int, c: int, lo: int, hi: int, q: real)
    requires c > 0 && Between(c, t, lo, hi) && q == t as real / c as real
    ensures lo as real <= q <= hi as real
  {
    assert (c * lo) as real == c as real * lo as real;
    assert (c * hi) as real == c as real * hi as real;
    assert q * c as real == t as real;
  }

  /**
   * Mean-centering keeps the log row by row: exactly one adjusted row per raw
   * row, with the same user, item and rating, the item's mean, and the
   * difference rating - mean, never exactly zero (an exact zero is Epsilon).
   */
  lemma AdjustedRowsMatchLog(log: seq<Rating>, k: nat)
    requires k < |log|
    ensures HasAllMeans(log, RatingMeans(log))
    ensures |AdjustRatings(log, RatingMeans(log))| == |log|
    ensures var a := AdjustRatings(log, RatingMeans(log))[k];
            && a.user == log[k].user && a.item == log[k].item && a.rating == log[k].rating
            && a.mean == Mean(log, log[k].item)
            && a.adjusted != 0.0
            && (a.rating as real != a.mean ==> a.adjusted == a.rating as real - a.mean)
            && (a.rating as real == a.mean ==> a.adjusted == Epsilon)
  {
    assert HasAllMeans(log, RatingMeans(log)) by {
      forall r | r in log ensures r.item in ItemSet(log) { }
    }
  }

  /** After appending rows, every old and new row feeds the recomputed mean. */
  lemma MeanAfterAppend(old_log: seq<Rating>, rows: seq<Rating>, item: string)
    requires item in ItemSet(old_log + rows)
    ensures Count(old_log, item) + Count(rows, item) > 0
    ensures Mean(old_log + rows, item)
            == (Total(old_log, item) + Total(rows, item)) as real / (Count(old_log, item) + Count(rows, item)) as real
  {
    CountTotalAppend(old_log, rows, item);
    CountPositive(old_log + rows, item);
  }
}
