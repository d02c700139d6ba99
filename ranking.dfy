/**
 * `get_recommendations`: every catalogued item gets a score (the user's own
 * rating when there is one, otherwise the prediction), the scores are sorted
 * in descending order, the first n rows are kept and their keys are decoded
 * back to item numbers.
 */
module Ranking {

  import opened Wrappers
  import opened ItemIds
  import opened Ratings
  import opened Similarity
  import opened Predictions

  /** One row of `user_ratings_all_items`. */
  datatype Scored = Scored(item: string, rating: real)

  /** An item of the table, rated or not, has a mean. */
  lemma ListedItemsHaveMeans(adj: seq<AdjustedRating>, means: map<string, real>)
    requires Covers(adj, means)
    ensures forall i | i in DistinctItems(adj) :: i in means
  {
  }

  /**
   * `user_ratings_all_items`: one row per distinct item, in table order; a
   * rated item scores the user's first raw rating, any other its prediction.
   */
  function Scores(adj: seq<AdjustedRating>, means: map<string, real>, table: seq<SimilarityEntry>,
                  user: string): (sc: seq<Scored>)
    requires Covers(adj, means)
    ensures |sc| == |DistinctItems(adj)|
    ensures forall k :: 0 <= k < |sc| ==> sc[k].item == DistinctItems(adj)[k] && sc[k].item in means
    ensures forall k :: 0 <= k < |sc| && RatedBy(adj, user, sc[k].item) ==>
              sc[k].rating == FirstRating(adj, user, sc[k].item) as real
    ensures forall k :: 0 <= k < |sc| && !RatedBy(adj, user, sc[k].item) ==>
              sc[k].rating == Prediction(adj, means, table, user, sc[k].item)
  {
    ListedItemsHaveMeans(adj, means);
    var items := DistinctItems(adj);
    seq(|items|, k requires 0 <= k < |items| =>
      Scored(items[k],
             if RatedBy(adj, user, items[k]) then FirstRating(adj, user, items[k]) as real
             else Prediction(adj, means, table, user, items[k])))
  }

  predicate NonIncreasing(s: seq<Scored>) {
    forall a, b :: 0 <= a < b < |s| ==> s[a].rating >= s[b].rating
  }

  /** Puts x in front of the first row whose rating it reaches. */
  function Insert(x: Scored, s: seq<Scored>): (r: seq<Scored>)
    ensures |r| == |s| + 1
    ensures multiset(r) == multiset(s) + multiset{x}
  {
    if s == [] then [x]
    else if x.rating >= s[0].rating then [x] + s
    else
      assert s == [s[0]] + s[1..];
      [s[0]] + Insert(x, s[1..])
  }

  lemma {:induction false} InsertSorted(x: Scored, s: seq<Scored>)
    requires NonIncreasing(s)
    ensures NonIncreasing(Insert(x, s))
  {
    if s != [] && x.rating < s[0].rating {
      InsertSorted(x, s[1..]);
      BelowHead(x, s);
      ConsSorted(s[0], Insert(x, s[1..]));
    }
  }

  /** A head scoring at least every row of a non-increasing tail keeps it non-increasing. */
  lemma ConsSorted(h: Scored, tail: seq<Scored>)
    requires NonIncreasing(tail)
    requires forall b | 0 <= b < |tail| :: tail[b].rating <= h.rating
    ensures NonIncreasing([h] + tail)
  {
    var r := [h] + tail;
    forall a, b | 0 <= a < b < |r| ensures r[a].rating >= r[b].rating {
      assert r[b] == tail[b - 1];
      if a > 0 {
        assert r[a] == tail[a - 1];
      }
    }
  }

  /** Inserting below the head of a non-increasing sequence yields rows all scoring at most the head. */
  lemma BelowHead(x: Scored, s: seq<Scored>)
    requires s != [] && NonIncreasing(s) && x.rating < s[0].rating
    ensures forall b | 0 <= b < |Insert(x, s[1..])| :: Insert(x, s[1..])[b].rating <= s[0].rating
  {
    var tail := Insert(x, s[1..]);
    forall b | 0 <= b < |tail| ensures tail[b].rating <= s[0].rating {
      assert tail[b] in multiset(s[1..]) + multiset{x};
      if tail[b] != x {
        assert tail[b] in s[1..];
        var m :| 0 <= m < |s[1..]| && s[1..][m] == tail[b];
        assert s[m + 1] == tail[b];
      }
    }
  }

  /** `sort_values(by=['rating'], ascending=False)`. */
  function SortDescending(s: seq<Scored>): (r: seq<Scored>)
    ensures |r| == |s|
    ensures NonIncreasing(r)
    ensures multiset(r) == multiset(s)
  {
    if s == [] then []
    else
      assert s == s[..|s| - 1] + [s[|s| - 1]];
      InsertSorted(s[|s| - 1], SortDescending(s[..|s| - 1]));
      Insert(s[|s| - 1], SortDescending(s[..|s| - 1]))
  }

  /**
   * How many rows `head(n)` keeps of `len`: the first n, or for a negative n
   * all but the last -n.
   */
  function HeadCount(n: int, len: nat): (c: nat)
    ensures c <= len
  {
    if n >= 0 then (if n <= len then n else len)
    else if len + n >= 0 then len + n else 0
  }

  /**
   * `head(n)`: a prefix of s, of length min(n, |s|), or for a negative n of
   * length max(|s| + n, 0).
   */
  function Head(s: seq<Scored>, n: int): (r: seq<Scored>)
    ensures |r| <= |s| && r == s[..|r|]
    ensures n >= 0 ==> |r| == Min(n, |s|)
    ensures n < 0 ==> |r| == Max(|s| + n, 0)
  {
    s[..HeadCount(n, |s|)]
  }

  function Min(a: int, b: int): int {
    if a <= b then a else b
  }

  function Max(a: int, b: int): int {
    if a >= b then a else b
  }

  function ItemColumn(s: seq<Scored>): (keys: seq<string>)
    ensures |keys| == |s|
    ensures forall k :: 0 <= k < |s| ==> keys[k] == s[k].item
  {
    seq(|s|, k requires 0 <= k < |s| => s[k].item)
  }

  /**
   * The sorted score rows `get_recommendations(n)` keeps: as many as `head`
   * keeps of one row per item, in non-increasing order, each a score row.
   */
  function TopRows(adj: seq<AdjustedRating>, means: map<string, real>, table: seq<SimilarityEntry>,
                   user: string, n: int): (top: seq<Scored>)
    requires Covers(adj, means)
    ensures |top| == HeadCount(n, |DistinctItems(adj)|)
    ensures NonIncreasing(top)
    ensures multiset(top) <= multiset(Scores(adj, means, table, user))
  {
    var sorted := SortDescending(Scores(adj, means, table, user));
    PrefixDominates(sorted, HeadCount(n, |sorted|));
    assert multiset(sorted) == multiset(sorted[..HeadCount(n, |sorted|)]) + multiset(sorted[HeadCount(n, |sorted|)..]);
    Head(sorted, n)
  }

  /**
   * What `get_recommendations(n)` returns: the decoded keys of the kept rows,
   * in order; None where `int(item[1:])` raises on one of them.
   */
  function Recommendations(adj: seq<AdjustedRating>, means: map<string, real>, table: seq<SimilarityEntry>,
                           user: string, n: int): (r: Option<seq<nat>>)
    requires Covers(adj, means)
    ensures r.Some? <==> forall k :: 0 <= k < |TopRows(adj, means, table, user, n)| ==>
                           DecodeItemId(TopRows(adj, means, table, user, n)[k].item).Some?
    ensures r.Some? ==> |r.value| == |TopRows(adj, means, table, user, n)| &&
                        forall k :: 0 <= k < |r.value| ==>
                          DecodeItemId(TopRows(adj, means, table, user, n)[k].item) == Some(r.value[k])
  {
    DecodeItemIds(ItemColumn(TopRows(adj, means, table, user, n)))
  }

  // ---------------------------------------------------------------------
  // Properties.

  /**
   * The kept rows together with the dropped ones are a permutation of the
   * scores, and every kept row scores at least as high as every dropped one.
   */
  lemma TopRowsDominate(adj: seq<AdjustedRating>, means: map<string, real>, table: seq<SimilarityEntry>,
                        user: string, n: int)
    requires Covers(adj, means)
    ensures var sorted := SortDescending(Scores(adj, means, table, user));
            var top := TopRows(adj, means, table, user, n);
            var rest := sorted[|top|..];
            |top| == HeadCount(n, |DistinctItems(adj)|) &&
            NonIncreasing(top) &&
            multiset(top + rest) == multiset(Scores(adj, means, table, user)) &&
            (forall x, y | x in top && y in rest :: x.rating >= y.rating)
  {
    var sc := Scores(adj, means, table, user);
    var sorted := SortDescending(sc);
    var c := HeadCount(n, |sorted|);
    assert TopRows(adj, means, table, user, n) == sorted[..c];
    PrefixDominates(sorted, c);
  }

  /**
   * A prefix of a non-increasing sequence is non-increasing, outranks the
   * rest, and together with the rest is the whole sequence.
   */
  lemma PrefixDominates(sorted: seq<Scored>, c: nat)
    requires NonIncreasing(sorted) && c <= |sorted|
    ensures NonIncreasing(sorted[..c])
    ensures sorted[..c] + sorted[c..] == sorted
    ensures forall x, y | x in sorted[..c] && y in sorted[c..] :: x.rating >= y.rating
  {
    var top, rest := sorted[..c], sorted[c..];
    assert top + rest == sorted;
    forall x, y | x in top && y in rest ensures x.rating >= y.rating {
      var a :| 0 <= a < |top| && top[a] == x;
      var b :| 0 <= b < |rest| && rest[b] == y;
      assert sorted[a] == x && sorted[c + b] == y;
    }
  }

  /**
   * There are as many recommendations as `head` keeps, and the k-th decodes
   * the key of the k-th kept row, an item of the table; the kept rows are in
   * non-increasing order of score.
   */
  lemma RecommendationsShape(adj: seq<AdjustedRating>, means: map<string, real>, table: seq<SimilarityEntry>,
                             user: string, n: int)
    requires Covers(adj, means)
    ensures var r := Recommendations(adj, means, table, user, n);
            var top := TopRows(adj, means, table, user, n);
            r.Some? ==> |r.value| == |top| == HeadCount(n, |DistinctItems(adj)|) &&
                        forall k :: 0 <= k < |r.value| ==>
                          top[k].item in DistinctItems(adj) && DecodeItemId(top[k].item) == Some(r.value[k])
  {
    TopRowsListed(adj, means, table, user, n);
    TopRowsDominate(adj, means, table, user, n);
  }

  /** Every kept row is the row of an item of the table. */
  lemma TopRowsListed(adj: seq<AdjustedRating>, means: map<string, real>, table: seq<SimilarityEntry>,
                      user: string, n: int)
    requires Covers(adj, means)
    ensures forall k | 0 <= k < |TopRows(adj, means, table, user, n)| ::
              TopRows(adj, means, table, user, n)[k].item in DistinctItems(adj)
  {
    var sorted := SortDescending(Scores(adj, means, table, user));
    var c := HeadCount(n, |sorted|);
    assert TopRows(adj, means, table, user, n) == sorted[..c];
    RowsOfItems(Scores(adj, means, table, user), DistinctItems(adj), sorted);
  }

  /** A permutation of one row per item of `items` holds rows of those items only. */
  lemma RowsOfItems(sc: seq<Scored>, items: seq<string>, perm: seq<Scored>)
    requires |sc| == |items| && forall k :: 0 <= k < |sc| ==> sc[k].item == items[k]
    requires multiset(perm) == multiset(sc)
    ensures forall k | 0 <= k < |perm| :: perm[k].item in items
  {
    forall k | 0 <= k < |perm| ensures perm[k].item in items {
      assert perm[k] in multiset(sc);
      var m :| 0 <= m < |sc| && sc[m] == perm[k];
      assert sc[m].item == items[m];
    }
  }

  /** When every item key of the table has the form "i<digits>", decoding never fails. */
  lemma RecommendationsDefined(adj: seq<AdjustedRating>, means: map<string, real>, table: seq<SimilarityEntry>,
                               user: string, n: int)
    requires Covers(adj, means)
    requires forall k :: 0 <= k < |adj| ==> DecodeItemId(adj[k].item).Some?
    ensures Recommendations(adj, means, table, user, n).Some?
  {
    TopRowsListed(adj, means, table, user, n);
  }

  /** A row that outscores every other row comes first after sorting. */
  lemma UniqueBestFirst(s: seq<Scored>, x: Scored)
    requires x in s
    requires forall y | y in s && y != x :: y.rating < x.rating
    ensures SortDescending(s)[0] == x
  {
    var sorted := SortDescending(s);
    assert x in multiset(sorted);
    var a :| 0 <= a < |sorted| && sorted[a] == x;
    assert sorted[0] in multiset(s);
  }

  /**
   * A user who rated X with a score no other item reaches is recommended
   * exactly X when asking for one item.
   */
  lemma TopRecommendation(adj: seq<AdjustedRating>, means: map<string, real>, table: seq<SimilarityEntry>,
                          user: string, best: Scored)
    requires Covers(adj, means)
    requires best in Scores(adj, means, table, user)
    requires forall y | y in Scores(adj, means, table, user) && y != best :: y.rating < best.rating
    requires DecodeItemId(best.item).Some?
    ensures Recommendations(adj, means, table, user, 1) == Some([DecodeItemId(best.item).value])
  {
    var sc := Scores(adj, means, table, user);
    UniqueBestFirst(sc, best);
    TopRowsDominate(adj, means, table, user, 1);
    var top := TopRows(adj, means, table, user, 1);
    assert |top| == 1;
    assert top == [best];
    assert ItemColumn(top) == [best.item];
    var r := DecodeItemIds([best.item]);
    assert r.Some? && |r.value| == 1 && DecodeItemId(best.item) == Some(r.value[0]);
    assert r.value == [DecodeItemId(best.item).value];
  }
}
