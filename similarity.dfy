/**
 * `build_similarity_matrix`: the item-item table of cosine weights over the
 * mean-centred ratings of the users who rated both items.
 *
 * The spec side (CoSums, Weight, SimilarityTable) says what the table holds;
 * the method BuildSimilarityMatrix computes it with the source's nested
 * loops, through the intermediate `record_item_1_2` rows.
 */
module Similarity {

  import opened Seqs
  import opened Ratings
  import opened Wrappers

  /** A row `(item_1, item_2, weight)` of `similarity_matrix`. */
  datatype SimilarityEntry = SimilarityEntry(item1: string, item2: string, weight: real)

  /** A row `(userId, item_1, item_2, rating_adjusted_1, rating_adjusted_2)` of `record_item_1_2`. */
  datatype CoRating = CoRating(user: string, item1: string, item2: string, adjusted1: real, adjusted2: real)

  /** The three sums behind one weight: Σ a1·a2, Σ a1², Σ a2². */
  datatype Sums = Sums(cross: real, left: real, right: real)

  const NoSums := Sums(0.0, 0.0, 0.0)

  function Plus(s: Sums, t: Sums): Sums {
    Sums(s.cross + t.cross, s.left + t.left, s.right + t.right)
  }

  /** What one co-rating user with adjusted values a1 (for item_1) and a2 (for item_2) adds. */
  function Term(a1: real, a2: real): (t: Sums)
    ensures t.left >= 0.0 && t.right >= 0.0
  {
    assert a1 * a1 >= 0.0 by { if a1 < 0.0 { assert a1 * a1 == (-a1) * (-a1); } }
    assert a2 * a2 >= 0.0 by { if a2 < 0.0 { assert a2 * a2 == (-a2) * (-a2); } }
    Sums(a1 * a2, a1 * a1, a2 * a2)
  }

  /** The same sums seen from the other item of the pair. */
  function Swap(s: Sums): Sums {
    Sums(s.cross, s.right, s.left)
  }

  /**
   * `numerator / denominator`, a zero denominator replaced by Epsilon; `sqrt`
   * stands for `np.sqrt`. The guard leaves no division by zero, so the weight
   * is zero exactly when the cross sum is.
   */
  function WeightOf(s: Sums, sqrt: real -> real): (w: real)
    ensures w == 0.0 <==> s.cross == 0.0
  {
    var d := sqrt(s.left) * sqrt(s.right);
    var den := if d != 0.0 then d else Epsilon;
    assert s.cross / den * den == s.cross;
    s.cross / den
  }

  // ---------------------------------------------------------------------
  // What the table means.

  /** The sums over the users of `us` who rated both items, each through their first rows. */
  function CoSums(adj: seq<AdjustedRating>, i: string, j: string, us: seq<string>): (s: Sums)
  {
    if us == [] then NoSums
    else
      var u := us[|us| - 1];
      var rest := CoSums(adj, i, j, us[..|us| - 1]);
      if RatedBy(adj, u, i) && RatedBy(adj, u, j)
      then Plus(rest, Term(FirstAdjusted(adj, u, i), FirstAdjusted(adj, u, j)))
      else rest
  }

  /** The cosine weight of the pair (i, j) over every user of the table; zero when nobody rated both. */
  function Weight(adj: seq<AdjustedRating>, i: string, j: string, sqrt: real -> real): (w: real)
    ensures !CoRated(adj, i, j) ==> w == 0.0
  {
    NoCoRaterNoSums(adj, i, j, DistinctUsers(adj));
    WeightOf(CoSums(adj, i, j, DistinctUsers(adj)), sqrt)
  }

  lemma {:induction false} NoCoRaterNoSums(adj: seq<AdjustedRating>, i: string, j: string, us: seq<string>)
    ensures !CoRated(adj, i, j) ==> CoSums(adj, i, j, us) == NoSums
  {
    if us != [] {
      NoCoRaterNoSums(adj, i, j, us[..|us| - 1]);
    }
  }

  /** Some user rated both items. */
  ghost predicate CoRated(adj: seq<AdjustedRating>, i: string, j: string) {
    exists u :: RatedBy(adj, u, i) && RatedBy(adj, u, j)
  }

  /** The items that get an entry paired with i. */
  ghost function Partners(adj: seq<AdjustedRating>, i: string): seq<string> {
    Filter(DistinctItems(adj), j => j != i && CoRated(adj, i, j))
  }

  /** The entries whose item_1 is i. */
  ghost function SimilarityRows(adj: seq<AdjustedRating>, i: string, sqrt: real -> real): seq<SimilarityEntry> {
    var ps := Partners(adj, i);
    seq(|ps|, k requires 0 <= k < |ps| => SimilarityEntry(i, ps[k], Weight(adj, i, ps[k], sqrt)))
  }

  ghost function SimilarityTableFor(adj: seq<AdjustedRating>, items: seq<string>, sqrt: real -> real): seq<SimilarityEntry> {
    if items == [] then []
    else SimilarityTableFor(adj, items[..|items| - 1], sqrt) + SimilarityRows(adj, items[|items| - 1], sqrt)
  }

  /**
   * The whole table, item_1 running over the items of the adjusted table:
   * each entry pairs two different co-rated items with their weight, and no
   * ordered pair has two entries.
   */
  ghost function SimilarityTable(adj: seq<AdjustedRating>, sqrt: real -> real): (t: seq<SimilarityEntry>)
    ensures SoundEntries(adj, t, sqrt)
    ensures UniqueKeys(t)
  {
    TableSound(adj, DistinctItems(adj), sqrt);
    TableUniquePairs(adj, DistinctItems(adj), sqrt);
    SimilarityTableFor(adj, DistinctItems(adj), sqrt)
  }

  /** Each entry pairs two different co-rated items and carries their weight. */
  ghost predicate SoundEntries(adj: seq<AdjustedRating>, t: seq<SimilarityEntry>, sqrt: real -> real) {
    forall k | 0 <= k < |t| ::
      t[k].item1 != t[k].item2 && CoRated(adj, t[k].item1, t[k].item2) &&
      t[k].weight == Weight(adj, t[k].item1, t[k].item2, sqrt)
  }

  lemma TableSound(adj: seq<AdjustedRating>, items: seq<string>, sqrt: real -> real)
    ensures SoundEntries(adj, SimilarityTableFor(adj, items, sqrt), sqrt)
  {
    forall k | 0 <= k < |SimilarityTableFor(adj, items, sqrt)| {
      TableEntriesSound(adj, items, sqrt, k);
    }
  }

  // ---------------------------------------------------------------------
  // The intermediate rows the source builds.

  /** `np.unique(user_data['userId'])`: the users who rated i. */
  function UsersWho(adj: seq<AdjustedRating>, i: string): seq<string> {
    Filter(DistinctUsers(adj), u => RatedBy(adj, u, i))
  }

  /** `np.unique(c_user_data['itemId'])`: the items other than i that u rated. */
  function OtherItems(adj: seq<AdjustedRating>, u: string, i: string): seq<string> {
    Filter(DistinctItems(adj), j => j != i && RatedBy(adj, u, j))
  }

  /** The record rows of user u for item_1 = i, one per item of `js`. */
  function UserCoRatings(adj: seq<AdjustedRating>, i: string, u: string, js: seq<string>): seq<CoRating>
    requires RatedBy(adj, u, i)
    requires forall j | j in js :: RatedBy(adj, u, j)
  {
    seq(|js|, k requires 0 <= k < |js| =>
      CoRating(u, i, js[k], FirstAdjusted(adj, u, i), FirstAdjusted(adj, u, js[k])))
  }

  /** `record_item_1_2` for item_1 = i after the users of `us`. */
  function CoRatingRecord(adj: seq<AdjustedRating>, i: string, us: seq<string>): seq<CoRating>
    requires forall u | u in us :: RatedBy(adj, u, i)
  {
    if us == [] then []
    else
      var u := us[|us| - 1];
      CoRatingRecord(adj, i, us[..|us| - 1]) + UserCoRatings(adj, i, u, OtherItems(adj, u, i))
  }

  /** `record_item_1_2['item_2']`. */
  function Item2Column(rec: seq<CoRating>): seq<string> {
    seq(|rec|, k requires 0 <= k < |rec| => rec[k].item2)
  }

  /** `np.unique(record_item_1_2['item_2'])`. */
  function Item2s(adj: seq<AdjustedRating>, rec: seq<CoRating>): seq<string> {
    Filter(DistinctItems(adj), j => j in Item2Column(rec))
  }

  /** The three `.sum()`s over `paired_item_1_2`, the record rows whose item_2 is j. */
  function PairSums(rec: seq<CoRating>, j: string): Sums {
    if rec == [] then NoSums
    else
      var r := rec[|rec| - 1];
      var rest := PairSums(rec[..|rec| - 1], j);
      if r.item2 == j then Plus(rest, Term(r.adjusted1, r.adjusted2)) else rest
  }

  // ---------------------------------------------------------------------
  // The builder.

  /** The record rows for item_1 (the loop over `distinct_users`). */
  method RecordCoRatings(adj: seq<AdjustedRating>, item1: string) returns (record: seq<CoRating>)
    ensures record == CoRatingRecord(adj, item1, UsersWho(adj, item1))
  {
    var users := UsersWho(adj, item1);
    assert forall u | u in users :: RatedBy(adj, u, item1);
    record := [];
    for s := 0 to |users|
      invariant forall u | u in users[..s] :: u in users
      invariant record == CoRatingRecord(adj, item1, users[..s])
    {
      record := RecordUser(adj, item1, users[s], record);
      RecordStep(adj, item1, users, s);
    }
    assert users[..|users|] == users;
  }

  /** The record for the first s + 1 users extends the one for the first s by user s's rows. */
  lemma RecordStep(adj: seq<AdjustedRating>, i: string, us: seq<string>, s: nat)
    requires s < |us| && forall u | u in us :: RatedBy(adj, u, i)
    ensures forall u | u in us[..s + 1] :: RatedBy(adj, u, i)
    ensures CoRatingRecord(adj, i, us[..s + 1])
            == CoRatingRecord(adj, i, us[..s]) + UserCoRatings(adj, i, us[s], OtherItems(adj, us[s], i))
  {
    assert us[..s + 1][..s] == us[..s];
    assert forall u | u in us[..s + 1] :: u in us;
  }

  /** The rows one customer who rated item_1 adds (the loop over `c_distinct_items`). */
  method RecordUser(adj: seq<AdjustedRating>, item1: string, c: string, record: seq<CoRating>)
    returns (record': seq<CoRating>)
    requires RatedBy(adj, c, item1)
    ensures record' == record + UserCoRatings(adj, item1, c, OtherItems(adj, c, item1))
  {
    var rating1 := FirstAdjusted(adj, c, item1);
    var others := OtherItems(adj, c, item1);
    ghost var rows := UserCoRatings(adj, item1, c, others);
    record' := record;
    for q := 0 to |others|
      invariant record' == record + rows[..q]
    {
      var item2 := others[q];
      var rating2 := FirstAdjusted(adj, c, item2);
      record' := record' + [CoRating(c, item1, item2, rating1, rating2)];
      assert rows[..q + 1] == rows[..q] + [rows[q]];
    }
    assert rows[..|others|] == rows;
  }

  /** The entries for item_1 (the loop over `distinct_item_2`). */
  method WeighPartners(adj: seq<AdjustedRating>, item1: string, record: seq<CoRating>, sqrt: real -> real)
    returns (rows: seq<SimilarityEntry>)
    ensures var ps := Item2s(adj, record);
            && |rows| == |ps|
            && forall k :: 0 <= k < |ps| ==> rows[k] == SimilarityEntry(item1, ps[k], WeightOf(PairSums(record, ps[k]), sqrt))
  {
    var partners := Item2s(adj, record);
    rows := [];
    for q := 0 to |partners|
      invariant |rows| == q
      invariant forall k :: 0 <= k < q ==> rows[k] == SimilarityEntry(item1, partners[k], WeightOf(PairSums(record, partners[k]), sqrt))
    {
      var item2 := partners[q];
      var sums := PairSums(record, item2);
      var w := WeightOf(sums, sqrt);
      rows := rows + [SimilarityEntry(item1, item2, w)];
    }
  }

  /** `build_similarity_matrix` without the pickle dump: the table of every co-rated pair. */
  method BuildSimilarityMatrix(adj: seq<AdjustedRating>, sqrt: real -> real) returns (table: seq<SimilarityEntry>)
    ensures table == SimilarityTable(adj, sqrt)
  {
    var items := DistinctItems(adj);
    table := [];
    for t := 0 to |items|
      invariant table == SimilarityTableFor(adj, items[..t], sqrt)
    {
      var item1 := items[t];
      var record := RecordCoRatings(adj, item1);
      var rows := WeighPartners(adj, item1, record, sqrt);
      RowsMatch(adj, item1, sqrt, rows);
      TableStep(adj, items, sqrt, t);
      table := table + rows;
    }
    assert items[..|items|] == items;
  }

  /** Rows weighed from the co-rating record of i are the rows of i. */
  lemma RowsMatch(adj: seq<AdjustedRating>, i: string, sqrt: real -> real, rows: seq<SimilarityEntry>)
    requires var ps := Item2s(adj, CoRatingRecord(adj, i, UsersWho(adj, i)));
             && |rows| == |ps|
             && forall k :: 0 <= k < |ps| ==>
                  rows[k] == SimilarityEntry(i, ps[k], WeightOf(PairSums(CoRatingRecord(adj, i, UsersWho(adj, i)), ps[k]), sqrt))
    ensures rows == SimilarityRows(adj, i, sqrt)
  {
    RowsFromRecord(adj, i, sqrt);
  }

  /** The table for the first t + 1 items extends the one for the first t by the rows of item t. */
  lemma TableStep(adj: seq<AdjustedRating>, items: seq<string>, sqrt: real -> real, t: nat)
    requires t < |items|
    ensures SimilarityTableFor(adj, items[..t + 1], sqrt)
            == SimilarityTableFor(adj, items[..t], sqrt) + SimilarityRows(adj, items[t], sqrt)
  {
    assert items[..t + 1][..t] == items[..t];
  }

  // ---------------------------------------------------------------------
  // The record yields exactly the spec's partners and sums.

  lemma {:induction false} PairSumsAppend(a: seq<CoRating>, b: seq<CoRating>, j: string)
    ensures PairSums(a + b, j) == Plus(PairSums(a, j), PairSums(b, j))
    decreases |b|
  {
    if b == [] {
      assert a + b == a;
    } else {
      var b' := b[..|b| - 1];
      assert (a + b)[..|a + b| - 1] == a + b';
      assert (a + b)[|a + b| - 1] == b[|b| - 1];
      PairSumsAppend(a, b', j);
    }
  }

  lemma {:induction false} PairSumsOfUser(adj: seq<AdjustedRating>, i: string, u: string, js: seq<string>, j: string)
    requires RatedBy(adj, u, i)
    requires forall x | x in js :: RatedBy(adj, u, x)
    requires NoDuplicates(js)
    ensures PairSums(UserCoRatings(adj, i, u, js), j)
            == if j in js then Term(FirstAdjusted(adj, u, i), FirstAdjusted(adj, u, j)) else NoSums
  {
    if js != [] {
      var init := js[..|js| - 1];
      var rows := UserCoRatings(adj, i, u, js);
      assert rows[..|rows| - 1] == UserCoRatings(adj, i, u, init);
      InitNoDuplicates(js);
      assert js == init + [js[|js| - 1]];
      PairSumsOfUser(adj, i, u, init, j);
    }
  }

  lemma {:induction false} ColumnOfUser(adj: seq<AdjustedRating>, i: string, u: string, js: seq<string>, j: string)
    requires RatedBy(adj, u, i)
    requires forall x | x in js :: RatedBy(adj, u, x)
    ensures j in Item2Column(UserCoRatings(adj, i, u, js)) <==> j in js
  {
    var col := Item2Column(UserCoRatings(adj, i, u, js));
    assert col == js;
  }

  lemma {:induction false} ColumnAppend(a: seq<CoRating>, b: seq<CoRating>)
    ensures Item2Column(a + b) == Item2Column(a) + Item2Column(b)
  {
  }

  /** Some user of `us` rated j. */
  predicate AnyRated(adj: seq<AdjustedRating>, us: seq<string>, j: string) {
    us != [] && (AnyRated(adj, us[..|us| - 1], j) || RatedBy(adj, us[|us| - 1], j))
  }

  lemma {:induction false} AnyRatedWitness(adj: seq<AdjustedRating>, us: seq<string>, j: string, u: string)
    requires u in us && RatedBy(adj, u, j)
    ensures AnyRated(adj, us, j)
  {
    if u != us[|us| - 1] {
      assert us == us[..|us| - 1] + [us[|us| - 1]];
      AnyRatedWitness(adj, us[..|us| - 1], j, u);
    }
  }

  /** The item_2 values of the record for i after `us`. */
  lemma {:induction false} RecordColumn(adj: seq<AdjustedRating>, i: string, us: seq<string>, j: string)
    requires forall u | u in us :: RatedBy(adj, u, i)
    requires j != i
    ensures j in Item2Column(CoRatingRecord(adj, i, us)) <==> AnyRated(adj, us, j)
  {
    if us != [] {
      var init := us[..|us| - 1];
      var u := us[|us| - 1];
      assert forall v | v in init :: v in us;
      RecordColumn(adj, i, init, j);
      var others := OtherItems(adj, u, i);
      ColumnAppend(CoRatingRecord(adj, i, init), UserCoRatings(adj, i, u, others));
      ColumnOfUser(adj, i, u, others, j);
      if RatedBy(adj, u, j) {
        RatedByListed(adj, u, j);
      }
    }
  }

  /** The sums over the record rows for item_2 = j are the co-rating sums over `us`. */
  lemma {:induction false} RecordSums(adj: seq<AdjustedRating>, i: string, us: seq<string>, j: string)
    requires forall u | u in us :: RatedBy(adj, u, i)
    requires j != i
    ensures PairSums(CoRatingRecord(adj, i, us), j) == CoSums(adj, i, j, us)
  {
    if us != [] {
      var init := us[..|us| - 1];
      var u := us[|us| - 1];
      assert forall v | v in init :: v in us;
      RecordSums(adj, i, init, j);
      var others := OtherItems(adj, u, i);
      FilterNoDuplicates(DistinctItems(adj), x => x != i && RatedBy(adj, u, x));
      PairSumsAppend(CoRatingRecord(adj, i, init), UserCoRatings(adj, i, u, others), j);
      PairSumsOfUser(adj, i, u, others, j);
      if RatedBy(adj, u, j) {
        RatedByListed(adj, u, j);
      }
    }
  }

  /** A user of `us` who rated j, when there is one. */
  lemma {:induction false} AnyRatedMember(adj: seq<AdjustedRating>, us: seq<string>, j: string) returns (u: string)
    requires AnyRated(adj, us, j)
    ensures u in us && RatedBy(adj, u, j)
  {
    if RatedBy(adj, us[|us| - 1], j) {
      u := us[|us| - 1];
    } else {
      u := AnyRatedMember(adj, us[..|us| - 1], j);
    }
  }

  /** Restricting the users to those who rated i changes none of the sums. */
  lemma {:induction false} CoSumsOfRaters(adj: seq<AdjustedRating>, i: string, j: string, us: seq<string>)
    ensures CoSums(adj, i, j, Filter(us, u => RatedBy(adj, u, i))) == CoSums(adj, i, j, us)
  {
    if us != [] {
      CoSumsOfRaters(adj, i, j, us[..|us| - 1]);
    }
  }

  /** The entries WeighPartners derives from the record are the spec's rows for i. */
  lemma RowsFromRecord(adj: seq<AdjustedRating>, i: string, sqrt: real -> real)
    ensures var record := CoRatingRecord(adj, i, UsersWho(adj, i));
            var ps := Item2s(adj, record);
            && ps == Partners(adj, i)
            && forall k :: 0 <= k < |ps| ==> WeightOf(PairSums(record, ps[k]), sqrt) == Weight(adj, i, ps[k], sqrt)
  {
    var us := UsersWho(adj, i);
    var record := CoRatingRecord(adj, i, us);
    forall j | j in DistinctItems(adj)
      ensures (j in Item2Column(record)) == (j != i && CoRated(adj, i, j))
    {
      if j != i {
        RecordColumn(adj, i, us, j);
        if CoRated(adj, i, j) {
          var u :| RatedBy(adj, u, i) && RatedBy(adj, u, j);
          RatedByListed(adj, u, i);
          AnyRatedWitness(adj, us, j, u);
        } else if AnyRated(adj, us, j) {
          var u := AnyRatedMember(adj, us, j);
        }
      } else {
        assert j !in Item2Column(record) by {
          RecordColumnExcludes(adj, i, us);
        }
      }
    }
    FilterCongruent(DistinctItems(adj), j => j in Item2Column(record), j => j != i && CoRated(adj, i, j));
    var ps := Item2s(adj, record);
    forall k | 0 <= k < |ps|
      ensures WeightOf(PairSums(record, ps[k]), sqrt) == Weight(adj, i, ps[k], sqrt)
    {
      assert ps[k] in ps;
      RecordSums(adj, i, us, ps[k]);
      CoSumsOfRaters(adj, i, ps[k], DistinctUsers(adj));
    }
  }

  /** No record row pairs an item with itself. */
  lemma {:induction false} RecordColumnExcludes(adj: seq<AdjustedRating>, i: string, us: seq<string>)
    requires forall u | u in us :: RatedBy(adj, u, i)
    ensures i !in Item2Column(CoRatingRecord(adj, i, us))
  {
    if us != [] {
      var init := us[..|us| - 1];
      var u := us[|us| - 1];
      assert forall v | v in init :: v in us;
      RecordColumnExcludes(adj, i, init);
      var others := OtherItems(adj, u, i);
      ColumnAppend(CoRatingRecord(adj, i, init), UserCoRatings(adj, i, u, others));
      ColumnOfUser(adj, i, u, others, i);
    }
  }

  // ---------------------------------------------------------------------
  // Lookup by pair, as `predict` does it (mask on item_1 and item_2, `.iloc[0]`).

  /** The index of the first entry for (i, j) at or after `from`; `|table|` when there is none. */
  function FindEntry(table: seq<SimilarityEntry>, i: string, j: string, from: nat): (k: nat)
    requires from <= |table|
    ensures from <= k <= |table|
    ensures k < |table| ==> table[k].item1 == i && table[k].item2 == j
    ensures forall t :: from <= t < k ==> !(table[t].item1 == i && table[t].item2 == j)
    decreases |table| - from
  {
    if from == |table| then from
    else if table[from].item1 == i && table[from].item2 == j then from
    else FindEntry(table, i, j, from + 1)
  }

  /** The weight of the first entry for (i, j), None when the table has none. */
  function WeightLookup(table: seq<SimilarityEntry>, i: string, j: string): Option<real> {
    var k := FindEntry(table, i, j, 0);
    if k < |table| then Some(table[k].weight) else None
  }

  // ---------------------------------------------------------------------
  // Properties of the table.

  /** Both items of a pair see the same sums, left and right exchanged. */
  lemma {:induction false} CoSumsSwap(adj: seq<AdjustedRating>, i: string, j: string, us: seq<string>)
    ensures CoSums(adj, i, j, us) == Swap(CoSums(adj, j, i, us))
  {
    if us != [] {
      CoSumsSwap(adj, i, j, us[..|us| - 1]);
      var u := us[|us| - 1];
      if RatedBy(adj, u, i) && RatedBy(adj, u, j) {
        var a, b := FirstAdjusted(adj, u, i), FirstAdjusted(adj, u, j);
        assert a * b == b * a;
      }
    }
  }

  /** weight(i, j) == weight(j, i), whatever function stands for the square root. */
  lemma WeightSymmetric(adj: seq<AdjustedRating>, i: string, j: string, sqrt: real -> real)
    ensures Weight(adj, i, j, sqrt) == Weight(adj, j, i, sqrt)
  {
    CoSumsSwap(adj, i, j, DistinctUsers(adj));
    WeightOfSwap(CoSums(adj, j, i, DistinctUsers(adj)), sqrt);
  }

  lemma WeightOfSwap(s: Sums, sqrt: real -> real)
    ensures WeightOf(Swap(s), sqrt) == WeightOf(s, sqrt)
  {
    var x, y := sqrt(s.left), sqrt(s.right);
    assert y * x == x * y;
  }

  /** Every entry pairs two different, co-rated items and carries their cosine weight. */
  lemma {:induction false} TableEntriesSound(adj: seq<AdjustedRating>, items: seq<string>, sqrt: real -> real, k: nat)
    requires k < |SimilarityTableFor(adj, items, sqrt)|
    ensures var e := SimilarityTableFor(adj, items, sqrt)[k];
            && e.item1 in items
            && e.item1 != e.item2
            && CoRated(adj, e.item1, e.item2)
            && e.weight == Weight(adj, e.item1, e.item2, sqrt)
  {
    var init := items[..|items| - 1];
    var prefix := SimilarityTableFor(adj, init, sqrt);
    if k < |prefix| {
      TableEntriesSound(adj, init, sqrt, k);
    } else {
      var ps := Partners(adj, items[|items| - 1]);
      assert ps[k - |prefix|] in ps;
    }
  }

  /** Every co-rated pair of different items has an entry; `k` is its index. */
  lemma {:induction false} TableComplete(adj: seq<AdjustedRating>, items: seq<string>, sqrt: real -> real, i: string, j: string)
    returns (k: nat)
    requires i in items && i != j && CoRated(adj, i, j)
    ensures k < |SimilarityTableFor(adj, items, sqrt)|
    ensures SimilarityTableFor(adj, items, sqrt)[k].item1 == i
    ensures SimilarityTableFor(adj, items, sqrt)[k].item2 == j
  {
    var init := items[..|items| - 1];
    var prefix := SimilarityTableFor(adj, init, sqrt);
    if i == items[|items| - 1] {
      var q := RowsComplete(adj, sqrt, i, j);
      var rows := SimilarityRows(adj, i, sqrt);
      assert SimilarityTableFor(adj, items, sqrt) == prefix + rows;
      k := |prefix| + q;
      assert (prefix + rows)[k] == rows[q];
    } else {
      assert items == init + [items[|items| - 1]];
      k := TableComplete(adj, init, sqrt, i, j);
    }
  }

  /** The rows of i hold an entry (i, j) for every co-rated j != i; `q` is its index. */
  lemma RowsComplete(adj: seq<AdjustedRating>, sqrt: real -> real, i: string, j: string) returns (q: nat)
    requires i != j && CoRated(adj, i, j)
    ensures q < |SimilarityRows(adj, i, sqrt)|
    ensures SimilarityRows(adj, i, sqrt)[q].item1 == i && SimilarityRows(adj, i, sqrt)[q].item2 == j
  {
    var u :| RatedBy(adj, u, i) && RatedBy(adj, u, j);
    RatedByListed(adj, u, j);
    var ps := Partners(adj, i);
    assert j in ps;
    q :| 0 <= q < |ps| && ps[q] == j;
  }

  /** The rows for one item_1 have different item_2 values. */
  lemma RowsUniquePartners(adj: seq<AdjustedRating>, i: string, sqrt: real -> real, a: nat, b: nat)
    requires a < b < |SimilarityRows(adj, i, sqrt)|
    ensures SimilarityRows(adj, i, sqrt)[a].item1 == i
    ensures SimilarityRows(adj, i, sqrt)[a].item2 != SimilarityRows(adj, i, sqrt)[b].item2
  {
    var ps := Partners(adj, i);
    FilterNoDuplicates(DistinctItems(adj), j => j != i && CoRated(adj, i, j));
    assert SimilarityRows(adj, i, sqrt)[a].item2 == ps[a];
    assert SimilarityRows(adj, i, sqrt)[b].item2 == ps[b];
  }

  /** No two entries of a table share their (item_1, item_2) key. */
  ghost predicate UniqueKeys(table: seq<SimilarityEntry>) {
    forall a, b | 0 <= a < b < |table| :: table[a].item1 != table[b].item1 || table[a].item2 != table[b].item2
  }

  /** Rows for a new item_1 appended to a table without it keep the keys unique. */
  lemma UniqueKeysAppend(prefix: seq<SimilarityEntry>, rows: seq<SimilarityEntry>, last: string)
    requires UniqueKeys(prefix) && UniqueKeys(rows)
    requires forall k | 0 <= k < |prefix| :: prefix[k].item1 != last
    requires forall k | 0 <= k < |rows| :: rows[k].item1 == last
    ensures UniqueKeys(prefix + rows)
  {
    var table := prefix + rows;
    forall a, b | 0 <= a < b < |table| ensures table[a].item1 != table[b].item1 || table[a].item2 != table[b].item2 {
      if b < |prefix| {
        assert table[a] == prefix[a] && table[b] == prefix[b];
      } else if a < |prefix| {
        assert table[a] == prefix[a] && table[b] == rows[b - |prefix|];
      } else {
        assert table[a] == rows[a - |prefix|] && table[b] == rows[b - |prefix|];
      }
    }
  }

  /** The rows for one item_1 have unique keys. */
  lemma RowsUniqueKeys(adj: seq<AdjustedRating>, i: string, sqrt: real -> real)
    ensures UniqueKeys(SimilarityRows(adj, i, sqrt))
    ensures forall k | 0 <= k < |SimilarityRows(adj, i, sqrt)| :: SimilarityRows(adj, i, sqrt)[k].item1 == i
  {
    forall a, b | 0 <= a < b < |SimilarityRows(adj, i, sqrt)|
      ensures SimilarityRows(adj, i, sqrt)[a].item2 != SimilarityRows(adj, i, sqrt)[b].item2
    {
      RowsUniquePartners(adj, i, sqrt, a, b);
    }
  }

  /** No ordered pair has two entries. */
  lemma {:induction false} TableUniquePairs(adj: seq<AdjustedRating>, items: seq<string>, sqrt: real -> real)
    requires NoDuplicates(items)
    ensures UniqueKeys(SimilarityTableFor(adj, items, sqrt))
  {
    if items != [] {
      var init := items[..|items| - 1];
      var last := items[|items| - 1];
      var prefix := SimilarityTableFor(adj, init, sqrt);
      InitNoDuplicates(items);
      TableUniquePairs(adj, init, sqrt);
      forall k | 0 <= k < |prefix| ensures prefix[k].item1 != last {
        TableEntriesSound(adj, init, sqrt, k);
      }
      RowsUniqueKeys(adj, last, sqrt);
      UniqueKeysAppend(prefix, SimilarityRows(adj, last, sqrt), last);
    }
  }

  /**
   * The table `build_similarity_matrix` produces has an entry for (i, j)
   * exactly when i != j and some user rated both, at most one, and its
   * weight is the cosine weight of the pair; so the first entry a lookup
   * finds is that weight, and the lookup is symmetric.
   */
  lemma LookupInTable(adj: seq<AdjustedRating>, sqrt: real -> real, i: string, j: string)
    ensures WeightLookup(SimilarityTable(adj, sqrt), i, j)
            == if i != j && CoRated(adj, i, j) then Some(Weight(adj, i, j, sqrt)) else None
  {
    var items := DistinctItems(adj);
    var table := SimilarityTable(adj, sqrt);
    var k := FindEntry(table, i, j, 0);
    if k < |table| {
      TableEntriesSound(adj, items, sqrt, k);
    } else if i != j && CoRated(adj, i, j) {
      var u :| RatedBy(adj, u, i) && RatedBy(adj, u, j);
      RatedByListed(adj, u, i);
      var e := TableComplete(adj, items, sqrt, i, j);
    }
  }

  /** weight(i, j) == weight(j, i) in the built table, and (i, j) has an entry iff (j, i) has one. */
  lemma TableSymmetric(adj: seq<AdjustedRating>, sqrt: real -> real, i: string, j: string)
    ensures WeightLookup(SimilarityTable(adj, sqrt), i, j) == WeightLookup(SimilarityTable(adj, sqrt), j, i)
  {
    LookupInTable(adj, sqrt, i, j);
    LookupInTable(adj, sqrt, j, i);
    WeightSymmetric(adj, i, j, sqrt);
    if CoRated(adj, i, j) {
      var u :| RatedBy(adj, u, i) && RatedBy(adj, u, j);
      assert RatedBy(adj, u, j) && RatedBy(adj, u, i);
    }
  }
}
