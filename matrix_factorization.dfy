/**
 * `recommenderBaseModelMatrixFactorization.RecommenderBaseModel`: the same
 * session and rating-pool logic as the item-based model, with the ranking
 * delegated to a trained matrix-factorisation engine and its answer cached
 * per session.
 */
module MatrixFactorization {

  import opened Wrappers
  import opened ItemIds
  import opened Ratings
  import opened Sampler

  /**
   * `KernelMF.recommend(user, items_known, amount)`, as a function of the
   * datasets the engine was fitted and then updated with, in order. It
   * returns item keys.
   */
  type Engine = (seq<seq<Rating>>, string, seq<string>, int) -> seq<string>

  /** `users_data_for_update.query("user_id == @user")["item_id"]`. */
  function KnownItems(log: seq<Rating>, user: string): (keys: seq<string>)
    ensures |keys| <= |log|
    ensures forall i :: i in keys <==> exists k :: 0 <= k < |log| && log[k].user == user && log[k].item == i
  {
    if log == [] then []
    else
      var init := KnownItems(log[..|log| - 1], user);
      var last := log[|log| - 1];
      assert forall k :: 0 <= k < |log| - 1 ==> log[..|log| - 1][k] == log[k];
      if last.user == user then init + [last.item] else init
  }

  lemma {:induction false} KnownItemsAppend(a: seq<Rating>, b: seq<Rating>, user: string)
    ensures KnownItems(a + b, user) == KnownItems(a, user) + KnownItems(b, user)
  {
    if b == [] {
      assert a + b == a;
    } else {
      assert (a + b)[..|a + b| - 1] == a + b[..|b| - 1];
      KnownItemsAppend(a, b[..|b| - 1], user);
    }
  }

  lemma {:induction false} KnownItemsNone(log: seq<Rating>, user: string)
    requires forall k :: 0 <= k < |log| ==> log[k].user != user
    ensures KnownItems(log, user) == []
  {
    if log != [] {
      KnownItemsNone(log[..|log| - 1], user);
    }
  }

  lemma {:induction false} KnownItemsOfNewRows(user: string, items: seq<string>, ratings: seq<int>)
    requires |items| == |ratings|
    ensures KnownItems(NewRows(user, items, ratings), user) == items
  {
    if items != [] {
      var n := |items| - 1;
      assert NewRows(user, items, ratings)[..n] == NewRows(user, items[..n], ratings[..n]);
      KnownItemsOfNewRows(user, items[..n], ratings[..n]);
      assert items == items[..n] + [items[n]];
    }
  }

  /** The current user's ratings extend their known items by the rated keys, in order. */
  lemma KnownItemsOwnRows(log: seq<Rating>, user: string, items: seq<string>, ratings: seq<int>)
    requires |items| == |ratings|
    ensures KnownItems(log + NewRows(user, items, ratings), user) == KnownItems(log, user) + items
  {
    KnownItemsAppend(log, NewRows(user, items, ratings), user);
    KnownItemsOfNewRows(user, items, ratings);
  }

  /** Ratings added under another user's name leave `user`'s known items as they were. */
  lemma KnownItemsOtherUser(log: seq<Rating>, user: string, other: string, items: seq<string>, ratings: seq<int>)
    requires other != user && |items| == |ratings|
    ensures KnownItems(log + NewRows(other, items, ratings), user) == KnownItems(log, user)
  {
    KnownItemsAppend(log, NewRows(other, items, ratings), user);
    var rows := NewRows(other, items, ratings);
    KnownItemsNone(rows, user);
  }

  class RecommenderBaseModel {
    /** `self.users`: each signed-in user's items left to rate. */
    var users: map<string, seq<nat>>
    /** `self.items`. */
    var items: seq<nat>
    /** `self.cur_user`; "" before anyone signs in. */
    var curUser: string
    /** `self.cur_recommendation`; empty when nothing is cached. */
    var curRecommendation: seq<nat>
    /** `self.users_data_for_update`: every rating given through this model. */
    var updateLog: seq<Rating>
    /** The datasets `self.matrix_fact` was fitted and updated with, in order. */
    var training: seq<seq<Rating>>
    /** The engine behind `self.matrix_fact.recommend`. */
    const recommend: Engine
    /** How many items the cached recommendation was asked for. */
    ghost var cachedAmount: int

    /** The keys `recommend(user=cur_user, items_known=..., amount=n)` would answer now. */
    function EngineKeys(n: int): seq<string>
      reads this
    {
      recommend(training, curUser, KnownItems(updateLog, curUser), n)
    }

    /**
     * The engine's answer decoded: its keys in order, or None where one of
     * them fails `int(item[1:])`.
     */
    function Fresh(n: int): (r: Option<seq<nat>>)
      reads this
      ensures r.Some? <==> forall k :: 0 <= k < |EngineKeys(n)| ==> DecodeItemId(EngineKeys(n)[k]).Some?
      ensures r.Some? ==> |r.value| == |EngineKeys(n)|
      ensures r.Some? ==> forall k :: 0 <= k < |r.value| ==> DecodeItemId(EngineKeys(n)[k]) == Some(r.value[k])
    {
      DecodeItemIds(EngineKeys(n))
    }

    /**
     * The catalog is 1..60, a signed-in current user has a pool, and a
     * cached recommendation is what the engine would answer now.
     */
    ghost predicate Valid()
      reads this
    {
      items == Catalog() &&
      (curUser != "" ==> curUser in users) &&
      (forall u | u in users :: InCatalog(users[u])) &&
      (curRecommendation != [] ==> Fresh(cachedAmount) == Some(curRecommendation))
    }

    /** `__init__`, with the CSV file's rows given as `initial`. */
    constructor (initial: seq<Rating>, engine: Engine)
      ensures Valid()
      ensures users == map[] && curUser == "" && curRecommendation == []
      ensures updateLog == [] && training == [initial] && recommend == engine
    {
      users := map[];
      items := Catalog();
      curUser := "";
      training := [initial];
      recommend := engine;
      curRecommendation := [];
      updateLog := [];
    }

    /** `login_user`: as in the item-based model, and the cached recommendation is dropped. */
    method LoginUser(username: string)
      requires Valid()
      modifies this
      ensures Valid()
      ensures username in old(users) ==> users == old(users)
      ensures username !in old(users) ==> users == old(users)[username := Catalog()]
      ensures curUser == username && curRecommendation == []
      ensures items == old(items) && updateLog == old(updateLog) && training == old(training)
    {
      if username !in users {
        users := users[username := items];
      }
      curUser := username;
      curRecommendation := [];
    }

    /**
     * `get_recommendations(n)`: the cached list if there is one, otherwise
     * the engine's answer, decoded and cached. None where `int(item[1:])`
     * raises; the cache is then left empty.
     */
    method GetRecommendations(n: int) returns (r: Option<seq<nat>>)
      requires Valid()
      modifies this`curRecommendation, this`cachedAmount
      ensures Valid()
      ensures old(curRecommendation) != [] ==>
                r == Some(old(curRecommendation)) && curRecommendation == old(curRecommendation)
      ensures old(curRecommendation) == [] ==> r == Fresh(n)
      ensures old(curRecommendation) == [] ==> curRecommendation == if r.Some? then r.value else []
      ensures r.Some? ==> r.value == curRecommendation
    {
      if |curRecommendation| == 0 {
        var itemsKnown := KnownItems(updateLog, curUser);
        var keys := recommend(training, curUser, itemsKnown, n);
        var decoded := DecodeItemIds(keys);
        if decoded.None? {
          return None;
        }
        curRecommendation := decoded.value;
        cachedAmount := n;
      }
      r := Some(curRecommendation);
    }

    /**
     * `update_ratings(items, ratings)`: appends the current user's ratings to
     * the update log, updates the engine with the whole log and drops the
     * cached recommendation.
     */
    method UpdateRatings(newItems: seq<string>, newRatings: seq<int>)
      requires Valid() && |newItems| == |newRatings|
      modifies this
      ensures Valid()
      ensures updateLog == old(updateLog) + NewRows(curUser, newItems, newRatings)
      ensures training == old(training) + [updateLog]
      ensures curRecommendation == []
      ensures users == old(users) && items == old(items) && curUser == old(curUser)
    {
      updateLog := updateLog + NewRows(curUser, newItems, newRatings);
      training := training + [updateLog];
      curRecommendation := [];
    }

    /**
     * The exclusive bound `randint` is given on the next `get_item_for_rating`;
     * for a signed-in user the pool drawn from is never empty.
     */
    function DrawBound(): (b: nat)
      reads this
      requires curUser != "" ==> curUser in users
      ensures curUser != "" ==> b > 0
    {
      if curUser == "" then |items| else |Refilled(users[curUser])|
    }

    /** `get_item_for_rating`, with `randint` returning idx; as in the item-based model. */
    method GetItemForRating(idx: nat) returns (item: nat)
      requires Valid() && idx < DrawBound()
      modifies this
      ensures Valid()
      ensures 1 <= item <= ItemsNum
      ensures old(curUser) == "" ==> item == Catalog()[idx] && users == old(users)
      ensures old(curUser) != "" ==>
                var d := Draw(old(users)[old(curUser)], idx);
                item == d.0 && users == old(users)[old(curUser) := d.1]
      ensures items == old(items) && curUser == old(curUser) && curRecommendation == old(curRecommendation)
      ensures updateLog == old(updateLog) && training == old(training)
    {
      if curUser == "" {
        return items[idx];
      }
      if |users[curUser]| == 0 {
        users := users[curUser := items];
      }
      var pool := users[curUser];
      DrawInCatalog(old(users)[curUser], idx);
      item := pool[idx];
      users := users[curUser := pool[..idx] + pool[idx + 1..]];
    }
  }
}
