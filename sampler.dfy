/**
 * The per-user pool of items still to be rated, shared by both recommender
 * models: `login_user` gives a new user the whole catalog, and
 * `get_item_for_rating` pops a random entry, refilling an emptied pool.
 */
module Sampler {

  import opened Seqs

  /** `ITEMS_NUM`. */
  const ItemsNum: nat := 60

  /** `list(range(1, ITEMS_NUM + 1))`: the item numbers 1..60, each once, in increasing order. */
  function Catalog(): (c: seq<nat>)
    ensures |c| == ItemsNum
    ensures forall k :: 0 <= k < |c| ==> c[k] == k + 1
    ensures NoDuplicates(c)
    ensures forall n :: n in c <==> 1 <= n <= ItemsNum
  {
    var c := seq(ItemsNum, k requires 0 <= k < ItemsNum => k + 1);
    CountingUp(c);
    c
  }

  /** A sequence holding 1, 2, ... in order is duplicate-free and holds exactly 1..|s|. */
  lemma CountingUp(s: seq<nat>)
    requires forall k :: 0 <= k < |s| ==> s[k] == k + 1
    ensures NoDuplicates(s)
    ensures forall n :: n in s <==> 1 <= n <= |s|
  {
    forall n | 1 <= n <= |s| ensures n in s {
      assert s[n - 1] == n;
    }
  }

  /** `pool.pop(idx)`: the entry at idx, and the pool without that one entry. */
  function Pop(pool: seq<nat>, idx: nat): (r: (nat, seq<nat>))
    requires idx < |pool|
    ensures r.0 == pool[idx]
    ensures |r.1| == |pool| - 1
    ensures multiset(r.1) + multiset{r.0} == multiset(pool)
  {
    assert pool == pool[..idx] + [pool[idx]] + pool[idx + 1..];
    (pool[idx], pool[..idx] + pool[idx + 1..])
  }

  /** The pool a draw is taken from: an emptied pool starts over with the catalog. */
  function Refilled(pool: seq<nat>): (p: seq<nat>)
    ensures |p| > 0
    ensures pool != [] ==> p == pool
    ensures pool == [] ==> p == Catalog()
  {
    if pool == [] then Catalog() else pool
  }

  /** Every entry of the pool is an item number of the catalog. */
  predicate InCatalog(pool: seq<nat>) {
    forall k :: 0 <= k < |pool| ==> 1 <= pool[k] <= ItemsNum
  }

  /**
   * One signed-in `get_item_for_rating` with `randint` returning idx: an
   * entry of the refilled pool, and that pool with the entry taken out once.
   */
  function Draw(pool: seq<nat>, idx: nat): (r: (nat, seq<nat>))
    requires idx < |Refilled(pool)|
    ensures r.0 in Refilled(pool)
    ensures multiset(r.1) + multiset{r.0} == multiset(Refilled(pool))
  {
    Pop(Refilled(pool), idx)
  }

  /** Indices `randint` can return on |idxs| consecutive draws from a pool of n. */
  predicate IndicesFit(n: nat, idxs: seq<nat>) {
    |idxs| <= n && forall k :: 0 <= k < |idxs| ==> idxs[k] < n - k
  }

  /**
   * The items and the final pool of consecutive draws from `pool`: one item
   * per draw, and together with what is left they are the old pool.
   */
  function DrawAll(pool: seq<nat>, idxs: seq<nat>): (r: (seq<nat>, seq<nat>))
    requires IndicesFit(|pool|, idxs)
    ensures |r.0| == |idxs| && |r.1| == |pool| - |idxs|
    ensures multiset(r.0) + multiset(r.1) == multiset(pool)
  {
    if idxs == [] then ([], pool)
    else
      var first := Draw(pool, idxs[0]);
      assert IndicesFit(|first.1|, idxs[1..]) by {
        forall k | 0 <= k < |idxs[1..]| ensures idxs[1..][k] < |first.1| - k {
          assert idxs[1..][k] == idxs[k + 1];
        }
      }
      var rest := DrawAll(first.1, idxs[1..]);
      assert multiset([first.0] + rest.0) == multiset{first.0} + multiset(rest.0);
      ([first.0] + rest.0, rest.1)
  }

  // ---------------------------------------------------------------------
  // Properties.

  lemma {:induction false} OnceEach(s: seq<nat>, x: nat)
    requires NoDuplicates(s)
    ensures multiset(s)[x] == if x in s then 1 else 0
  {
    if s != [] {
      var init := s[..|s| - 1];
      assert s == init + [s[|s| - 1]];
      InitNoDuplicates(s);
      OnceEach(init, x);
    }
  }

  /** A draw from a pool of catalog items returns a catalog item and leaves a pool of catalog items. */
  lemma DrawInCatalog(pool: seq<nat>, idx: nat)
    requires InCatalog(pool) && idx < |Refilled(pool)|
    ensures 1 <= Draw(pool, idx).0 <= ItemsNum
    ensures InCatalog(Draw(pool, idx).1)
  {
    var p := Refilled(pool);
    var rest := Draw(pool, idx).1;
    forall k | 0 <= k < |rest| ensures 1 <= rest[k] <= ItemsNum {
      if k < idx {
        assert rest[k] == p[k];
      } else {
        assert rest[k] == p[k + 1];
      }
    }
  }

  /** The catalog holds each item number of 1..60 once. */
  lemma CatalogOnceEach(n: nat)
    ensures multiset(Catalog())[n] == if 1 <= n <= ItemsNum then 1 else 0
  {
    OnceEach(Catalog(), n);
  }

  /**
   * Sixty draws for a signed-in user whose pool is full (a new login) or
   * empty (all rated) hand out every item of 1..60 exactly once and leave the
   * pool empty.
   */
  lemma CatalogRound(pool: seq<nat>, idxs: seq<nat>)
    requires pool == Catalog() || pool == []
    requires |idxs| == ItemsNum && IndicesFit(ItemsNum, idxs)
    ensures var r := DrawAll(Refilled(pool), idxs);
            r.1 == [] &&
            forall n: nat :: multiset(r.0)[n] == if 1 <= n <= ItemsNum then 1 else 0
  {
    var c := Catalog();
    assert Refilled(pool) == c;
    var r := DrawAll(c, idxs);
    assert multiset(r.0) == multiset(c);
    SameAsCatalog(r.0);
  }

  /** A rearrangement of the catalog holds each item number of 1..60 once. */
  lemma SameAsCatalog(s: seq<nat>)
    requires multiset(s) == multiset(Catalog())
    ensures forall n: nat :: multiset(s)[n] == if 1 <= n <= ItemsNum then 1 else 0
  {
    forall n: nat ensures multiset(s)[n] == if 1 <= n <= ItemsNum then 1 else 0 {
      CatalogOnceEach(n);
    }
  }
}
