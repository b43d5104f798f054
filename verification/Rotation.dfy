/**
 Credential rotation. The cursor keeps the last ID, not a position, and each pick takes the next ID
 above it in whatever pool is offered, or the lowest. However the pools change from call to call, a
 credential that stays offered is never starved and never overtaken twice.
 */
module Rotation {
  import opened Text
  import Recency

  /** Pools are sorted and not empty. */
  predicate Pool(pool: seq<string>) {
    pool != [] && Ascending(pool)
  }

  function Next(pool: seq<string>, last: string): string
    requires pool != []
  {
    var i := FirstAbove(pool, last);
    if i == |pool| then pool[0] else pool[i]
  }

  predicate Pools(pools: seq<seq<string>>) {
    forall i :: 0 <= i < |pools| ==> Pool(pools[i])
  }

  /** The picks from a row of pools, starting after last. */
  function Chain(pools: seq<seq<string>>, last: string): (picks: seq<string>)
    requires Pools(pools)
    ensures |picks| == |pools|
  {
    if pools == [] then []
    else
      var front := Chain(pools[..|pools| - 1], last);
      front + [Next(pools[|pools| - 1], if front == [] then last else front[|front| - 1])]
  }

  /** What the pick before position i left behind. */
  function Last(picks: seq<string>, last: string, i: nat): string
    requires i <= |picks|
  {
    if i == 0 then last else picks[i - 1]
  }

  lemma {:induction false} ChainStep(pools: seq<seq<string>>, last: string, i: nat)
    requires Pools(pools) && i < |pools|
    ensures Chain(pools, last)[i] == Next(pools[i], Last(Chain(pools, last), last, i))
  {
    if i < |pools| - 1 {
      ChainStep(pools[..|pools| - 1], last, i);
    }
  }

  /** A pick is offered. With c offered, it comes after last and not after c, wrapping at most once. */
  lemma {:induction false} NextInPool(pool: seq<string>, last: string, c: string)
    requires Pool(pool) && c in pool
    ensures Next(pool, last) in pool
    ensures Less(last, c) ==> Less(last, Next(pool, last)) && !Less(c, Next(pool, last))
    ensures !Less(last, c) ==> Less(last, Next(pool, last)) || !Less(c, Next(pool, last))
  {
    var j :| 0 <= j < |pool| && pool[j] == c;
    var i := FirstAbove(pool, last);
    if i == |pool| {
      LessIrreflexive(c);
      assert !Less(c, pool[0]);
    } else if Less(last, c) {
      LessIrreflexive(c);
      assert i <= j;
    }
  }

  lemma {:induction false} LessIrreflexive(x: string)
    ensures !Less(x, x)
  {
    if Less(x, x) { LessAsymmetric(x, x); }
  }

  // --------------------------------------------------------------------------------------- fairness

  /** In a round that ends with c, y comes later than x: first the IDs above c in order, then those below. */
  predicate Ahead(c: string, x: string, y: string) {
    if Less(c, x) then Less(x, y) || Less(y, c) else Less(x, y) && Less(y, c)
  }

  lemma {:induction false} AheadStrict(c: string, x: string)
    ensures !Ahead(c, x, x)
  {
    LessIrreflexive(x);
    if Less(c, x) { LessAsymmetric(c, x); }
  }

  lemma {:induction false} AheadTransitive(c: string, x: string, y: string, z: string)
    requires Ahead(c, x, y) && Ahead(c, y, z)
    ensures Ahead(c, x, z)
  {
    if Less(c, x) && Less(x, y) {
      LessTransitive(c, x, y);
      if Less(y, z) { LessTransitive(x, y, z); }
    } else {
      LessAsymmetric(y, c);
      if !Less(c, x) { LessTransitive(x, y, z); }
    }
  }

  lemma {:induction false} NextAhead(pool: seq<string>, last: string, c: string)
    requires Pool(pool) && c in pool && last != c && Next(pool, last) != c
    ensures Ahead(c, last, Next(pool, last))
  {
    var next := Next(pool, last);
    NextInPool(pool, last, c);
    LessTotal(c, last);
    LessTotal(c, next);
    if Less(c, last) { LessAsymmetric(c, last); } else { LessAsymmetric(last, c); }
  }

  /** As long as c is offered and not picked, the picks move ahead through one round. */
  lemma {:induction false} RoundAhead(pools: seq<seq<string>>, last: string, c: string, i: nat, j: nat)
    requires Pools(pools) && i < j < |pools|
    requires forall k :: i < k <= j ==> c in pools[k]
    requires forall k :: i <= k <= j ==> Chain(pools, last)[k] != c
    ensures Ahead(c, Chain(pools, last)[i], Chain(pools, last)[j])
    decreases j
  {
    var picks := Chain(pools, last);
    ChainStep(pools, last, j);
    NextAhead(pools[j], picks[j - 1], c);
    if i < j - 1 {
      RoundAhead(pools, last, c, i, j - 1);
      AheadTransitive(c, picks[i], picks[j - 1], picks[j]);
    }
  }

  /**
   While c is offered in every pool, no other credential is picked twice without c being picked in
   between.
   */
  lemma {:induction false} NoneTwiceBetween(pools: seq<seq<string>>, last: string, c: string, i: nat, j: nat)
    requires Pools(pools) && i < j < |pools|
    requires forall k :: i < k <= j ==> c in pools[k]
    requires Chain(pools, last)[i] == Chain(pools, last)[j] != c
    ensures exists k :: i < k < j && Chain(pools, last)[k] == c
  {
    var picks := Chain(pools, last);
    if forall k :: i < k < j ==> picks[k] != c {
      RoundAhead(pools, last, c, i, j);
      AheadStrict(c, picks[i]);
    }
  }

  lemma {:induction false} PicksOffered(pools: seq<seq<string>>, last: string, i: nat)
    requires Pools(pools) && i < |pools|
    ensures Chain(pools, last)[i] in pools[i]
  {
    ChainStep(pools, last, i);
    NextInPool(pools[i], Last(Chain(pools, last), last, i), pools[i][0]);
  }

  /** No starvation: with n different IDs on offer in all, any n picks in a row include c. */
  lemma {:induction false} NeverStarved(pools: seq<seq<string>>, last: string, c: string, u: set<string>, i: nat)
    requires Pools(pools) && i + |u| <= |pools|
    requires forall k :: i <= k < i + |u| ==> c in pools[k] && forall x :: x in pools[k] ==> x in u
    requires c in u
    ensures c in Chain(pools, last)[i..i + |u|]
  {
    var picks := Chain(pools, last);
    var row := picks[i..i + |u|];
    if c !in row {
      forall k | 0 <= k < |row| ensures row[k] in u - {c} {
        assert row[k] == picks[i + k];
        PicksOffered(pools, last, i + k);
      }
      forall a, b | 0 <= a < b < |row| ensures row[a] != row[b] {
        forall k | i + a <= k <= i + b ensures picks[k] != c {
          assert picks[k] == row[k - i];
        }
        RoundAhead(pools, last, c, i + a, i + b);
        AheadStrict(c, row[a]);
      }
      Recency.DistinctFit(row, u - {c});
    }
  }

  // ------------------------------------------------------------------------------------- fixed pool

  /** A row as long as a list without repeats that contains all of it is a permutation of it. */
  lemma {:induction false} CoverIsPermutation(row: seq<string>, list: seq<string>)
    requires |row| == |list|
    requires forall i, j :: 0 <= i < j < |list| ==> list[i] != list[j]
    requires forall i :: 0 <= i < |list| ==> list[i] in row
    ensures multiset(row) == multiset(list)
  {
    if list != [] {
      var x, rest := list[0], list[1..];
      var k :| 0 <= k < |row| && row[k] == x;
      var less := row[..k] + row[k + 1..];
      assert row == row[..k] + [x] + row[k + 1..];
      assert list == [x] + rest;
      forall i | 0 <= i < |rest| ensures rest[i] in less {
        assert rest[i] == list[i + 1] && list[i + 1] in row && list[i + 1] != list[0];
        var m :| 0 <= m < |row| && row[m] == rest[i];
        assert if m < k then less[m] == rest[i] else less[m - 1] == rest[i];
      }
      CoverIsPermutation(less, rest);
    }
  }

  lemma {:induction false} MembersCount(list: seq<string>)
    requires forall i, j :: 0 <= i < j < |list| ==> list[i] != list[j]
    ensures |set x | x in list| == |list|
  {
    if list != [] {
      var front, last := list[..|list| - 1], list[|list| - 1];
      MembersCount(front);
      assert last !in front;
      assert (set x | x in list) == (set x | x in front) + {last};
    }
  }

  /** With the same n different IDs offered every time, any n picks in a row are a permutation of them. */
  lemma {:induction false} FixedPoolPermutation(pools: seq<seq<string>>, last: string, pool: seq<string>, i: nat)
    requires Pools(pools) && Pool(pool) && i + |pool| <= |pools|
    requires forall k :: i <= k < i + |pool| ==> pools[k] == pool
    requires forall a, b :: 0 <= a < b < |pool| ==> pool[a] != pool[b]
    ensures multiset(Chain(pools, last)[i..i + |pool|]) == multiset(pool)
  {
    var u := set x | x in pool;
    MembersCount(pool);
    forall k | 0 <= k < |pool| ensures pool[k] in Chain(pools, last)[i..i + |pool|] {
      NeverStarved(pools, last, pool[k], u, i);
    }
    CoverIsPermutation(Chain(pools, last)[i..i + |pool|], pool);
  }
}
