/** The store's price table and its operations, step by step; maps are gone through in any order. */
module Catalog {
  import opened Options
  import opened Pricing

  /** What the sources offer together. */
  method Candidates(f: Fetch) returns (effective: Prices)
    ensures effective == Effective(f)
  {
    effective := if f.liteOK then f.lite else map[];
    if !f.fallbackOK {
      return;
    }
    var left := f.fallback.Keys;
    while left != {}
      invariant left <= f.fallback.Keys
      invariant forall id :: id in effective <==> (f.liteOK && id in f.lite) || (id in f.fallback && id !in left)
      invariant forall id :: id in effective ==>
                  effective[id] == if f.liteOK && id in f.lite then f.lite[id] else f.fallback[id]
      decreases left
    {
      var id :| id in left;
      if !(f.liteOK && id in f.lite) {
        effective := effective[id := f.fallback[id]];
      }
      left := left - {id};
    }
    assert effective.Keys == Effective(f).Keys;
  }

  /** Marks the rows stale that their source no longer confirms. */
  method MarkStale(f: Fetch, prices: Prices) returns (next: Prices)
    ensures next.Keys == prices.Keys && forall id :: id in prices ==> next[id] == Marked(f, id, prices[id])
  {
    next := prices;
    var left := prices.Keys;
    while left != {}
      invariant left <= prices.Keys == next.Keys
      invariant forall id :: id in prices ==> next[id] == if id in left then prices[id] else Marked(f, id, prices[id])
      decreases left
    {
      var id :| id in left;
      var current := next[id];
      match current.source {
        case LiteLLM =>
          if !f.liteOK || id !in f.lite { next := next[id := current.(status := Stale)]; }
        case ModelsDev =>
          if !f.fallbackOK || id !in f.fallback { next := next[id := current.(status := Stale)]; }
        case _ =>
      }
      left := left - {id};
    }
  }

  method SeedOf(aliases: seq<AutoAlias>, id: ID, row: Price) returns (seed: bool)
    ensures seed == IsSeed(aliases, id, row)
  {
    if id == BLANK {
      return false;
    }
    for i := 0 to |aliases|
      invariant forall k :: 0 <= k < i ==>
                  !((aliases[k].id == id || id in aliases[k].targets) && row.values in aliases[k].seed)
    {
      if (aliases[i].id == id || id in aliases[i].targets) && row.values in aliases[i].seed {
        return true;
      }
    }
    return false;
  }

  /** Whether a row makes room for a candidate. */
  method GivesWay(f: Fetch, id: ID, current: Price, candidate: Price) returns (gives: bool)
    requires id in Effective(f) && candidate == Effective(f)[id] && Sourced(f)
    ensures gives == Replaceable(f, id, current)
  {
    match current.source {
      case Manual => gives := false;
      case OfAlias => gives := false;
      case Legacy =>
        var seed := SeedOf(f.aliases, id, current);
        gives := seed || (id in f.lite && f.lite[id].values == current.values)
                 || (id in f.fallback && f.fallback[id].values == current.values);
      case LiteLLM => gives := f.liteOK;
      case ModelsDev => gives := !(candidate.source == ModelsDev && !f.fallbackOK);
    }
  }

  /** Whether a candidate is put in: marking a row stale does not change whether it makes room. */
  method Gives(f: Fetch, id: ID, row: Option<Price>, candidate: Price, deleted: set<ID>, ghost prices: Prices)
    returns (gives: bool)
    requires id in Effective(f) && candidate == Effective(f)[id] && Sourced(f)
    requires row == if id in prices then Some(Marked(f, id, prices[id])) else None
    ensures gives == Takes(f, prices, deleted, id)
  {
    gives := id !in deleted;
    if gives && row.Some? {
      gives := GivesWay(f, id, row.value, candidate);
    }
  }

  /** Puts the candidates in, except where a tombstone or a row that does not give way stands. */
  method MergeCandidates(f: Fetch, effective: Prices, marked: Prices, ghost prices: Prices,
          deleted: set<ID>) returns (next: Prices)
    requires effective == Effective(f) && Sourced(f)
    requires marked.Keys == prices.Keys && forall id :: id in prices ==> marked[id] == Marked(f, id, prices[id])
    ensures next == Merged(f, prices, deleted)
  {
    hide Takes, Marked, Effective, Merged;
    next := marked;
    var left := effective.Keys;
    ghost var takers := set id | id in effective && Takes(f, prices, deleted, id);
    while left != {}
      invariant left <= effective.Keys
      invariant forall id :: id in next <==> id in prices || id in takers - left
      invariant forall id :: id in next ==> next[id] == if id in takers - left then effective[id] else marked[id]
      decreases left
    {
      var id :| id in left;
      var gives := Gives(f, id, if id in next then Some(next[id]) else None, effective[id], deleted, prices);
      if gives {
        next := next[id := effective[id]];
      }
      left := left - {id};
    }
    MergedFrom(f, marked, prices, deleted, takers, next);
  }

  lemma {:induction false} MergedFrom(f: Fetch, marked: Prices, prices: Prices, deleted: set<ID>, takers: set<ID>,
          next: Prices)
    requires marked.Keys == prices.Keys && forall id :: id in prices ==> marked[id] == Marked(f, id, prices[id])
    requires takers == set id | id in Effective(f) && Takes(f, prices, deleted, id)
    requires forall id :: id in next <==> id in prices || id in takers
    requires forall id :: id in next ==> next[id] == if id in takers then Effective(f)[id] else marked[id]
    ensures next == Merged(f, prices, deleted)
  {
    hide Marked, Effective, Replaceable;
    assert next.Keys == Merged(f, prices, deleted).Keys;
  }

  method HasSourcedOrDeletedTarget(a: AutoAlias, prices: Prices, deleted: set<ID>) returns (has: bool)
    ensures has <==> exists i :: 0 <= i < |a.targets| && (FromSource(prices, a.targets[i]) || a.targets[i] in deleted)
  {
    for i := 0 to |a.targets|
      invariant forall k :: 0 <= k < i ==> !FromSource(prices, a.targets[k]) && a.targets[k] !in deleted
    {
      var target := a.targets[i];
      if (target in prices && (prices[target].source == LiteLLM || prices[target].source == ModelsDev)) ||
        target in deleted {
        return true;
      }
    }
    return false;
  }

  /** Removing old rows does not change which rows come from a source, so the order of the aliases does not matter. */
  lemma {:induction false} ShadowsStay(a: AutoAlias, aliases: seq<AutoAlias>, prices: Prices, next: Prices,
          deleted: set<ID>)
    requires forall id :: id in next ==> id in prices && next[id] == prices[id]
    requires forall id :: id in prices && id !in next ==> prices[id].source == Legacy
    ensures forall t :: FromSource(next, t) <==> FromSource(prices, t)
    ensures forall id :: Shadows(a, aliases, next, deleted, id) <==>
              id in next && Shadows(a, aliases, prices, deleted, id)
    ensures forall id :: Shadows(a, aliases, next, deleted, id) ==> id == a.id && prices[id].source == Legacy
  {
  }

  /** Whether the row under the alias's own name hides a target. */
  method IsShadow(a: AutoAlias, aliases: seq<AutoAlias>, prices: Prices, deleted: set<ID>) returns (shadow: bool)
    ensures shadow == Shadows(a, aliases, prices, deleted, a.id)
  {
    var has := HasSourcedOrDeletedTarget(a, prices, deleted);
    shadow := a.id != BLANK && a.id !in a.targets && has && a.id in prices && prices[a.id].source == Legacy;
    if shadow {
      shadow := SeedOf(aliases, a.id, prices[a.id]);
    }
  }

  /** Drops the old rows that hide an automatic alias's targets. */
  method DropShadows(f: Fetch, prices: Prices, deleted: set<ID>) returns (next: Prices)
    ensures next == Unshadowed(f, prices, deleted)
  {
    hide Shadows, FromSource;
    next := prices;
    for i := 0 to |f.aliases|
      invariant forall id :: id in next <==>
                  id in prices && forall k :: 0 <= k < i ==> !Shadows(f.aliases[k], f.aliases, prices, deleted, id)
      invariant forall id :: id in next ==> next[id] == prices[id]
      invariant forall id :: id in prices && id !in next ==> prices[id].source == Legacy
    {
      var a := f.aliases[i];
      ShadowsStay(a, f.aliases, prices, next, deleted);
      var shadow := IsShadow(a, f.aliases, next, deleted);
      if shadow {
        next := next - {a.id};
      }
    }
    assert next == Unshadowed(f, prices, deleted);
  }

  class PriceCatalog {
    var prices: Prices
    var deleted: set<ID>

    constructor ()
      ensures prices == map[] && deleted == {}
    {
      prices := map[];
      deleted := {};
    }

    ghost function Contents(): Book
      reads this
    {
      Book(prices, deleted)
    }

    /** Nothing is published if the file cannot be written. */
    method ApplyPricingSources(f: Fetch, writes: bool) returns (ok: bool)
      requires Sourced(f)
      modifies this
      ensures ok == writes
      ensures Contents() == if ok then Applied(old(Contents()), Sync(f)) else old(Contents())
    {
      var effective := Candidates(f);
      var next := MarkStale(f, prices);
      next := MergeCandidates(f, effective, next, prices, deleted);
      next := DropShadows(f, next, deleted);
      if !writes {
        return false;
      }
      prices := next;
      return true;
    }

    method UpsertModelPrice(id: ID, price: Price, writes: bool) returns (ok: bool)
      modifies this
      ensures ok == (id != BLANK && !price.negative && writes)
      ensures Contents() == if ok then Applied(old(Contents()), Upsert(id, price)) else old(Contents())
    {
      if id == BLANK || price.negative || !writes {
        return false;
      }
      prices := prices[id := price.(source := Manual, status := Priced)];
      deleted := deleted - {id};
      return true;
    }

    method DeleteModelPrice(id: ID, writes: bool) returns (ok: bool)
      modifies this
      ensures ok == (id != BLANK && id in old(prices) && writes)
      ensures Contents() == if ok then Applied(old(Contents()), Delete(id)) else old(Contents())
    {
      if id == BLANK || id !in prices || !writes {
        return false;
      }
      prices := prices - {id};
      deleted := deleted + {id};
      return true;
    }

    method RestoreModelPriceAutomatic(id: ID, writes: bool) returns (ok: bool)
      modifies this
      ensures ok == (id != BLANK && writes)
      ensures Contents() == if ok then Applied(old(Contents()), Restore(id)) else old(Contents())
    {
      if id == BLANK || !writes {
        return false;
      }
      prices := prices - {id};
      deleted := deleted - {id};
      return true;
    }

    /** The table is replaced before the file is written, and stays so if the write fails. */
    method UpsertAliasIntoPricing(owners: set<ID>, a: AliasPricing, writes: bool) returns (ok: bool)
      modifies this
      ensures ok == writes
      ensures Contents() == Applied(old(Contents()), Alias(owners, a))
    {
      var next := ReleaseRows(prices, owners, a);
      var book := Book(next, deleted);
      if a.tokens {
        ghost var released := book;
        for i := 0 to |a.entries|
          invariant book == PutEntries(released, a, i)
          invariant Contents() == old(Contents())
        {
          book := PutEntry(book, a, a.entries[i]);
        }
      }
      prices := book.prices;
      deleted := book.deleted;
      return writes;
    }
  }

  method ReleaseRows(prices: Prices, owners: set<ID>, a: AliasPricing) returns (next: Prices)
    ensures next == Released(prices, owners, a)
  {
    next := prices;
    var left := prices.Keys;
    while left != {}
      invariant left <= prices.Keys
      invariant forall id :: id in next <==>
                  id in prices && (id in left || !(prices[id].source == OfAlias && id !in owners))
      invariant forall id :: id in next ==> next[id] == prices[id]
      decreases left
    {
      var id :| id in left;
      if next[id].source == OfAlias && id !in owners {
        next := next - {id};
      }
      left := left - {id};
    }
    if a.tokens && !a.manual {
      for i := 0 to |a.entries|
        invariant forall id :: id in next <==>
                    && id in prices && !(prices[id].source == OfAlias && id !in owners)
                    && !(prices[id].source == OfAlias && prices[id].values == a.values
                         && exists k :: 0 <= k < i && a.entries[k].0 == id)
        invariant forall id :: id in next ==> next[id] == prices[id]
      {
        var id := a.entries[i].0;
        if id in next && next[id].source == OfAlias && next[id].values == a.values {
          next := next - {id};
        }
      }
    }
    assert next.Keys == Released(prices, owners, a).Keys;
  }
}
