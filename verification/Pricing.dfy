/**
 The price catalog: rows owned by an operator, by an alias, or by one of two synchronised sources, and
 tombstones for deleted rows. A synchronisation merges both sources by precedence.
 */
module Pricing {
  import opened Options

  /** Normalised model IDs; 0 is the blank one. */
  type ID = nat
  const BLANK: ID := 0

  datatype Source = Manual | OfAlias | Legacy | LiteLLM | ModelsDev

  datatype Status = Priced | KnownUnpriced | Stale

  /** Providers in the order of preference; those from UNRANKED on are not preferred to one another. */
  type Provider = nat
  const UNRANKED: Provider := 4

  /**
   The six prices as one value; priced if one of them is positive, negative if one is. Details are
   display name, mode and time seen.
   */
  datatype Price = Price(
    values: nat, priced: bool, negative: bool, provider: Provider, source: Source, status: Status, details: nat)

  type Prices = map<ID, Price>

  /** An alias whose prices are not the operator's: its own ID, its targets, and its token prices if it has any. */
  datatype AutoAlias = AutoAlias(id: ID, targets: seq<ID>, seed: set<nat>)

  /** One synchronisation: the two indexes, whether each source answered, and the automatic aliases. */
  datatype Fetch = Fetch(lite: Prices, fallback: Prices, liteOK: bool, fallbackOK: bool, aliases: seq<AutoAlias>)

  predicate Sourced(f: Fetch) {
    && (forall id :: id in f.lite ==> f.lite[id].source == LiteLLM && f.lite[id].status != Stale)
    && (forall id :: id in f.fallback ==> f.fallback[id].source == ModelsDev && f.fallback[id].status != Stale)
  }

  /** LiteLLM first; the fallback only for IDs that a working LiteLLM does not know. */
  function Effective(f: Fetch): Prices {
    (if f.fallbackOK then f.fallback else map[]) + (if f.liteOK then f.lite else map[])
  }

  /** A source's row that the source no longer confirms is kept, marked stale. */
  function Marked(f: Fetch, id: ID, row: Price): Price {
    match row.source
    case LiteLLM => if !f.liteOK || id !in f.lite then row.(status := Stale) else row
    case ModelsDev => if !f.fallbackOK || id !in f.fallback then row.(status := Stale) else row
    case _ => row
  }

  predicate IsSeed(aliases: seq<AutoAlias>, id: ID, row: Price) {
    && id != BLANK
    && exists i :: 0 <= i < |aliases| &&
         (aliases[i].id == id || id in aliases[i].targets) && row.values in aliases[i].seed
  }

  /** Rows of unknown origin give way if their prices are an automatic alias's or either source's. */
  predicate Replaceable(f: Fetch, id: ID, row: Price) {
    match row.source
    case Manual => false
    case OfAlias => false
    case Legacy =>
      || IsSeed(f.aliases, id, row)
      || (id in f.lite && f.lite[id].values == row.values)
      || (id in f.fallback && f.fallback[id].values == row.values)
    case LiteLLM => f.liteOK
    case ModelsDev => true
  }

  predicate Takes(f: Fetch, prices: Prices, deleted: set<ID>, id: ID) {
    id in Effective(f) && id !in deleted && (id in prices ==> Replaceable(f, id, prices[id]))
  }

  function Merged(f: Fetch, prices: Prices, deleted: set<ID>): Prices {
    map id | id in prices.Keys + Effective(f).Keys && (id in prices || Takes(f, prices, deleted, id)) ::
      if Takes(f, prices, deleted, id) then Effective(f)[id] else Marked(f, id, prices[id])
  }

  predicate FromSource(prices: Prices, id: ID) {
    id in prices && (prices[id].source == LiteLLM || prices[id].source == ModelsDev)
  }

  /** An old row under an automatic alias's own name hides a target that has a sourced row, or that was deleted. */
  predicate Shadows(a: AutoAlias, aliases: seq<AutoAlias>, prices: Prices, deleted: set<ID>, id: ID) {
    && a.id == id != BLANK && id !in a.targets
    && (exists i :: 0 <= i < |a.targets| && (FromSource(prices, a.targets[i]) || a.targets[i] in deleted))
    && id in prices && prices[id].source == Legacy && IsSeed(aliases, id, prices[id])
  }

  predicate Shadow(f: Fetch, prices: Prices, deleted: set<ID>, id: ID) {
    exists i :: 0 <= i < |f.aliases| && Shadows(f.aliases[i], f.aliases, prices, deleted, id)
  }

  function Unshadowed(f: Fetch, prices: Prices, deleted: set<ID>): Prices {
    map id | id in prices && !Shadow(f, prices, deleted, id) :: prices[id]
  }

  /** The catalog after a synchronisation. */
  function Synced(f: Fetch, prices: Prices, deleted: set<ID>): Prices {
    Unshadowed(f, Merged(f, prices, deleted), deleted)
  }

  // ------------------------------------------------------------------------------------- properties

  /** What the sources that answered offer for an ID: LiteLLM's row, or else the fallback's. */
  function Offered(f: Fetch, id: ID): set<Price> {
    if f.liteOK && id in f.lite then {f.lite[id]}
    else if f.fallbackOK && id in f.fallback then {f.fallback[id]}
    else {}
  }

  /** The prices are those of an automatic alias for this ID, by its own name or as a target. */
  ghost predicate Seeded(f: Fetch, id: ID, row: Price) {
    exists a :: a in f.aliases && id != BLANK && (id == a.id || id in a.targets) && row.values in a.seed
  }

  /** There is no tombstone, and no row that stands against a new one. */
  ghost predicate Vacant(f: Fetch, prices: Prices, deleted: set<ID>, id: ID) {
    && id !in deleted
    && (id in prices ==>
          var row := prices[id];
          && row.source != Manual && row.source != OfAlias && (row.source == LiteLLM ==> f.liteOK)
          && (row.source == Legacy ==>
                || Seeded(f, id, row)
                || (id in f.lite && f.lite[id].values == row.values)
                || (id in f.fallback && f.fallback[id].values == row.values)))
  }

  /** A row under the name of an automatic alias with another target, which is priced by a source or deleted. */
  ghost predicate Hides(f: Fetch, after: Prices, deleted: set<ID>, id: ID) {
    exists a, t :: a in f.aliases && a.id == id != BLANK && id !in a.targets && t in a.targets
      && (t in deleted || (t in after && (after[t].source == LiteLLM || after[t].source == ModelsDev)))
  }

  lemma {:induction false} SeededExactly(f: Fetch, id: ID, row: Price)
    ensures Seeded(f, id, row) <==> IsSeed(f.aliases, id, row)
  {
    if Seeded(f, id, row) {
      var a :| a in f.aliases && id != BLANK && (id == a.id || id in a.targets) && row.values in a.seed;
      var i :| 0 <= i < |f.aliases| && f.aliases[i] == a;
    }
  }

  /** Where an ID is vacant and a source that answered knows it, its row is the one offered. */
  lemma {:induction false} OfferedFills(f: Fetch, prices: Prices, deleted: set<ID>, id: ID)
    requires Sourced(f) && Vacant(f, prices, deleted, id) && Offered(f, id) != {}
    ensures id in Synced(f, prices, deleted) && Synced(f, prices, deleted)[id] in Offered(f, id)
  {
    if id in prices { SeededExactly(f, id, prices[id]); }
  }

  /**
   Everywhere else the row from before stays, marked stale where its source no longer confirms it, unless it
   is of unknown origin, has an automatic alias's prices and hides a target; and no row is made.
   */
  lemma {:induction false} OthersStayExactly(f: Fetch, prices: Prices, deleted: set<ID>, id: ID)
    requires Sourced(f) && (!Vacant(f, prices, deleted, id) || Offered(f, id) == {})
    ensures
      var after := Synced(f, prices, deleted);
      && (id in after <==>
            id in prices && !(prices[id].source == Legacy && Seeded(f, id, prices[id]) && Hides(f, after, deleted, id)))
      && (id in after ==>
            var row := prices[id];
            after[id] ==
            if (row.source == LiteLLM && !(f.liteOK && id in f.lite))
               || (row.source == ModelsDev && !(f.fallbackOK && id in f.fallback))
            then row.(status := Stale) else row)
  {
    if id in prices { SeededExactly(f, id, prices[id]); }
    var merged := Merged(f, prices, deleted);
    assert !Takes(f, prices, deleted, id);
    assert id in merged <==> id in prices;
    if id in merged {
      assert merged[id] == Marked(f, id, prices[id]);
      SeededExactly(f, id, merged[id]);
      HidesExactly(f, merged, deleted, id);
    }
  }

  lemma {:induction false} HidesExactly(f: Fetch, merged: Prices, deleted: set<ID>, id: ID)
    requires id in merged
    ensures
      var after := Unshadowed(f, merged, deleted);
      id !in after <==> merged[id].source == Legacy && Seeded(f, id, merged[id]) && Hides(f, after, deleted, id)
  {
    var after := Unshadowed(f, merged, deleted);
    SeededExactly(f, id, merged[id]);
    assert forall t :: FromSource(merged, t) <==> FromSource(after, t);
    if Hides(f, after, deleted, id) && merged[id].source == Legacy && Seeded(f, id, merged[id]) {
      var a, t :| a in f.aliases && a.id == id != BLANK && id !in a.targets && t in a.targets
        && (t in deleted || (t in after && (after[t].source == LiteLLM || after[t].source == ModelsDev)));
      var i :| 0 <= i < |f.aliases| && f.aliases[i] == a;
      var j :| 0 <= j < |a.targets| && a.targets[j] == t;
      assert FromSource(merged, t) <==> FromSource(after, t);
      assert Shadows(f.aliases[i], f.aliases, merged, deleted, id);
    }
    if id !in after {
      var i :| 0 <= i < |f.aliases| && Shadows(f.aliases[i], f.aliases, merged, deleted, id);
      var a := f.aliases[i];
      var j :| 0 <= j < |a.targets| && (FromSource(merged, a.targets[j]) || a.targets[j] in deleted);
      assert FromSource(merged, a.targets[j]) <==> FromSource(after, a.targets[j]);
      assert a in f.aliases && a.targets[j] in a.targets;
    }
  }

  /** An operator's rows and an alias's rows come through unchanged, and none is made. */
  lemma {:induction false} ProtectedRows(f: Fetch, prices: Prices, deleted: set<ID>, id: ID)
    requires Sourced(f)
    ensures
      var after := Synced(f, prices, deleted);
      var owned := (p: Prices) => id in p && (p[id].source == Manual || p[id].source == OfAlias);
      (owned(prices) || owned(after)) ==> id in prices && id in after && after[id] == prices[id]
  {
  }

  /** While LiteLLM fails, its rows keep their prices; they are only marked stale. */
  lemma {:induction false} FailedSourceKeepsRows(f: Fetch, prices: Prices, deleted: set<ID>, id: ID)
    requires !f.liteOK && id in prices && prices[id].source == LiteLLM
    ensures id in Synced(f, prices, deleted) && Synced(f, prices, deleted)[id] == prices[id].(status := Stale)
  {
  }

  /** A working LiteLLM decides every ID it knows that is neither deleted nor protected; and the fallback's rows are
      there only for IDs that a working LiteLLM does not know, or that were there before. */
  lemma {:induction false} Precedence(f: Fetch, prices: Prices, deleted: set<ID>, id: ID)
    requires Sourced(f) && f.liteOK && id in f.lite
    ensures
      var after := Synced(f, prices, deleted);
      && (id !in deleted && (id in prices ==> Replaceable(f, id, prices[id])) ==>
        id in after && after[id] == f.lite[id])
      && (id in after && after[id].source == ModelsDev ==> id in deleted)
  {
  }

  /** Priced IDs and tombstones stay apart. */
  lemma {:induction false} SyncedDisjoint(f: Fetch, prices: Prices, deleted: set<ID>)
    requires prices.Keys !! deleted
    ensures Synced(f, prices, deleted).Keys !! deleted
  {
  }

  lemma {:induction false} MergedAgain(f: Fetch, prices: Prices, deleted: set<ID>, id: ID)
    requires Sourced(f)
    ensures
      var after := Synced(f, prices, deleted);
      && (id in Merged(f, after, deleted) <==> id in after)
      && (id in after ==> Merged(f, after, deleted)[id] == after[id])
  {
    var after, merged := Synced(f, prices, deleted), Merged(f, prices, deleted);
    if id in merged && id !in after {
      var i :| 0 <= i < |f.aliases| && Shadows(f.aliases[i], f.aliases, merged, deleted, id);
    }
  }

  /** Fewer rows make no new shadows. */
  lemma {:induction false} FewerShadows(a: AutoAlias, aliases: seq<AutoAlias>, fewer: Prices, prices: Prices,
          deleted: set<ID>, id: ID)
    requires forall i :: i in fewer ==> i in prices && fewer[i] == prices[i]
    ensures Shadows(a, aliases, fewer, deleted, id) ==> Shadows(a, aliases, prices, deleted, id)
  {
    assert forall t :: FromSource(fewer, t) ==> FromSource(prices, t);
  }

  lemma {:induction false} NoShadowLeft(f: Fetch, prices: Prices, deleted: set<ID>, id: ID)
    requires id in Unshadowed(f, prices, deleted)
    ensures !Shadow(f, Unshadowed(f, prices, deleted), deleted, id)
  {
    var after := Unshadowed(f, prices, deleted);
    forall i | 0 <= i < |f.aliases| ensures !Shadows(f.aliases[i], f.aliases, after, deleted, id) {
      FewerShadows(f.aliases[i], f.aliases, after, prices, deleted, id);
    }
  }

  /** The same synchronisation again changes nothing. */
  lemma {:induction false} SyncIdempotent(f: Fetch, prices: Prices, deleted: set<ID>)
    requires Sourced(f)
    ensures Synced(f, Synced(f, prices, deleted), deleted) == Synced(f, prices, deleted)
  {
    var after := Synced(f, prices, deleted);
    forall id
      ensures id in Merged(f, after, deleted) <==> id in after
      ensures id in after ==> Merged(f, after, deleted)[id] == after[id]
    {
      MergedAgain(f, prices, deleted, id);
    }
    assert Merged(f, after, deleted) == after;
    forall id | id in after ensures !Shadow(f, after, deleted, id) {
      NoShadowLeft(f, Merged(f, prices, deleted), deleted, id);
    }
  }

  // ---------------------------------------------------------------------------------- the operations

  function Rank(p: Provider): nat {
    if p < UNRANKED then p else UNRANKED
  }

  /** Puts one row: always if forced, else only where nothing protected or better stands. */
  function Put(prices: Prices, id: ID, price: Price, force: bool): Prices {
    if id == BLANK || (!force && !price.priced && price.status == Stale) || price.negative then prices
    else if id !in prices || force then prices[id := price]
    else
      var existing := prices[id];
      if existing.source == Manual || existing.source == OfAlias || existing.source == Legacy then prices
      else if existing.source == LiteLLM && price.source == ModelsDev then prices
      else if existing.provider == price.provider || Rank(price.provider) < Rank(existing.provider)
      then prices[id := price]
      else prices
  }

  /** An alias as configured: its own ID first, then its targets', each with the provider to record. */
  datatype AliasPricing = AliasPricing(
    entries: seq<(ID, Provider)>, manual: bool, tokens: bool, values: nat, negative: bool, details: nat)

  function RowFor(a: AliasPricing, provider: Provider): Price {
    Price(a.values, true, a.negative, provider, if a.manual then OfAlias else Legacy, Priced, a.details)
  }

  datatype Book = Book(prices: Prices, deleted: set<ID>)

  /** A manual alias lifts the tombstone and takes the row; an automatic one respects both. */
  function PutEntry(book: Book, a: AliasPricing, entry: (ID, Provider)): Book {
    if entry.0 == BLANK then book
    else if a.manual then Book(Put(book.prices, entry.0, RowFor(a, entry.1), true), book.deleted - {entry.0})
    else if entry.0 in book.deleted then book
    else book.(prices := Put(book.prices, entry.0, RowFor(a, entry.1), false))
  }

  function PutEntries(book: Book, a: AliasPricing, n: nat): Book
    requires n <= |a.entries|
  {
    if n == 0 then book else PutEntry(PutEntries(book, a, n - 1), a, a.entries[n - 1])
  }

  /** Rows an alias no longer owns are dropped; so are its own if it has become automatic. */
  function Released(prices: Prices, owners: set<ID>, a: AliasPricing): Prices {
    map id | id in prices
             && !(prices[id].source == OfAlias && id !in owners)
             && !(a.tokens && !a.manual && prices[id].source == OfAlias && prices[id].values == a.values
                  && exists i :: 0 <= i < |a.entries| && a.entries[i].0 == id)
    :: prices[id]
  }

  datatype Op =
    | Sync(f: Fetch)
    | Upsert(id: ID, price: Price)
    | Delete(id: ID)
    | Restore(id: ID)
    | Alias(owners: set<ID>, a: AliasPricing)

  function Applied(book: Book, op: Op): Book {
    match op
    case Sync(f) => book.(prices := Synced(f, book.prices, book.deleted))
    case Upsert(id, price) =>
      if id == BLANK || price.negative then book
      else Book(book.prices[id := price.(source := Manual, status := Priced)], book.deleted - {id})
    case Delete(id) => if id in book.prices && id != BLANK then Book(book.prices - {id}, book.deleted + {id}) else book
    case Restore(id) => if id == BLANK then book else Book(book.prices - {id}, book.deleted - {id})
    case Alias(owners, a) =>
      var released := book.(prices := Released(book.prices, owners, a));
      if a.tokens then PutEntries(released, a, |a.entries|) else released
  }

  predicate Apart(book: Book) {
    book.prices.Keys !! book.deleted
  }

  lemma {:induction false} PutEntriesApart(book: Book, a: AliasPricing, n: nat)
    requires Apart(book) && n <= |a.entries|
    ensures Apart(PutEntries(book, a, n))
  {
    if n > 0 { PutEntriesApart(book, a, n - 1); }
  }

  lemma {:induction false} StepApart(book: Book, op: Op)
    requires Apart(book)
    ensures Apart(Applied(book, op))
  {
    match op {
      case Sync(f) => SyncedDisjoint(f, book.prices, book.deleted);
      case Alias(owners, a) =>
        var released := book.(prices := Released(book.prices, owners, a));
        assert Apart(released);
        PutEntriesApart(released, a, |a.entries|);
      case _ =>
    }
  }

  function RunOps(book: Book, ops: seq<Op>): Book {
    if ops == [] then book else Applied(RunOps(book, ops[..|ops| - 1]), ops[|ops| - 1])
  }

  /** In every run, an ID is never both priced and deleted. */
  lemma {:induction false} RunApart(book: Book, ops: seq<Op>)
    requires Apart(book)
    ensures Apart(RunOps(book, ops))
  {
    if ops != [] {
      RunApart(book, ops[..|ops| - 1]);
      StepApart(RunOps(book, ops[..|ops| - 1]), ops[|ops| - 1]);
    }
  }

  // ---- what runs keep

  /** The operation is about this ID: by name, or as an alias with token prices that lists it. */
  predicate Lists(a: AliasPricing, id: ID) {
    a.tokens && exists i :: 0 <= i < |a.entries| && a.entries[i].0 == id
  }

  predicate Names(op: Op, id: ID) {
    match op
    case Sync(_) => false
    case Upsert(i, _) => i == id
    case Delete(i) => i == id
    case Restore(i) => i == id
    case Alias(_, a) => Lists(a, id)
  }

  /** What may change an operator's row: the operator, and a manual alias that lists it. */
  predicate Overrides(op: Op, id: ID) {
    Names(op, id) && (op.Alias? ==> op.a.manual)
  }

  ghost predicate AllSourced(ops: seq<Op>) {
    forall i :: 0 <= i < |ops| && ops[i].Sync? ==> Sourced(ops[i].f)
  }

  /** An alias that does not list an ID, or an automatic one that meets an operator's row there, leaves the row. */
  lemma {:induction false} EntriesKeep(book: Book, a: AliasPricing, n: nat, id: ID)
    requires n <= |a.entries| && id in book.prices
    requires (forall i :: 0 <= i < n ==> a.entries[i].0 != id) || (!a.manual && book.prices[id].source == Manual)
    ensures id in PutEntries(book, a, n).prices && PutEntries(book, a, n).prices[id] == book.prices[id]
  {
    if n > 0 { EntriesKeep(book, a, n - 1, id); }
  }

  lemma {:induction false} AliasKeeps(book: Book, owners: set<ID>, a: AliasPricing, id: ID)
    requires id in book.prices && book.prices[id].source != OfAlias
    requires !Lists(a, id) || (!a.manual && book.prices[id].source == Manual)
    ensures
      var after := Applied(book, Alias(owners, a)).prices;
      id in after && after[id] == book.prices[id]
  {
    var released := book.(prices := Released(book.prices, owners, a));
    assert id in released.prices && released.prices[id] == book.prices[id];
    if a.tokens { EntriesKeep(released, a, |a.entries|, id); }
  }

  lemma {:induction false} ManualRowsKept(book: Book, op: Op, id: ID)
    requires id in book.prices && book.prices[id].source == Manual
    requires (op.Sync? ==> Sourced(op.f)) && !Overrides(op, id)
    ensures id in Applied(book, op).prices && Applied(book, op).prices[id] == book.prices[id]
  {
    match op {
      case Sync(f) => ProtectedRows(f, book.prices, book.deleted, id);
      case Alias(owners, a) => AliasKeeps(book, owners, a, id);
      case _ =>
    }
  }

  /** In every run an operator's row stays exactly as it is until the operator or a manual alias names it. */
  lemma {:induction false} RunKeepsManual(book: Book, ops: seq<Op>, id: ID)
    requires id in book.prices && book.prices[id].source == Manual && AllSourced(ops)
    requires forall i :: 0 <= i < |ops| ==> !Overrides(ops[i], id)
    ensures id in RunOps(book, ops).prices && RunOps(book, ops).prices[id] == book.prices[id]
  {
    if ops != [] {
      RunKeepsManual(book, ops[..|ops| - 1], id);
      ManualRowsKept(RunOps(book, ops[..|ops| - 1]), ops[|ops| - 1], id);
    }
  }

  /** Every synchronisation of the run finds LiteLLM unreachable. */
  predicate Outage(ops: seq<Op>) {
    forall i :: 0 <= i < |ops| && ops[i].Sync? ==> !ops[i].f.liteOK
  }

  predicate Synchronises(ops: seq<Op>) {
    exists i :: 0 <= i < |ops| && ops[i].Sync?
  }

  /**
   Through any run in which LiteLLM stays unreachable its row keeps everything but, after the first attempt,
   the status.
   */
  lemma {:induction false} OutageKeepsRows(book: Book, ops: seq<Op>, id: ID)
    requires id in book.prices && book.prices[id].source == LiteLLM && Outage(ops)
    requires forall i :: 0 <= i < |ops| ==> !Names(ops[i], id)
    ensures
      var after := RunOps(book, ops).prices;
      id in after && after[id] == if Synchronises(ops) then book.prices[id].(status := Stale) else book.prices[id]
  {
    if ops != [] {
      var front, last := ops[..|ops| - 1], ops[|ops| - 1];
      OutageKeepsRows(book, front, id);
      var before := RunOps(book, front);
      assert ops == front + [last];
      assert Synchronises(ops) <==> Synchronises(front) || last.Sync? by {
        if last.Sync? { assert ops[|front|].Sync?; }
        if Synchronises(front) { var i :| 0 <= i < |front| && front[i].Sync?; assert ops[i].Sync?; }
      }
      match last {
        case Sync(f) => FailedSourceKeepsRows(f, before.prices, before.deleted, id);
        case Alias(owners, a) => AliasKeeps(before, owners, a, id);
        case _ =>
      }
    }
  }

  /**
   After any run from a catalog whose priced and deleted IDs are apart, a synchronisation that reaches
   LiteLLM gives each ID it knows its row, unless the ID is deleted or protected, and never leaves such an
   ID to the fallback. The row then lasts through any run in which LiteLLM is out of reach.
   */
  lemma {:induction false} RunPrecedence(book: Book, ops: seq<Op>, f: Fetch, later: seq<Op>, id: ID)
    requires Apart(book) && Sourced(f) && f.liteOK && id in f.lite
    requires Outage(later) && forall i :: 0 <= i < |later| ==> !Names(later[i], id)
    ensures
      var before := RunOps(book, ops);
      var synced := Applied(before, Sync(f));
      var after := RunOps(synced, later).prices;
      && (id in synced.prices ==> synced.prices[id].source != ModelsDev)
      && (id !in before.deleted && (id in before.prices ==> Replaceable(f, id, before.prices[id])) ==>
            && id in synced.prices && synced.prices[id] == f.lite[id]
            && id in after && after[id] == if Synchronises(later) then f.lite[id].(status := Stale) else f.lite[id])
  {
    var before := RunOps(book, ops);
    RunApart(book, ops);
    Precedence(f, before.prices, before.deleted, id);
    StepApart(before, Sync(f));
    if id !in before.deleted && (id in before.prices ==> Replaceable(f, id, before.prices[id])) {
      OutageKeepsRows(Applied(before, Sync(f)), later, id);
    }
  }

  // ---- what an alias update does to one ID

  function RowAt(prices: Prices, id: ID): Option<Price> {
    if id in prices then Some(prices[id]) else None
  }

  /** The providers that an alias's first n entries list for an ID. */
  function Providers(a: AliasPricing, n: nat, id: ID): (r: seq<Provider>)
    requires n <= |a.entries|
    ensures r != [] <==> exists i :: 0 <= i < n && a.entries[i].0 == id
  {
    if n == 0 then []
    else Providers(a, n - 1, id) + if a.entries[n - 1].0 == id then [a.entries[n - 1].1] else []
  }

  /** A provider whose row may replace a synchronised one: the same, or one preferred to it. */
  predicate Preferred(p: Provider, existing: Provider) {
    p == existing || (p < UNRANKED && p < existing)
  }

  function FirstPreferred(listed: seq<Provider>, existing: Provider): Option<Provider> {
    if listed == [] then None
    else
      var earlier, last := FirstPreferred(listed[..|listed| - 1], existing), listed[|listed| - 1];
      if earlier == None && Preferred(last, existing) then Some(last) else earlier
  }

  /** The row of an alias: an operator's is its own, an automatic one's has no known origin. */
  function AliasRow(a: AliasPricing, p: Provider): Option<Price> {
    Some(Price(a.values, true, false, p, if a.manual then OfAlias else Legacy, Priced, a.details))
  }

  /**
   The row under an ID once the alias has been put there for the listed providers: the last one's if the alias is the
   operator's; else the first one's where there was none, the first preferred one's where a source's row stood, and
   no other.
   */
  function Gives(row: Option<Price>, a: AliasPricing, listed: seq<Provider>): Option<Price> {
    if listed == [] then row
    else if a.manual then AliasRow(a, listed[|listed| - 1])
    else if row == None then AliasRow(a, listed[0])
    else if row.value.source != LiteLLM && row.value.source != ModelsDev then row
    else
      match FirstPreferred(listed, row.value.provider)
      case None => row
      case Some(p) => AliasRow(a, p)
  }

  /** The row that the update leaves for its own: none if its alias gave it up, or if this alias was the operator's. */
  function Standing(prices: Prices, owners: set<ID>, a: AliasPricing, id: ID): Option<Price> {
    if id in prices && prices[id].source == OfAlias
       && (id !in owners || (Lists(a, id) && !a.manual && prices[id].values == a.values))
    then None else RowAt(prices, id)
  }

  lemma {:induction false} PutsGive(book: Book, a: AliasPricing, n: nat, id: ID)
    requires n <= |a.entries|
    ensures
      var after := PutEntries(book, a, n);
      var open := id != BLANK && (a.manual || id !in book.deleted);
      && RowAt(after.prices, id) ==
         (if open && !a.negative then Gives(RowAt(book.prices, id), a, Providers(a, n, id)) else RowAt(book.prices, id))
      && (id in after.deleted <==> id in book.deleted && !(open && Providers(a, n, id) != []))
  {
    if n > 0 {
      PutsGive(book, a, n - 1, id);
      GivesNext(RowAt(book.prices, id), a, Providers(a, n - 1, id), a.entries[n - 1].1);
      PutGives(PutEntries(book, a, n - 1), a, a.entries[n - 1]);
      assert Providers(a, n - 1, id) + [] == Providers(a, n - 1, id);
      hide Gives, FirstPreferred, Put;
    }
  }

  lemma {:induction false} PutGives(book: Book, a: AliasPricing, entry: (ID, Provider))
    ensures
      var after, (id, p), before := PutEntry(book, a, entry), entry, RowAt(book.prices, entry.0);
      && RowAt(after.prices, id) ==
         (if id == BLANK || a.negative || (!a.manual && id in book.deleted) then before
          else if a.manual || before == None
            || (before.value.source in {LiteLLM, ModelsDev} && Preferred(p, before.value.provider))
          then AliasRow(a, p) else before)
      && (id in after.deleted <==> id in book.deleted && (id == BLANK || !a.manual))
      && (forall other :: other != id ==> RowAt(after.prices, other) == RowAt(book.prices, other))
      && (forall other :: other != id ==> (other in after.deleted <==> other in book.deleted))
  {
  }

  /** One more put, on top of what the earlier ones gave. */
  lemma {:induction false} GivesNext(row: Option<Price>, a: AliasPricing, listed: seq<Provider>, p: Provider)
    ensures
      var before := Gives(row, a, listed);
      Gives(row, a, listed + [p]) ==
        if a.manual || before == None
           || (before.value.source in {LiteLLM, ModelsDev} && Preferred(p, before.value.provider))
        then AliasRow(a, p) else before
  {
    assert (listed + [p])[..|listed|] == listed;
    if row.Some? {
      assert FirstPreferred(listed + [p], row.value.provider) ==
        if FirstPreferred(listed, row.value.provider) == None && Preferred(p, row.value.provider) then Some(p)
        else FirstPreferred(listed, row.value.provider);
    }
  }

  /** Row and tombstone of every ID after an alias update. */
  lemma {:induction false} AliasExactly(book: Book, owners: set<ID>, a: AliasPricing, id: ID)
    ensures
      var after, standing := Applied(book, Alias(owners, a)), Standing(book.prices, owners, a, id);
      var open := Lists(a, id) && id != BLANK && (a.manual || id !in book.deleted);
      && RowAt(after.prices, id) ==
         (if open && !a.negative then Gives(standing, a, Providers(a, |a.entries|, id)) else standing)
      && (id in after.deleted <==> id in book.deleted && !open)
  {
    var released := book.(prices := Released(book.prices, owners, a));
    assert RowAt(released.prices, id) == Standing(book.prices, owners, a, id);
    if a.tokens { PutsGive(released, a, |a.entries|, id); }
  }

  // ---- what an operator does lasts

  /** What may bring a deleted ID back: the operator, and a manual alias that lists it. */
  predicate Revives(op: Op, id: ID) {
    Names(op, id) && !op.Delete? && (op.Alias? ==> op.a.manual)
  }

  /** A deleted ID stays without a row through any run until the operator or a manual alias brings it back. */
  lemma {:induction false} DeletedStays(book: Book, ops: seq<Op>, id: ID)
    requires Apart(book) && id in book.prices && id != BLANK
    requires forall i :: 0 <= i < |ops| ==> !Revives(ops[i], id)
    ensures
      var after := RunOps(Applied(book, Delete(id)), ops);
      id in after.deleted && id !in after.prices
  {
    StepApart(book, Delete(id));
    TombstoneStays(Applied(book, Delete(id)), ops, id);
    RunApart(Applied(book, Delete(id)), ops);
  }

  lemma {:induction false} TombstoneStays(book: Book, ops: seq<Op>, id: ID)
    requires id in book.deleted && forall i :: 0 <= i < |ops| ==> !Revives(ops[i], id)
    ensures id in RunOps(book, ops).deleted
  {
    if ops != [] {
      var before, last := RunOps(book, ops[..|ops| - 1]), ops[|ops| - 1];
      TombstoneStays(book, ops[..|ops| - 1], id);
      if last.Alias? { AliasExactly(before, last.owners, last.a, id); }
    }
  }

  /** A price the operator sets is there, as set, through any run until the operator or a manual alias names it. */
  lemma {:induction false} UpsertedStays(book: Book, ops: seq<Op>, id: ID, price: Price)
    requires id != BLANK && !price.negative && AllSourced(ops)
    requires forall i :: 0 <= i < |ops| ==> !Overrides(ops[i], id)
    ensures
      var row := RowAt(RunOps(Applied(book, Upsert(id, price)), ops).prices, id);
      && row.Some? && row.value.source == Manual && row.value.status == Priced
      && row.value.(source := price.source, status := price.status) == price
  {
    RunKeepsManual(Applied(book, Upsert(id, price)), ops, id);
  }

  /** Other IDs keep row and tombstone when the operator sets, deletes or restores one. */
  lemma {:induction false} OthersKept(book: Book, op: Op, id: ID)
    requires !op.Sync? && !op.Alias? && !Names(op, id)
    ensures RowAt(Applied(book, op).prices, id) == RowAt(book.prices, id)
    ensures id in Applied(book, op).deleted <==> id in book.deleted
  {
  }

  /** A restored ID has neither row nor tombstone, so that the next synchronisation gives it the row on offer. */
  lemma {:induction false} RestoredIsOffered(book: Book, f: Fetch, id: ID)
    requires Sourced(f) && id != BLANK
    ensures
      var restored := Applied(book, Restore(id));
      && id !in restored.prices && id !in restored.deleted
      && (Offered(f, id) != {} ==>
            var after := Applied(restored, Sync(f)).prices;
            id in after && after[id] in Offered(f, id))
      && (Offered(f, id) == {} ==> id !in Applied(restored, Sync(f)).prices)
  {
    var restored := Applied(book, Restore(id));
    if Offered(f, id) != {} {
      OfferedFills(f, restored.prices, restored.deleted, id);
    } else {
      OthersStayExactly(f, restored.prices, restored.deleted, id);
    }
  }

  /** An operator's alias keeps its row through any run that does not name the ID while the alias owns it. */
  lemma {:induction false} AliasRowStays(book: Book, ops: seq<Op>, id: ID)
    requires id in book.prices && book.prices[id].source == OfAlias && AllSourced(ops)
    requires forall i :: 0 <= i < |ops| ==> !Names(ops[i], id) && (ops[i].Alias? ==> id in ops[i].owners)
    ensures RowAt(RunOps(book, ops).prices, id) == RowAt(book.prices, id)
  {
    if ops != [] {
      var before, last := RunOps(book, ops[..|ops| - 1]), ops[|ops| - 1];
      AliasRowStays(book, ops[..|ops| - 1], id);
      match last {
        case Sync(f) => ProtectedRows(f, before.prices, before.deleted, id);
        case Alias(owners, a) => AliasExactly(before, owners, a, id);
        case _ => OthersKept(before, last, id);
      }
    }
  }
}
