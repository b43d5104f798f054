/**
 The usage ledger: dollars, calls and tokens per account, in a UTC-day window and a seven-day
 window, with the same two windows again for every model alias. Windows are rolled when they are
 written; a read projects the roll without storing it.
 */
module Ledger {
  import opened Options

  const DAY := 86400
  const WEEK := 7 * DAY

  /** Native accounts are those of a host key's caller scope; scope 0 stands for a malformed one. */
  datatype LedgerID = Native(scope: nat) | Key(name: string)

  predicate IsNative(id: LedgerID) {
    id.Native? && id.scope != 0
  }

  /** What one record adds to a window. Dollar amounts are in integer micro-units. */
  datatype Bill = Bill(usd: int, calls: int, cacheRead: int, cacheCost: int, cacheWrite: int, cacheWriteCost: int,
                       input: int, output: int)

  const NOTHING := Bill(0, 0, 0, 0, 0, 0, 0, 0)

  function Plus(a: Bill, b: Bill): Bill {
    Bill(a.usd + b.usd, a.calls + b.calls, a.cacheRead + b.cacheRead, a.cacheCost + b.cacheCost,
         a.cacheWrite + b.cacheWrite, a.cacheWriteCost + b.cacheWriteCost, a.input + b.input, a.output + b.output)
  }

  datatype Counter = Usd | Calls | CacheRead | CacheCost | CacheWrite | CacheWriteCost | Input | Output

  function Value(b: Bill, c: Counter): int {
    match c
    case Usd => b.usd
    case Calls => b.calls
    case CacheRead => b.cacheRead
    case CacheCost => b.cacheCost
    case CacheWrite => b.cacheWrite
    case CacheWriteCost => b.cacheWriteCost
    case Input => b.input
    case Output => b.output
  }

  function Positive(n: int): nat {
    if n > 0 then n else 0
  }

  /** The account windows leave out negative cache and token counts; the alias windows do not. */
  function Clamped(b: Bill): Bill {
    Bill(b.usd, b.calls, Positive(b.cacheRead), Positive(b.cacheCost), Positive(b.cacheWrite),
         Positive(b.cacheWriteCost), Positive(b.input), Positive(b.output))
  }

  datatype Window = Window(start: Option<int>, total: Bill)

  const UNUSED := Window(None, NOTHING)

  datatype AliasWindows = AliasWindows(daily: Window, weekly: Window)

  datatype Account = Account(daily: Window, weekly: Window, anchor: Option<int>, byAlias: map<string, AliasWindows>)

  const EMPTY := Account(UNUSED, UNUSED, None, map[])

  function StartOfDay(now: int): int {
    now / DAY * DAY
  }

  /** Start of the seven-day period, counted from the anchor, that contains now. */
  function FixedStart(anchor: int, now: int): int {
    if now < anchor then anchor else anchor + (now - anchor) / WEEK * WEEK
  }

  /** Never moves a window back. */
  function Advanced(w: Window, start: int): Window {
    if w.start.None? || w.start.value < start then Window(Some(start), NOTHING) else w
  }

  function RolledDaily(w: Window, now: int): Window {
    if w.start.None? || w.start.value / DAY != now / DAY then Window(Some(StartOfDay(now)), NOTHING) else w
  }

  /** A window opened by its first use and good for seven days. */
  function RolledFromUse(w: Window, now: int): Window {
    if w.start.None? || now - w.start.value >= WEEK then Window(Some(now), NOTHING) else w
  }

  function RolledWeekly(w: Window, now: int, anchor: Option<int>): Window {
    if anchor.Some? then Advanced(w, FixedStart(anchor.value, now)) else RolledFromUse(w, now)
  }

  /** The anchor counts only for native accounts. */
  function AnchorOf(id: LedgerID, account: Account): Option<int> {
    if IsNative(id) then account.anchor else None
  }

  function WithBill(w: Window, bill: Bill): Window {
    Window(w.start, Plus(w.total, bill))
  }

  function AliasEntry(account: Account, alias: string): AliasWindows {
    if alias in account.byAlias then account.byAlias[alias] else AliasWindows(UNUSED, UNUSED)
  }

  /** An alias's weekly window follows the account's where the account is anchored. */
  function RolledAliasWeekly(w: Window, accountWeekly: Window, now: int, anchor: Option<int>): Window {
    if anchor.Some? && accountWeekly.start.Some? then Advanced(w, accountWeekly.start.value) else RolledFromUse(w, now)
  }

  /** The account after a record. */
  function Charge(account: Account, anchor: Option<int>, alias: string, bill: Bill, now: int): Account {
    var daily := RolledDaily(account.daily, now);
    var weekly := RolledWeekly(account.weekly, now, anchor);
    var entry := AliasEntry(account, alias);
    Account(
      WithBill(daily, Clamped(bill)),
      WithBill(weekly, Clamped(bill)),
      account.anchor,
      account.byAlias[alias := AliasWindows(WithBill(RolledDaily(entry.daily, now), bill),
                                            WithBill(RolledAliasWeekly(entry.weekly, weekly, now, anchor), bill))])
  }

  /** The account after a quota reset. */
  function ResetAccount(resetAt: int): Account {
    Account(Window(Some(StartOfDay(resetAt)), NOTHING), Window(Some(resetAt), NOTHING), Some(resetAt), map[])
  }

  /** What a read of the account at some moment reports. The report has no output-token counters. */
  datatype UsageSummary = UsageSummary(daily: Bill, weekly: Bill, dailyResetAt: int, weeklyResetAt: Option<int>)

  function Shown(b: Bill): Bill {
    b.(output := 0)
  }

  /** An unanchored native account whose period is over has no deadline until it is used again. */
  predicate WithoutPeriod(id: LedgerID, account: Account, now: int) {
    && IsNative(id) && account.anchor.None?
    && (account.weekly.start.None? || now - account.weekly.start.value >= WEEK)
  }

  function SummaryOf(id: LedgerID, account: Account, now: int): UsageSummary {
    var weekly := RolledWeekly(account.weekly, now, AnchorOf(id, account));
    UsageSummary(
      Shown(RolledDaily(account.daily, now).total),
      Shown(weekly.total),
      StartOfDay(now) + DAY,
      if weekly.start.Some? && !WithoutPeriod(id, account, now) then Some(weekly.start.value + WEEK) else None)
  }

  /** The per-alias rows of a read. */
  function AliasRows(id: LedgerID, account: Account, now: int): map<string, AliasWindows> {
    var anchor := AnchorOf(id, account);
    var weekly := RolledWeekly(account.weekly, now, anchor);
    map alias | alias in account.byAlias ::
      AliasWindows(RolledDaily(account.byAlias[alias].daily, now),
                   RolledAliasWeekly(account.byAlias[alias].weekly, weekly, now, anchor))
  }

  datatype Limit = Within | OverDaily | OverWeekly

  class UsageLedger {
    var entries: map<LedgerID, Account>

    constructor ()
      ensures entries == map[]
    {
      entries := map[];
    }

    function AccountOf(id: LedgerID): (a: Account)
      reads this
      ensures id in entries ==> a == entries[id]
      ensures id !in entries ==> a == EMPTY
    {
      if id in entries then entries[id] else EMPTY
    }

    method RecordCost(id: LedgerID, alias: string, bill: Bill, now: int)
      modifies this
      ensures id == Key("") ==> entries == old(entries)
      ensures id != Key("") ==>
        entries == old(entries)[id := Charge(old(AccountOf(id)), AnchorOf(id, old(AccountOf(id))), alias, bill, now)]
    {
      if id == Key("") {
        return;
      }
      var account := AccountOf(id);
      var anchor := AnchorOf(id, account);
      var daily := RolledDaily(account.daily, now);
      var weekly := RolledWeekly(account.weekly, now, anchor);
      daily, weekly := AddToAccount(daily, bill), AddToAccount(weekly, bill);
      var entry := AliasEntry(account, alias);
      var aliasDaily := RolledDaily(entry.daily, now);
      var aliasWeekly := entry.weekly;
      if anchor.None? {
        aliasWeekly := RolledFromUse(aliasWeekly, now);
      } else {
        aliasWeekly := Advanced(aliasWeekly, weekly.start.value);
      }
      entry := AliasWindows(WithBill(aliasDaily, bill), WithBill(aliasWeekly, bill));
      entries := entries[id := Account(daily, weekly, account.anchor, account.byAlias[alias := entry])];
    }

    /** Adds a bill field by field, leaving out the counters that are not positive. */
    static function AddToAccount(w: Window, bill: Bill): (r: Window)
      ensures r == WithBill(w, Clamped(bill))
    {
      var t := w.total.(usd := w.total.usd + bill.usd, calls := w.total.calls + bill.calls);
      var t := if bill.cacheRead > 0 then t.(cacheRead := t.cacheRead + bill.cacheRead) else t;
      var t := if bill.cacheCost > 0 then t.(cacheCost := t.cacheCost + bill.cacheCost) else t;
      var t := if bill.cacheWrite > 0 then t.(cacheWrite := t.cacheWrite + bill.cacheWrite) else t;
      var t := if bill.cacheWriteCost > 0 then t.(cacheWriteCost := t.cacheWriteCost + bill.cacheWriteCost) else t;
      var t := if bill.input > 0 then t.(input := t.input + bill.input) else t;
      var t := if bill.output > 0 then t.(output := t.output + bill.output) else t;
      Window(w.start, t)
    }

    method Summary(id: LedgerID, now: int) returns (r: UsageSummary)
      ensures id in entries ==> r == SummaryOf(id, entries[id], now)
      ensures id !in entries ==> r == UsageSummary(NOTHING, NOTHING, StartOfDay(now) + DAY, None)
    {
      if id !in entries {
        return UsageSummary(NOTHING, NOTHING, StartOfDay(now) + DAY, None);
      }
      var account := entries[id];
      var anchor := AnchorOf(id, account);
      var daily := RolledDaily(account.daily, now);
      var weekly := RolledWeekly(account.weekly, now, anchor);
      var legacy := IsNative(id) && anchor.None? &&
        (account.weekly.start.None? || now - account.weekly.start.value >= WEEK);
      r := UsageSummary(Shown(daily.total), Shown(weekly.total), StartOfDay(now) + DAY, None);
      if weekly.start.Some? && !legacy {
        r := r.(weeklyResetAt := Some(weekly.start.value + WEEK));
      }
    }

    method OverLimit(id: LedgerID, dailyLimit: int, weeklyLimit: int, now: int) returns (r: Limit)
      ensures r.OverDaily? <==>
        dailyLimit > 0 && RolledDaily(AccountOf(id).daily, now).total.usd >= dailyLimit
      ensures r.OverWeekly? <==>
        && !r.OverDaily? && weeklyLimit > 0
        && RolledWeekly(AccountOf(id).weekly, now, AnchorOf(id, AccountOf(id))).total.usd >= weeklyLimit
    {
      if dailyLimit <= 0 && weeklyLimit <= 0 {
        return Within;
      }
      var s := Summary(id, now);
      if dailyLimit > 0 && s.daily.usd >= dailyLimit {
        return OverDaily;
      }
      if weeklyLimit > 0 && s.weekly.usd >= weeklyLimit {
        return OverWeekly;
      }
      return Within;
    }

    /** Configured aliases without usage show unused windows; every alias with usage shows its rolled windows. */
    method AliasUsage(id: LedgerID, configured: seq<string>, now: int) returns (rows: map<string, AliasWindows>)
      ensures id in entries ==>
        forall alias :: alias in AliasRows(id, entries[id], now) ==>
          alias in rows && rows[alias] == AliasRows(id, entries[id], now)[alias]
      ensures forall alias :: alias in configured ==> alias in rows
      ensures forall alias :: alias in rows && !(id in entries && alias in entries[id].byAlias) ==>
                alias in configured && rows[alias] == AliasWindows(UNUSED, UNUSED)
    {
      rows := map[];
      for i := 0 to |configured|
        invariant forall alias :: alias in rows <==> alias in configured[..i]
        invariant forall alias :: alias in rows ==> rows[alias] == AliasWindows(UNUSED, UNUSED)
      {
        rows := rows[configured[i] := AliasWindows(UNUSED, UNUSED)];
      }
      if id !in entries {
        return;
      }
      var account := entries[id];
      var anchor := AnchorOf(id, account);
      var weekly := RolledWeekly(account.weekly, now, anchor);
      var left := account.byAlias.Keys;
      while left != {}
        invariant left <= account.byAlias.Keys
        invariant forall alias :: alias in configured ==> alias in rows
        invariant forall alias :: alias in account.byAlias && alias !in left ==>
                    alias in rows && rows[alias] == AliasRows(id, account, now)[alias]
        invariant forall alias :: alias in rows && alias !in account.byAlias ==>
                    alias in configured && rows[alias] == AliasWindows(UNUSED, UNUSED)
        decreases left
      {
        var alias :| alias in left;
        var w := account.byAlias[alias];
        var daily := RolledDaily(w.daily, now);
        var aliasWeekly :=
          if anchor.None? then RolledFromUse(w.weekly, now) else Advanced(w.weekly, weekly.start.value);
        rows := rows[alias := AliasWindows(daily, aliasWeekly)];
        left := left - {alias};
      }
    }
  }
}
