/**
 Accounts without an anchor: plugin keys, and native keys that were never reset. A week begins with a first
 use and a day with a change of date, so the windows of the account and of each alias hold the last records in
 a row, whatever the clock does.
 */
module FirstUse {
  import opened Options
  import opened Ledger
  import opened LedgerLog

  /** The record that opened the current week: a record seven days or more after it opens the next one. */
  function Opening(entries: seq<Entry>): (i: nat)
    requires entries != []
    ensures i < |entries|
  {
    if |entries| == 1 then 0
    else
      var o := Opening(entries[..|entries| - 1]);
      if entries[|entries| - 1].at - entries[o].at >= WEEK then |entries| - 1 else o
  }

  /** The first of the last records in a row that are of one UTC day. */
  function Dawn(entries: seq<Entry>): (i: nat)
    requires entries != []
    ensures i < |entries|
  {
    var last := |entries| - 1;
    if last == 0 || entries[last - 1].at / DAY != entries[last].at / DAY then last else Dawn(entries[..last])
  }

  /** The sum over the records from the i-th on. */
  function SumFrom(entries: seq<Entry>, m: Meter, i: nat): int {
    if |entries| <= i then 0
    else SumFrom(entries[..|entries| - 1], m, i) + Amount(entries[|entries| - 1].bill, m)
  }

  /** The windows are those of the records in a row. */
  predicate InARow(ws: AliasWindows, entries: seq<Entry>, m: Meter) {
    if entries == [] then ws == AliasWindows(UNUSED, UNUSED)
    else
      var o, d := Opening(entries), Dawn(entries);
      && ws.weekly.start == Some(entries[o].at)
      && Value(ws.weekly.total, m.counter) == SumFrom(entries, m, o)
      && ws.daily.start == Some(StartOfDay(entries[|entries| - 1].at))
      && Value(ws.daily.total, m.counter) == SumFrom(entries, m, d)
  }

  lemma {:induction false} SumFromNext(entries: seq<Entry>, e: Entry, m: Meter, i: nat)
    ensures i <= |entries| ==> SumFrom(entries + [e], m, i) == SumFrom(entries, m, i) + Amount(e.bill, m)
    ensures SumFrom(entries, m, |entries|) == 0
  {
    assert (entries + [e])[..|entries|] == entries;
  }

  lemma {:induction false} OpeningNext(entries: seq<Entry>, e: Entry)
    ensures Opening(entries + [e]) ==
            if entries != [] && e.at - entries[Opening(entries)].at < WEEK then Opening(entries) else |entries|
    ensures Dawn(entries + [e]) ==
            if entries != [] && entries[|entries| - 1].at / DAY == e.at / DAY then Dawn(entries) else |entries|
  {
    assert (entries + [e])[..|entries|] == entries;
  }

  /** The windows after one more record, rolled where they are over. */
  function Next(ws: AliasWindows, at: int, bill: Bill): AliasWindows {
    AliasWindows(WithBill(RolledDaily(ws.daily, at), bill), WithBill(RolledFromUse(ws.weekly, at), bill))
  }

  lemma {:induction false} NextInARow(ws: AliasWindows, entries: seq<Entry>, m: Meter, at: int, bill: Bill)
    requires InARow(ws, entries, m)
    ensures InARow(Next(ws, at, Taken(bill, m)), entries + [Entry(at, bill)], m)
  {
    var e := Entry(at, bill);
    var all := entries + [e];
    OpeningNext(entries, e);
    SumFromNext(entries, e, m, Opening(all));
    SumFromNext(entries, e, m, Dawn(all));
    TakenValue(RolledFromUse(ws.weekly, at), bill, m);
    TakenValue(RolledDaily(ws.daily, at), bill, m);
    assert all[|entries|] == e && (entries != [] ==> all[Opening(entries)] == entries[Opening(entries)]);
    hide Opening, Dawn, SumFrom, Amount, Taken;
    if entries != [] { SameDayStart(entries[|entries| - 1].at, at); }
  }

  lemma {:induction false} SameDayStart(one: int, two: int)
    ensures StartOfDay(one) / DAY == one / DAY
    ensures one / DAY == two / DAY ==> StartOfDay(one) == StartOfDay(two)
  {
  }

  /** No quota reset, which only native keys have. */
  predicate NeverReset(events: seq<Event>) {
    forall i :: 0 <= i < |events| ==> !events[i].Reset?
  }

  function WindowsOf(account: Account): AliasWindows {
    AliasWindows(account.daily, account.weekly)
  }

  /** The account and one of its aliases. */
  ghost predicate BothInARow(account: Account, whole: Log, alias: string, part: Log, c: Counter) {
    && account.anchor == None
    && InARow(WindowsOf(account), whole.entries, Meter(true, c))
    && InARow(AliasEntry(account, alias), part.entries, Meter(false, c))
    && (alias in account.byAlias <==> part.entries != [])
  }

  lemma {:induction false} ChargedInARow(account: Account, whole: Log, of: string, part: Log, c: Counter, at: int,
          alias: string, bill: Bill)
    requires BothInARow(account, whole, of, part, c)
    ensures BothInARow(Charge(account, None, alias, bill, at), whole.(entries := whole.entries + [Entry(at, bill)]), of,
                       if of == alias then part.(entries := part.entries + [Entry(at, bill)]) else part, c)
  {
    var after := Charge(account, None, alias, bill, at);
    NextInARow(WindowsOf(account), whole.entries, Meter(true, c), at, bill);
    if of == alias { NextInARow(AliasEntry(account, alias), part.entries, Meter(false, c), at, bill); }
    hide InARow;
    assert WindowsOf(after) == Next(WindowsOf(account), at, Clamped(bill));
    assert AliasEntry(after, alias) == Next(AliasEntry(account, alias), at, bill);
  }

  /** Over every run of records, saves and restarts, under any clock. */
  lemma {:induction false} RunInARow(id: LedgerID, events: seq<Event>, alias: string, c: Counter)
    requires NeverReset(events)
    ensures
      var held, whole, part := HeldAfter(id, events), LogAfter(Whole, events), LogAfter(Under(alias), events);
      && BothInARow(held.live, whole.live, alias, part.live, c)
      && BothInARow(held.disk, whole.disk, alias, part.disk, c)
  {
    if events != [] {
      var front, event := events[..|events| - 1], events[|events| - 1];
      RunInARow(id, front, alias, c);
      hide InARow;
      if event.Charged? {
        ChargedInARow(HeldAfter(id, front).live, LogAfter(Whole, front).live, alias, LogAfter(Under(alias), front).live,
          c, event.at, event.alias, event.bill);
      }
    }
  }

  // ---------------------------------------------------------------------------------- what reads say

  /** The present is still within the week that the records in a row began. */
  predicate WeekLasts(entries: seq<Entry>, now: int)
    requires entries != []
  {
    now - entries[Opening(entries)].at < WEEK
  }

  predicate DayLasts(entries: seq<Entry>, now: int)
    requires entries != []
  {
    entries[|entries| - 1].at / DAY == now / DAY
  }

  /** What two windows say at some moment: the records in a row, if that is still of their day and within their week. */
  ghost predicate SaysRow(daily: Bill, weekly: Bill, entries: seq<Entry>, m: Meter, now: int)
    requires entries != []
  {
    && Value(daily, m.counter) == (if DayLasts(entries, now) then SumFrom(entries, m, Dawn(entries)) else 0)
    && Value(weekly, m.counter) == (if WeekLasts(entries, now) then SumFrom(entries, m, Opening(entries)) else 0)
  }

  /** A report, which has no output tokens; only a plugin key has a weekly deadline once its week is over. */
  ghost predicate ShowsRow(id: LedgerID, shown: UsageSummary, entries: seq<Entry>, c: Counter, now: int)
    requires entries != []
  {
    && (if c.Output? then Value(shown.daily, c) == Value(shown.weekly, c) == 0
        else SaysRow(shown.daily, shown.weekly, entries, Meter(true, c), now))
    && now < shown.dailyResetAt <= now + DAY && shown.dailyResetAt % DAY == 0
    && shown.weeklyResetAt ==
       if WeekLasts(entries, now) then Some(entries[Opening(entries)].at + WEEK)
       else if IsNative(id) then None else Some(now + WEEK)
  }

  /** One row for each alias with a record. */
  ghost predicate RowShowsRow(rows: map<string, AliasWindows>, alias: string, entries: seq<Entry>, c: Counter,
          now: int) {
    && (alias in rows <==> entries != [])
    && (alias in rows ==>
          && SaysRow(rows[alias].daily.total, rows[alias].weekly.total, entries, Meter(false, c), now)
          && rows[alias].weekly.start == Some(if WeekLasts(entries, now) then entries[Opening(entries)].at else now))
  }

  /** Every report on an account that was used and never reset, and each of its rows. */
  lemma {:induction false} SummaryIsRow(id: LedgerID, events: seq<Event>, alias: string, c: Counter, now: int)
    requires NeverReset(events) && LogAfter(Whole, events).live.entries != []
    ensures ShowsRow(id, SummaryOf(id, HeldAfter(id, events).live, now), LogAfter(Whole, events).live.entries, c, now)
    ensures RowShowsRow(AliasRows(id, HeldAfter(id, events).live, now), alias,
                        LogAfter(Under(alias), events).live.entries, c, now)
  {
    RunInARow(id, events, alias, c);
    hide ShowsRow, RowShowsRow;
    ReportIsRow(id, HeldAfter(id, events).live, LogAfter(Whole, events).live.entries, c, now);
    RowIsRow(id, HeldAfter(id, events).live, alias, LogAfter(Under(alias), events).live.entries, c, now);
  }

  lemma {:induction false} RolledSaysRow(ws: AliasWindows, entries: seq<Entry>, m: Meter, now: int)
    requires entries != [] && InARow(ws, entries, m)
    ensures SaysRow(RolledDaily(ws.daily, now).total, RolledFromUse(ws.weekly, now).total, entries, m, now)
    ensures RolledFromUse(ws.weekly, now).start ==
            Some(if WeekLasts(entries, now) then entries[Opening(entries)].at else now)
  {
    SameDayStart(entries[|entries| - 1].at, now);
    hide Opening, Dawn, SumFrom;
  }

  lemma {:induction false} ReportIsRow(id: LedgerID, account: Account, entries: seq<Entry>, c: Counter, now: int)
    requires entries != [] && InARow(WindowsOf(account), entries, Meter(true, c)) && account.anchor == None
    ensures ShowsRow(id, SummaryOf(id, account, now), entries, c, now)
  {
    RolledSaysRow(WindowsOf(account), entries, Meter(true, c), now);
    ShownValue(RolledDaily(account.daily, now).total, c);
    ShownValue(RolledFromUse(account.weekly, now).total, c);
    hide Opening, Dawn, SumFrom, Value, Shown, RolledDaily;
  }

  lemma {:induction false} RowIsRow(id: LedgerID, account: Account, alias: string, entries: seq<Entry>, c: Counter,
          now: int)
    requires InARow(AliasEntry(account, alias), entries, Meter(false, c)) && account.anchor == None
    requires alias in account.byAlias <==> entries != []
    ensures RowShowsRow(AliasRows(id, account, now), alias, entries, c, now)
  {
    if entries != [] {
      RolledSaysRow(AliasEntry(account, alias), entries, Meter(false, c), now);
    }
    hide InARow, SaysRow;
  }
}
