/**
 The anchored ledger against a plain log. Whatever is recorded, reset, saved, lost in a restart or
 read in between, as long as the clock does not go back, the windows of the account and of each alias hold
 the records since the last reset that fall in the current UTC day and in the current seven-day period
 counted from the reset.
 */
module LedgerLog {
  import opened Options
  import opened Ledger

  /** One account's history. Saving writes the account to disk; a restart reads it back. */
  datatype Event =
    | Charged(at: int, alias: string, bill: Bill)
    | Reset(at: int)
    | Saved(at: int)
    | Restarted(at: int)

  /** The account in memory and on disk. */
  datatype Held = Held(live: Account, disk: Account)

  function Advance(held: Held, id: LedgerID, event: Event): Held {
    match event
    case Charged(at, alias, bill) => held.(live := Charge(held.live, AnchorOf(id, held.live), alias, bill, at))
    case Reset(at) => Held(ResetAccount(at), ResetAccount(at))
    case Saved(at) => held.(disk := held.live)
    case Restarted(at) => held.(live := held.disk)
  }

  function HeldAfter(id: LedgerID, events: seq<Event>): Held {
    if events == [] then Held(EMPTY, EMPTY)
    else Advance(HeldAfter(id, events[..|events| - 1]), id, events[|events| - 1])
  }

  // --------------------------------------------------------------------------- the reference: a log

  datatype Entry = Entry(at: int, bill: Bill)

  /** The time of the last reset, and every record since. */
  datatype Log = Log(anchor: Option<int>, entries: seq<Entry>)

  datatype Logs = Logs(live: Log, disk: Log)

  /** Whose records: the account's, or those under one alias. */
  datatype Part = Whole | Under(alias: string)

  /** One counter of the account, or of an alias. */
  datatype Meter = Meter(whole: bool, counter: Counter)

  /** An account takes dollars and calls as given and leaves out other counters that are negative; aliases take all. */
  function Amount(bill: Bill, m: Meter): int {
    if m.whole && !m.counter.Usd? && !m.counter.Calls? && Value(bill, m.counter) < 0 then 0
    else Value(bill, m.counter)
  }

  predicate Concerns(part: Part, alias: string) {
    part.Whole? || part.alias == alias
  }

  function Write(logs: Logs, part: Part, event: Event): Logs {
    match event
    case Charged(at, alias, bill) =>
      if !Concerns(part, alias) then logs
      else logs.(live := logs.live.(entries := logs.live.entries + [Entry(at, bill)]))
    case Reset(at) => Logs(Log(Some(at), []), Log(Some(at), []))
    case Saved(at) => logs.(disk := logs.live)
    case Restarted(at) => logs.(live := logs.disk)
  }

  function LogAfter(part: Part, events: seq<Event>): Logs {
    if events == [] then Logs(Log(None, []), Log(None, []))
    else Write(LogAfter(part, events[..|events| - 1]), part, events[|events| - 1])
  }

  function Share(e: Entry, m: Meter, from: int, to: int): int {
    if from <= e.at < to then Amount(e.bill, m) else 0
  }

  /** The sum over the entries in [from, to). */
  function Sum(entries: seq<Entry>, m: Meter, from: int, to: int): int {
    if entries == [] then 0
    else Sum(entries[..|entries| - 1], m, from, to) + Share(entries[|entries| - 1], m, from, to)
  }

  predicate InOrder(events: seq<Event>) {
    forall i, j :: 0 <= i <= j < |events| ==> events[i].at <= events[j].at
  }

  // ------------------------------------------------------------------------------------- arithmetic

  lemma {:induction false} DayFacts(start: int, now: int)
    requires start % DAY == 0 && start <= now
    ensures start / DAY == now / DAY ==> start == StartOfDay(now)
    ensures start / DAY != now / DAY ==> start + DAY <= StartOfDay(now)
    ensures StartOfDay(now) <= now < StartOfDay(now) + DAY && StartOfDay(now) % DAY == 0
  {
  }

  /** The period start is the anchor plus whole weeks, and now lies in the period. */
  lemma {:induction false} PeriodFacts(anchor: int, now: int)
    requires anchor <= now
    ensures anchor <= FixedStart(anchor, now) <= now < FixedStart(anchor, now) + WEEK
    ensures (FixedStart(anchor, now) - anchor) % WEEK == 0
  {
  }

  lemma {:induction false} PeriodsApart(anchor: int, s: int, t: int)
    requires (s - anchor) % WEEK == 0 && (t - anchor) % WEEK == 0 && s < t
    ensures s + WEEK <= t
  {
    assert (t - s) % WEEK == 0 by {
      var m, n := (t - anchor) / WEEK, (s - anchor) / WEEK;
      assert t - s == (m - n) * WEEK;
    }
  }

  /** No aligned start lies between the period's start and now. */
  lemma {:induction false} OnePeriod(anchor: int, start: int, now: int)
    requires anchor <= start <= now && FixedStart(anchor, now) <= start && (start - anchor) % WEEK == 0
    ensures FixedStart(anchor, now) == start
  {
    PeriodFacts(anchor, now);
    if FixedStart(anchor, now) < start {
      PeriodsApart(anchor, FixedStart(anchor, now), start);
    }
  }

  // -------------------------------------------------------------------------------------- invariant

  predicate Before(entries: seq<Entry>, end: int) {
    forall i :: 0 <= i < |entries| ==> entries[i].at < end
  }

  lemma {:induction false} SumPast(entries: seq<Entry>, m: Meter, from: int, to: int)
    requires Before(entries, from)
    ensures Sum(entries, m, from, to) == 0
  {
    if entries != [] {
      SumPast(entries[..|entries| - 1], m, from, to);
    }
  }

  /** A window that starts at start and holds the sum of its span; no entry is later than its span. */
  ghost predicate Holds(w: Window, start: int, length: nat, entries: seq<Entry>, m: Meter) {
    && w.start == Some(start) && Before(entries, start + length)
    && Value(w.total, m.counter) == Sum(entries, m, start, start + length)
  }

  lemma {:induction false} FreshHolds(w: Window, start: int, length: nat, entries: seq<Entry>, m: Meter, later: int)
    requires Holds(w, start, length, entries, m) && start + length <= later
    ensures Holds(Window(Some(later), NOTHING), later, length, entries, m)
  {
    SumPast(entries, m, later, later + length);
  }

  /** What is added for a bill: the account's windows and the aliases' differ. */
  function Taken(bill: Bill, m: Meter): Bill {
    if m.whole then Clamped(bill) else bill
  }

  lemma {:induction false} TakenValue(w: Window, bill: Bill, m: Meter)
    ensures Value(WithBill(w, Taken(bill, m)).total, m.counter) == Value(w.total, m.counter) + Amount(bill, m)
  {
  }

  lemma {:induction false} BillHolds(w: Window, start: int, length: nat, entries: seq<Entry>, m: Meter, e: Entry)
    requires Holds(w, start, length, entries, m) && start <= e.at < start + length
    ensures Holds(WithBill(w, Taken(e.bill, m)), start, length, entries + [e], m)
  {
    assert (entries + [e])[..|entries|] == entries;
    TakenValue(w, e.bill, m);
    hide Value, WithBill, Taken, Amount;
    assert WithBill(w, Taken(e.bill, m)).start == w.start by { KeepsStart(w, Taken(e.bill, m)); }
  }

  lemma {:induction false} KeepsStart(w: Window, bill: Bill)
    ensures WithBill(w, bill).start == w.start
  {
  }

  lemma {:induction false} DailyRoll(w: Window, start: int, entries: seq<Entry>, m: Meter, now: int)
    requires Holds(w, start, DAY, entries, m) && start % DAY == 0 && start <= now
    ensures Holds(RolledDaily(w, now), StartOfDay(now), DAY, entries, m)
  {
    DayFacts(start, now);
    if start / DAY == now / DAY {
      assert RolledDaily(w, now) == w;
    } else {
      FreshHolds(w, start, DAY, entries, m, StartOfDay(now));
      assert RolledDaily(w, now) == Window(Some(StartOfDay(now)), NOTHING);
    }
  }

  lemma {:induction false} WeeklyRoll(w: Window, start: int, entries: seq<Entry>, m: Meter, anchor: int, now: int)
    requires Holds(w, start, WEEK, entries, m) && anchor <= start <= now && (start - anchor) % WEEK == 0
    ensures Holds(Advanced(w, FixedStart(anchor, now)), FixedStart(anchor, now), WEEK, entries, m)
  {
    var period := FixedStart(anchor, now);
    PeriodFacts(anchor, now);
    if start < period {
      PeriodsApart(anchor, start, period);
      FreshHolds(w, start, WEEK, entries, m, period);
    } else {
      OnePeriod(anchor, start, now);
    }
  }

  /** The day window is that of some day up to now, and holds what the log says. */
  ghost predicate DailyRefines(w: Window, entries: seq<Entry>, m: Meter, now: int) {
    w.start.Some? && w.start.value <= now && w.start.value % DAY == 0 && Holds(w, w.start.value, DAY, entries, m)
  }

  /** The week window is that of some period up to now, and holds what the log says. */
  ghost predicate WeeklyRefines(w: Window, anchor: int, entries: seq<Entry>, m: Meter, now: int) {
    && w.start.Some? && anchor <= w.start.value <= now && (w.start.value - anchor) % WEEK == 0
    && Holds(w, w.start.value, WEEK, entries, m)
  }

  /** One counter of the account against its log. */
  ghost predicate Refines(account: Account, log: Log, c: Counter, now: int) {
    && account.anchor == log.anchor
    && (log.anchor.Some? ==>
          && DailyRefines(account.daily, log.entries, Meter(true, c), now)
          && WeeklyRefines(account.weekly, log.anchor.value, log.entries, Meter(true, c), now))
  }

  /** One counter of an alias against the log of its records. */
  ghost predicate AliasRefines(account: Account, alias: string, log: Log, c: Counter, now: int) {
    && account.anchor == log.anchor
    && (log.anchor.Some? ==>
          if alias in account.byAlias then
            && log.entries != []
            && DailyRefines(account.byAlias[alias].daily, log.entries, Meter(false, c), now)
            && WeeklyRefines(account.byAlias[alias].weekly, log.anchor.value, log.entries, Meter(false, c), now)
          else log.entries == [])
  }

  lemma {:induction false} DailyCharged(w: Window, entries: seq<Entry>, m: Meter, at: int, bill: Bill)
    requires DailyRefines(w, entries, m, at) || (w == UNUSED && entries == [])
    ensures DailyRefines(WithBill(RolledDaily(w, at), Taken(bill, m)), entries + [Entry(at, bill)], m, at)
  {
    DayFacts(StartOfDay(at), at);
    if w != UNUSED { DailyRoll(w, w.start.value, entries, m, at); }
    BillHolds(RolledDaily(w, at), StartOfDay(at), DAY, entries, m, Entry(at, bill));
  }

  lemma {:induction false} WeeklyCharged(w: Window, anchor: int, entries: seq<Entry>, m: Meter, at: int, bill: Bill)
    requires anchor <= at && (WeeklyRefines(w, anchor, entries, m, at) || (w == UNUSED && entries == []))
    ensures WeeklyRefines(WithBill(Advanced(w, FixedStart(anchor, at)), Taken(bill, m)), anchor,
                          entries + [Entry(at, bill)], m, at)
  {
    PeriodFacts(anchor, at);
    if w != UNUSED { WeeklyRoll(w, w.start.value, entries, m, anchor, at); }
    BillHolds(Advanced(w, FixedStart(anchor, at)), FixedStart(anchor, at), WEEK, entries, m, Entry(at, bill));
  }

  lemma {:induction false} ChargeRefines(id: LedgerID, account: Account, log: Log, c: Counter, at: int, alias: string,
          bill: Bill)
    requires IsNative(id) && Refines(account, log, c, at)
    ensures Refines(Charge(account, AnchorOf(id, account), alias, bill, at),
            log.(entries := log.entries + [Entry(at, bill)]), c, at)
  {
    if log.anchor.Some? {
      var after := Charge(account, Some(log.anchor.value), alias, bill, at);
      assert after.daily == WithBill(RolledDaily(account.daily, at), Taken(bill, Meter(true, c)));
      assert after.weekly ==
        WithBill(Advanced(account.weekly, FixedStart(log.anchor.value, at)), Taken(bill, Meter(true, c)));
      DailyCharged(account.daily, log.entries, Meter(true, c), at, bill);
      WeeklyCharged(account.weekly, log.anchor.value, log.entries, Meter(true, c), at, bill);
    }
  }

  /** In clock order the account's week starts where the schedule puts it, and its aliases' weeks with it. */
  lemma {:induction false} WeekStart(account: Account, log: Log, c: Counter, now: int)
    requires Refines(account, log, c, now) && log.anchor.Some?
    ensures RolledWeekly(account.weekly, now, log.anchor).start == Some(FixedStart(log.anchor.value, now))
  {
    WeeklyRoll(account.weekly, account.weekly.start.value, log.entries, Meter(true, c), log.anchor.value, now);
  }

  lemma {:induction false} ChargeAliasRefines(id: LedgerID, account: Account, whole: Log, of: string, log: Log,
          c: Counter, at: int, alias: string, bill: Bill)
    requires IsNative(id) && Refines(account, whole, c, at) && AliasRefines(account, of, log, c, at)
    ensures AliasRefines(Charge(account, AnchorOf(id, account), alias, bill, at), of,
                         if of == alias then log.(entries := log.entries + [Entry(at, bill)]) else log, c, at)
  {
    if log.anchor.Some? && of == alias {
      var entry, start := AliasEntry(account, alias), FixedStart(log.anchor.value, at);
      WeekStart(account, whole, c, at);
      var after := Charge(account, Some(log.anchor.value), alias, bill, at).byAlias[alias];
      assert after ==
        AliasWindows(WithBill(RolledDaily(entry.daily, at), bill), WithBill(Advanced(entry.weekly, start), bill));
      DailyCharged(entry.daily, log.entries, Meter(false, c), at, bill);
      WeeklyCharged(entry.weekly, log.anchor.value, log.entries, Meter(false, c), at, bill);
    }
  }

  lemma {:induction false} ResetRefines(at: int, alias: string, c: Counter)
    ensures Refines(ResetAccount(at), Log(Some(at), []), c, at)
    ensures AliasRefines(ResetAccount(at), alias, Log(Some(at), []), c, at)
  {
  }

  /** The account and one of its aliases, in memory and on disk. */
  ghost predicate BothRefine(id: LedgerID, events: seq<Event>, alias: string, c: Counter, now: int) {
    var held, whole, part := HeldAfter(id, events), LogAfter(Whole, events), LogAfter(Under(alias), events);
    && Refines(held.live, whole.live, c, now) && Refines(held.disk, whole.disk, c, now)
    && AliasRefines(held.live, alias, part.live, c, now) && AliasRefines(held.disk, alias, part.disk, c, now)
  }

  lemma {:induction false} RunRefines(id: LedgerID, events: seq<Event>, alias: string, c: Counter, now: int)
    requires IsNative(id) && InOrder(events)
    requires events != [] ==> events[|events| - 1].at <= now
    ensures BothRefine(id, events, alias, c, now)
  {
    if events != [] {
      var front, event := events[..|events| - 1], events[|events| - 1];
      var held := HeldAfter(id, front);
      RunRefines(id, front, alias, c, event.at);
      hide Refines, AliasRefines;
      if event.Charged? {
        ChargeRefines(id, held.live, LogAfter(Whole, front).live, c, event.at, event.alias, event.bill);
        ChargeAliasRefines(id, held.live, LogAfter(Whole, front).live, alias, LogAfter(Under(alias), front).live, c,
          event.at, event.alias, event.bill);
      } else if event.Reset? {
        ResetRefines(event.at, alias, c);
      }
      assert BothRefine(id, events, alias, c, event.at);
      LaterRefine(id, events, alias, c, event.at, now);
    }
  }

  lemma {:induction false} LaterRefine(id: LedgerID, events: seq<Event>, alias: string, c: Counter, last: int, now: int)
    requires BothRefine(id, events, alias, c, last) && last <= now
    ensures BothRefine(id, events, alias, c, now)
  {
    hide HeldAfter, LogAfter, Holds;
  }

  // ---------------------------------------------------------------------------------- what reads say

  /** The report of an anchored account, in terms of its log and the present alone. */
  ghost predicate ShowsLog(shown: UsageSummary, log: Log, c: Counter, now: int)
    requires log.anchor.Some?
  {
    var m, today, period := Meter(true, c), StartOfDay(now), FixedStart(log.anchor.value, now);
    && period <= now < period + WEEK && (period - log.anchor.value) % WEEK == 0
    && Value(shown.daily, c) == (if c.Output? then 0 else Sum(log.entries, m, today, today + DAY))
    && Value(shown.weekly, c) == (if c.Output? then 0 else Sum(log.entries, m, period, period + WEEK))
    && shown.dailyResetAt == today + DAY && shown.weeklyResetAt == Some(period + WEEK)
  }

  /** The rows of an anchored account: one for each alias with a record since the reset, with the sums of those. */
  ghost predicate RowShowsLog(rows: map<string, AliasWindows>, alias: string, log: Log, c: Counter, now: int)
    requires log.anchor.Some?
  {
    var m, today, period := Meter(false, c), StartOfDay(now), FixedStart(log.anchor.value, now);
    && (alias in rows <==> log.entries != [])
    && (alias in rows ==>
          && rows[alias].daily.start == Some(today) && rows[alias].weekly.start == Some(period)
          && Value(rows[alias].daily.total, c) == Sum(log.entries, m, today, today + DAY)
          && Value(rows[alias].weekly.total, c) == Sum(log.entries, m, period, period + WEEK))
  }

  /**
   Every report on a native account that was ever reset shows, counter by counter, the sum of the records since
   the last reset in the current day and in the current seven-day period; its weekly deadline is the end of
   that period, a function of the reset time and the present alone. So does each alias's row.
   */
  lemma {:induction false} SummaryIsLog(id: LedgerID, events: seq<Event>, alias: string, c: Counter, now: int)
    requires IsNative(id) && InOrder(events) && LogAfter(Whole, events).live.anchor.Some?
    requires events != [] ==> events[|events| - 1].at <= now
    ensures ShowsLog(SummaryOf(id, HeldAfter(id, events).live, now), LogAfter(Whole, events).live, c, now)
    ensures LogAfter(Under(alias), events).live.anchor == LogAfter(Whole, events).live.anchor
    ensures RowShowsLog(AliasRows(id, HeldAfter(id, events).live, now), alias, LogAfter(Under(alias), events).live, c,
                        now)
  {
    RunRefines(id, events, alias, c, now);
    hide HeldAfter, LogAfter, ShowsLog, RowShowsLog;
    assert HeldAfter(id, events).live.anchor == LogAfter(Whole, events).live.anchor;
    ReportIsLog(id, HeldAfter(id, events).live, LogAfter(Whole, events).live, c, now);
    RowIsLog(id, HeldAfter(id, events).live, LogAfter(Whole, events).live, alias,
      LogAfter(Under(alias), events).live, c, now);
  }

  lemma {:induction false} ReportIsLog(id: LedgerID, account: Account, log: Log, c: Counter, now: int)
    requires IsNative(id) && Refines(account, log, c, now) && log.anchor.Some?
    ensures ShowsLog(SummaryOf(id, account, now), log, c, now)
  {
    var shown, anchor := SummaryOf(id, account, now), log.anchor.value;
    PeriodFacts(anchor, now);
    DailyRoll(account.daily, account.daily.start.value, log.entries, Meter(true, c), now);
    WeeklyRoll(account.weekly, account.weekly.start.value, log.entries, Meter(true, c), anchor, now);
    var daily, weekly := RolledDaily(account.daily, now), Advanced(account.weekly, FixedStart(anchor, now));
    ShownValue(daily.total, c);
    ShownValue(weekly.total, c);
    hide Sum, Value, Shown, RolledDaily, Advanced, FixedStart;
    assert shown == UsageSummary(Shown(daily.total), Shown(weekly.total), StartOfDay(now) + DAY,
      Some(weekly.start.value + WEEK));
  }

  /** A report has no output tokens. */
  lemma {:induction false} ShownValue(b: Bill, c: Counter)
    ensures Value(Shown(b), c) == if c.Output? then 0 else Value(b, c)
  {
  }

  lemma {:induction false} RowIsLog(id: LedgerID, account: Account, whole: Log, alias: string, log: Log, c: Counter,
          now: int)
    requires IsNative(id) && Refines(account, whole, c, now) && AliasRefines(account, alias, log, c, now)
    requires log.anchor.Some? && whole.anchor == log.anchor
    ensures RowShowsLog(AliasRows(id, account, now), alias, log, c, now)
  {
    if alias in account.byAlias {
      var w, anchor := account.byAlias[alias], log.anchor.value;
      WeekStart(account, whole, c, now);
      DailyRoll(w.daily, w.daily.start.value, log.entries, Meter(false, c), now);
      WeeklyRoll(w.weekly, w.weekly.start.value, log.entries, Meter(false, c), anchor, now);
      assert AliasRows(id, account, now)[alias] ==
        AliasWindows(RolledDaily(w.daily, now), Advanced(w.weekly, FixedStart(anchor, now)));
    }
  }
}
