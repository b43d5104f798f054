/**
 The breakdown by alias against the account's own windows: nothing is lost and nothing is counted
 twice. The weekly rows of an anchored account add up to its weekly total whatever the clock does;
 the daily rows do so exactly while no record is of a day that the account has left and aliases still hold.
 */
module LedgerAliases {
  import opened Options
  import opened Ledger

  /** The account's windows take the counter as the bill has it: dollars and calls always, the rest unless negative. */
  predicate Counted(bill: Bill, c: Counter) {
    c.Usd? || c.Calls? || Value(bill, c) >= 0
  }

  lemma {:induction false} CountedValue(w: Window, bill: Bill, c: Counter)
    ensures Value(WithBill(w, bill).total, c) == Value(w.total, c) + Value(bill, c)
    ensures Counted(bill, c) ==> Value(Clamped(bill), c) == Value(bill, c)
  {
  }

  // ------------------------------------------------------------------------------ sums over aliases

  /** What a window contributes to the span that begins at start. */
  function Part(w: Window, start: int, c: Counter): int {
    if w.start == Some(start) then Value(w.total, c) else 0
  }

  /** The sum over all aliases of what they contribute to the span that begins at start. */
  ghost function Shares(windows: map<string, Window>, start: int, c: Counter): int
    decreases |windows|
  {
    if windows == map[] then 0
    else
      var k :| k in windows;
      Shares(windows - {k}, start, c) + Part(windows[k], start, c)
  }

  lemma {:induction false} SharesWithout(windows: map<string, Window>, start: int, c: Counter, k: string)
    requires k in windows
    ensures Shares(windows, start, c) == Shares(windows - {k}, start, c) + Part(windows[k], start, c)
    decreases |windows|
  {
    var j :| j in windows && Shares(windows, start, c) == Shares(windows - {j}, start, c) + Part(windows[j], start, c);
    if j != k {
      SharesWithout(windows - {j}, start, c, k);
      SharesWithout(windows - {k}, start, c, j);
      assert windows - {j} - {k} == windows - {k} - {j};
    }
  }

  lemma {:induction false} SharesUpdate(windows: map<string, Window>, start: int, c: Counter, k: string, w: Window)
    ensures Shares(windows[k := w], start, c) ==
            Shares(windows, start, c) - Part(WindowOf(windows, k), start, c) + Part(w, start, c)
  {
    SharesWithout(windows[k := w], start, c, k);
    assert windows[k := w] - {k} == windows - {k};
    if k in windows {
      SharesWithout(windows, start, c, k);
    } else {
      assert windows - {k} == windows;
    }
  }

  lemma {:induction false} SharesNone(windows: map<string, Window>, start: int, c: Counter)
    requires forall k :: k in windows ==> Part(windows[k], start, c) == 0
    ensures Shares(windows, start, c) == 0
    decreases |windows|
  {
    if windows != map[] {
      var k :| k in windows;
      SharesNone(windows - {k}, start, c);
      SharesWithout(windows, start, c, k);
    }
  }

  lemma {:induction false} SharesAlike(one: map<string, Window>, two: map<string, Window>, start: int, c: Counter)
    requires one.Keys == two.Keys && forall k :: k in one ==> Part(one[k], start, c) == Part(two[k], start, c)
    ensures Shares(one, start, c) == Shares(two, start, c)
    decreases |one|
  {
    if one != map[] {
      var k :| k in one;
      assert (one - {k}).Keys == one.Keys - {k} == (two - {k}).Keys;
      SharesAlike(one - {k}, two - {k}, start, c);
      SharesWithout(one, start, c, k);
      SharesWithout(two, start, c, k);
    }
  }

  function WindowOf(windows: map<string, Window>, alias: string): Window {
    if alias in windows then windows[alias] else UNUSED
  }

  // -------------------------------------------------------------------------------------- invariant

  /** No alias's window began later than the account's, and those that began with it make up its total. */
  ghost predicate Conserved(windows: map<string, Window>, account: Window, c: Counter) {
    if account.start.None? then windows == map[] && account == UNUSED
    else
      && (forall k :: k in windows ==> windows[k].start.Some? && windows[k].start.value <= account.start.value)
      && Shares(windows, account.start.value, c) == Value(account.total, c)
  }

  /** Rolling the account on leaves the aliases with nothing in its new span. */
  lemma {:induction false} RollConserves(windows: map<string, Window>, account: Window, start: int, c: Counter)
    requires Conserved(windows, account, c)
    ensures Conserved(windows, Advanced(account, start), c)
  {
    if account.start.None? || account.start.value < start { SharesNone(windows, start, c); }
  }

  /** Adding a bill to the account and to one alias, that alias first rolled to the account's span. */
  lemma {:induction false} BillConserves(windows: map<string, Window>, account: Window, alias: string,
          bill: Bill, c: Counter)
    requires Conserved(windows, account, c) && Counted(bill, c) && account.start.Some?
    ensures
      var entry := WithBill(Advanced(WindowOf(windows, alias), account.start.value), bill);
      Conserved(windows[alias := entry], WithBill(account, Clamped(bill)), c)
  {
    var start := account.start.value;
    var w := WindowOf(windows, alias);
    var entry := WithBill(Advanced(w, start), bill);
    SharesUpdate(windows, start, c, alias, entry);
    CountedValue(Advanced(w, start), bill, c);
    CountedValue(account, Clamped(bill), c);
  }

  /** Rolling every alias to the account's span changes nothing that counts, and leaves only that span. */
  lemma {:induction false} RowsConserve(windows: map<string, Window>, account: Window, rows: map<string,
          Window>, c: Counter)
    requires Conserved(windows, account, c) && account.start.Some? && rows.Keys == windows.Keys
    requires forall k :: k in rows ==> rows[k] == Advanced(windows[k], account.start.value)
    ensures forall k :: k in rows ==> rows[k].start == account.start
    ensures Shares(rows, account.start.value, c) == Value(account.total, c)
  {
    SharesAlike(rows, windows, account.start.value, c);
  }

  // ------------------------------------------------------------------------------------- the ledger

  function Dailies(byAlias: map<string, AliasWindows>): map<string, Window> {
    map k | k in byAlias :: byAlias[k].daily
  }

  function Weeklies(byAlias: map<string, AliasWindows>): map<string, Window> {
    map k | k in byAlias :: byAlias[k].weekly
  }

  datatype Event = Charged(at: int, alias: string, bill: Bill) | Reset(at: int)

  function Advance(id: LedgerID, account: Account, event: Event): Account {
    match event
    case Charged(at, alias, bill) => Charge(account, AnchorOf(id, account), alias, bill, at)
    case Reset(at) => ResetAccount(at)
  }

  function AccountAfter(id: LedgerID, events: seq<Event>): Account {
    if events == [] then EMPTY else Advance(id, AccountAfter(id, events[..|events| - 1]), events[|events| - 1])
  }

  predicate AllCounted(events: seq<Event>, c: Counter) {
    forall i :: 0 <= i < |events| && events[i].Charged? ==> Counted(events[i].bill, c)
  }

  predicate InOrder(events: seq<Event>) {
    forall i, j :: 0 <= i <= j < |events| ==> events[i].at <= events[j].at
  }

  lemma {:induction false} WeeklyCharge(account: Account, anchor: int, alias: string, bill: Bill, now: int, c: Counter)
    requires Conserved(Weeklies(account.byAlias), account.weekly, c) && Counted(bill, c)
    ensures
      var after := Charge(account, Some(anchor), alias, bill, now);
      Conserved(Weeklies(after.byAlias), after.weekly, c)
  {
    var after := Charge(account, Some(anchor), alias, bill, now);
    var weekly := RolledWeekly(account.weekly, now, Some(anchor));
    var windows := Weeklies(account.byAlias);
    RollConserves(windows, account.weekly, FixedStart(anchor, now), c);
    BillConserves(windows, weekly, alias, bill, c);
    assert Weeklies(after.byAlias) ==
      windows[alias := WithBill(Advanced(WindowOf(windows, alias), weekly.start.value), bill)];
  }

  /** Under any clock. */
  lemma {:induction false} WeeklyConserved(id: LedgerID, events: seq<Event>, c: Counter)
    requires IsNative(id) && AllCounted(events, c) && AccountAfter(id, events).anchor.Some?
    ensures Conserved(Weeklies(AccountAfter(id, events).byAlias), AccountAfter(id, events).weekly, c)
  {
    if events != [] {
      var front, event := events[..|events| - 1], events[|events| - 1];
      var account := AccountAfter(id, front);
      if event.Reset? {
        assert Weeklies(map[]) == map[];
      } else {
        WeeklyConserved(id, front, c);
        WeeklyCharge(account, account.anchor.value, event.alias, event.bill, event.at, c);
      }
    }
  }

  /** The weekly rows a read reports all belong to the reported period, and add up to the reported total. */
  lemma {:induction false} WeeklyRowsAddUp(id: LedgerID, events: seq<Event>, now: int, c: Counter)
    requires IsNative(id) && AllCounted(events, c) && AccountAfter(id, events).anchor.Some?
    ensures
      var account := AccountAfter(id, events);
      var weekly := RolledWeekly(account.weekly, now, account.anchor);
      var rows := Weeklies(AliasRows(id, account, now));
      && weekly.start.Some?
      && (forall alias :: alias in rows ==> rows[alias].start == weekly.start)
      && Shares(rows, weekly.start.value, c) == Value(weekly.total, c)
      && SummaryOf(id, account, now).weekly == Shown(weekly.total)
  {
    WeeklyConserved(id, events, c);
    var account := AccountAfter(id, events);
    var weekly := RolledWeekly(account.weekly, now, account.anchor);
    RollConserves(Weeklies(account.byAlias), account.weekly, FixedStart(account.anchor.value, now), c);
    RowsConserve(Weeklies(account.byAlias), weekly, Weeklies(AliasRows(id, account, now)), c);
  }

  // ------------------------------------------------------------------------------------------ daily

  /** Day windows start at midnight, none in the future. */
  predicate Midnights(account: Account, now: int) {
    && (account.daily.start.Some? ==> account.daily.start.value % DAY == 0 && account.daily.start.value <= now)
    && (forall k :: k in account.byAlias && account.byAlias[k].daily.start.Some? ==>
          account.byAlias[k].daily.start.value % DAY == 0 && account.byAlias[k].daily.start.value <= now)
  }

  lemma {:induction false} DailyAdvances(w: Window, now: int)
    requires w.start.Some? ==> w.start.value % DAY == 0 && w.start.value <= now
    ensures RolledDaily(w, now) == Advanced(w, StartOfDay(now))
    ensures StartOfDay(now) % DAY == 0 && StartOfDay(now) <= now
  {
  }

  lemma {:induction false} DailyCharge(account: Account, anchor: Option<int>, alias: string, bill: Bill,
          now: int, c: Counter)
    requires Conserved(Dailies(account.byAlias), account.daily, c) && Midnights(account, now) && Counted(bill, c)
    ensures
      var after := Charge(account, anchor, alias, bill, now);
      Conserved(Dailies(after.byAlias), after.daily, c)
  {
    var after := Charge(account, anchor, alias, bill, now);
    var daily := RolledDaily(account.daily, now);
    var windows := Dailies(account.byAlias);
    var entry := AliasEntry(account, alias).daily;
    DailyAdvances(account.daily, now);
    DailyAdvances(entry, now);
    RollConserves(windows, account.daily, StartOfDay(now), c);
    BillConserves(windows, daily, alias, bill, c);
    assert daily.start == Some(StartOfDay(now));
    assert WindowOf(windows, alias) == entry;
    assert Dailies(after.byAlias) == windows[alias := WithBill(Advanced(entry, StartOfDay(now)), bill)];
  }

  lemma {:induction false} ChargeMidnights(account: Account, anchor: Option<int>, alias: string, bill: Bill, now: int)
    requires Midnights(account, now)
    ensures Midnights(Charge(account, anchor, alias, bill, now), now)
  {
    DailyAdvances(account.daily, now);
    DailyAdvances(AliasEntry(account, alias).daily, now);
  }

  lemma {:induction false} DailyConserved(id: LedgerID, events: seq<Event>, now: int, c: Counter)
    requires AllCounted(events, c) && InOrder(events) && (events != [] ==> events[|events| - 1].at <= now)
    ensures Conserved(Dailies(AccountAfter(id, events).byAlias), AccountAfter(id, events).daily, c)
    ensures Midnights(AccountAfter(id, events), now)
  {
    if events == [] {
      assert Dailies(map[]) == map[];
    } else {
      var front, event := events[..|events| - 1], events[|events| - 1];
      DailyConserved(id, front, event.at, c);
      var account := AccountAfter(id, front);
      if event.Reset? {
        assert Dailies(map[]) == map[];
      } else {
        DailyCharge(account, AnchorOf(id, account), event.alias, event.bill, event.at, c);
        ChargeMidnights(account, AnchorOf(id, account), event.alias, event.bill, event.at);
      }
    }
  }

  // --------------------------------------------------------------------- daily, whatever the clock does

  /** Day windows start at midnight; an account not yet used has none. */
  predicate WholeDays(account: Account) {
    && WholeDay(account.daily) && (forall k :: k in account.byAlias ==> WholeDay(account.byAlias[k].daily))
    && (account.daily.start.None? ==> account.daily == UNUSED && account.byAlias == map[])
  }

  predicate WholeDay(w: Window) {
    w.start.Some? ==> w.start.value % DAY == 0
  }

  lemma {:induction false} RunWholeDays(id: LedgerID, events: seq<Event>)
    ensures WholeDays(AccountAfter(id, events))
  {
    if events != [] {
      var front, event := events[..|events| - 1], events[|events| - 1];
      RunWholeDays(id, front);
      if event.Charged? {
        var account := AccountAfter(id, front);
        ChargeWholeDays(account, AnchorOf(id, account), event.alias, event.bill, event.at);
      }
    }
  }

  lemma {:induction false} ChargeWholeDays(account: Account, anchor: Option<int>, alias: string, bill: Bill, now: int)
    requires WholeDays(account)
    ensures WholeDays(Charge(account, anchor, alias, bill, now))
  {
  }

  /** What the aliases hold of the day of some moment. */
  ghost function Held(account: Account, at: int, c: Counter): int {
    Shares(Dailies(account.byAlias), StartOfDay(at), c)
  }

  predicate OfDay(w: Window, at: int) {
    w.start.Some? && w.start.value / DAY == at / DAY
  }

  /** By how much the aliases of that moment's day exceed what the account has of it. */
  ghost function Excess(account: Account, at: int, c: Counter): int {
    Held(account, at, c) - if OfDay(account.daily, at) then Value(account.daily.total, c) else 0
  }

  lemma {:induction false} SameDay(w: Window, at: int)
    requires WholeDay(w)
    ensures OfDay(w, at) <==> w.start == Some(StartOfDay(at))
  {
  }

  lemma {:induction false} RolledPart(w: Window, at: int, c: Counter)
    requires WholeDay(w)
    ensures RolledDaily(w, at).start == Some(StartOfDay(at))
    ensures Value(RolledDaily(w, at).total, c) == Part(w, StartOfDay(at), c)
  {
    SameDay(w, at);
  }

  /** The rows of a report on any day exceed its daily total by exactly that. */
  lemma {:induction false} ReportExcess(id: LedgerID, account: Account, at: int, c: Counter)
    requires WholeDays(account)
    ensures
      var rows := Dailies(AliasRows(id, account, at));
      && (forall alias :: alias in rows ==> rows[alias].start == Some(StartOfDay(at)))
      && SummaryOf(id, account, at).daily == Shown(RolledDaily(account.daily, at).total)
      && Shares(rows, StartOfDay(at), c) - Value(RolledDaily(account.daily, at).total, c) == Excess(account, at, c)
  {
    var rows := Dailies(AliasRows(id, account, at));
    RolledPart(account.daily, at, c);
    SameDay(account.daily, at);
    forall k | k in rows
      ensures rows[k].start == Some(StartOfDay(at))
      ensures Part(rows[k], StartOfDay(at), c) == Part(Dailies(account.byAlias)[k], StartOfDay(at), c)
    {
      RolledPart(account.byAlias[k].daily, at, c);
    }
    SharesAlike(rows, Dailies(account.byAlias), StartOfDay(at), c);
  }

  /** With the clock in order, the same for the daily rows of any account, anchored or not. */
  lemma {:induction false} DailyRowsAddUp(id: LedgerID, events: seq<Event>, now: int, c: Counter)
    requires AllCounted(events, c) && InOrder(events) && (events != [] ==> events[|events| - 1].at <= now)
    ensures
      var account := AccountAfter(id, events);
      var daily := RolledDaily(account.daily, now);
      var rows := Dailies(AliasRows(id, account, now));
      && daily.start == Some(StartOfDay(now))
      && (forall alias :: alias in rows ==> rows[alias].start == daily.start)
      && Shares(rows, StartOfDay(now), c) == Value(daily.total, c)
      && SummaryOf(id, account, now).daily == Shown(daily.total)
  {
    var account := AccountAfter(id, events);
    DailyConserved(id, events, now, c);
    RunWholeDays(id, events);
    ReportExcess(id, account, now, c);
    RolledPart(account.daily, now, c);
    InOrderExcess(account, now, c);
  }

  lemma {:induction false} InOrderExcess(account: Account, now: int, c: Counter)
    requires WholeDays(account) && Midnights(account, now) && Conserved(Dailies(account.byAlias), account.daily, c)
    ensures Excess(account, now, c) == 0
  {
    SameDay(account.daily, now);
    if !OfDay(account.daily, now) {
      SharesNone(Dailies(account.byAlias), StartOfDay(now), c);
    }
  }

  /** A record neither makes nor mends an excess of its own day; but from then on that day is the account's. */
  lemma {:induction false} RecordExcess(account: Account, anchor: Option<int>, alias: string, bill: Bill, now: int,
          c: Counter)
    requires WholeDays(account) && Counted(bill, c)
    ensures
      var after := Charge(account, anchor, alias, bill, now);
      OfDay(after.daily, now) && Excess(after, now, c) == Excess(account, now, c)
  {
    var after, start := Charge(account, anchor, alias, bill, now), StartOfDay(now);
    var w := AliasEntry(account, alias).daily;
    var entry := WithBill(RolledDaily(w, now), bill);
    RolledPart(account.daily, now, c);
    SameDay(account.daily, now);
    RolledPart(w, now, c);
    CountedValue(RolledDaily(account.daily, now), Clamped(bill), c);
    CountedValue(RolledDaily(w, now), bill, c);
    CountedValue(RolledDaily(w, now), Clamped(bill), c);
    assert Dailies(after.byAlias) == Dailies(account.byAlias)[alias := entry];
    SharesUpdate(Dailies(account.byAlias), start, c, alias, entry);
    assert WindowOf(Dailies(account.byAlias), alias) == w;
  }

  /** The rows of the account's own day add up to it. */
  ghost predicate AddsUp(account: Account, c: Counter) {
    account.daily.start.Some? ==> Excess(account, account.daily.start.value, c) == 0
  }

  /** The account's own day, or one that the aliases hold nothing of. */
  ghost predicate DayInTurn(account: Account, at: int, c: Counter) {
    OfDay(account.daily, at) || Held(account, at, c) == 0
  }

  /** After any record to rows that add up they still do, if and only if the record's day is in turn. */
  lemma {:induction false} RecordAddsUpExactly(account: Account, anchor: Option<int>, alias: string, bill: Bill,
          now: int, c: Counter)
    requires WholeDays(account) && Counted(bill, c) && AddsUp(account, c)
    ensures AddsUp(Charge(account, anchor, alias, bill, now), c) <==> DayInTurn(account, now, c)
  {
    var after := Charge(account, anchor, alias, bill, now);
    RecordExcess(account, anchor, alias, bill, now, c);
    SameDayExcess(after, now, c);
    if OfDay(account.daily, now) {
      SameDayExcess(account, now, c);
    }
  }

  lemma {:induction false} SameDayExcess(account: Account, at: int, c: Counter)
    requires OfDay(account.daily, at)
    ensures Excess(account, account.daily.start.value, c) == Excess(account, at, c)
  {
  }

  /** Rows that add up show so on the account's day; on any other, exactly if the aliases hold nothing of it. */
  lemma {:induction false} ReportAddsUpExactly(id: LedgerID, account: Account, at: int, c: Counter)
    requires WholeDays(account) && AddsUp(account, c)
    ensures
      Shares(Dailies(AliasRows(id, account, at)), StartOfDay(at), c) == Value(RolledDaily(account.daily, at).total, c)
      <==> DayInTurn(account, at, c)
  {
    ReportExcess(id, account, at, c);
    if OfDay(account.daily, at) {
      SameDayExcess(account, at, c);
    }
  }

  /**
   Under any clock: the rows add up at every moment of a run if and only if each record was of the day the
   account was on, or of one the aliases held nothing of.
   */
  lemma {:induction false} RunAddsUpExactly(id: LedgerID, events: seq<Event>, c: Counter)
    requires AllCounted(events, c)
    ensures
      (forall i :: 0 <= i <= |events| ==> AddsUp(AccountAfter(id, events[..i]), c)) <==>
      forall i :: 0 <= i < |events| && events[i].Charged? ==>
        DayInTurn(AccountAfter(id, events[..i]), events[i].at, c)
  {
    if forall i :: 0 <= i <= |events| ==> AddsUp(AccountAfter(id, events[..i]), c) {
      forall i | 0 <= i < |events| && events[i].Charged?
        ensures DayInTurn(AccountAfter(id, events[..i]), events[i].at, c)
      {
        StepAddsUp(id, events, i, c);
        assert AddsUp(AccountAfter(id, events[..i + 1]), c);
      }
    }
    if forall i :: 0 <= i < |events| && events[i].Charged? ==> DayInTurn(AccountAfter(id, events[..i]), events[i].at, c)
    {
      forall i | 0 <= i <= |events| ensures AddsUp(AccountAfter(id, events[..i]), c) {
        InTurnAddsUp(id, events, i, c);
      }
    }
  }

  lemma {:induction false} StepAddsUp(id: LedgerID, events: seq<Event>, i: nat, c: Counter)
    requires i < |events| && AllCounted(events, c) && AddsUp(AccountAfter(id, events[..i]), c)
    ensures AddsUp(AccountAfter(id, events[..i + 1]), c) <==>
            events[i].Reset? || DayInTurn(AccountAfter(id, events[..i]), events[i].at, c)
  {
    hide AddsUp, DayInTurn, Charge, WholeDays, ResetAccount;
    var account, event := AccountAfter(id, events[..i]), events[i];
    assert events[..i + 1] == events[..i] + [event];
    RunStep(id, events[..i], event);
    if event.Reset? {
      ResetAddsUp(event.at, c);
    } else {
      RunWholeDays(id, events[..i]);
      RecordAddsUpExactly(account, AnchorOf(id, account), event.alias, event.bill, event.at, c);
    }
  }

  lemma {:induction false} ResetAddsUp(at: int, c: Counter)
    ensures AddsUp(ResetAccount(at), c)
  {
    assert Dailies(map[]) == map[];
  }

  lemma {:induction false} InTurnAddsUp(id: LedgerID, events: seq<Event>, i: nat, c: Counter)
    requires i <= |events| && AllCounted(events, c)
    requires forall j :: 0 <= j < |events| && events[j].Charged? ==>
               DayInTurn(AccountAfter(id, events[..j]), events[j].at, c)
    ensures AddsUp(AccountAfter(id, events[..i]), c)
    decreases i
  {
    if i > 0 {
      InTurnAddsUp(id, events, i - 1, c);
      StepAddsUp(id, events, i - 1, c);
    }
  }

  /** Where every record counts something, a day the aliases hold nothing of is one none of their windows is of. */
  lemma {:induction false} HeldExactly(id: LedgerID, events: seq<Event>, at: int, c: Counter)
    requires forall i :: 0 <= i < |events| && events[i].Charged? ==> Value(events[i].bill, c) > 0
    ensures
      var byAlias := AccountAfter(id, events).byAlias;
      Held(AccountAfter(id, events), at, c) == 0 <==>
      forall alias :: alias in byAlias ==> !OfDay(byAlias[alias].daily, at)
  {
    var account := AccountAfter(id, events);
    var windows := Dailies(account.byAlias);
    RunWholeDays(id, events);
    RunPositive(id, events, c);
    forall alias | alias in windows
      ensures OfDay(account.byAlias[alias].daily, at) <==> windows[alias].start == Some(StartOfDay(at))
      ensures Value(windows[alias].total, c) > 0
    {
      SameDay(account.byAlias[alias].daily, at);
    }
    PositiveShares(windows, StartOfDay(at), c);
  }

  lemma {:induction false} PositiveShares(windows: map<string, Window>, start: int, c: Counter)
    requires forall k :: k in windows ==> Value(windows[k].total, c) > 0
    ensures Shares(windows, start, c) == 0 <==> forall k :: k in windows ==> windows[k].start != Some(start)
  {
    if forall k :: k in windows ==> windows[k].start != Some(start) {
      SharesNone(windows, start, c);
    } else {
      var k :| k in windows && windows[k].start == Some(start);
      SharesPositive(windows - {k}, start, c);
      SharesWithout(windows, start, c, k);
    }
  }

  predicate Positive(account: Account, c: Counter) {
    forall alias :: alias in account.byAlias ==> Value(account.byAlias[alias].daily.total, c) > 0
  }

  lemma {:induction false} RunPositive(id: LedgerID, events: seq<Event>, c: Counter)
    requires forall i :: 0 <= i < |events| && events[i].Charged? ==> Value(events[i].bill, c) > 0
    ensures Positive(AccountAfter(id, events), c)
  {
    if events != [] {
      var front, event := events[..|events| - 1], events[|events| - 1];
      RunPositive(id, front, c);
      if event.Charged? {
        var account := AccountAfter(id, front);
        ChargePositive(account, AnchorOf(id, account), event.alias, event.bill, event.at, c);
      }
    }
  }

  lemma {:induction false} ChargePositive(account: Account, anchor: Option<int>, alias: string, bill: Bill,
          now: int, c: Counter)
    requires Positive(account, c) && Value(bill, c) > 0
    ensures Positive(Charge(account, anchor, alias, bill, now), c)
  {
    var w := AliasEntry(account, alias).daily;
    CountedValue(RolledDaily(w, now), bill, c);
    assert Value(NOTHING, c) == 0;
    assert Value(w.total, c) >= 0;
  }

  lemma {:induction false} SharesPositive(windows: map<string, Window>, start: int, c: Counter)
    requires forall k :: k in windows ==> Value(windows[k].total, c) > 0
    ensures Shares(windows, start, c) >= 0
    decreases |windows|
  {
    if windows != map[] {
      var k :| k in windows;
      SharesPositive(windows - {k}, start, c);
      SharesWithout(windows, start, c, k);
    }
  }

  /** A record of one alias, one of another a day later, and one more with the clock back on the first day. */
  function Setback(x: Bill, y: Bill, z: Bill): seq<Event> {
    [Charged(0, "a", x), Charged(DAY, "b", y), Charged(0, "b", z)]
  }

  /** The rows then show both records of the first day, the account only the last. */
  lemma {:induction false} DailyRowsExceedAfterSetback(id: LedgerID, x: Bill, y: Bill, z: Bill, c: Counter)
    requires Counted(x, c) && Counted(y, c) && Counted(z, c)
    ensures
      var account := AccountAfter(id, Setback(x, y, z));
      && account.daily.start == Some(0)
      && Value(account.daily.total, c) == Value(z, c)
      && Shares(Dailies(account.byAlias), 0, c) == Value(x, c) + Value(z, c)
  {
    var first := Charge(EMPTY, None, "a", x, 0);
    var second := Charge(first, None, "b", y, DAY);
    SetbackRun(id, x, y, z);
    var third := Charge(second, None, "b", z, 0);
    assert Dailies(EMPTY.byAlias) == map[];
    ChargeWholeDays(EMPTY, None, "a", x, 0);
    ChargeWholeDays(first, None, "b", y, DAY);
    RecordExcess(EMPTY, None, "a", x, 0, c);
    SecondDay(first, y, c);
    RecordExcess(second, None, "b", z, 0, c);
    NewDay(EMPTY.daily, x, 0, c);
    NewDay(second.daily, z, 0, c);
  }

  lemma {:induction false} NewDay(w: Window, bill: Bill, now: int, c: Counter)
    requires !OfDay(w, now) && Counted(bill, c)
    ensures Value(WithBill(RolledDaily(w, now), Clamped(bill)).total, c) == Value(bill, c)
  {
    CountedValue(RolledDaily(w, now), Clamped(bill), c);
    CountedValue(RolledDaily(w, now), bill, c);
    assert Value(NOTHING, c) == 0;
  }

  lemma {:induction false} SetbackRun(id: LedgerID, x: Bill, y: Bill, z: Bill)
    ensures AccountAfter(id, Setback(x, y, z)) ==
            Charge(Charge(Charge(EMPTY, None, "a", x, 0), None, "b", y, DAY), None, "b", z, 0)
  {
    var events := Setback(x, y, z);
    var none: seq<Event> := [];
    RunStep(id, none, events[0]);
    RunStep(id, [events[0]], events[1]);
    RunStep(id, [events[0], events[1]], events[2]);
    assert none + [events[0]] == [events[0]];
    assert [events[0]] + [events[1]] == [events[0], events[1]];
    assert [events[0], events[1]] + [events[2]] == events;
  }

  lemma {:induction false} RunStep(id: LedgerID, events: seq<Event>, event: Event)
    ensures AccountAfter(id, events + [event]) == Advance(id, AccountAfter(id, events), event)
  {
    assert (events + [event])[..|events|] == events;
  }

  lemma {:induction false} SecondDay(first: Account, y: Bill, c: Counter)
    requires "b" !in first.byAlias && first.daily.start == Some(0)
    ensures
      var second := Charge(first, None, "b", y, DAY);
      && second.daily.start == Some(DAY) && AliasEntry(second, "b").daily.start == Some(DAY)
      && Shares(Dailies(second.byAlias), 0, c) == Shares(Dailies(first.byAlias), 0, c)
  {
    var second := Charge(first, None, "b", y, DAY);
    var entry := WithBill(Window(Some(DAY), NOTHING), y);
    assert Dailies(second.byAlias) == Dailies(first.byAlias)["b" := entry];
    SharesUpdate(Dailies(first.byAlias), 0, c, "b", entry);
  }
}
