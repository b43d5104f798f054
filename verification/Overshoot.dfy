/**
 How far spending can pass a dollar limit. A request is let through while its window is under the
 limit and is billed only when it ends, so requests in flight can carry the window past the limit,
 but never by more than the number that may be in flight times what one can cost.
 */
module Overshoot {
  import opened Options
  import opened Ledger
  import opened Quota

  /** A run of one native account. A request is in flight from the moment its usage is sampled. */
  datatype Step =
    | Sampled(at: int)
    | Recorded(at: int, alias: string, bill: Bill)
    | Dropped(at: int)
    | Reset(at: int)

  datatype Spend = Spend(account: Account, inFlight: nat)

  /** At most slots requests in flight, each costing between 0 and cap. */
  datatype Terms = Terms(limits: Limits, slots: nat, cap: nat)

  predicate Legal(t: Terms, s: Spend, step: Step) {
    match step
    case Sampled(at) => s.inFlight < t.slots && Spending(t.limits, s.account, at) == Allowed
    case Recorded(at, alias, bill) => s.inFlight > 0 && 0 <= bill.usd <= t.cap
    case Dropped(at) => s.inFlight > 0
    case Reset(at) => true
  }

  function Take(t: Terms, s: Spend, step: Step): Spend
    requires Legal(t, s, step)
  {
    match step
    case Sampled(at) => s.(inFlight := s.inFlight + 1)
    case Recorded(at, alias, bill) =>
      Spend(Charge(s.account, AnchorOf(Native(t.limits.scope), s.account), alias, bill, at), s.inFlight - 1)
    case Dropped(at) => s.(inFlight := s.inFlight - 1)
    case Reset(at) => s.(account := ResetAccount(at))
  }

  /** The steps are legal one after the other, at any times. */
  predicate LegalRun(t: Terms, start: Spend, steps: seq<Step>)
    decreases |steps|, 0
  {
    if steps == [] then true
    else
      var front := steps[..|steps| - 1];
      LegalRun(t, start, front) && Legal(t, After(t, start, front), steps[|steps| - 1])
  }

  function After(t: Terms, start: Spend, steps: seq<Step>): Spend
    requires LegalRun(t, start, steps)
    decreases |steps|, 1
  {
    if steps == [] then start else Take(t, After(t, start, steps[..|steps| - 1]), steps[|steps| - 1])
  }

  /** The clock does not go back after begin. */
  predicate InOrder(begin: int, steps: seq<Step>) {
    if steps == [] then true
    else
      var front := steps[..|steps| - 1];
      InOrder(begin, front) && LastTime(begin, front) <= steps[|steps| - 1].at
  }

  function LastTime(begin: int, steps: seq<Step>): int {
    if steps == [] then begin else steps[|steps| - 1].at
  }

  /** The window, with everything in flight billed at its highest, stays below the limit plus the allowance. */
  predicate Within(limit: int, spent: int, inFlight: nat, slots: nat, cap: nat) {
    limit > 0 ==> spent + inFlight * cap < limit + slots * cap
  }

  predicate Bounded(t: Terms, s: Spend, now: int) {
    && s.inFlight <= t.slots
    && (s.account.daily.start.Some? ==> s.account.daily.start.value <= now)
    && Within(t.limits.dailyUSD, DailySpent(s.account, now), s.inFlight, t.slots, t.cap)
    && Within(t.limits.weeklyUSD, WeeklySpent(Native(t.limits.scope), s.account, now), s.inFlight, t.slots, t.cap)
  }

  // ----------------------------------------------------------------------------------- time passing

  /** As time passes a window keeps its total or starts again from nothing. */
  lemma {:induction false} LaterDaily(w: Window, now: int, later: int)
    requires now <= later && (w.start.Some? ==> w.start.value <= now)
    ensures RolledDaily(w, later).total.usd == RolledDaily(w, now).total.usd || RolledDaily(w, later).total.usd == 0
  {
  }

  lemma {:induction false} LaterPeriod(anchor: int, now: int, later: int)
    requires now <= later
    ensures FixedStart(anchor, now) <= FixedStart(anchor, later)
  {
  }

  lemma {:induction false} LaterWeekly(w: Window, anchor: Option<int>, now: int, later: int)
    requires now <= later
    ensures RolledWeekly(w, later, anchor).total.usd == RolledWeekly(w, now, anchor).total.usd
            || RolledWeekly(w, later, anchor).total.usd == 0
  {
    if anchor.Some? { LaterPeriod(anchor.value, now, later); }
  }

  lemma {:induction false} FewerInFlight(few: nat, many: nat, cap: nat)
    requires few <= many
    ensures few * cap <= many * cap
  {
  }

  lemma {:induction false} LaterBounded(t: Terms, s: Spend, now: int, later: int)
    requires Bounded(t, s, now) && now <= later
    ensures Bounded(t, s, later)
  {
    LaterDaily(s.account.daily, now, later);
    LaterWeekly(s.account.weekly, AnchorOf(Native(t.limits.scope), s.account), now, later);
    FewerInFlight(s.inFlight, t.slots, t.cap);
  }

  // ------------------------------------------------------------------------------------------ steps

  lemma {:induction false} OneBilled(inFlight: nat, cap: nat)
    requires inFlight > 0
    ensures (inFlight - 1) * cap + cap == inFlight * cap
  {
  }

  lemma {:induction false} RecordedBounded(t: Terms, s: Spend, at: int, alias: string, bill: Bill)
    requires Bounded(t, s, at) && Legal(t, s, Recorded(at, alias, bill))
    ensures Bounded(t, Take(t, s, Recorded(at, alias, bill)), at)
  {
    var id := Native(t.limits.scope);
    var after := Take(t, s, Recorded(at, alias, bill));
    assert DailySpent(after.account, at) == DailySpent(s.account, at) + bill.usd;
    assert AnchorOf(id, after.account) == AnchorOf(id, s.account);
    assert WeeklySpent(id, after.account, at) == WeeklySpent(id, s.account, at) + bill.usd;
    OneBilled(s.inFlight, t.cap);
  }

  lemma {:induction false} SampledBounded(t: Terms, s: Spend, at: int)
    requires Bounded(t, s, at) && Legal(t, s, Sampled(at))
    ensures Bounded(t, Take(t, s, Sampled(at)), at)
  {
    FewerInFlight(s.inFlight + 1, t.slots, t.cap);
  }

  lemma {:induction false} ReleasedBounded(t: Terms, s: Spend, step: Step)
    requires Bounded(t, s, step.at) && Legal(t, s, step) && (step.Dropped? || step.Reset?)
    ensures Bounded(t, Take(t, s, step), step.at)
  {
    if step.Dropped? {
      OneBilled(s.inFlight, t.cap);
    } else {
      FewerInFlight(s.inFlight, t.slots, t.cap);
    }
  }

  lemma {:induction false} RunBounded(t: Terms, start: Spend, steps: seq<Step>, begin: int)
    requires Bounded(t, start, begin) && LegalRun(t, start, steps) && InOrder(begin, steps)
    ensures Bounded(t, After(t, start, steps), LastTime(begin, steps))
  {
    if steps != [] {
      var front, step := steps[..|steps| - 1], steps[|steps| - 1];
      RunBounded(t, start, front, begin);
      var s := After(t, start, front);
      LaterBounded(t, s, LastTime(begin, front), step.at);
      match step {
        case Sampled(at) => SampledBounded(t, s, at);
        case Recorded(at, alias, bill) => RecordedBounded(t, s, at, alias, bill);
        case Dropped(_) => ReleasedBounded(t, s, step);
        case Reset(_) => ReleasedBounded(t, s, step);
      }
    }
  }

  /**
   With the clock in order: from an account under its limits with nothing in flight, whatever is
   admitted, billed, dropped or reset, each limited window's dollars stay below its limit plus slots
   times cap, also as time passes and windows roll. LateBills drops the order.
   */
  lemma {:induction false} SpendingBounded(t: Terms, account: Account, begin: int, steps: seq<Step>, now: int)
    requires account.daily.start.Some? ==> account.daily.start.value <= begin
    requires Spending(t.limits, account, begin) == Allowed
    requires LegalRun(t, Spend(account, 0), steps) && InOrder(begin, steps) && LastTime(begin, steps) <= now
    ensures
      var after := After(t, Spend(account, 0), steps).account;
      && (t.limits.dailyUSD > 0 ==> DailySpent(after, now) < t.limits.dailyUSD + t.slots * t.cap)
      && (t.limits.weeklyUSD > 0 ==>
            WeeklySpent(Native(t.limits.scope), after, now) < t.limits.weeklyUSD + t.slots * t.cap)
  {
    FewerInFlight(0, t.slots, t.cap);
    RunBounded(t, Spend(account, 0), steps, begin);
    var s := After(t, Spend(account, 0), steps);
    LaterBounded(t, s, LastTime(begin, steps), now);
    FewerInFlight(0, s.inFlight, t.cap);
  }
}
