/**
 Spending when the clock may go anywhere. A read projects the next window without storing it, so a
 request can be let through on a window that its bill then misses. How far the stored window can pass
 its limit is told by the times alone: by how many bills it took since a request last read it.
 */
module LateBills {
  import opened Options
  import opened Ledger
  import opened Quota
  import opened Overshoot

  datatype Kind = Daily | Weekly

  function LimitOf(kind: Kind, limits: Limits): int {
    if kind.Daily? then limits.dailyUSD else limits.weeklyUSD
  }

  function Stored(kind: Kind, account: Account): Window {
    if kind.Daily? then account.daily else account.weekly
  }

  /** What a read at some moment reports of the window. */
  function Reported(kind: Kind, id: LedgerID, account: Account, at: int): int {
    if kind.Daily? then DailySpent(account, at) else WeeklySpent(id, account, at)
  }

  // ---------------------------------------------------------------------------------- what times tell

  /**
   One window as its times show it: its start, the account's anchor if that counts, the bills it took
   since a request last read it or since it began, and whether a request was let through on another
   window since then.
   */
  datatype View = View(start: Option<int>, anchor: Option<int>, unread: nat, ahead: bool)

  /** A read at that moment shows the stored window. */
  predicate Reads(kind: Kind, v: View, at: int) {
    && v.start.Some?
    && if kind.Daily? then v.start.value / DAY == at / DAY
       else if v.anchor.Some? then FixedStart(v.anchor.value, at) <= v.start.value
       else at - v.start.value < WEEK
  }

  /** Where a record that finds the window over begins the next one. */
  function NextStart(kind: Kind, v: View, at: int): int {
    if kind.Daily? then StartOfDay(at) else if v.anchor.Some? then FixedStart(v.anchor.value, at) else at
  }

  function Look(kind: Kind, scope: nat, v: View, step: Step): View {
    match step
    case Sampled(at) => if Reads(kind, v, at) then v.(unread := 0, ahead := false) else v.(ahead := true)
    case Recorded(at, _, _) =>
      if Reads(kind, v, at) then v.(unread := v.unread + 1) else View(Some(NextStart(kind, v, at)), v.anchor, 1, false)
    case Dropped(_) => v
    case Reset(at) =>
      View(Some(if kind.Daily? then StartOfDay(at) else at), if scope != 0 then Some(at) else None, 0, false)
  }

  function Watched(kind: Kind, scope: nat, v: View, steps: seq<Step>): View {
    if steps == [] then v
    else Look(kind, scope, Watched(kind, scope, v, steps[..|steps| - 1]), steps[|steps| - 1])
  }

  function ViewOf(kind: Kind, scope: nat, account: Account): View {
    View(Stored(kind, account).start, AnchorOf(Native(scope), account), 0, false)
  }

  predicate Fits(kind: Kind, scope: nat, v: View, account: Account) {
    v.start == Stored(kind, account).start && v.anchor == AnchorOf(Native(scope), account)
  }

  lemma {:induction false} ReportedExactly(kind: Kind, scope: nat, v: View, account: Account, at: int)
    requires Fits(kind, scope, v, account)
    ensures Reported(kind, Native(scope), account, at) ==
            if Reads(kind, v, at) then Stored(kind, account).total.usd else 0
  {
  }

  lemma {:induction false} BilledExactly(kind: Kind, t: Terms, v: View, s: Spend, step: Step)
    requires Fits(kind, t.limits.scope, v, s.account) && step.Recorded? && Legal(t, s, step)
    ensures Fits(kind, t.limits.scope, Look(kind, t.limits.scope, v, step), Take(t, s, step).account)
    ensures Stored(kind, Take(t, s, step).account).total.usd ==
            step.bill.usd + if Reads(kind, v, step.at) then Stored(kind, s.account).total.usd else 0
  {
    if kind.Daily? {
    } else if v.anchor.Some? {
    } else {
    }
  }

  lemma {:induction false} StillFits(kind: Kind, t: Terms, v: View, s: Spend, step: Step)
    requires Fits(kind, t.limits.scope, v, s.account) && Legal(t, s, step)
    ensures Fits(kind, t.limits.scope, Look(kind, t.limits.scope, v, step), Take(t, s, step).account)
  {
    if step.Recorded? { BilledExactly(kind, t, v, s, step); }
  }

  // ------------------------------------------------------------------------------------------- bound

  /** The stored window is below its limit but for one cap for each bill that no request has read. */
  predicate Below(kind: Kind, t: Terms, v: View, s: Spend) {
    && Fits(kind, t.limits.scope, v, s.account)
    && Stored(kind, s.account).total.usd < LimitOf(kind, t.limits) + v.unread * t.cap
  }

  lemma {:induction false} OneMore(n: nat, cap: nat)
    ensures (n + 1) * cap == n * cap + cap
  {
  }

  lemma {:induction false} StepBelow(kind: Kind, t: Terms, v: View, s: Spend, step: Step)
    requires LimitOf(kind, t.limits) > 0 && Below(kind, t, v, s) && Legal(t, s, step)
    ensures Below(kind, t, Look(kind, t.limits.scope, v, step), Take(t, s, step))
  {
    match step {
      case Sampled(at) => ReportedExactly(kind, t.limits.scope, v, s.account, at);
      case Recorded(at, alias, bill) =>
        BilledExactly(kind, t, v, s, step);
        OneMore(v.unread, t.cap);
      case Dropped(_) =>
      case Reset(_) =>
    }
  }

  lemma {:induction false} RunBelow(kind: Kind, t: Terms, start: Spend, steps: seq<Step>)
    requires LimitOf(kind, t.limits) > 0 && Stored(kind, start.account).total.usd < LimitOf(kind, t.limits)
    requires LegalRun(t, start, steps)
    ensures Below(kind, t, Watched(kind, t.limits.scope, ViewOf(kind, t.limits.scope, start.account), steps),
                  After(t, start, steps))
  {
    if steps != [] {
      var front := steps[..|steps| - 1];
      var v := Watched(kind, t.limits.scope, ViewOf(kind, t.limits.scope, start.account), front);
      RunBelow(kind, t, start, front);
      StepBelow(kind, t, v, After(t, start, front), steps[|steps| - 1]);
    }
  }

  // ---------------------------------------------------------------------------- exactly which schedules

  /** The same steps at the same times; what was billed may differ. */
  predicate SameTimes(steps: seq<Step>, others: seq<Step>) {
    && |steps| == |others|
    && forall i :: 0 <= i < |steps| ==> SameTime(steps[i], others[i])
  }

  predicate SameTime(step: Step, other: Step) {
    && step.at == other.at && step.Sampled? == other.Sampled? && step.Recorded? == other.Recorded?
    && step.Dropped? == other.Dropped?
  }

  lemma {:induction false} SameView(kind: Kind, scope: nat, v: View, steps: seq<Step>, others: seq<Step>)
    requires SameTimes(steps, others)
    ensures Watched(kind, scope, v, steps) == Watched(kind, scope, v, others)
  {
    if steps != [] {
      var last := |steps| - 1;
      SameView(kind, scope, v, steps[..last], others[..last]);
      assert SameTime(steps[last], others[last]);
    }
  }

  /** Requests in flight after the steps. */
  function Pending(steps: seq<Step>): int {
    if steps == [] then 0
    else
      var before, step := Pending(steps[..|steps| - 1]), steps[|steps| - 1];
      if step.Sampled? then before + 1 else if step.Reset? then before else before - 1
  }

  /** Only what is in flight is billed or dropped, and never more than slots are in flight. */
  predicate Feasible(slots: nat, steps: seq<Step>) {
    if steps == [] then true
    else
      var front, step := steps[..|steps| - 1], steps[|steps| - 1];
      && Feasible(slots, front)
      && (step.Sampled? ==> Pending(front) < slots)
      && (step.Recorded? || step.Dropped? ==> Pending(front) > 0)
  }

  /** Same window starts and anchor; what was spent may differ. */
  predicate SameWindows(account: Account, other: Account) {
    && account.daily.start == other.daily.start && account.weekly.start == other.weekly.start
    && account.anchor == other.anchor
  }

  /** Any legal spending at these times, from windows like these, under any limit and cap. */
  ghost predicate Possible(kind: Kind, scope: nat, slots: nat, account: Account, steps: seq<Step>,
                           t: Terms, from: Account, run: seq<Step>) {
    && t.limits.scope == scope && t.slots == slots && LimitOf(kind, t.limits) > 0
    && SameWindows(account, from) && Stored(kind, from).total.usd < LimitOf(kind, t.limits)
    && SameTimes(steps, run) && LegalRun(t, Spend(from, 0), run)
  }

  predicate Kept(kind: Kind, t: Terms, account: Account, now: int) {
    Reported(kind, Native(t.limits.scope), account, now) < LimitOf(kind, t.limits) + t.slots * t.cap
  }

  /** However the steps are priced, no report at the end of them passes the limit by the allowance. */
  ghost predicate AlwaysKept(kind: Kind, scope: nat, slots: nat, account: Account, steps: seq<Step>) {
    forall t, from, run, now ::
      Possible(kind, scope, slots, account, steps, t, from, run) ==>
        Kept(kind, t, After(t, Spend(from, 0), run).account, now)
  }

  function Unread(kind: Kind, scope: nat, account: Account, steps: seq<Step>): nat {
    Watched(kind, scope, ViewOf(kind, scope, account), steps).unread
  }

  lemma {:induction false} FewKeep(kind: Kind, scope: nat, slots: nat, account: Account, steps: seq<Step>,
                                   t: Terms, from: Account, run: seq<Step>, now: int)
    requires Unread(kind, scope, account, steps) <= slots
    requires Possible(kind, scope, slots, account, steps, t, from, run)
    ensures Kept(kind, t, After(t, Spend(from, 0), run).account, now)
  {
    var start := Spend(from, 0);
    var v := Watched(kind, scope, ViewOf(kind, scope, from), run);
    SameView(kind, scope, ViewOf(kind, scope, from), steps, run);
    assert ViewOf(kind, scope, account) == ViewOf(kind, scope, from);
    RunBelow(kind, t, start, run);
    ReportedExactly(kind, scope, v, After(t, start, run).account, now);
    FewerInFlight(v.unread, slots, t.cap);
    FewerInFlight(0, slots, t.cap);
  }

  /** Only this limit is set, at one, and a request costs one at most. */
  function Tight(kind: Kind, scope: nat, slots: nat): Terms {
    Terms(Limits(scope, true, 0, if kind.Daily? then 1 else 0, if kind.Daily? then 0 else 1), slots, 1)
  }

  function Emptied(account: Account): Account {
    account.(daily := Window(account.daily.start, NOTHING), weekly := Window(account.weekly.start, NOTHING))
  }

  /** The last n records cost one each and all others nothing. */
  function Priced(steps: seq<Step>, n: nat): seq<Step> {
    if steps == [] then []
    else
      var front, step := steps[..|steps| - 1], steps[|steps| - 1];
      if !step.Recorded? then Priced(front, n) + [step]
      else if n == 0 then Priced(front, 0) + [step.(bill := NOTHING)]
      else Priced(front, n - 1) + [step.(bill := NOTHING.(usd := 1))]
  }

  lemma {:induction false} PricedTimes(steps: seq<Step>, n: nat)
    ensures SameTimes(steps, Priced(steps, n))
  {
    if steps != [] {
      var front, step := steps[..|steps| - 1], steps[|steps| - 1];
      PricedTimes(front, if step.Recorded? && n > 0 then n - 1 else n);
    }
  }

  /** The run priced so is legal and ends with n in the window. */
  ghost predicate Reaches(kind: Kind, scope: nat, slots: nat, account: Account, steps: seq<Step>, n: nat) {
    var t, start, run := Tight(kind, scope, slots), Spend(Emptied(account), 0), Priced(steps, n);
    && LegalRun(t, start, run)
    && After(t, start, run).inFlight == Pending(steps)
    && Fits(kind, scope, Watched(kind, scope, ViewOf(kind, scope, account), steps), After(t, start, run).account)
    && Stored(kind, After(t, start, run).account).total.usd == n
  }

  /** One more step, a record costing one or nothing, takes the total from before to n. */
  lemma {:induction false} ReachesNext(kind: Kind, t: Terms, v: View, s: Spend, step: Step, before: nat, n: nat)
    requires t == Tight(kind, t.limits.scope, t.slots)
    requires Fits(kind, t.limits.scope, v, s.account) && Stored(kind, s.account).total.usd == before
    requires step.Sampled? ==> s.inFlight < t.slots
    requires step.Recorded? || step.Dropped? ==> s.inFlight > 0
    requires n <= Look(kind, t.limits.scope, v, step).unread
    requires before == if step.Recorded? && n > 0 then n - 1 else n
    requires step.Recorded? ==> step.bill == NOTHING.(usd := if n > 0 then 1 else 0)
    ensures Legal(t, s, step)
    ensures Fits(kind, t.limits.scope, Look(kind, t.limits.scope, v, step), Take(t, s, step).account)
    ensures Stored(kind, Take(t, s, step).account).total.usd == n
  {
    if step.Sampled? {
      ReportedExactly(kind, t.limits.scope, v, s.account, step.at);
    }
    StillFits(kind, t, v, s, step);
    if step.Recorded? {
      BilledExactly(kind, t, v, s, step);
    }
  }

  lemma {:induction false} LastPriced(kind: Kind, scope: nat, v: View, steps: seq<Step>, n: nat) returns (priced: Step)
    requires steps != [] && n <= Watched(kind, scope, v, steps).unread
    ensures
      var front, step := steps[..|steps| - 1], steps[|steps| - 1];
      var m := if step.Recorded? && n > 0 then n - 1 else n;
      && priced == (if step.Recorded? then step.(bill := NOTHING.(usd := if n > 0 then 1 else 0)) else step)
      && Priced(steps, n) == Priced(front, m) + [priced]
      && Watched(kind, scope, v, steps) == Look(kind, scope, Watched(kind, scope, v, front), priced)
      && m <= Watched(kind, scope, v, front).unread
  {
    var step := steps[|steps| - 1];
    priced := if step.Recorded? then step.(bill := NOTHING.(usd := if n > 0 then 1 else 0)) else step;
  }

  lemma {:induction false} ReachesMore(kind: Kind, scope: nat, slots: nat, account: Account, steps: seq<Step>, n: nat,
          front: seq<Step>, priced: Step, m: nat)
    requires Feasible(slots, steps) && n <= Unread(kind, scope, account, steps)
    requires steps != [] && front == steps[..|steps| - 1]
    requires Reaches(kind, scope, slots, account, front, m)
    requires var step := steps[|steps| - 1];
             && m == (if step.Recorded? && n > 0 then n - 1 else n)
             && priced == if step.Recorded? then step.(bill := NOTHING.(usd := if n > 0 then 1 else 0)) else step
    ensures
      var t, start := Tight(kind, scope, slots), Spend(Emptied(account), 0);
      && LegalRun(t, start, Priced(front, m) + [priced])
      && var end := After(t, start, Priced(front, m) + [priced]);
      && end.inFlight == Pending(steps)
      && Fits(kind, scope, Watched(kind, scope, ViewOf(kind, scope, account), steps), end.account)
      && Stored(kind, end.account).total.usd == n
  {
    var t, start := Tight(kind, scope, slots), Spend(Emptied(account), 0);
    var v := Watched(kind, scope, ViewOf(kind, scope, account), front);
    assert Watched(kind, scope, ViewOf(kind, scope, account), steps) == Look(kind, scope, v, priced);
    ReachesNext(kind, t, v, After(t, start, Priced(front, m)), priced, m, n);
    OneStepMore(t, start, Priced(front, m), priced);
  }

  lemma {:induction false} ReachesUnread(kind: Kind, scope: nat, slots: nat, account: Account, steps: seq<Step>, n: nat)
    requires Feasible(slots, steps) && n <= Unread(kind, scope, account, steps)
    ensures Reaches(kind, scope, slots, account, steps, n)
  {
    if steps != [] {
      var front, step := steps[..|steps| - 1], steps[|steps| - 1];
      var m := if step.Recorded? && n > 0 then n - 1 else n;
      var priced := LastPriced(kind, scope, ViewOf(kind, scope, account), steps, n);
      ReachesUnread(kind, scope, slots, account, front, m);
      ReachesMore(kind, scope, slots, account, steps, n, front, priced, m);
    }
  }

  lemma {:induction false} OneStepMore(t: Terms, s: Spend, front: seq<Step>, step: Step)
    requires LegalRun(t, s, front) && Legal(t, After(t, s, front), step)
    ensures LegalRun(t, s, front + [step]) && After(t, s, front + [step]) == Take(t, After(t, s, front), step)
  {
    assert (front + [step])[..|front|] == front;
  }

  /** A bill that no request has read was read the moment it was stored: some report shows it. */
  lemma {:induction false} UnreadIsReported(kind: Kind, scope: nat, v: View, steps: seq<Step>) returns (now: int)
    requires v.unread == 0 && Watched(kind, scope, v, steps).unread > 0
    ensures Reads(kind, Watched(kind, scope, v, steps), now)
  {
    var front, step := steps[..|steps| - 1], steps[|steps| - 1];
    if step.Recorded? {
      now := step.at;
    } else {
      now := UnreadIsReported(kind, scope, v, front);
    }
  }

  lemma {:induction false} ManyPass(kind: Kind, scope: nat, slots: nat, account: Account, steps: seq<Step>)
    requires Feasible(slots, steps) && Unread(kind, scope, account, steps) > slots
    ensures !AlwaysKept(kind, scope, slots, account, steps)
  {
    var n := Unread(kind, scope, account, steps);
    var t, from, run := Tight(kind, scope, slots), Emptied(account), Priced(steps, n);
    ReachesUnread(kind, scope, slots, account, steps, n);
    PricedTimes(steps, n);
    var v := ViewOf(kind, scope, account);
    var now := UnreadIsReported(kind, scope, v, steps);
    ReportedExactly(kind, scope, Watched(kind, scope, v, steps), After(t, Spend(from, 0), run).account, now);
    assert Possible(kind, scope, slots, account, steps, t, from, run);
    assert !Kept(kind, t, After(t, Spend(from, 0), run).account, now);
  }

  /**
   Whether steps at these times can carry a report past the limit by more than slots times cap depends
   on the times alone, and exactly on whether more than slots bills reached the stored window that no
   request has read. The clock may go anywhere.
   */
  lemma {:induction false} KeptExactly(kind: Kind, scope: nat, slots: nat, account: Account, steps: seq<Step>)
    requires Feasible(slots, steps)
    ensures AlwaysKept(kind, scope, slots, account, steps) <==> Unread(kind, scope, account, steps) <= slots
  {
    if Unread(kind, scope, account, steps) <= slots {
      forall t, from, run, now | Possible(kind, scope, slots, account, steps, t, from, run)
        ensures Kept(kind, t, After(t, Spend(from, 0), run).account, now)
      {
        FewKeep(kind, scope, slots, account, steps, t, from, run, now);
      }
    } else {
      ManyPass(kind, scope, slots, account, steps);
    }
  }

  // -------------------------------------------------------------------------------------- bills in turn

  /**
   No record is added to the stored window after a request was let through on reading another one,
   unless a request has read the stored one since.
   */
  predicate InTurn(kind: Kind, scope: nat, v: View, steps: seq<Step>) {
    if steps == [] then true
    else
      var front, step := steps[..|steps| - 1], steps[|steps| - 1];
      var before := Watched(kind, scope, v, front);
      InTurn(kind, scope, v, front) && (step.Recorded? && Reads(kind, before, step.at) ==> !before.ahead)
  }

  lemma {:induction false} InTurnFew(kind: Kind, scope: nat, slots: nat, v: View, steps: seq<Step>)
    requires v.unread == 0 && !v.ahead && Feasible(slots, steps) && InTurn(kind, scope, v, steps)
    ensures 0 <= Pending(steps) <= slots
    ensures Watched(kind, scope, v, steps).unread <= slots
    ensures !Watched(kind, scope, v, steps).ahead ==> Watched(kind, scope, v, steps).unread + Pending(steps) <= slots
  {
    if steps != [] {
      InTurnFew(kind, scope, slots, v, steps[..|steps| - 1]);
    }
  }

  /** With bills in turn the bound holds, whatever the clock does. */
  lemma {:induction false} InTurnKept(kind: Kind, t: Terms, account: Account, steps: seq<Step>, now: int)
    requires LimitOf(kind, t.limits) > 0 && Stored(kind, account).total.usd < LimitOf(kind, t.limits)
    requires LegalRun(t, Spend(account, 0), steps)
    requires InTurn(kind, t.limits.scope, ViewOf(kind, t.limits.scope, account), steps)
    ensures Kept(kind, t, After(t, Spend(account, 0), steps).account, now)
  {
    LegalIsFeasible(t, account, steps);
    InTurnFew(kind, t.limits.scope, t.slots, ViewOf(kind, t.limits.scope, account), steps);
    FewKeep(kind, t.limits.scope, t.slots, account, steps, t, account, steps, now);
  }

  lemma {:induction false} LegalIsFeasible(t: Terms, account: Account, steps: seq<Step>)
    requires LegalRun(t, Spend(account, 0), steps)
    ensures Feasible(t.slots, steps) && Pending(steps) == After(t, Spend(account, 0), steps).inFlight
  {
    if steps != [] {
      LegalIsFeasible(t, account, steps[..|steps| - 1]);
    }
  }

  /** The latest week that a request was sampled in since the last reset. */
  function LatestWeek(anchor: int, steps: seq<Step>): Option<int> {
    if steps == [] then None
    else
      var front, step := steps[..|steps| - 1], steps[|steps| - 1];
      var before, week := LatestWeek(anchor, front), FixedStart(AnchorAfter(anchor, front), step.at);
      match step
      case Sampled(_) => if before.Some? && before.value > week then before else Some(week)
      case Reset(_) => None
      case Recorded(_, _, _) => before
      case Dropped(_) => before
  }

  function AnchorAfter(anchor: int, steps: seq<Step>): int {
    if steps == [] then anchor
    else if steps[|steps| - 1].Reset? then steps[|steps| - 1].at
    else AnchorAfter(anchor, steps[..|steps| - 1])
  }

  /** No bill falls in an earlier week than the latest one a request was sampled in. */
  predicate NoEarlierWeek(anchor: int, steps: seq<Step>) {
    if steps == [] then true
    else
      var front, step := steps[..|steps| - 1], steps[|steps| - 1];
      var latest := LatestWeek(anchor, front);
      && NoEarlierWeek(anchor, front)
      && (step.Recorded? && latest.Some? ==> latest.value <= FixedStart(AnchorAfter(anchor, front), step.at))
  }

  /** Under a fixed schedule of weeks that is enough for bills to be in turn. */
  lemma {:induction false} NoEarlierWeekInTurn(scope: nat, v: View, anchor: int, steps: seq<Step>)
    requires scope != 0 && v.anchor == Some(anchor) && !v.ahead && NoEarlierWeek(anchor, steps)
    ensures InTurn(Weekly, scope, v, steps)
    ensures
      var after, latest := Watched(Weekly, scope, v, steps), LatestWeek(anchor, steps);
      && after.anchor == Some(AnchorAfter(anchor, steps))
      && (after.ahead ==> latest.Some? && (after.start.Some? ==> after.start.value < latest.value))
  {
    if steps != [] {
      NoEarlierWeekInTurn(scope, v, anchor, steps[..|steps| - 1]);
    }
  }

  /** A clock in order is enough, too. */
  lemma {:induction false} InOrderInTurn(kind: Kind, scope: nat, v: View, begin: int, steps: seq<Step>)
    requires !v.ahead && (v.start.Some? ==> v.start.value <= begin) && InOrder(begin, steps)
    requires kind.Weekly? && v.anchor.Some? ==> v.anchor.value <= begin
    ensures InTurn(kind, scope, v, steps)
    ensures
      var after, last := Watched(kind, scope, v, steps), LastTime(begin, steps);
      && (after.start.Some? ==> after.start.value <= last)
      && (kind.Weekly? && after.anchor.Some? ==> after.anchor.value <= last)
      && (after.ahead ==> !Reads(kind, after, last))
  {
    if steps != [] {
      var front, step := steps[..|steps| - 1], steps[|steps| - 1];
      InOrderInTurn(kind, scope, v, begin, front);
      var before := Watched(kind, scope, v, front);
      if !Reads(kind, before, LastTime(begin, front)) {
        NotReadLater(kind, before, LastTime(begin, front), step.at);
      }
    }
  }

  lemma {:induction false} NotReadLater(kind: Kind, v: View, now: int, later: int)
    requires now <= later && (v.start.Some? ==> v.start.value <= now) && !Reads(kind, v, now)
    ensures !Reads(kind, v, later)
  {
    if kind.Weekly? && v.anchor.Some? { LaterPeriod(v.anchor.value, now, later); }
  }

  // -------------------------------------------------------------------------------- bills out of turn

  function Billed(t: Terms, at: int): Step {
    Recorded(at, "", NOTHING.(usd := t.cap))
  }

  /** Rounds of a request sampled at one reading and billed at another. */
  function Rounds(t: Terms, ahead: int, behind: int, n: nat): seq<Step> {
    if n == 0 then [] else Rounds(t, ahead, behind, n - 1) + [Sampled(ahead), Billed(t, behind)]
  }

  predicate OnlyLimit(kind: Kind, limits: Limits) {
    && LimitOf(kind, limits) > 0
    && (if kind.Daily? then limits.weeklyUSD else limits.dailyUSD) <= 0
  }

  /** The steps leave window and requests in flight as they were and add to what a read behind shows. */
  ghost predicate Adds(kind: Kind, t: Terms, s: Spend, steps: seq<Step>, behind: int, usd: int) {
    && LegalRun(t, s, steps)
    && var end := After(t, s, steps);
    && end.inFlight == s.inFlight && Fits(kind, t.limits.scope, ViewOf(kind, t.limits.scope, s.account), end.account)
    && Reported(kind, Native(t.limits.scope), end.account, behind) ==
       Reported(kind, Native(t.limits.scope), s.account, behind) + usd
  }

  /**
   Any two readings of which one shows the stored window and the other does not carry the window past
   its limit by any amount, as often as they come again: each round is legal and adds the cap. One slot is
   enough.
   */
  lemma {:induction false} OutOfTurnUnbounded(kind: Kind, t: Terms, s: Spend, ahead: int, behind: int, n: nat)
    requires OnlyLimit(kind, t.limits) && s.inFlight < t.slots
    requires var v := ViewOf(kind, t.limits.scope, s.account); Reads(kind, v, behind) && !Reads(kind, v, ahead)
    ensures Adds(kind, t, s, Rounds(t, ahead, behind, n), behind, n * t.cap)
  {
    if n > 0 {
      OutOfTurnUnbounded(kind, t, s, ahead, behind, n - 1);
      OneMore(n - 1, t.cap);
      OneMoreRound(kind, t, s, Rounds(t, ahead, behind, n - 1), ahead, behind, (n - 1) * t.cap);
    }
  }

  lemma {:induction false} OneMoreRound(kind: Kind, t: Terms, s: Spend, front: seq<Step>, ahead: int, behind: int,
          usd: int)
    requires OnlyLimit(kind, t.limits) && s.inFlight < t.slots
    requires var v := ViewOf(kind, t.limits.scope, s.account); Reads(kind, v, behind) && !Reads(kind, v, ahead)
    requires Adds(kind, t, s, front, behind, usd)
    ensures Adds(kind, t, s, front + [Sampled(ahead), Billed(t, behind)], behind, usd + t.cap)
  {
    OneRound(kind, t, After(t, s, front), ViewOf(kind, t.limits.scope, s.account), ahead, behind);
    TwoMore(t, s, front, Sampled(ahead), Billed(t, behind));
  }

  lemma {:induction false} TwoMore(t: Terms, s: Spend, front: seq<Step>, first: Step, second: Step)
    requires LegalRun(t, s, front)
    requires Legal(t, After(t, s, front), first) && Legal(t, Take(t, After(t, s, front), first), second)
    ensures LegalRun(t, s, front + [first, second])
    ensures After(t, s, front + [first, second]) == Take(t, Take(t, After(t, s, front), first), second)
  {
    OneStepMore(t, s, front, first);
    OneStepMore(t, s, front + [first], second);
    assert front + [first] + [second] == front + [first, second];
  }

  lemma {:induction false} OneRound(kind: Kind, t: Terms, s: Spend, v: View, ahead: int, behind: int)
    requires OnlyLimit(kind, t.limits) && s.inFlight < t.slots && Fits(kind, t.limits.scope, v, s.account)
    requires Reads(kind, v, behind) && !Reads(kind, v, ahead)
    ensures Legal(t, s, Sampled(ahead)) && Legal(t, Take(t, s, Sampled(ahead)), Billed(t, behind))
    ensures
      var end := Take(t, Take(t, s, Sampled(ahead)), Billed(t, behind));
      && end.inFlight == s.inFlight && Fits(kind, t.limits.scope, v, end.account)
      && Reported(kind, Native(t.limits.scope), end.account, behind) ==
         Reported(kind, Native(t.limits.scope), s.account, behind) + t.cap
  {
    ReportedExactly(kind, t.limits.scope, v, s.account, ahead);
    ReportedExactly(kind, t.limits.scope, v, s.account, behind);
    var sampled := Take(t, s, Sampled(ahead));
    BilledExactly(kind, t, v, sampled, Billed(t, behind));
    ReportedExactly(kind, t.limits.scope, v, Take(t, sampled, Billed(t, behind)).account, behind);
  }

  /** A request let through ahead of the window still reads another one. */
  lemma {:induction false} ReadAhead(kind: Kind, scope: nat, v: View, steps: seq<Step>) returns (i: nat)
    requires !v.ahead && Watched(kind, scope, v, steps).ahead
    ensures i < |steps| && steps[i].Sampled? && !Reads(kind, Watched(kind, scope, v, steps), steps[i].at)
  {
    var front, last := steps[..|steps| - 1], |steps| - 1;
    if steps[last].Sampled? && !Reads(kind, Watched(kind, scope, v, front), steps[last].at) {
      i := last;
    } else {
      i := ReadAhead(kind, scope, v, front);
    }
  }

  /**
   So bills in turn are all that can be relied on: in a run whose next bill is out of turn, that bill's
   reading and one of an earlier request, repeated, pass the limit by any amount.
   */
  lemma {:induction false} OutOfTurnPasses(kind: Kind, t: Terms, account: Account, steps: seq<Step>, behind: int,
          n: nat)
    returns (i: nat)
    requires OnlyLimit(kind, t.limits) && LegalRun(t, Spend(account, 0), steps)
    requires After(t, Spend(account, 0), steps).inFlight < t.slots
    requires InTurn(kind, t.limits.scope, ViewOf(kind, t.limits.scope, account), steps)
    requires !InTurn(kind, t.limits.scope, ViewOf(kind, t.limits.scope, account), steps + [Billed(t, behind)])
    ensures i < |steps| && steps[i].Sampled?
    ensures
      var s := After(t, Spend(account, 0), steps);
      Adds(kind, t, s, Rounds(t, steps[i].at, behind, n), behind, n * t.cap)
  {
    var scope, s := t.limits.scope, After(t, Spend(account, 0), steps);
    var v := ViewOf(kind, scope, account);
    assert (steps + [Billed(t, behind)])[..|steps|] == steps;
    i := ReadAhead(kind, scope, v, steps);
    RunFits(kind, t, account, steps);
    OutOfTurnUnbounded(kind, t, s, steps[i].at, behind, n);
  }

  lemma {:induction false} RunFits(kind: Kind, t: Terms, account: Account, steps: seq<Step>)
    requires LegalRun(t, Spend(account, 0), steps)
    ensures Fits(kind, t.limits.scope, Watched(kind, t.limits.scope, ViewOf(kind, t.limits.scope, account), steps),
                 After(t, Spend(account, 0), steps).account)
  {
    if steps != [] {
      var front := steps[..|steps| - 1];
      RunFits(kind, t, account, front);
      StillFits(kind, t, Watched(kind, t.limits.scope, ViewOf(kind, t.limits.scope, account), front),
                After(t, Spend(account, 0), front), steps[|steps| - 1]);
    }
  }

  /**
   The day that shows it: a daily limit of one micro-unit and one slot. Two requests sampled after
   midnight and billed when the clock is back before it leave the day at two, not below one plus one.
   */
  lemma {:induction false} DayIsPassed(scope: nat, steps: seq<Step>)
    requires steps == [Sampled(2 * DAY), Recorded(DAY, "", NOTHING.(usd := 1)),
                       Sampled(2 * DAY), Recorded(DAY, "", NOTHING.(usd := 1))]
    ensures
      var t, start := Tight(Daily, scope, 1), Spend(ResetAccount(DAY), 0);
      && Spending(t.limits, start.account, DAY) == Allowed && LegalRun(t, start, steps)
      && !Kept(Daily, t, After(t, start, steps).account, DAY)
  {
    var t, start := Tight(Daily, scope, 1), Spend(ResetAccount(DAY), 0);
    OutOfTurnUnbounded(Daily, t, start, 2 * DAY, DAY, 2);
    assert Rounds(t, 2 * DAY, DAY, 1) == steps[..2];
    assert Rounds(t, 2 * DAY, DAY, 2) == steps;
  }
}
