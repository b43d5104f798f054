/** The quota gate in front of scheduling, and the reset of selected accounts. */
module Quota {
  import opened Options
  import opened Text
  import opened Ledger
  import opened Limiter

  /** The limits of one binding; a limit that is not positive is no limit. */
  datatype Limits = Limits(scope: nat, enabled: bool, rpm: int, dailyUSD: int, weeklyUSD: int)

  datatype Decision = Allowed | RPMExceeded | DailyExceeded | WeeklyExceeded

  predicate Limited(binding: Option<Limits>) {
    && binding.Some? && binding.value.enabled
    && (binding.value.rpm > 0 || binding.value.dailyUSD > 0 || binding.value.weeklyUSD > 0)
  }

  function DailySpent(account: Account, now: int): int {
    RolledDaily(account.daily, now).total.usd
  }

  function WeeklySpent(id: LedgerID, account: Account, now: int): int {
    RolledWeekly(account.weekly, now, AnchorOf(id, account)).total.usd
  }

  /** The dollar limits alone. */
  function Spending(limits: Limits, account: Account, now: int): Decision {
    if limits.dailyUSD > 0 && DailySpent(account, now) >= limits.dailyUSD then DailyExceeded
    else if limits.weeklyUSD > 0 && WeeklySpent(Native(limits.scope), account, now) >= limits.weeklyUSD
    then WeeklyExceeded
    else Allowed
  }

  /** The bucket after the gate took from a positive allowance, and whether there was any left. */
  function Taken(limits: Limits, bucket: Option<Bucket>, now: int): (bool, Option<Bucket>) {
    if limits.rpm <= 0 then (true, bucket)
    else
      var (ok, after) := Take(bucket, limits.rpm, now);
      (ok, Some(after))
  }

  /** The gate's answer: the allowance first, then the dollars as sampled. */
  function Gate(binding: Option<Limits>, account: Account, bucket: Option<Bucket>, sampledAt: int,
          admittedAt: int): Decision {
    if !Limited(binding) then Allowed
    else if !Taken(binding.value, bucket, admittedAt).0 then RPMExceeded
    else Spending(binding.value, account, sampledAt)
  }

  /** The count that a request arriving now meets. */
  function Met(bucket: Option<Bucket>, now: int): nat {
    Current(bucket, now).count
  }

  /** Each answer's one cause, in terms of what a report at that moment shows; of several the first is given. */
  lemma {:induction false} GateExactly(binding: Option<Limits>, account: Account, bucket: Option<Bucket>,
          sampledAt: int, admittedAt: int)
    ensures
      var r := Gate(binding, account, bucket, sampledAt, admittedAt);
      && (r == RPMExceeded <==>
            && binding.Some? && binding.value.enabled && binding.value.rpm > 0
            && Met(bucket, admittedAt) >= binding.value.rpm)
      && (r == DailyExceeded <==>
            && r != RPMExceeded && binding.Some? && binding.value.enabled && binding.value.dailyUSD > 0
            && SummaryOf(Native(binding.value.scope), account, sampledAt).daily.usd >= binding.value.dailyUSD)
      && (r == WeeklyExceeded <==>
            && r != RPMExceeded && r != DailyExceeded && binding.Some? && binding.value.enabled
            && binding.value.weeklyUSD > 0
            && SummaryOf(Native(binding.value.scope), account, sampledAt).weekly.usd >= binding.value.weeklyUSD)
  {
  }

  // ------------------------------------------------------------------ runs of calls of one binding

  datatype GateCall = GateCall(account: Account, sampledAt: int, admittedAt: int)

  /** The bucket after the calls, and when those were made that were not refused for their rate. */
  datatype Passage = Passage(bucket: Option<Bucket>, passed: seq<int>)

  function Passages(limits: Limits, calls: seq<GateCall>): Passage {
    if calls == [] then Passage(None, [])
    else
      var before, call := Passages(limits, calls[..|calls| - 1]), calls[|calls| - 1];
      Passage(
        Taken(limits, before.bucket, call.admittedAt).1,
        if Gate(Some(limits), call.account, before.bucket, call.sampledAt, call.admittedAt) == RPMExceeded
        then before.passed else before.passed + [call.admittedAt])
  }

  function Readings(calls: seq<GateCall>): seq<int> {
    seq(|calls|, i requires 0 <= i < |calls| => calls[i].admittedAt)
  }

  /** The gate passes just what the limiter admits, whatever has been spent. */
  lemma {:induction false} PassagesAreAdmissions(limits: Limits, calls: seq<GateCall>)
    requires limits.enabled && limits.rpm > 0
    ensures Passages(limits, calls) ==
            var trace := Requests(limits.rpm, Readings(calls)); Passage(trace.bucket, trace.admitted)
  {
    if calls != [] {
      var front, call := calls[..|calls| - 1], calls[|calls| - 1];
      PassagesAreAdmissions(limits, front);
      assert Readings(calls) == Readings(front) + [call.admittedAt];
      RequestsNext(limits.rpm, Readings(front), call.admittedAt);
    }
  }

  /** So in any half-open minute at most 2·rpm - 1 calls get past the rate limit while no reading is behind. */
  lemma {:induction false} AtMostPassPerMinute(limits: Limits, calls: seq<GateCall>, from: int)
    requires limits.enabled && limits.rpm > 0 && NeverBehind(limits.rpm, Readings(calls))
    ensures InMinute(Passages(limits, calls).passed, from) <= 2 * limits.rpm - 1
  {
    PassagesAreAdmissions(limits, calls);
    AtMostPerMinute(limits.rpm, Readings(calls), from);
  }

  datatype ResetError = InvalidSelection | UnknownBinding | NotPersisted

  datatype ResetResult = Done(ids: seq<string>) | Failed(error: ResetError)

  const MAX_RESETS := 4096
  const MAX_ID := 4096
  const MAX_INPUT := 0x20_0000

  function NormalID(raw: string): string {
    ToLower(Trim(raw))
  }

  predicate ValidID(raw: string) {
    NormalID(raw) != "" && |raw| <= MAX_ID && '\0' !in NormalID(raw)
  }

  predicate ValidSelection(ids: seq<string>) {
    && 0 < |ids| <= MAX_RESETS && TotalLength(ids) <= MAX_INPUT
    && (forall i :: 0 <= i < |ids| ==> ValidID(ids[i]))
  }

  /** Refused are no or too many IDs, too much text, and an ID that is blank, too long or has a NUL. */
  lemma {:induction false} SelectionExactly(ids: seq<string>)
    ensures ValidSelection(ids) <==>
            && 0 < |ids| <= 4096 && TotalLength(ids) <= 0x20_0000
            && forall i :: 0 <= i < |ids| ==> Trim(ids[i]) != "" && |ids[i]| <= 4096 && '\0' !in ids[i]
  {
    forall i | 0 <= i < |ids| ensures NormalID(ids[i]) == "" <==> Trim(ids[i]) == ""
      ensures '\0' in NormalID(ids[i]) <==> '\0' in ids[i]
    {
      NulStays(ids[i]);
    }
    hide NormalID, Trim, TotalLength;
  }

  lemma {:induction false} NulStays(raw: string)
    ensures NormalID(raw) == "" <==> Trim(raw) == ""
    ensures '\0' in NormalID(raw) <==> '\0' in raw
  {
    var left, right := TrimExactly(raw);
    var s, id := Trim(raw), NormalID(raw);
    assert '\0' in raw <==> '\0' in s by {
      assert forall i :: 0 <= i < |left| ==> left[i] != '\0';
      assert forall i :: 0 <= i < |right| ==> right[i] != '\0';
      assert forall c :: c in raw <==> c in left || c in s || c in right;
    }
    forall i | 0 <= i < |s| ensures id[i] == '\0' <==> s[i] == '\0' {
      LowerExactly(s, i);
    }
    if i :| 0 <= i < |s| && s[i] == '\0' { assert id[i] == '\0'; }
  }

  /** The normalised IDs, each once, in the order of their first occurrence. */
  function Selected(ids: seq<string>): seq<string> {
    if ids == [] then []
    else
      var front, id := Selected(ids[..|ids| - 1]), NormalID(ids[|ids| - 1]);
      if id in front then front else front + [id]
  }

  /** Nothing is selected twice, and nothing is left out or added. */
  lemma {:induction false} SelectedOnce(ids: seq<string>)
    ensures forall i, j :: 0 <= i < j < |Selected(ids)| ==> Selected(ids)[i] != Selected(ids)[j]
    ensures forall id :: id in Selected(ids) <==> exists i :: 0 <= i < |ids| && NormalID(ids[i]) == id
  {
    if ids != [] {
      var front, last := ids[..|ids| - 1], ids[|ids| - 1];
      SelectedOnce(front);
      forall id | id in Selected(front) ensures exists i :: 0 <= i < |ids| && NormalID(ids[i]) == id {
        var i :| 0 <= i < |front| && NormalID(front[i]) == id;
        assert ids[i] == front[i];
      }
      forall i | 0 <= i < |ids| ensures NormalID(ids[i]) in Selected(ids) {
        assert i < |front| ==> ids[i] == front[i];
      }
    }
  }

  lemma {:induction false} LongerPrefix(ids: seq<string>, i: nat)
    requires i <= |ids|
    ensures TotalLength(ids[..i]) <= TotalLength(ids)
  {
    if i < |ids| {
      assert ids[..|ids| - 1][..i] == ids[..i];
      LongerPrefix(ids[..|ids| - 1], i);
    } else {
      assert ids[..i] == ids;
    }
  }

  /** The counters with the given accounts started afresh. */
  function WithResets(entries: map<LedgerID, Account>, ids: set<LedgerID>, resetAt: int): map<LedgerID, Account> {
    entries + (map id | id in ids :: ResetAccount(resetAt))
  }

  ghost function Members(ids: seq<LedgerID>): set<LedgerID> {
    set id | id in ids
  }

  lemma {:induction false} OneMore(ids: seq<LedgerID>, i: nat)
    requires i < |ids|
    ensures Members(ids[..i + 1]) == Members(ids[..i]) + {ids[i]}
  {
    assert ids[..i + 1] == ids[..i] + [ids[i]];
  }

  lemma {:induction false} OneMoreReset(entries: map<LedgerID, Account>, ids: set<LedgerID>, id: LedgerID, resetAt: int)
    ensures WithResets(entries, ids + {id}, resetAt) == WithResets(entries, ids, resetAt)[id := ResetAccount(resetAt)]
  {
  }

  lemma {:induction false} OneMoreDropped(buckets: map<LedgerID, Bucket>, ids: set<LedgerID>, id: LedgerID)
    ensures buckets - (ids + {id}) == buckets - ids - {id}
  {
  }

  class NativeQuota {
    /** Bindings by ID. */
    var bindings: map<string, Limits>
    const usage: UsageLedger
    const limiter: RateLimiter
    /** The counters in the state file; a store without a file has none. */
    var file: Option<map<LedgerID, Account>>

    constructor (bindings: map<string, Limits>, persistent: bool)
      ensures this.bindings == bindings && usage.entries == map[] && limiter.buckets == map[]
      ensures file == if persistent then Some(map[]) else None
      ensures fresh(usage) && fresh(limiter)
    {
      this.bindings := bindings;
      usage := new UsageLedger();
      limiter := new RateLimiter();
      file := if persistent then Some(map[]) else None;
    }

    /**
     Usage is sampled first, then a request is taken from the per-minute allowance, then the sampled
     spending is compared: a request over a dollar limit still uses up allowance.
     */
    method CheckNativeKeyQuota(binding: Option<Limits>, sampledAt: int, admittedAt: int) returns (r: Decision)
      modifies limiter
      ensures !Limited(binding) ==> r == Allowed && limiter.buckets == old(limiter.buckets)
      ensures r == RPMExceeded <==>
        && binding.Some? && binding.value.enabled && binding.value.rpm > 0
        && Met(old(limiter.BucketOf(Native(binding.value.scope))), admittedAt) >= binding.value.rpm
      ensures Limited(binding) ==>
        var id := Native(binding.value.scope);
        && r == Gate(binding, usage.AccountOf(id), old(limiter.BucketOf(id)), sampledAt, admittedAt)
        && limiter.BucketOf(id) == Taken(binding.value, old(limiter.BucketOf(id)), admittedAt).1
        && forall other :: other != id ==> limiter.BucketOf(other) == old(limiter.BucketOf(other))
    {
      if binding.None? || !binding.value.enabled {
        return Allowed;
      }
      var limits := binding.value;
      if limits.rpm <= 0 && limits.dailyUSD <= 0 && limits.weeklyUSD <= 0 {
        return Allowed;
      }
      var id := Native(limits.scope);
      var sample := usage.Summary(id, sampledAt);
      if limits.rpm > 0 {
        var ok := limiter.Allow(id, limits.rpm, admittedAt);
        if !ok {
          return RPMExceeded;
        }
      }
      if limits.dailyUSD > 0 && sample.daily.usd >= limits.dailyUSD {
        return DailyExceeded;
      }
      if limits.weeklyUSD > 0 && sample.weekly.usd >= limits.weeklyUSD {
        return WeeklyExceeded;
      }
      return Allowed;
    }

    /** The accounts of a selection of known bindings. */
    ghost function Accounts(selected: seq<string>): set<LedgerID>
      reads this
      requires forall i :: 0 <= i < |selected| ==> selected[i] in bindings
    {
      set i | 0 <= i < |selected| :: Native(bindings[selected[i]].scope)
    }

    /**
     All or nothing: every selected account starts a new period at one and the same moment, its
     allowance is forgotten, every other account and bucket stays, and the file agrees with memory;
     or an error is reported and nothing changes.
     */
    method ResetNativeKeyQuotas(ids: seq<string>, resetAt: int, writes: bool) returns (r: ResetResult)
      modifies this`file, usage, limiter
      ensures r.Failed? ==>
                usage.entries == old(usage.entries) && limiter.buckets == old(limiter.buckets) && file == old(file)
      ensures r == Failed(InvalidSelection) <==> !ValidSelection(ids)
      ensures r == Failed(UnknownBinding) <==>
                ValidSelection(ids) && exists id :: id in Selected(ids) && id !in bindings
      ensures r == Failed(NotPersisted) <==>
        && ValidSelection(ids) && (forall id :: id in Selected(ids) ==> id in bindings)
        && old(file).Some? && !writes
      ensures r.Done? ==>
        && r.ids == Selected(ids) && (forall i :: 0 <= i < |r.ids| ==> r.ids[i] in bindings)
        && usage.entries == WithResets(old(usage.entries), Accounts(r.ids), resetAt)
        && (forall id :: id in Accounts(r.ids) ==>
              usage.AccountOf(id) == ResetAccount(resetAt) && limiter.BucketOf(id) == None)
        && (forall id :: id !in Accounts(r.ids) ==>
              && usage.AccountOf(id) == old(usage.AccountOf(id))
              && limiter.BucketOf(id) == old(limiter.BucketOf(id)))
        && limiter.buckets == old(limiter.buckets) - Accounts(r.ids)
        && file == if old(file).Some? then Some(usage.entries) else None
    {
      var normalized := CheckSelection(ids);
      if normalized.None? {
        return Failed(InvalidSelection);
      }
      var selected := normalized.value;
      var accounts: seq<LedgerID> := [];
      for i := 0 to |selected|
        invariant |accounts| == i
        invariant forall j :: 0 <= j < i ==>
                    selected[j] in bindings && accounts[j] == Native(bindings[selected[j]].scope)
      {
        if selected[i] !in bindings {
          return Failed(UnknownBinding);
        }
        accounts := accounts + [Native(bindings[selected[i]].scope)];
      }
      assert Members(accounts) == Accounts(selected) by {
        forall i | 0 <= i < |selected| ensures Native(bindings[selected[i]].scope) in accounts {
          assert accounts[i] == Native(bindings[selected[i]].scope);
        }
      }
      var ok := ResetNativeQuotaAccounts(accounts, resetAt, writes);
      return if ok then Done(selected) else Failed(NotPersisted);
    }

    /** Validates and normalises a selection. */
    method CheckSelection(ids: seq<string>) returns (r: Option<seq<string>>)
      ensures r == if ValidSelection(ids) then Some(Selected(ids)) else None
    {
      if |ids| == 0 || |ids| > MAX_RESETS {
        return None;
      }
      var normalized: seq<string> := [];
      var inputBytes := 0;
      for i := 0 to |ids|
        invariant inputBytes == TotalLength(ids[..i]) <= MAX_INPUT
        invariant forall j :: 0 <= j < i ==> ValidID(ids[j])
        invariant normalized == Selected(ids[..i])
      {
        assert ids[..i + 1][..i] == ids[..i];
        inputBytes := inputBytes + |ids[i]|;
        var id := ToLower(Trim(ids[i]));
        if id == "" || |ids[i]| > MAX_ID || '\0' in id || inputBytes > MAX_INPUT {
          LongerPrefix(ids, i + 1);
          return None;
        }
        if id !in normalized {
          normalized := normalized + [id];
        }
      }
      assert ids[..|ids|] == ids;
      return Some(normalized);
    }

    /** The file is written before anything is published; if that fails, nothing is. */
    method ResetNativeQuotaAccounts(accounts: seq<LedgerID>, resetAt: int, writes: bool) returns (ok: bool)
      modifies this`file, usage, limiter
      ensures ok == (old(file).None? || writes)
      ensures !ok ==>
                usage.entries == old(usage.entries) && limiter.buckets == old(limiter.buckets) && file == old(file)
      ensures ok ==>
        && usage.entries == WithResets(old(usage.entries), Members(accounts), resetAt)
        && limiter.buckets == old(limiter.buckets) - Members(accounts)
        && file == if old(file).Some? then Some(usage.entries) else None
    {
      var snapshot := Prepare(accounts, resetAt);
      if file.Some? {
        if !writes {
          return false;
        }
        file := Some(snapshot);
      }
      Publish(accounts, snapshot, resetAt);
      return true;
    }

    /** A copy of the counters with the accounts started afresh. */
    method Prepare(accounts: seq<LedgerID>, resetAt: int) returns (snapshot: map<LedgerID, Account>)
      ensures snapshot == WithResets(usage.entries, Members(accounts), resetAt)
    {
      snapshot := usage.entries;
      for i := 0 to |accounts|
        invariant snapshot == WithResets(usage.entries, Members(accounts[..i]), resetAt)
      {
        OneMore(accounts, i);
        OneMoreReset(usage.entries, Members(accounts[..i]), accounts[i], resetAt);
        snapshot := snapshot[accounts[i] := ResetAccount(resetAt)];
      }
      assert accounts[..|accounts|] == accounts;
    }

    /** Moves the selected accounts from the snapshot into the ledger and drops their buckets. */
    method Publish(accounts: seq<LedgerID>, snapshot: map<LedgerID, Account>, ghost resetAt: int)
      requires snapshot == WithResets(usage.entries, Members(accounts), resetAt)
      modifies usage, limiter
      ensures usage.entries == snapshot
      ensures limiter.buckets == old(limiter.buckets) - Members(accounts)
    {
      ghost var entries, buckets := usage.entries, limiter.buckets;
      assert Members(accounts[..0]) == {};
      for i := 0 to |accounts|
        invariant usage.entries == WithResets(entries, Members(accounts[..i]), resetAt)
        invariant limiter.buckets == buckets - Members(accounts[..i])
      {
        OneMore(accounts, i);
        OneMoreReset(entries, Members(accounts[..i]), accounts[i], resetAt);
        OneMoreDropped(buckets, Members(accounts[..i]), accounts[i]);
        assert snapshot[accounts[i]] == ResetAccount(resetAt) by { assert accounts[i] in Members(accounts); }
        usage.entries := usage.entries[accounts[i] := snapshot[accounts[i]]];
        limiter.Reset(accounts[i]);
      }
      assert accounts[..|accounts|] == accounts;
    }
  }
}
