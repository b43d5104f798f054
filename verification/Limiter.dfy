/** The per-minute request limiter. */
module Limiter {
  import opened Options
  import opened Ledger

  const MINUTE := 60

  datatype Bucket = Bucket(start: int, count: nat)

  /** The bucket a request meets: a fresh one when there is none, it has expired, or the clock went back. */
  function Current(bucket: Option<Bucket>, now: int): Bucket {
    if bucket.None? || now - bucket.value.start >= MINUTE || now < bucket.value.start then Bucket(now, 0)
    else bucket.value
  }

  /** Decision and new bucket for a positive limit. */
  function Take(bucket: Option<Bucket>, rpm: nat, now: int): (bool, Bucket) {
    var b := Current(bucket, now);
    if b.count >= rpm then (false, b) else (true, Bucket(b.start, b.count + 1))
  }

  class RateLimiter {
    var buckets: map<LedgerID, Bucket>

    constructor ()
      ensures buckets == map[]
    {
      buckets := map[];
    }

    function BucketOf(id: LedgerID): (b: Option<Bucket>)
      reads this
      ensures id in buckets ==> b == Some(buckets[id])
      ensures id !in buckets ==> b == None
    {
      if id in buckets then Some(buckets[id]) else None
    }

    method Allow(id: LedgerID, rpm: int, now: int) returns (ok: bool)
      modifies this
      ensures rpm <= 0 ==> ok && buckets == old(buckets)
      ensures rpm > 0 ==>
        ok == Take(old(BucketOf(id)), rpm, now).0 && buckets == old(buckets)[id := Take(old(BucketOf(id)), rpm, now).1]
    {
      if rpm <= 0 {
        return true;
      }
      var bucket := if id in buckets then buckets[id] else Bucket(now, 0);
      if id !in buckets || now - bucket.start >= MINUTE || now < bucket.start {
        bucket := Bucket(now, 0);
      }
      if bucket.count >= rpm {
        buckets := buckets[id := bucket];
        return false;
      }
      bucket := bucket.(count := bucket.count + 1);
      buckets := buckets[id := bucket];
      return true;
    }

    /** What a read reports: the count a request arriving now would meet. */
    method SnapshotID(id: LedgerID, now: int) returns (count: nat)
      ensures count == Current(BucketOf(id), now).count
    {
      if id !in buckets {
        return 0;
      }
      var bucket := buckets[id];
      if now - bucket.start >= MINUTE || now < bucket.start {
        return 0;
      }
      return bucket.count;
    }

    method Reset(id: LedgerID)
      modifies this
      ensures buckets == old(buckets) - {id}
    {
      buckets := buckets - {id};
    }
  }

  // ------------------------------------------------------------------- which requests are admitted

  /** After requests at the given times: the bucket, and the times that were admitted. */
  datatype Trace = Trace(bucket: Option<Bucket>, admitted: seq<int>)

  function Extend(before: Trace, rpm: nat, now: int): Trace {
    var (ok, bucket) := Take(before.bucket, rpm, now);
    Trace(Some(bucket), if ok then before.admitted + [now] else before.admitted)
  }

  function Requests(rpm: nat, times: seq<int>): Trace {
    if times == [] then Trace(None, []) else Extend(Requests(rpm, times[..|times| - 1]), rpm, times[|times| - 1])
  }

  /** The request that opened the current minute: one a minute or more after it, or before it, opens the next. */
  function Opener(times: seq<int>): (i: nat)
    requires times != []
    ensures i < |times|
  {
    var last := |times| - 1;
    if last == 0 then 0
    else
      var o := Opener(times[..last]);
      if times[last] - times[o] >= MINUTE || times[last] < times[o] then last else o
  }

  function Least(a: int, b: int): int {
    if a < b then a else b
  }

  lemma {:induction false} BucketExactly(rpm: nat, times: seq<int>)
    requires times != []
    ensures Requests(rpm, times).bucket == Some(Bucket(times[Opener(times)], Least(rpm, |times| - Opener(times))))
  {
    var last := |times| - 1;
    if last > 0 {
      BucketExactly(rpm, times[..last]);
    } else {
      assert times[..0] == [];
    }
  }

  /**
   A request is admitted if and only if fewer than rpm came before it since the current minute was opened, be
   they admitted or not; the count it meets is the number of those, up to the limit.
   */
  lemma {:induction false} AdmittedExactly(rpm: nat, times: seq<int>, now: int)
    ensures
      var since, bucket := |times| - Opener(times + [now]), Requests(rpm, times).bucket;
      && Current(bucket, now).count == Least(rpm, since)
      && (Take(bucket, rpm, now).0 <==> since < rpm)
  {
    assert (times + [now])[..|times|] == times;
    if times != [] {
      BucketExactly(rpm, times);
    }
  }

  // ------------------------------------------------------------------- how much a minute can admit

  predicate Within(now: int, from: int) {
    from <= now < from + MINUTE
  }

  /** Requests admitted at times in [from, from + MINUTE). */
  function InMinute(admitted: seq<int>, from: int): nat {
    if admitted == [] then 0
    else InMinute(admitted[..|admitted| - 1], from) + if Within(admitted[|admitted| - 1], from) then 1 else 0
  }

  lemma {:induction false} InMinuteNext(admitted: seq<int>, now: int, from: int)
    ensures InMinute(admitted + [now], from) == InMinute(admitted, from) + if Within(now, from) then 1 else 0
  {
    assert (admitted + [now])[..|admitted|] == admitted;
  }

  /** The branch that opens a new bucket because the clock is behind the old one is never taken. */
  predicate NeverBehind(rpm: nat, times: seq<int>) {
    times == [] || (NeverBehind(rpm, times[..|times| - 1]) && !Behind(rpm, times[..|times| - 1], times[|times| - 1]))
  }

  /** The reading precedes the start of the bucket that it meets. */
  predicate Behind(rpm: nat, times: seq<int>, now: int) {
    var bucket := Requests(rpm, times).bucket;
    bucket.Some? && now < bucket.value.start
  }

  lemma {:induction false} RequestsNext(rpm: nat, times: seq<int>, now: int)
    ensures Requests(rpm, times + [now]) == Extend(Requests(rpm, times), rpm, now)
    ensures NeverBehind(rpm, times + [now]) == (NeverBehind(rpm, times) && !Behind(rpm, times, now))
  {
    assert (times + [now])[..|times|] == times;
  }

  /** What the bucket's place says about the minute from here on: it decides how many more can still come. */
  ghost predicate Bounded(trace: Trace, rpm: nat, from: int) {
    var n := InMinute(trace.admitted, from);
    match trace.bucket
    case None => n == 0
    case Some(b) =>
      && 1 <= b.count <= rpm
      && (b.start <= from - MINUTE ==> n == 0)
      && (from - MINUTE < b.start < from ==> n <= b.count - 1)
      && (Within(b.start, from) ==> n <= rpm - 1 + b.count)
      && n <= 2 * rpm - 1
  }

  lemma {:induction false} ExtendBounded(before: Trace, rpm: nat, now: int, from: int)
    requires rpm > 0 && Bounded(before, rpm, from)
    requires before.bucket.Some? ==> before.bucket.value.start <= now
    ensures Bounded(Extend(before, rpm, now), rpm, from)
  {
    InMinuteNext(before.admitted, now, from);
  }

  /**
   While no reading precedes the start of the bucket it meets, any half-open minute admits at most
   2·rpm - 1 requests.
   */
  lemma {:induction false} AtMostPerMinute(rpm: nat, times: seq<int>, from: int)
    requires rpm > 0 && NeverBehind(rpm, times)
    ensures InMinute(Requests(rpm, times).admitted, from) <= 2 * rpm - 1
  {
    StaysBounded(rpm, times, from);
  }

  lemma {:induction false} StaysBounded(rpm: nat, times: seq<int>, from: int)
    requires rpm > 0 && NeverBehind(rpm, times)
    ensures Bounded(Requests(rpm, times), rpm, from)
  {
    if times != [] {
      StaysBounded(rpm, times[..|times| - 1], from);
      ExtendBounded(Requests(rpm, times[..|times| - 1]), rpm, times[|times| - 1], from);
    }
  }

  predicate Nondecreasing(times: seq<int>) {
    forall i, j :: 0 <= i <= j < |times| ==> times[i] <= times[j]
  }

  lemma {:induction false} StartIsReading(rpm: nat, times: seq<int>)
    ensures times != [] ==> Requests(rpm, times).bucket.Some? && Requests(rpm, times).bucket.value.start in times
  {
    if times != [] {
      StartIsReading(rpm, times[..|times| - 1]);
    }
  }

  /** In particular when the clock is read in order. */
  lemma {:induction false} OrderedIsNeverBehind(rpm: nat, times: seq<int>)
    requires Nondecreasing(times)
    ensures NeverBehind(rpm, times)
  {
    if times != [] {
      var front := times[..|times| - 1];
      OrderedIsNeverBehind(rpm, front);
      StartIsReading(rpm, front);
    }
  }

  // ---- the bound is the best one

  /** k more readings of this time. */
  function Repeated(times: seq<int>, now: int, k: nat): seq<int> {
    if k == 0 then times else Repeated(times, now, k - 1) + [now]
  }

  /** k more admissions at this time into the same bucket. */
  ghost predicate Filled(before: Trace, after: Trace, now: int, k: nat, from: int) {
    && before.bucket.Some?
    && after.bucket == Some(Bucket(before.bucket.value.start, before.bucket.value.count + k))
    && InMinute(after.admitted, from) == InMinute(before.admitted, from) + (if Within(now, from) then k else 0)
  }

  lemma {:induction false} FilledNext(before: Trace, after: Trace, rpm: nat, now: int, k: nat, from: int)
    requires Filled(before, after, now, k, from)
    requires Within(now, before.bucket.value.start) && before.bucket.value.count + k < rpm
    ensures Filled(before, Extend(after, rpm, now), now, k + 1, from)
  {
    InMinuteNext(after.admitted, now, from);
  }

  /** So far the readings since times all found room in its bucket. */
  ghost predicate Fills(rpm: nat, times: seq<int>, longer: seq<int>, now: int, k: nat, from: int) {
    && Filled(Requests(rpm, times), Requests(rpm, longer), now, k, from)
    && (NeverBehind(rpm, times) ==> NeverBehind(rpm, longer))
  }

  lemma {:induction false} FillOneMore(rpm: nat, times: seq<int>, longer: seq<int>, now: int, k: nat, from: int)
    requires Fills(rpm, times, longer, now, k, from)
    requires var b := Requests(rpm, times).bucket.value; Within(now, b.start) && b.count + k < rpm
    ensures Fills(rpm, times, longer + [now], now, k + 1, from)
  {
    FilledNext(Requests(rpm, times), Requests(rpm, longer), rpm, now, k, from);
    RequestsNext(rpm, longer, now);
  }

  /** Readings that all find room in the current bucket. */
  lemma {:induction false} FillBucket(rpm: nat, times: seq<int>, now: int, k: nat, from: int)
    requires Requests(rpm, times).bucket.Some?
    requires var b := Requests(rpm, times).bucket.value; Within(now, b.start) && b.count + k <= rpm
    ensures Fills(rpm, times, Repeated(times, now, k), now, k, from)
    decreases k
  {
    assert Repeated(times, now, k) == if k == 0 then times else Repeated(times, now, k - 1) + [now];
    assert Fills(rpm, times, times, now, 0, from);
    hide *;
    if k > 0 {
      FillBucket(rpm, times, now, k - 1, from);
      FillOneMore(rpm, times, Repeated(times, now, k - 1), now, k - 1, from);
    }
  }

  /** Readings never behind, the bucket they leave, and what they put into the minute that begins at 1. */
  ghost predicate Leaves(rpm: nat, times: seq<int>, start: int, count: nat, n: nat) {
    && NeverBehind(rpm, times) && Requests(rpm, times).bucket == Some(Bucket(start, count))
    && InMinute(Requests(rpm, times).admitted, 1) == n
  }

  lemma {:induction false} FillLeaves(rpm: nat, times: seq<int>, start: int, count: nat, n: nat, now: int, k: nat)
    requires Leaves(rpm, times, start, count, n) && Within(now, start) && Within(now, 1) && count + k <= rpm
    ensures Leaves(rpm, Repeated(times, now, k), start, count + k, n + k)
  {
    hide Repeated, Requests, NeverBehind, InMinute;
    FillBucket(rpm, times, now, k, 1);
  }

  lemma {:induction false} RollLeaves(rpm: nat, times: seq<int>, start: int, count: nat, n: nat, now: int)
    requires rpm > 0 && Leaves(rpm, times, start, count, n) && now - start >= MINUTE && Within(now, 1)
    ensures Leaves(rpm, times + [now], now, 1, n + 1)
  {
    RequestsNext(rpm, times, now);
    InMinuteNext(Requests(rpm, times).admitted, now, 1);
  }

  lemma {:induction false} FirstLeaves(rpm: nat)
    requires rpm > 0
    ensures Leaves(rpm, [] + [0], 0, 1, 0)
  {
    RequestsNext(rpm, [], 0);
    InMinuteNext([], 0, 1);
  }

  /** One request, rpm - 1 more at the end of its minute, and rpm at the start of the next. */
  lemma {:induction false} BoundIsReached(rpm: nat) returns (times: seq<int>)
    requires rpm > 0
    ensures NeverBehind(rpm, times) && InMinute(Requests(rpm, times).admitted, 1) == 2 * rpm - 1
  {
    hide Repeated, Requests, NeverBehind, InMinute;
    FirstLeaves(rpm);
    times := [] + [0];
    FillLeaves(rpm, times, 0, 1, 0, MINUTE - 1, rpm - 1);
    times := Repeated(times, MINUTE - 1, rpm - 1);
    RollLeaves(rpm, times, 0, rpm, rpm - 1, MINUTE);
    times := times + [MINUTE];
    FillLeaves(rpm, times, MINUTE, 1, rpm, MINUTE, rpm - 1);
    times := Repeated(times, MINUTE, rpm - 1);
  }

  // ---- readings behind the bucket

  /**
   The clock is read before the limiter's lock is taken, so requests can arrive out of order. A reading
   behind the bucket it meets opens a full bucket: together with its repetitions it breaks the bound if and
   only if the minute that begins with it has as many admissions as the limit already.
   */
  lemma {:induction false} BehindBreaksBound(rpm: nat, times: seq<int>, now: int)
    requires rpm > 0 && Behind(rpm, times, now)
    ensures
      var before, after := Requests(rpm, times).admitted, Requests(rpm, Repeated(times + [now], now, rpm - 1)).admitted;
      && InMinute(after, now) == InMinute(before, now) + rpm
      && (InMinute(after, now) > 2 * rpm - 1 <==> InMinute(before, now) >= rpm)
  {
    var trace := Requests(rpm, times);
    RequestsNext(rpm, times, now);
    InMinuteNext(trace.admitted, now, now);
    hide Repeated, Requests, NeverBehind, InMinute;
    FillBucket(rpm, times + [now], now, rpm - 1, now);
  }

  /** At one request a minute any reading less than a minute behind does. */
  lemma {:induction false} OneBehindBreaksBound(times: seq<int>, now: int)
    requires Behind(1, times, now) && Requests(1, times).bucket.value.start < now + MINUTE
    ensures InMinute(Requests(1, times + [now]).admitted, now) >= 2
  {
    var trace := Requests(1, times);
    StartIsAdmitted(times);
    AdmittedCounts(trace.admitted, trace.bucket.value.start, now);
    RequestsNext(1, times, now);
    InMinuteNext(trace.admitted, now, now);
  }

  lemma {:induction false} StartIsAdmitted(times: seq<int>)
    ensures Requests(1, times).bucket.Some? ==> Requests(1, times).bucket.value.start in Requests(1, times).admitted
    ensures Requests(1, times).bucket.Some? ==> Requests(1, times).bucket.value.count == 1
  {
    if times != [] { StartIsAdmitted(times[..|times| - 1]); }
  }

  lemma {:induction false} AdmittedCounts(admitted: seq<int>, t: int, from: int)
    requires t in admitted && Within(t, from)
    ensures InMinute(admitted, from) >= 1
  {
    var front, last := admitted[..|admitted| - 1], admitted[|admitted| - 1];
    if t != last {
      assert admitted == front + [last];
      AdmittedCounts(front, t, from);
    }
  }

  /** Three readings one second apart, newest first: all are admitted. */
  lemma {:induction false} BackwardsReadings()
    ensures InMinute(Requests(1, [2, 1, 0]).admitted, 0) == 3
  {
    var times := [2, 1, 0];
    assert times[..2] == [2, 1] && times[..2][..1] == [2] && [2][..0] == [];
    assert Requests(1, [2]) == Trace(Some(Bucket(2, 1)), [2]);
    assert Requests(1, [2, 1]) == Trace(Some(Bucket(1, 1)), [2, 1]);
    assert Requests(1, times) == Trace(Some(Bucket(0, 1)), [2, 1, 0]);
    assert [2, 1, 0][..2] == [2, 1] && [2, 1][..1] == [2];
  }

  function Alternating(n: nat): seq<int> {
    if n == 0 then [] else Alternating(n - 1) + [MINUTE] + [0]
  }

  /**
   Whatever the limit, readings that alternate between two minutes are all admitted, so one minute admits
   any number.
   */
  lemma {:induction false} OutOfOrderUnbounded(rpm: nat, n: nat)
    requires rpm > 0
    ensures InMinute(Requests(rpm, Alternating(n)).admitted, 0) == n
  {
    Alternated(rpm, n);
  }

  ghost predicate AllAdmitted(trace: Trace, n: nat) {
    InMinute(trace.admitted, 0) == n && trace.bucket in {None, Some(Bucket(0, 1))}
  }

  lemma {:induction false} Alternated(rpm: nat, n: nat)
    requires rpm > 0
    ensures AllAdmitted(Requests(rpm, Alternating(n)), n)
  {
    if n > 0 {
      var before := Alternating(n - 1);
      assert Alternating(n) == before + [MINUTE] + [0];
      hide *;
      Alternated(rpm, n - 1);
      ThereAndBack(rpm, Requests(rpm, before), n - 1);
      RequestsNext(rpm, before, MINUTE);
      RequestsNext(rpm, before + [MINUTE], 0);
    }
  }

  lemma {:induction false} ThereAndBack(rpm: nat, trace: Trace, n: nat)
    requires rpm > 0 && AllAdmitted(trace, n)
    ensures AllAdmitted(Extend(Extend(trace, rpm, MINUTE), rpm, 0), n + 1)
  {
    InMinuteNext(trace.admitted, MINUTE, 0);
    InMinuteNext(trace.admitted + [MINUTE], 0, 0);
  }
}
