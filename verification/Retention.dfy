/**
 How long an operation stays in the log. A commit keeps the longest front of the new record and the older
 ones that fits; so an operation can be rolled back exactly until a commit finds no fitting front that
 reaches down to it.
 */
module Retention {
  import opened Options
  import opened Bindings
  import opened History
  import opened Planner
  import opened Operations
  import opened Undo

  /** A record on top of the older ones as its operation marks them. */
  function Grown(history: seq<Record>, record: Record): (all: seq<Record>)
    ensures |all| == |history| + 1 && all[0] == record
  {
    [record] + Rewrite(history, record.kind, record.source, Scopes(record.changes), record.id)
  }

  lemma {:induction false} GrownIDs(history: seq<Record>, record: Record, i: nat)
    requires i < |history|
    ensures Grown(history, record)[i + 1].id == history[i].id
  {
    var older := Rewrite(history, record.kind, record.source, Scopes(record.changes), record.id);
    RewriteKeeps(history, record.kind, record.source, Scopes(record.changes), record.id);
    assert SameButMarks(history, older);
    hide Rewrite;
  }

  /** The log afterwards is the longest fitting front of the record and the older ones. */
  ghost predicate KeepsLongest(history: seq<Record>, record: Record, next: seq<Record>, codec: Codec) {
    && LongestFit(Grown(history, record), |next|, codec) && next == Grown(history, record)[..|next|]
  }

  lemma {:induction false} CommitKeepsLongest(state: State, plan: Plan, expected: Revision, w: World, record: Record,
          next: State)
    requires Commit(state, plan, expected, w) == (Applied(record), next)
    ensures KeepsLongest(state.history, record, next.history, w.codec) && record.id == w.nonce
  {
    var stamped := StampBindings(plan.bindings, plan.changes, w.now);
    var (made, older) := Rewritten(state.history, plan, StampChanges(plan.changes, stamped), w);
    assert record == made && Grown(state.history, record) == [record] + older;
    hide Rewritten, Valid, Normalises, StampBindings, StampChanges, Rewrite, Truncate, Grown;
    TruncateIsLongest([record] + older, w.codec);
  }

  /** Whatever step is applied. */
  lemma {:induction false} StepKeepsLongest(state: State, step: Step, record: Record, next: State)
    requires Perform(state, step) == (Applied(record), next)
    ensures KeepsLongest(state.history, record, next.history, step.world.codec) && record.id == step.world.nonce
  {
    hide PlanBatch, PlanRollback, Commit, KeepsLongest;
    match step
    case Apply(input, w) =>
      var plan := PlanBatch(Snapshot(state.bindings, state.history, w.rules), input, w.codec).plan;
      CommitKeepsLongest(state, plan, input.expected, w, record, next);
    case Revert(input, w) =>
      var plan := PlanRollback(Snapshot(state.bindings, state.history, w.rules), input, w.codec).plan;
      CommitKeepsLongest(state, plan, input.expected, w, record, next);
    case Edit(_) =>
  }

  // --------------------------------------------------------------------------------------- over runs

  /** The operation is in the log, below n newer ones. */
  predicate InLog(state: State, id: OpID, n: nat) {
    n < |state.history| && state.history[n].id == id
  }

  predicate Gone(state: State, id: OpID) {
    forall i :: 0 <= i < |state.history| ==> state.history[i].id != id
  }

  /** Some front that reaches down to place n still fits. */
  ghost predicate Room(all: seq<Record>, n: nat, codec: Codec) {
    exists m :: n < m <= |all| && Fits(all[..m], codec)
  }

  /** If the step is applied, there is room down to what stood at place n before. */
  ghost predicate RoomAfter(state: State, step: Step, n: nat) {
    var outcome := Perform(state, step).0;
    outcome.Applied? ==> Room(Grown(state.history, outcome.record), n + 1, step.world.codec)
  }

  function Applications(state: State, steps: seq<Step>): nat {
    if steps == [] then 0
    else
      var front := steps[..|steps| - 1];
      Applications(state, front) + if Perform(Run(state, front), steps[|steps| - 1]).0.Applied? then 1 else 0
  }

  lemma {:induction false} LongestReaches(all: seq<Record>, n: nat, k: nat, codec: Codec)
    requires LongestFit(all, n, codec)
    ensures k < n <==> Room(all, k, codec)
  {
  }

  /** The log after an applied step. */
  lemma {:induction false} NextLog(state: State, step: Step, used: set<OpID>, codec: Codec, record: Record, next: State)
    requires Sound(state, used, codec) && LegalStep(step, used, codec)
    requires Perform(state, step) == (Applied(record), next)
    ensures KeepsLongest(state.history, record, next.history, codec) && record.id !in used
    ensures next.history != [] && next.history[0].id == record.id && |next.history| <= |state.history| + 1
    ensures forall i :: 0 < i < |next.history| ==> next.history[i].id == state.history[i - 1].id
  {
    AppliedHasWorld(state, step);
    hide Perform, Sound;
    assert step.world.codec == codec && step.world.nonce !in used;
    StepKeepsLongest(state, step, record, next);
    forall i | 0 < i < |next.history| ensures next.history[i].id == state.history[i - 1].id {
      GrownIDs(state.history, record, i - 1);
    }
    hide Grown;
  }

  /** One applied step: the operation moves down one place, or is gone when there is no room down to it. */
  lemma {:induction false} StepRetains(state: State, step: Step, used: set<OpID>, codec: Codec, id: OpID, n: nat,
          record: Record, next: State)
    requires Sound(state, used, codec) && LegalStep(step, used, codec)
    requires Perform(state, step) == (Applied(record), next)
    requires id in used && InLog(state, id, n)
    ensures if Room(Grown(state.history, record), n + 1, codec) then InLog(next, id, n + 1) else Gone(next, id)
  {
    hide Perform, LegalStep, Grown, Room;
    DistinctLog(state, used, codec);
    NextLog(state, step, used, codec, record, next);
    LongestReaches(Grown(state.history, record), |next.history|, n + 1, codec);
    hide Sound, LongestFit;
  }

  lemma {:induction false} DistinctLog(state: State, used: set<OpID>, codec: Codec)
    requires Sound(state, used, codec)
    ensures DistinctOps(state.history) && forall i :: 0 <= i < |state.history| ==> state.history[i].id in used
  {
  }

  lemma {:induction false} InLogUsed(state: State, used: set<OpID>, codec: Codec, id: OpID, n: nat)
    requires Sound(state, used, codec) && InLog(state, id, n)
    ensures id in used
  {
  }

  /** What is gone stays gone: no later operation gets its ID. */
  lemma {:induction false} StepStaysGone(state: State, step: Step, used: set<OpID>, codec: Codec, id: OpID)
    requires Sound(state, used, codec) && LegalStep(step, used, codec) && id in used && Gone(state, id)
    ensures Gone(Perform(state, step).1, id)
  {
    hide Perform, LegalStep, Sound, KeepsLongest;
    UnappliedKeepsLog(state, step, used, codec);
    var (outcome, next) := Perform(state, step);
    if outcome.Applied? {
      NextLog(state, step, used, codec, outcome.record, next);
    }
  }

  lemma {:induction false} UnappliedKeepsLog(state: State, step: Step, used: set<OpID>, codec: Codec)
    requires Sound(state, used, codec) && LegalStep(step, used, codec)
    ensures !Perform(state, step).0.Applied? ==> Perform(state, step).1.history == state.history
  {
    PerformKeeps(state, step, used, codec);
    if step.Edit? {} else { hide Perform; }
  }

  /** Every step of the run that is applied leaves room down to an operation that stood at place n before the run. */
  ghost predicate RoomThroughout(state: State, steps: seq<Step>, n: nat) {
    if steps == [] then true
    else
      var front := steps[..|steps| - 1];
      && RoomThroughout(state, front, n)
      && RoomAfter(Run(state, front), steps[|steps| - 1], n + Applications(state, front))
  }

  /**
   Over any run: a retained operation is still in the log afterwards, below all newer ones, if and only if
   each applied step left room down to it; otherwise it is gone for good.
   */
  lemma {:induction false} RetainedExactly(state: State, steps: seq<Step>, used: set<OpID>, codec: Codec, id: OpID,
          n: nat)
    requires Sound(state, used, codec) && LegalRun(steps, used, codec) && InLog(state, id, n)
    ensures RoomThroughout(state, steps, n) ==> InLog(Run(state, steps), id, n + Applications(state, steps))
    ensures !RoomThroughout(state, steps, n) ==> Gone(Run(state, steps), id)
  {
    hide Sound, InLog, Gone, RoomAfter, Perform, LegalStep;
    if steps != [] {
      var front, last := steps[..|steps| - 1], steps[|steps| - 1];
      var before, place := Run(state, front), n + Applications(state, front);
      InLogUsed(state, used, codec, id, n);
      UsedGrow(used, front);
      RunSound(state, front, used, codec);
      RetainedExactly(state, front, used, codec, id, n);
      if RoomThroughout(state, front, n) {
        RetainedNext(before, last, UsedBy(used, front), codec, id, place);
      } else {
        StepStaysGone(before, last, UsedBy(used, front), codec, id);
      }
    }
  }

  lemma {:induction false} RetainedNext(state: State, step: Step, used: set<OpID>, codec: Codec, id: OpID, n: nat)
    requires Sound(state, used, codec) && LegalStep(step, used, codec) && id in used && InLog(state, id, n)
    ensures
      var (outcome, next) := Perform(state, step);
      if !RoomAfter(state, step, n) then Gone(next, id)
      else InLog(next, id, n + if outcome.Applied? then 1 else 0)
  {
    UnappliedKeepsLog(state, step, used, codec);
    assert step.Edit? || step.world.codec == codec;
    hide Perform, Sound, LegalStep, Grown, Room;
    var (outcome, next) := Perform(state, step);
    if outcome.Applied? {
      AppliedHasWorld(state, step);
      StepRetains(state, step, used, codec, id, n, outcome.record, next);
    }
  }

  lemma {:induction false} AppliedHasWorld(state: State, step: Step)
    ensures Perform(state, step).0.Applied? ==> !step.Edit?
  {
    hide ApplyBatch, ApplyRollback;
  }

  lemma {:induction false} UsedGrow(used: set<OpID>, steps: seq<Step>)
    ensures used <= UsedBy(used, steps)
  {
    if steps != [] { UsedGrow(used, steps[..|steps| - 1]); }
  }

  /** Any log of at most fifty records fits. */
  ghost predicate Roomy(codec: Codec) {
    forall history: seq<Record> :: |history| <= HISTORY_LIMIT ==> codec.history(history) <= HISTORY_BYTES
  }

  lemma {:induction false} RoomyRoom(all: seq<Record>, k: nat, codec: Codec)
    requires Roomy(codec) && k < |all|
    ensures Room(all, k, codec) <==> k < HISTORY_LIMIT
  {
    if k < HISTORY_LIMIT { assert Fits(all[..k + 1], codec); }
  }

  lemma {:induction false} RoomNext(state: State, step: Step, used: set<OpID>, codec: Codec, id: OpID, n: nat)
    requires LegalStep(step, used, codec) && Roomy(codec)
    ensures InLog(state, id, n) && Perform(state, step).0.Applied? ==>
              (RoomAfter(state, step, n) <==> n + 1 < HISTORY_LIMIT)
  {
    AppliedHasWorld(state, step);
    assert step.Edit? || step.world.codec == codec;
    hide Perform, LegalStep, Room;
    var outcome := Perform(state, step).0;
    if InLog(state, id, n) && outcome.Applied? {
      RoomyRoom(Grown(state.history, outcome.record), n + 1, codec);
      hide Grown;
    }
  }

  lemma {:induction false} RoomByCount(state: State, steps: seq<Step>, used: set<OpID>, codec: Codec, id: OpID)
    requires Sound(state, used, codec) && LegalRun(steps, used, codec) && InLog(state, id, 0) && Roomy(codec)
    ensures RoomThroughout(state, steps, 0) <==> Applications(state, steps) < HISTORY_LIMIT
  {
    hide Perform, Sound, Roomy, InLog, Gone, LegalStep;
    if steps != [] {
      var front, last := steps[..|steps| - 1], steps[|steps| - 1];
      var before, place := Run(state, front), Applications(state, front);
      RoomByCount(state, front, used, codec, id);
      RetainedExactly(state, front, used, codec, id, 0);
      RoomNext(before, last, UsedBy(used, front), codec, id, place);
    }
  }

  lemma {:induction false} IndexInLog(state: State, id: OpID, n: nat)
    ensures InLog(state, id, n) ==> IndexOf(state.history, id) < |state.history|
    ensures Gone(state, id) ==> IndexOf(state.history, id) == |state.history|
  {
  }

  /**
   Where sizes do not bind, an applied operation can be rolled back, in that the request finds it, exactly
   until fifty others have been applied after it.
   */
  lemma {:induction false} AvailableExactly(state: State, steps: seq<Step>, used: set<OpID>, codec: Codec, id: OpID)
    requires Sound(state, used, codec) && LegalRun(steps, used, codec) && InLog(state, id, 0) && Roomy(codec)
    ensures IndexOf(Run(state, steps).history, id) < |Run(state, steps).history| <==>
              Applications(state, steps) < HISTORY_LIMIT
  {
    hide *;
    RetainedExactly(state, steps, used, codec, id, 0);
    RoomByCount(state, steps, used, codec, id);
    IndexInLog(Run(state, steps), id, Applications(state, steps));
  }
}
