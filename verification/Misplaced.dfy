/** Six operations after which a batch counts as reverted by a rollback that itself counts as reverted. */
module Misplaced {
  import opened Bindings
  import opened History
  import opened Operations
  import opened Undo
  import opened Markers
  import opened OneKey

  // -------------------------------------------------------------- the logs on the way

  predicate Shows(r: Record, id: OpID, kind: Kind, source: OpID, revertedBy: OpID) {
    r.id == id && r.kind == kind && r.source == source && r.revertedBy == revertedBy
  }

  /** What the rollback of batch 1 has marked. */
  const FIRST := [Marker(1, NO_OP, 2)]

  /** A batch. */
  predicate LogOne(h: seq<Record>) {
    |h| == 1 && Shows(h[0], 1, Batch, NO_OP, NO_OP)
  }

  /** The batch, and its rollback. */
  predicate LogTwo(h: seq<Record>) {
    |h| == 2 && Shows(h[0], 2, Rollback, 1, NO_OP) && h[0].markers == FIRST && Shows(h[1], 1, Batch, NO_OP, 2)
  }

  /** The batch, its rollback, and the rollback of that. */
  predicate LogThree(h: seq<Record>) {
    && |h| == 3 && Shows(h[0], 3, Rollback, 2, NO_OP)
    && Shows(h[1], 2, Rollback, 1, 3) && h[1].markers == FIRST && Shows(h[2], 1, Batch, NO_OP, NO_OP)
  }

  /** And another batch: batch 1 is not marked, and rollback 2 is, by rollback 3. */
  predicate LogFour(h: seq<Record>) {
    |h| == 4 && Shows(h[0], 4, Batch, NO_OP, NO_OP) && LogThree(h[1..])
  }

  /** After the rollback of operation 2 and the rollback of that. */
  predicate LogSix(h: seq<Record>) {
    && |h| == 6 && Shows(h[0], 6, Rollback, 5, NO_OP)
    && h[1].id == 5 && h[1].kind == Rollback && h[1].source == 2
    && h[2].id == 4 && h[2].kind == Batch && h[3].id == 3 && h[3].kind == Rollback && h[3].source == 2
    && Shows(h[4], 2, Rollback, 1, 3) && h[5].id == 1 && h[5].kind == Batch && h[5].revertedBy == 2
  }

  lemma {:induction false} DiffOfOne(shown: seq<Record>, history: seq<Record>)
    requires |shown| == |history| == 1 && shown[0].revertedBy != history[0].revertedBy
    ensures Diff(shown, history) == [Marker(history[0].id, shown[0].revertedBy, history[0].revertedBy)]
  {
    assert Diff(shown[..0], history[..0]) == [];
  }

  lemma {:induction false} FirstRollback(h: seq<Record>, affected: set<Scope>)
    requires LogOne(h)
    ensures
      var older := Rewrite(h, Rollback, 1, affected, 2);
      older == [h[0].(revertedBy := 2)] && Diff(h, older) == FIRST
  {
    var marked := SetReverted(h, 0, 2);
    assert IndexOf(h, 1) == 0 && Mark(h, 1, 2, 0) == marked;
    assert IndexOf(marked, 1) == 0 && Supersede(marked, 1, affected, 2) == marked;
    DiffOfOne(h, marked);
  }

  lemma {:induction false} SecondRollback(h: seq<Record>, affected: set<Scope>)
    requires LogTwo(h)
    ensures Rewrite(h, Rollback, 2, affected, 3) == [h[0].(revertedBy := 3), h[1].(revertedBy := NO_OP)]
  {
    var once := SetReverted(h, 0, 3);
    var marked := SetReverted(once, 1, NO_OP);
    assert IndexOf(h, 2) == 0 && IndexOf(once, 1) == 1;
    assert Mark(once, 1, NO_OP, 1) == marked && Mark(h, 2, 3, 0) == marked;
    assert SourceMarkers(h, 2) == FIRST;
    RestoreFirst(marked, h);
    assert RestoreOne(marked, h, FIRST[0]) == marked;
    assert IndexOf(marked, 2) == 0 && Supersede(marked, 2, affected, 3) == marked;
  }

  lemma {:induction false} RestoreFirst(history: seq<Record>, shown: seq<Record>)
    requires |history| == |shown|
    ensures Restore(history, shown, FIRST) == RestoreOne(history, shown, FIRST[0])
  {
    assert FIRST[..0] == [] && Restore(history, shown, []) == history;
  }

  lemma {:induction false} MarkedTakenBack(h: seq<Record>)
    requires LogFour(h)
    ensures Mark(h, 2, 5, 0) == SetReverted(h, 2, 5)
  {
    assert h[2] == h[1..][1] && h[3] == h[1..][2] && h[1] == h[1..][0];
    IndexAt(h, 2);
    var once := SetReverted(h, 2, 5);
    IndexAt(once, 3);
    assert SetReverted(once, 3, NO_OP) == once;
  }

  /** Rolling back operation 2 once more marks it and batch 4, and leaves batch 1 unmarked. */
  lemma {:induction false} ThirdRollback(h: seq<Record>, affected: set<Scope>)
    requires LogFour(h)
    ensures
      var older := Rewrite(h, Rollback, 2, affected, 5);
      SameButMarks(h, older) && older[2].revertedBy == 5 && older[3] == h[3]
  {
    assert h[2] == h[1..][1] && h[3] == h[1..][2] && h[1] == h[1..][0];
    var once := SetReverted(h, 2, 5);
    MarkedTakenBack(h);
    IndexAt(h, 2);
    assert SourceMarkers(h, 2) == FIRST;
    RestoreFirst(once, h);
    var restored := RestoreOne(once, h, FIRST[0]);
    assert restored[3] == h[3] && restored[2] == once[2];
    IndexAt(restored, 2);
    RewriteKeeps(h, Rollback, 2, affected, 5);
  }

  /** After the rollback of operation 2 in such a log. */
  ghost predicate LogFive(h: seq<Record>, next: seq<Record>) {
    && LogFour(h) && |next| == 5 && Shows(next[0], 5, Rollback, 2, NO_OP)
    && SameButMarks(h, next[1..]) && next[0].markers == Diff(h, next[1..])
    && next[3].revertedBy == 5 && next[4].revertedBy == NO_OP
  }

  lemma {:induction false} FiveShape(h: seq<Record>, next: seq<Record>)
    requires LogFive(h, next)
    ensures DistinctOps(next) && next[1].id == 4 && next[2].id == 3 && next[3].id == 2 && next[4].id == 1
    ensures next[1].kind == Batch && next[2].kind == Rollback && next[2].source == 2
    ensures next[3].kind == Rollback && next[3].source == 1 && next[4].kind == Batch
    ensures DistinctOps(h) && h[2].revertedBy == 3 && h[3].revertedBy == NO_OP
  {
    assert h[1] == h[1..][0] && h[2] == h[1..][1] && h[3] == h[1..][2];
    var older := next[1..];
    assert next[1] == older[0] && next[2] == older[1] && next[3] == older[2] && next[4] == older[3];
    assert older[0] == h[0].(revertedBy := older[0].revertedBy) && older[1] == h[1].(revertedBy := older[1].revertedBy);
    assert older[2] == h[2].(revertedBy := older[2].revertedBy) && older[3] == h[3].(revertedBy := older[3].revertedBy);
  }

  lemma {:induction false} RemarkedByUndo(next: seq<Record>)
    requires |next| == 5 && DistinctOps(next) && next[3].id == 2 && next[4].id == 1
    requires next[3].kind == Rollback && next[3].source == 1 && next[4].kind == Batch
    ensures AfterMarking(next, 2, 6)[4].revertedBy == 2
  {
    var undone := SetReverted(next, 0, 6);
    IndexAt(undone, 3);
    var reinstated := SetReverted(undone, 3, NO_OP);
    IndexAt(reinstated, 4);
  }

  /** Undoing that rollback gives operation 2 its marker back, and marks batch 1 with operation 2. */
  lemma {:induction false} LastRollback(h: seq<Record>, next: seq<Record>, affected: set<Scope>)
    requires LogFive(h, next)
    ensures
      var redone := Rewrite(next, Rollback, 5, affected, 6);
      && SameButMarks(next, redone)
      && redone[3].revertedBy == 3 && redone[4].revertedBy == 2
  {
    FiveShape(h, next);
    RewriteKeeps(next, Rollback, 5, affected, 6);
    RemarkedByUndo(next);
    assert next == [next[0]] + next[1..];
    RestoredAt(h, next[1..], next[0], next, affected, 6, 2);
    RestoredAt(h, next[1..], next[0], next, affected, 6, 3);
  }

  // -------------------------------------------------------------------- the run

  /** One binding, restricted to credential a. */
  function Start(): State {
    var settings := Settings(Text("x"), true, false, Text("x"), AllModels, 0, 0, 0);
    State(map[ONE := Binding(Typed("x"), ONE, settings, ByAuths(["a"]), 1, 1)], [])
  }

  function UpTo(n: nat): (ids: set<OpID>)
    ensures forall k :: k in ids ==> 1 <= k <= n
  {
    if n == 0 then {} else UpTo(n - 1) + {n}
  }

  predicate NoEdits(steps: seq<Step>) {
    forall i :: 0 <= i < |steps| ==> !steps[i].Edit?
  }

  /** n steps from the start, none of them an edit, lead here; the binding has this credential. */
  ghost predicate Path(steps: seq<Step>, state: State, n: nat, id: string) {
    && |steps| == n && Run(Start(), steps) == state && UsedBy({}, steps) == UpTo(n)
    && LegalRun(steps, {}, Light()) && NoEdits(steps) && Solo(state, id) && Sound(state, UpTo(n), Light())
  }

  lemma {:induction false} PathStart()
    ensures Path([], Start(), 0, "a")
  {
  }

  lemma {:induction false} PathStep(steps: seq<Step>, state: State, n: nat, id: string, step: Step)
    requires Path(steps, state, n, id) && !step.Edit? && step.world == At(n + 1)
    ensures Run(Start(), steps + [step]) == Perform(state, step).1
    ensures UsedBy({}, steps + [step]) == UpTo(n + 1) && LegalRun(steps + [step], {}, Light())
    ensures NoEdits(steps + [step])
  {
    hide Solo, Sound, Run, UsedBy, LegalRun, Perform;
    RunNext(Start(), steps, step, {}, Light());
  }

  /** The log after a step: its record, above the rewritten older ones. */
  ghost predicate LogStep(before: seq<Record>, after: seq<Record>, n: OpID, was: string, kind: Kind, source: OpID,
          affected: set<Scope>) {
    && after != [] && Shows(after[0], n, kind, source, NO_OP) && |after[0].changes| > 0
    && Lists(after[0].changes[0].before, was)
    && after[1..] == Rewrite(before, kind, source, affected, n)
    && after[0].markers == Diff(before, Rewrite(before, kind, source, affected, n))
    && SameButMarks(before, after[1..])
  }

  lemma {:induction false} LogOfStep(state: State, was: string, w: World, outcome: Outcome, next: State, now: string)
    requires SoloStep(state, was, w, outcome, next, now)
    ensures LogStep(state.history, next.history, w.nonce, was, outcome.record.kind, outcome.record.source,
                    Scopes(outcome.record.changes))
  {
    RewriteKeeps(state.history, outcome.record.kind, outcome.record.source, Scopes(outcome.record.changes), w.nonce);
  }

  /** A step that takes the binding from one credential to another, with the record it leaves. */
  ghost predicate Moves(state: State, used: set<OpID>, step: Step, n: nat, was: string, now: string, kind: Kind,
          source: OpID, outcome: Outcome, next: State) {
    && !step.Edit? && step.world == At(n) && Perform(state, step) == (outcome, next)
    && SoloStep(state, was, At(n), outcome, next, now)
    && Sound(next, used + {n}, Light()) && outcome.record.kind == kind && outcome.record.source == source
  }

  lemma {:induction false} BatchMoves(state: State, used: set<OpID>, n: nat, was: string, now: string)
    returns (step: Step, outcome: Outcome, next: State)
    requires Fresh(At(n), used) && Solo(state, was) && Sound(state, used, Light())
    requires was != now && Name(now) && |state.history| < 10
    ensures Moves(state, used, step, n, was, now, Batch, NO_OP, outcome, next)
  {
    step := Apply(BatchOn(state, ONE, now), At(n));
    outcome, next := Perform(state, step).0, Perform(state, step).1;
    SoloBatch(state, was, now, n, used);
  }

  lemma {:induction false} RollbackMoves(state: State, used: set<OpID>, n: nat, i: nat, now: string, was: string,
          offer: Offer)
    returns (step: Step, outcome: Outcome, next: State)
    requires Suits(offer) && Fresh(At(n), used) && Solo(state, now) && Sound(state, used, Light())
    requires i < |state.history| && Lists(state.history[i].changes[0].before, was) && was != now && |state.history| < 10
    ensures Moves(state, used, step, n, now, was, Rollback, state.history[i].id, outcome, next)
  {
    hide Suits, Solo, Sound, SoloStep, ApplyRollback, RollbackOn;
    step := Revert(RollbackOn(state, state.history[i].id, offer), At(n));
    outcome, next := Perform(state, step).0, Perform(state, step).1;
    SoloRollback(state, i, now, was, n, used, offer);
  }

  lemma {:induction false} Take(steps: seq<Step>, state: State, n: nat, step: Step, was: string, now: string,
          kind: Kind, source: OpID, outcome: Outcome, after: State)
    returns (affected: set<Scope>)
    requires Path(steps, state, n, was) && Moves(state, UpTo(n), step, n + 1, was, now, kind, source, outcome, after)
    ensures Path(steps + [step], after, n + 1, now)
    ensures LogStep(state.history, after.history, n + 1, was, kind, source, affected)
  {
    PathStep(steps, state, n, was, step);
    LogOfStep(state, was, At(n + 1), outcome, after, now);
    affected := Scopes(outcome.record.changes);
  }

  lemma {:induction false} PathGives(steps: seq<Step>, state: State, n: nat, id: string)
    requires Path(steps, state, n, id)
    ensures Fresh(At(n + 1), UpTo(n)) && Solo(state, id) && Sound(state, UpTo(n), Light())
  {
  }

  lemma {:induction false} TakeBatch(steps: seq<Step>, state: State, n: nat, was: string, now: string)
    returns (step: Step, after: State, affected: set<Scope>)
    requires Path(steps, state, n, was) && was != now && Name(now) && |state.history| < 10
    ensures Path(steps + [step], after, n + 1, now)
    ensures LogStep(state.history, after.history, n + 1, was, Batch, NO_OP, affected)
  {
    var outcome;
    step, outcome, after := BatchMoves(state, UpTo(n), n + 1, was, now);
    affected := Take(steps, state, n, step, was, now, Batch, NO_OP, outcome, after);
  }

  lemma {:induction false} TakeRollback(steps: seq<Step>, state: State, n: nat, i: nat, now: string, was: string,
          offer: Offer)
    returns (step: Step, after: State, affected: set<Scope>)
    requires Suits(offer) && Path(steps, state, n, now) && was != now && |state.history| < 10
    requires i < |state.history| && Lists(state.history[i].changes[0].before, was)
    ensures Path(steps + [step], after, n + 1, was)
    ensures LogStep(state.history, after.history, n + 1, now, Rollback, state.history[i].id, affected)
  {
    PathGives(steps, state, n, now);
    hide *;
    var outcome;
    step, outcome, after := RollbackMoves(state, UpTo(n), n + 1, i, now, was, offer);
    affected := Take(steps, state, n, step, now, was, Rollback, state.history[i].id, outcome, after);
  }

  // What each kind of step makes of these logs.

  lemma {:induction false} ToTwo(h: seq<Record>, next: seq<Record>, affected: set<Scope>)
    requires LogOne(h) && LogStep(h, next, 2, "b", Rollback, 1, affected)
    ensures LogTwo(next)
  {
    FirstRollback(h, affected);
  }

  lemma {:induction false} ToThree(h: seq<Record>, next: seq<Record>, affected: set<Scope>)
    requires LogTwo(h) && LogStep(h, next, 3, "a", Rollback, 2, affected)
    ensures LogThree(next) && next[1].changes == h[0].changes
  {
    SecondRollback(h, affected);
    assert next[1] == next[1..][0] && next[2] == next[1..][1];
  }

  lemma {:induction false} ToFour(h: seq<Record>, next: seq<Record>, affected: set<Scope>)
    requires LogThree(h) && LogStep(h, next, 4, "b", Batch, NO_OP, affected)
    ensures LogFour(next) && next[2] == h[1] && next[3] == h[2]
  {
    assert next[2] == next[1..][1] && next[3] == next[1..][2];
  }

  lemma {:induction false} ToFive(h: seq<Record>, next: seq<Record>, affected: set<Scope>)
    requires LogFour(h) && LogStep(h, next, 5, "c", Rollback, 2, affected)
    ensures LogFive(h, next)
  {
    ThirdRollback(h, affected);
    assert next[3] == next[1..][2] && next[4] == next[1..][3];
    assert h[3] == h[1..][2];
  }

  lemma {:induction false} ToSix(h: seq<Record>, next: seq<Record>, end: seq<Record>, affected: set<Scope>)
    requires LogFive(h, next) && LogStep(next, end, 6, "b", Rollback, 5, affected)
    ensures LogSix(end)
  {
    FiveShape(h, next);
    LastRollback(h, next, affected);
    assert end[1] == end[1..][0] && end[2] == end[1..][1] && end[3] == end[1..][2];
    assert end[4] == end[1..][3] && end[5] == end[1..][4];
  }

  /** Batch to b; its rollback; the rollback of that; batch to c. */
  lemma {:induction false} FourSteps(offer: Offer) returns (steps: seq<Step>, state: State)
    requires Suits(offer)
    ensures Path(steps, state, 4, "c") && LogFour(state.history) && Lists(state.history[2].changes[0].before, "b")
  {
    PathStart();
    var step, affected;
    step, state, affected := TakeBatch([], Start(), 0, "a", "b");
    steps := [] + [step];
    var one := state.history;
    assert LogOne(one);
    step, state, affected := TakeRollback(steps, state, 1, 0, "b", "a", offer);
    steps := steps + [step];
    ToTwo(one, state.history, affected);
    var two := state.history;
    step, state, affected := TakeRollback(steps, state, 2, 0, "a", "b", offer);
    steps := steps + [step];
    ToThree(two, state.history, affected);
    var three := state.history;
    step, state, affected := TakeBatch(steps, state, 3, "b", "c");
    steps := steps + [step];
    ToFour(three, state.history, affected);
  }

  /** Rolling back operation 2 once more, and undoing that. */
  lemma {:induction false} LastTwoSteps(four: seq<Step>, state: State, offer: Offer)
    returns (step: Step, last: Step, end: State)
    requires Suits(offer) && Path(four, state, 4, "c") && LogFour(state.history)
    requires Lists(state.history[2].changes[0].before, "b")
    ensures Path(four + [step] + [last], end, 6, "c") && LogSix(end.history)
  {
    var h := state.history;
    assert h[2] == h[1..][1];
    var next, affected;
    step, next, affected := TakeRollback(four, state, 4, 2, "c", "b", offer);
    ToFive(h, next.history, affected);
    last, end, affected := TakeRollback(four + [step], next, 5, 0, "b", "c", offer);
    ToSix(h, next.history, end.history, affected);
  }

  /**
   A legal run from one binding and an empty log, of batches and rollbacks alone. Batch 1 is rolled back by 2 and
   reinstated by 3; after batch 4 it is not marked. Then 5 rolls back operation 2 and 6 takes that back. In
   the end batch 1 is marked as reverted by 2, and 2 itself as reverted by 3.
   */
  lemma {:induction false} RunMisplacesMarker(offer: Offer) returns (four: seq<Step>, step: Step, last: Step)
    requires Suits(offer)
    ensures Sound(Start(), {}, Light()) && Start().history == [] && |four| == 4
    ensures LegalRun(four + [step] + [last], {}, Light()) && NoEdits(four + [step] + [last])
    ensures LogFour(Run(Start(), four).history) && LogSix(Run(Start(), four + [step] + [last]).history)
  {
    PathStart();
    var state, end;
    four, state := FourSteps(offer);
    step, last, end := LastTwoSteps(four, state, offer);
  }

  /** There is such a run: one host key and the names of the credentials on offer. */
  lemma {:induction false} SomeRunMisplacesMarker() returns (steps: seq<Step>)
    ensures Sound(Start(), {}, Light()) && Start().history == []
    ensures |steps| == 6 && LegalRun(steps, {}, Light()) && NoEdits(steps)
    ensures LogFour(Run(Start(), steps[..4]).history) && LogSix(Run(Start(), steps).history)
  {
    SomeOfferSuits();
    var four, step, last := RunMisplacesMarker(Offer([Host(ONE)], NAMES));
    hide *;
    steps := four + [step] + [last];
    assert steps[..4] == four;
  }
}
