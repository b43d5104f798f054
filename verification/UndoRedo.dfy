/** Rolling back the newest operation gives back what was there before it; doing so twice is a redo. */
module UndoRedo {
  import opened Options
  import opened Bindings
  import opened History
  import opened Planner
  import opened Operations
  import opened Undo

  /** The host still has the keys, and the earlier credentials and groups are still on offer. */
  ghost predicate CanRestore(ctx: Context, changes: seq<Change>) {
    forall k :: 0 <= k < |changes| ==> Restorable(ctx, changes[k])
  }

  ghost predicate Restorable(ctx: Context, c: Change) {
    && c.scope in ctx.hosts
    && (c.before.Some? && c.before.value.ByAuths? ==> forall id :: id in c.before.value.ids ==> id in ctx.available)
    && (c.before.Some? && c.before.value.ByGroup? ==> GroupUsable(c.before.value.group, ctx.rules))
  }

  /** Part of an operation has been taken back: those scopes are as before it, the rest as after it. */
  ghost predicate HalfUndone(was: Bindings, now: Bindings, draft: Draft, done: seq<Change>) {
    && draft.conflicts == [] && |draft.changes| == |done|
    && forall s {:trigger Get(draft.bindings, s)} ::
         if Touches(done, s) then Fingerprint(Get(draft.bindings, s)) == Fingerprint(Get(was, s))
         else Get(draft.bindings, s) == Get(now, s)
  }

  /** Every change of an operation just committed can be judged, and comes out as its own inverse. */
  lemma {:induction false} JudgeInverse(ctx: Context, c: Change, was: Option<Binding>, current: Option<Binding>)
    requires Accounted(ctx.codec, c, was, current) && Matches(c, current) && Restorable(ctx, c)
    requires was.Some? ==> Settled(ctx.codec, was.value)
    requires Latest(ctx.history, c.scope) == Some(c)
    requires was.Some? ==> Acceptable(was.value.restriction)
    ensures
      var verdict := Judge(ctx, current, false, c);
      verdict.Become? && Fingerprint(verdict.candidate) == Fingerprint(was)
  {
  }

  lemma {:induction false} NotTaken(codec: Codec, was: Bindings, now: Bindings, draft: Draft, changes: seq<Change>,
          n: nat)
    requires WellFormed(was) && WellFormed(now) && Accounts(codec, changes, was, now) && n < |changes|
    requires HalfUndone(was, now, draft, changes[..n])
    ensures Get(now, changes[n].scope).None? ==> !HeldElsewhere(draft.bindings, changes[n].bindingID, changes[n].scope)
  {
    var c := changes[n];
    assert Accounted(codec, c, Get(was, c.scope), Get(now, c.scope));
    if Get(now, c.scope).None? {
      forall t | t in draft.bindings && t != c.scope ensures draft.bindings[t].id != c.bindingID {
        if Touches(changes[..n], t) {
          assert Fingerprint(Get(draft.bindings, t)) == Fingerprint(Get(was, t));
        } else {
          assert Get(draft.bindings, t) == Get(now, t);
          if Touches(changes, t) {
            var k :| 0 <= k < |changes| && changes[k].scope == t;
            assert Accounted(codec, changes[k], Get(was, t), Get(now, t));
            assert k != n && changes[k].bindingID != c.bindingID;
          } else {
            assert Get(was, t) == Get(now, t);
          }
        }
      }
    }
  }

  lemma {:induction false} UndoStep(ctx: Context, was: Bindings, now: Bindings, draft: Draft,
          changes: seq<Change>, n: nat)
    requires WellFormed(was) && WellFormed(now) && Accounts(ctx.codec, changes, was, now) && Stamped(changes, now)
    requires AllSettled(ctx.codec, was)
    requires n < |changes| && HalfUndone(was, now, draft, changes[..n]) && CanRestore(ctx, changes)
    requires Latest(ctx.history, changes[n].scope) == Some(changes[n])
    ensures HalfUndone(was, now, RollbackStep(ctx, draft, changes[n]), changes[..n + 1])
  {
    var c := changes[n];
    var done := changes[..n];
    assert !Touches(done, c.scope);
    assert Get(draft.bindings, c.scope) == Get(now, c.scope);
    assert Accounted(ctx.codec, c, Get(was, c.scope), Get(now, c.scope)) && Matches(c, Get(now, c.scope)) &&
      Restorable(ctx, c);
    NotTaken(ctx.codec, was, now, draft, changes, n);
    JudgeIgnoresTaken(ctx, Get(now, c.scope), HeldElsewhere(draft.bindings, c.bindingID, c.scope), c);
    JudgeInverse(ctx, c, Get(was, c.scope), Get(now, c.scope));
    var next := RollbackStep(ctx, draft, c);
    assert changes[..n + 1] == done + [c];
    forall s ensures
      if Touches(done + [c], s) then Fingerprint(Get(next.bindings, s)) == Fingerprint(Get(was, s))
      else Get(next.bindings, s) == Get(now, s)
    {
      TouchesAppend(done, c, s);
      if s != c.scope { assert Get(next.bindings, s) == Get(draft.bindings, s); }
    }
  }

  lemma {:induction false} JudgeIgnoresTaken(ctx: Context, current: Option<Binding>, taken: bool, c: Change)
    ensures current.Some? ==> Judge(ctx, current, taken, c) == Judge(ctx, current, false, c)
  {
  }

  lemma {:induction false} UndoDraft(ctx: Context, was: Bindings, now: Bindings, start: Draft,
          changes: seq<Change>, n: nat)
    requires WellFormed(was) && WellFormed(now) && Accounts(ctx.codec, changes, was, now) && Stamped(changes, now)
    requires AllSettled(ctx.codec, was)
    requires start.bindings == now && start.changes == [] && start.conflicts == []
    requires n <= |changes| && CanRestore(ctx, changes)
    requires forall k :: 0 <= k < |changes| ==> Latest(ctx.history, changes[k].scope) == Some(changes[k])
    ensures HalfUndone(was, now, RollbackDraft(ctx, start, changes[..n]), changes[..n])
  {
    if n > 0 {
      UndoDraft(ctx, was, now, start, changes, n - 1);
      assert changes[..n][..n - 1] == changes[..n - 1];
      UndoStep(ctx, was, now, RollbackDraft(ctx, start, changes[..n - 1]), changes, n - 1);
    }
  }

  lemma {:induction false} WhollyUndone(codec: Codec, was: Bindings, now: Bindings, draft: Draft, changes: seq<Change>)
    requires HalfUndone(was, now, draft, changes) && Accounts(codec, changes, was, now) && AllSettled(codec, was)
    ensures Alike(draft.bindings, was) && AllSettled(codec, draft.bindings)
  {
    forall s ensures Fingerprint(Get(draft.bindings, s)) == Fingerprint(Get(was, s)) {
      assert Touches(changes, s) || Get(was, s) == Get(now, s);
    }
    forall s | s in draft.bindings ensures Settled(codec, draft.bindings[s]) {
      assert Fingerprint(Get(draft.bindings, s)) == Fingerprint(Get(was, s));
    }
  }

  lemma {:induction false} StampsAlike(live: Bindings, changes: seq<Change>, now: Time)
    requires forall s :: s in live ==> live[s].createdAt != NEVER
    ensures Alike(StampBindings(live, changes, now), live)
  {
  }

  lemma {:induction false} StampsSettled(codec: Codec, live: Bindings, changes: seq<Change>, now: Time)
    requires AllSettled(codec, live)
    ensures RefreshedAll(codec, StampBindings(live, changes, now)) == StampBindings(live, changes, now)
  {
    SettledStay(codec, StampBindings(live, changes, now));
  }

  /** The rollback request a caller makes after previewing it. */
  ghost predicate Previewed(state: State, input: RollbackInput, w: World) {
    input.expected == RollbackRevision(Snapshot(state.bindings, state.history, w.rules), input)
  }

  /**
   Where every model policy is one that normalisation leaves alone, rolling back the operation that was
   committed last never conflicts, is never stale and is never a no-op. Unless the request, the log or
   the disk refuses it, the bindings are again those from before the operation in everything but update
   times: created bindings are gone, deleted ones are back with their creation time.
   */
  lemma {:induction false} UndoNewest(before: State, plan: Plan, w: World, record: Record, after: State,
          used: set<OpID>,
          input: RollbackInput, w': World)
    requires WellFormed(before.bindings) && Committed(before, plan, w, record, after)
    requires AllSettled(w.codec, before.bindings) && after.bindings == Proposed(plan, w)
    requires Sound(after, used, w'.codec) && Fresh(w', used) && w'.codec == w.codec
    requires input.operation == record.id && input.complete && Previewed(after, input, w')
    requires CanRestore(ContextOf(Snapshot(after.bindings, after.history, w'.rules), input, w'.codec), record.changes)
    ensures
      var (outcome, next) := ApplyRollback(after, input, w');
      && (outcome in {Denied(InvalidInput), Unstorable, NotPersisted} || outcome.Applied?)
      && (outcome.Applied? ==> Alike(next.bindings, before.bindings))
  {
    var snapshot := Snapshot(after.bindings, after.history, w'.rules);
    var draft := RollbackDraft(ContextOf(snapshot, input, w'.codec), RollbackStart(snapshot, input), record.changes);
    assert IndexOf(after.history, input.operation) == 0;
    NewestDraft(before, plan, w, record, after, used, input, w');
    DeniedOrCommitted(after, input, w', draft);
    hide *;
    UndoCommitted(after, Plan(Rollback, input.operation, RollbackRevision(snapshot, input),
                              draft.bindings, draft.changes, draft.conflicts, draft.warned), w', before.bindings);
  }

  /** A rollback request is denied, or commits what was drafted. */
  lemma {:induction false} DeniedOrCommitted(state: State, input: RollbackInput, w: World, draft: Draft)
    requires IndexOf(state.history, input.operation) < |state.history|
    requires
      var snapshot := Snapshot(state.bindings, state.history, w.rules);
      draft == RollbackDraft(ContextOf(snapshot, input, w.codec), RollbackStart(snapshot, input),
                             state.history[IndexOf(state.history, input.operation)].changes)
    ensures
      var snapshot := Snapshot(state.bindings, state.history, w.rules);
      var plan := Plan(Rollback, input.operation, RollbackRevision(snapshot, input),
                       draft.bindings, draft.changes, draft.conflicts, draft.warned);
      ApplyRollback(state, input, w) in {(Denied(InvalidInput), state), Commit(state, plan, input.expected, w)}
  {
    hide Commit, RollbackDraft;
  }

  /** Committing bindings that are, but for update times, those from before. */
  lemma {:induction false} UndoCommitted(state: State, plan: Plan, w: World, was: Bindings)
    requires plan.conflicts == [] && plan.changes != [] && plan.revision != NoRevision
    requires Alike(plan.bindings, was) && AllSettled(w.codec, plan.bindings)
    requires forall s :: s in plan.bindings ==> plan.bindings[s].createdAt != NEVER
    ensures
      var (outcome, next) := Commit(state, plan, plan.revision, w);
      && (outcome in {Unstorable, NotPersisted} || outcome.Applied?)
      && (outcome.Applied? ==> Alike(next.bindings, was))
  {
    StampsAlike(plan.bindings, plan.changes, w.now);
    AlikeTransitive(StampBindings(plan.bindings, plan.changes, w.now), plan.bindings, was);
    StampsSettled(w.codec, plan.bindings, plan.changes, w.now);
    CleanCommit(state, plan, w);
  }

  /** Committing a plan under its own revision, without conflicts and with something to do. */
  lemma {:induction false} CleanCommit(state: State, plan: Plan, w: World)
    requires plan.conflicts == [] && plan.changes != [] && plan.revision != NoRevision
    ensures
      var (outcome, next) := Commit(state, plan, plan.revision, w);
      && (outcome in {Unstorable, NotPersisted} || outcome.Applied?)
      && (outcome.Applied? ==>
        next.bindings == RefreshedAll(w.codec, StampBindings(plan.bindings, plan.changes, w.now)))
  {
  }

  /** The plan drafted for that rollback. */
  lemma {:induction false} NewestDraft(before: State, plan: Plan, w: World, record: Record, after: State,
          used: set<OpID>,
          input: RollbackInput, w': World)
    requires WellFormed(before.bindings) && Committed(before, plan, w, record, after)
    requires AllSettled(w.codec, before.bindings) && after.bindings == Proposed(plan, w) && w'.codec == w.codec
    requires Sound(after, used, w'.codec) && input.operation == record.id && input.complete
    requires CanRestore(ContextOf(Snapshot(after.bindings, after.history, w'.rules), input, w'.codec), record.changes)
    ensures
      var snapshot := Snapshot(after.bindings, after.history, w'.rules);
      var draft := RollbackDraft(ContextOf(snapshot, input, w'.codec), RollbackStart(snapshot, input), record.changes);
      && draft.conflicts == [] && draft.changes != [] && Alike(draft.bindings, before.bindings)
      && AllSettled(w'.codec, draft.bindings)
      && forall s :: s in draft.bindings ==> draft.bindings[s].createdAt != NEVER
  {
    var snapshot := Snapshot(after.bindings, after.history, w'.rules);
    var ctx, start := ContextOf(snapshot, input, w'.codec), RollbackStart(snapshot, input);
    assert ValidRecord(record);
    forall k | 0 <= k < |record.changes|
      ensures Latest(ctx.history, record.changes[k].scope) == Some(record.changes[k])
    {
      FindAt(record.changes, k);
    }
    DraftUndone(ctx, before.bindings, after.bindings, start, record.changes);
  }

  /** All changes of an operation taken back in turn. */
  lemma {:induction false} DraftUndone(ctx: Context, was: Bindings, now: Bindings, start: Draft, changes: seq<Change>)
    requires WellFormed(was) && WellFormed(now) && Accounts(ctx.codec, changes, was, now) && Stamped(changes, now)
    requires AllSettled(ctx.codec, was) && changes != []
    requires start.bindings == now && start.changes == [] && start.conflicts == [] && CanRestore(ctx, changes)
    requires forall k :: 0 <= k < |changes| ==> Latest(ctx.history, changes[k].scope) == Some(changes[k])
    ensures
      var draft := RollbackDraft(ctx, start, changes);
      && draft.conflicts == [] && draft.changes != [] && Alike(draft.bindings, was)
      && AllSettled(ctx.codec, draft.bindings)
      && forall s :: s in draft.bindings ==> draft.bindings[s].createdAt != NEVER
  {
    UndoDraft(ctx, was, now, start, changes, |changes|);
    assert changes[..|changes|] == changes;
    var draft := RollbackDraft(ctx, start, changes);
    WhollyUndone(ctx.codec, was, now, draft, changes);
    forall s | s in draft.bindings ensures draft.bindings[s].createdAt != NEVER {
      assert Fingerprint(Get(draft.bindings, s)) == Fingerprint(Get(was, s));
    }
  }

  lemma {:induction false} AlikeTransitive(a: Bindings, b: Bindings, c: Bindings)
    requires Alike(a, b) && Alike(b, c)
    ensures Alike(a, c)
  {
    forall s ensures Fingerprint(Get(a, s)) == Fingerprint(Get(c, s)) {
      assert Fingerprint(Get(a, s)) == Fingerprint(Get(b, s));
    }
  }

  /** A rollback that can be made right after a step, as the step's own inverse. */
  ghost predicate Inverse(record: Record, after: State, input: RollbackInput, w: World) {
    && input.operation == record.id && input.complete && Previewed(after, input, w)
    && CanRestore(ContextOf(Snapshot(after.bindings, after.history, w.rules), input, w.codec), record.changes)
  }

  /**
   Any applied step from a state whose model policies normalisation leaves alone, followed by the rollback
   of what it recorded: no conflict, not stale, not empty, and the bindings from before it once applied.
   */
  lemma {:induction false} StepThenInverse(before: State, step: Step, used: set<OpID>, codec: Codec,
          input: RollbackInput, w: World)
    requires Sound(before, used, codec) && Tidy(codec, before)
    requires LegalStep(step, used, codec) && Perform(before, step).0.Applied?
    requires LegalStep(Step.Revert(input, w), UsedStep(used, step), codec)
    requires Inverse(Perform(before, step).0.record, Perform(before, step).1, input, w)
    ensures
      var (outcome, next) := Perform(Perform(before, step).1, Step.Revert(input, w));
      && (outcome in {Denied(InvalidInput), Unstorable, NotPersisted} || outcome.Applied?)
      && (outcome.Applied? ==> Alike(next.bindings, before.bindings))
  {
    var (outcome, after) := Perform(before, step);
    PerformKeeps(before, step, used, codec);
    PerformTidy(before, step, used, codec);
    var plan :| GoodPlan(codec, plan, before) && Committed(before, plan, step.world, outcome.record, after)
                && after.bindings == Proposed(plan, step.world);
    UndoNewest(before, plan, step.world, outcome.record, after, UsedStep(used, step), input, w);
  }

  /**
   Undo and redo, from a state whose model policies normalisation leaves alone: any step, its rollback,
   and the rollback of that rollback, each applied right after the other. The first rollback restores the
   bindings from before the step, the second those from after it.
   */
  lemma {:induction false} UndoThenRedo(before: State, step: Step, undo: Step, redo: Step, used: set<OpID>,
          codec: Codec)
    requires Sound(before, used, codec) && Tidy(codec, before)
    requires LegalStep(step, used, codec) && Perform(before, step).0.Applied?
    requires undo.Revert? && LegalStep(undo, UsedStep(used, step), codec)
    requires redo.Revert? && LegalStep(redo, UsedStep(UsedStep(used, step), undo), codec)
    requires
      var (first, after) := Perform(before, step);
      Inverse(first.record, after, undo.rollback, undo.world) && Perform(after, undo).0.Applied?
    requires
      var (second, undone) := Perform(Perform(before, step).1, undo);
      Inverse(second.record, undone, redo.rollback, redo.world) && Perform(undone, redo).0.Applied?
    ensures
      var after := Perform(before, step).1;
      var undone := Perform(after, undo).1;
      Alike(undone.bindings, before.bindings) && Alike(Perform(undone, redo).1.bindings, after.bindings)
  {
    StepThenInverse(before, step, used, codec, undo.rollback, undo.world);
    PerformKeeps(before, step, used, codec);
    PerformTidy(before, step, used, codec);
    StepThenInverse(Perform(before, step).1, undo, UsedStep(used, step), codec, redo.rollback, redo.world);
  }
}
