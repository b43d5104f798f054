/**
 When a rollback must refuse, said of the live bindings and the recorded changes: what each conflict
 means, that a plan reports exactly those, and what it makes of the scopes it does not report.
 */
module Conflicts {
  import opened Options
  import opened Text
  import opened AuthIDs
  import opened Bindings
  import opened History
  import opened Planner
  import opened Operations
  import opened Undo

  predicate KeyMissing(ctx: Context, c: Change) {
    c.scope !in ctx.hosts
  }

  /** Another binding than the one changed stands in the scope, or was the last to stand there. */
  predicate Replaced(ctx: Context, live: Bindings, c: Change) {
    var born := if c.before.None? then c.afterCreatedAt else c.beforeCreatedAt;
    if c.scope in live then live[c.scope].id != c.bindingID || live[c.scope].createdAt != born
    else
      var latest := Latest(ctx.history, c.scope);
      && c.before.Some? && latest.Some?
      && (latest.value.bindingID != c.bindingID || latest.value.beforeCreatedAt != born)
  }

  /** The scope has its earlier restriction already, or again no binding. */
  predicate Back(live: Bindings, c: Change) {
    RestrictionOf(Get(live, c.scope)) == c.before
  }

  /** The scope is not as the newest recorded change of it left it. */
  predicate Moved(ctx: Context, live: Bindings, c: Change) {
    match Latest(ctx.history, c.scope)
    case None => true
    case Some(latest) =>
      || RestrictionOf(Get(live, c.scope)) != latest.after
      || (c.scope in live && (live[c.scope].id != latest.bindingID || live[c.scope].createdAt != latest.afterCreatedAt))
  }

  /** Equal in everything but restriction and update time. */
  predicate SameBut(b: Binding, template: Binding) {
    b == template.(restriction := b.restriction, updatedAt := b.updatedAt)
  }

  /** The change created the binding, which has since been edited. */
  predicate Edited(live: Bindings, c: Change) {
    && c.before.None? && c.scope in live
    && !(c.afterTemplate.Some? && SameBut(live[c.scope], c.afterTemplate.value))
  }

  predicate CredentialMissing(ctx: Context, c: Change) {
    c.before.Some? && c.before.value.ByAuths? && exists id :: id in c.before.value.ids && id !in ctx.available
  }

  predicate GroupMissing(ctx: Context, c: Change) {
    && c.before.Some? && c.before.value.ByGroup? && c.before.value.group.Classify?
    && forall i :: 0 <= i < |ctx.rules| ==> !(ctx.rules[i].enabled && ctx.rules[i].group == c.before.value.group.suffix)
  }

  /** A deleted binding has no template to be created from again. */
  predicate TemplateMissing(live: Bindings, c: Change) {
    c.before.Some? && c.scope !in live && c.beforeTemplate.None?
  }

  /** A deleted binding's ID belongs to another scope by now. */
  predicate IDTaken(live: Bindings, c: Change) {
    c.before.Some? && c.scope !in live && HeldElsewhere(live, c.bindingID, c.scope)
  }

  /** What a restored scope starts from. */
  function Origin(live: Bindings, c: Change): Binding
    requires c.scope in live || c.beforeTemplate.Some?
  {
    if c.scope in live then live[c.scope] else c.beforeTemplate.value
  }

  predicate Unusable(ctx: Context, live: Bindings, c: Change)
    requires !TemplateMissing(live, c)
  {
    c.before.Some? && (!Acceptable(c.before.value) || !Nameable(ctx.codec, Origin(live, c)))
  }

  /** Nothing speaks against changing the scope, whatever it is to become. */
  predicate Open(ctx: Context, live: Bindings, c: Change) {
    !KeyMissing(ctx, c) && !Replaced(ctx, live, c) && !Back(live, c) && !Moved(ctx, live, c)
  }

  predicate Reachable(ctx: Context, live: Bindings, c: Change) {
    Open(ctx, live, c) && !CredentialMissing(ctx, c) && !GroupMissing(ctx, c)
  }

  /** Each code's one meaning; of several obstacles the first is reported. */
  predicate Reports(ctx: Context, live: Bindings, c: Change, code: Code) {
    match code
    case HostKeyMissing => KeyMissing(ctx, c)
    case BindingIdentityChanged =>
      && !KeyMissing(ctx, c)
      && (Replaced(ctx, live, c) || (Reachable(ctx, live, c) && !TemplateMissing(live, c) && IDTaken(live, c)))
    case BindingChanged =>
      && !KeyMissing(ctx, c) && !Replaced(ctx, live, c) && !Back(live, c)
      && (Moved(ctx, live, c) || (Reachable(ctx, live, c) && TemplateMissing(live, c)))
    case BindingModified => Open(ctx, live, c) && Edited(live, c)
    case AuthUnavailable => Open(ctx, live, c) && CredentialMissing(ctx, c)
    case GroupUnavailable => Open(ctx, live, c) && GroupMissing(ctx, c)
    case InvalidRestriction =>
      && Reachable(ctx, live, c) && !TemplateMissing(live, c) && !IDTaken(live, c) && Unusable(ctx, live, c)
    case CatalogIncomplete => false
  }

  /** The scope can get its earlier restriction back, or has it. */
  predicate Revertible(ctx: Context, live: Bindings, c: Change) {
    && !KeyMissing(ctx, c) && !Replaced(ctx, live, c)
    && (|| Back(live, c)
        || (&& !Moved(ctx, live, c) && !Edited(live, c) && !CredentialMissing(ctx, c) && !GroupMissing(ctx, c)
            && !TemplateMissing(live, c) && !IDTaken(live, c) && !Unusable(ctx, live, c)))
  }

  /** What the scope then holds. */
  function Reverted(ctx: Context, live: Bindings, c: Change): Option<Binding>
    requires Revertible(ctx, live, c)
  {
    if Back(live, c) then Get(live, c.scope)
    else if c.before.None? then None
    else Some(Refreshed(ctx.codec, Origin(live, c)).(restriction := c.before.value))
  }

  predicate RestoresGroup(ctx: Context, live: Bindings, c: Change) {
    Revertible(ctx, live, c) && !Back(live, c) && c.before.Some? && c.before.value.ByGroup?
  }

  function Found(ctx: Context, live: Bindings, c: Change): Verdict {
    Judge(ctx, Get(live, c.scope), HeldElsewhere(live, c.bindingID, c.scope), c)
  }

  /** The planner's cascade of tests finds just that. */
  lemma {:induction false} FoundExactly(ctx: Context, live: Bindings, c: Change)
    ensures forall code :: Found(ctx, live, c) == Clash(code) <==> Reports(ctx, live, c, code)
    ensures Found(ctx, live, c).Clash? <==> !Revertible(ctx, live, c)
    ensures Revertible(ctx, live, c) ==>
              Found(ctx, live, c) == if Back(live, c) then Keep else Become(Reverted(ctx, live, c))
  {
    hide Latest, HeldElsewhere, Acceptable, Nameable;
  }

  // --------------------------------------------------------------------------------------- the plan

  /** The recorded change is reported with this conflict, judged by the bindings from before the rollback. */
  predicate Named(ctx: Context, live: Bindings, c: Change, conflict: Conflict) {
    conflict.bindingID == Some(c.bindingID) && Reports(ctx, live, c, conflict.code)
  }

  predicate NamedBy(ctx: Context, live: Bindings, saved: seq<Change>, conflict: Conflict) {
    exists k :: 0 <= k < |saved| && Named(ctx, live, saved[k], conflict)
  }

  function After(ctx: Context, live: Bindings, c: Change): Option<Binding> {
    if Revertible(ctx, live, c) then Reverted(ctx, live, c) else Get(live, c.scope)
  }

  /** The draft reports and does for each change what the bindings from before call for. */
  ghost predicate DraftedAs(ctx: Context, start: Draft, saved: seq<Change>, draft: Draft) {
    && (forall conflict :: conflict in draft.conflicts <==>
          conflict in start.conflicts || NamedBy(ctx, start.bindings, saved, conflict))
    && (forall k :: 0 <= k < |saved| ==> Get(draft.bindings, saved[k].scope) == After(ctx, start.bindings, saved[k]))
    && (forall s {:trigger Get(draft.bindings, s)} ::
          !Touches(saved, s) ==> Get(draft.bindings, s) == Get(start.bindings, s))
    && (draft.warned <==>
          start.warned || exists k :: 0 <= k < |saved| && RestoresGroup(ctx, start.bindings, saved[k]))
  }

  /** Changes of other scopes and other bindings leave what is found of a change as it was. */
  lemma {:induction false} FoundAlike(ctx: Context, from: Bindings, draft: Draft, done: seq<Change>, c: Change)
    requires RollbackProgress(ctx.codec, from, draft, done) && Savable(done + [c])
    ensures Get(draft.bindings, c.scope) == Get(from, c.scope)
    ensures HeldElsewhere(draft.bindings, c.bindingID, c.scope) == HeldElsewhere(from, c.bindingID, c.scope)
  {
    StepSeparate(draft, done, c);
    assert !Touches(draft.changes, c.scope);
    forall s | s != c.scope
      ensures Get(draft.bindings, s).Some? && draft.bindings[s].id == c.bindingID <==>
              Get(from, s).Some? && from[s].id == c.bindingID
    {
      if Touches(draft.changes, s) {
        var k :| 0 <= k < |draft.changes| && draft.changes[k].scope == s;
        assert Accounted(ctx.codec, draft.changes[k], Get(from, s), Get(draft.bindings, s));
      } else {
        assert Get(draft.bindings, s) == Get(from, s);
      }
    }
  }

  lemma {:induction false} StepDraftedAs(ctx: Context, start: Draft, done: seq<Change>, draft: Draft, c: Change)
    requires RollbackProgress(ctx.codec, start.bindings, draft, done) && Savable(done + [c])
    requires DraftedAs(ctx, start, done, draft)
    ensures DraftedAs(ctx, start, done + [c], RollbackStep(ctx, draft, c))
  {
    var live, next := start.bindings, RollbackStep(ctx, draft, c);
    FoundAlike(ctx, live, draft, done, c);
    FoundExactly(ctx, live, c);
    StepIs(ctx, live, draft, c, next);
    assert forall j :: 0 <= j < |done| ==> (done + [c])[j] == done[j];
    assert (done + [c])[|done|] == c;
    hide Judge, Reports, Revertible, Reverted, Savable, RollbackProgress, RestoresGroup, RollbackStep, HeldElsewhere;
    NamedByNext(ctx, live, done, c);
    TouchesNext(done, c);
  }

  lemma {:induction false} NamedByNext(ctx: Context, live: Bindings, done: seq<Change>, c: Change)
    ensures forall conflict ::
      NamedBy(ctx, live, done + [c], conflict) <==> NamedBy(ctx, live, done, conflict) || Named(ctx, live, c, conflict)
  {
    hide Named;
    var all := done + [c];
    forall conflict
      ensures NamedBy(ctx, live, all, conflict) <==> NamedBy(ctx, live, done, conflict) || Named(ctx, live, c, conflict)
    {
      if NamedBy(ctx, live, done, conflict) {
        var k :| 0 <= k < |done| && Named(ctx, live, done[k], conflict);
        assert Named(ctx, live, all[k], conflict);
      }
      if Named(ctx, live, c, conflict) { assert Named(ctx, live, all[|done|], conflict); }
    }
  }

  lemma {:induction false} TouchesNext(done: seq<Change>, c: Change)
    ensures forall s :: Touches(done + [c], s) <==> Touches(done, s) || c.scope == s
  {
    forall s ensures Touches(done + [c], s) <==> Touches(done, s) || c.scope == s {
      TouchesAppend(done, c, s);
    }
  }

  /** One step of the draft, by what is found from the bindings before. */
  lemma {:induction false} StepIs(ctx: Context, live: Bindings, draft: Draft, c: Change, next: Draft)
    requires next == RollbackStep(ctx, draft, c)
    requires Get(draft.bindings, c.scope) == Get(live, c.scope)
    requires HeldElsewhere(draft.bindings, c.bindingID, c.scope) == HeldElsewhere(live, c.bindingID, c.scope)
    ensures Get(next.bindings, c.scope) == After(ctx, live, c)
    ensures forall s {:trigger Get(next.bindings, s)} ::
              s != c.scope ==> Get(next.bindings, s) == Get(draft.bindings, s)
    ensures forall conflict :: conflict in next.conflicts <==>
              conflict in draft.conflicts || Named(ctx, live, c, conflict)
    ensures next.warned <==> draft.warned || RestoresGroup(ctx, live, c)
  {
    FoundExactly(ctx, live, c);
    hide Judge, Reports, Revertible;
  }

  lemma {:induction false} NothingDrafted(ctx: Context, start: Draft)
    ensures DraftedAs(ctx, start, [], start)
  {
  }

  lemma {:induction false} DraftExactly(ctx: Context, start: Draft, saved: seq<Change>)
    requires start.changes == [] && Keyed(start.bindings) && UniqueIDs(start.bindings) && Savable(saved)
    ensures DraftedAs(ctx, start, saved, RollbackDraft(ctx, start, saved))
  {
    hide DraftedAs, RollbackProgress, RollbackStep, Keyed, UniqueIDs;
    if saved == [] {
      NothingDrafted(ctx, start);
    } else {
      var front, last := saved[..|saved| - 1], saved[|saved| - 1];
      assert saved == front + [last];
      SavableBefore(front, last);
      DraftExactly(ctx, start, front);
      RollbackDraftAccounts(ctx, start, front);
      hide Savable;
      StepDraftedAs(ctx, start, front, RollbackDraft(ctx, start, front), last);
    }
  }

  // -------------------------------------------------------------------------------------- the record

  /** What is recorded of a scope that is changed: named as it is now, or as it was recorded if it is gone. */
  function Recorded(live: Bindings, c: Change, becomes: Option<Binding>): Change {
    var was := Get(live, c.scope);
    Change(c.bindingID, if was.Some? then was.value.settings.name else c.name,
           if was.Some? then was.value.settings.keyPreview else c.keyPreview, c.scope,
           RestrictionOf(was), c.before,
           if was.Some? then Some(was.value.(updatedAt := NEVER)) else None, None,
           if was.Some? then was.value.createdAt else NEVER, NEVER,
           if c.before.None? then was else None, if was.None? then becomes else None)
  }

  /** The changes due, in the order of the recorded ones. */
  function Due(ctx: Context, live: Bindings, saved: seq<Change>): seq<Change> {
    if saved == [] then []
    else
      var front, c := Due(ctx, live, saved[..|saved| - 1]), saved[|saved| - 1];
      if Revertible(ctx, live, c) && !Back(live, c) then front + [Recorded(live, c, Reverted(ctx, live, c))] else front
  }

  lemma {:induction false} RecordedNext(ctx: Context, live: Bindings, draft: Draft, c: Change)
    requires Get(draft.bindings, c.scope) == Get(live, c.scope)
    requires HeldElsewhere(draft.bindings, c.bindingID, c.scope) == HeldElsewhere(live, c.bindingID, c.scope)
    ensures RollbackStep(ctx, draft, c).changes ==
            if Revertible(ctx, live, c) && !Back(live, c)
            then draft.changes + [Recorded(live, c, Reverted(ctx, live, c))] else draft.changes
  {
    FoundExactly(ctx, live, c);
    hide Judge, Revertible, Back;
  }

  lemma {:induction false} DraftRecords(ctx: Context, start: Draft, saved: seq<Change>)
    requires start.changes == [] && Keyed(start.bindings) && UniqueIDs(start.bindings) && Savable(saved)
    ensures RollbackDraft(ctx, start, saved).changes == Due(ctx, start.bindings, saved)
  {
    hide RollbackProgress, RollbackStep, Keyed, UniqueIDs, Revertible, Back, Recorded;
    if saved != [] {
      var front, last := saved[..|saved| - 1], saved[|saved| - 1];
      assert saved == front + [last];
      SavableBefore(front, last);
      DraftRecords(ctx, start, front);
      RollbackDraftAccounts(ctx, start, front);
      FoundAlike(ctx, start.bindings, RollbackDraft(ctx, start, front), front, last);
      RecordedNext(ctx, start.bindings, RollbackDraft(ctx, start, front), last);
    }
  }

  // ------------------------------------------------------------------------------------ the operation

  /** The request is one the planner looks into: its texts are in order and its operation is in the log. */
  predicate Answerable(state: State, input: RollbackInput) {
    && GoodInput(Texts(input.keys), input.available, input.expected)
    && input.operation != NO_OP && input.idLength <= OPERATION_ID_LIMIT
    && IndexOf(state.history, input.operation) < |state.history|
  }

  function Changes(state: State, input: RollbackInput): seq<Change>
    requires Answerable(state, input)
  {
    state.history[IndexOf(state.history, input.operation)].changes
  }

  function Consulted(state: State, input: RollbackInput, w: World): Context {
    ContextOf(Snapshot(state.bindings, state.history, w.rules), input, w.codec)
  }

  /** What it goes by: the host's keys but for blank ones, the credentials on offer, trimmed, and log and rules. */
  lemma {:induction false} ConsultedExactly(state: State, input: RollbackInput, w: World)
    ensures
      var ctx := Consulted(state, input, w);
      && (forall s :: s in ctx.hosts <==> s != NO_SCOPE && exists key :: key in input.keys && key.scope == s)
      && (forall id :: id in ctx.available <==> Names(input.available, id))
      && ctx.history == state.history && ctx.rules == w.rules && ctx.codec == w.codec
  {
    var ctx, hosts := Consulted(state, input, w), Hosts(input.keys);
    NormalForm(input.available);
    forall s ensures s in ctx.hosts <==> s != NO_SCOPE && exists key :: key in input.keys && key.scope == s {
      if key :| key in input.keys && key.scope == s {
        var i :| 0 <= i < |input.keys| && input.keys[i] == key;
        assert hosts[i] == s;
      }
    }
    forall id ensures id in IDSet(Normal(input.available)) <==> id in Normal(input.available) {
      if id in Normal(input.available) {
        var i :| 0 <= i < |Normal(input.available)| && Normal(input.available)[i] == id;
      }
    }
  }

  ghost predicate AllRevertible(state: State, input: RollbackInput, w: World)
    requires Answerable(state, input)
  {
    forall k :: 0 <= k < |Changes(state, input)| ==>
      Revertible(Consulted(state, input, w), state.bindings, Changes(state, input)[k])
  }

  function PlanOf(state: State, input: RollbackInput, w: World): Planned {
    PlanRollback(Snapshot(state.bindings, state.history, w.rules), input, w.codec)
  }

  lemma {:induction false} SourceSavable(state: State, input: RollbackInput, w: World, used: set<OpID>)
    requires Sound(state, used, w.codec) && Answerable(state, input)
    ensures Keyed(state.bindings) && UniqueIDs(state.bindings) && Savable(Changes(state, input))
  {
    assert ValidRecord(state.history[IndexOf(state.history, input.operation)]);
  }

  lemma {:induction false} PlanIsDraft(state: State, input: RollbackInput, w: World)
    requires PlanOf(state, input, w).Ready?
    ensures Answerable(state, input)
    ensures
      var start := RollbackStart(Snapshot(state.bindings, state.history, w.rules), input);
      var draft := RollbackDraft(Consulted(state, input, w), start, Changes(state, input));
      var plan := PlanOf(state, input, w).plan;
      && plan.bindings == draft.bindings && plan.conflicts == draft.conflicts && plan.warned == draft.warned
      && plan.changes == draft.changes
      && start.bindings == state.bindings && start.changes == [] && !start.warned
      && start.conflicts == if input.complete then [] else [Conflict(None, CatalogIncomplete)]
  {
    hide RollbackDraft, TooLarge, GoodInput, ContextOf;
  }

  /**
   A rollback's plan reports an incomplete catalog and, of each recorded change, the conflict that the
   bindings before call for, and nothing else; it changes just the scopes that it does not report.
   */
  lemma {:induction false} PlanExactly(state: State, input: RollbackInput, w: World, used: set<OpID>)
    requires Sound(state, used, w.codec) && PlanOf(state, input, w).Ready?
    ensures Answerable(state, input)
    ensures
      var plan, saved, ctx := PlanOf(state, input, w).plan, Changes(state, input), Consulted(state, input, w);
      && (forall conflict :: conflict in plan.conflicts <==>
            || (conflict == Conflict(None, CatalogIncomplete) && !input.complete)
            || NamedBy(ctx, state.bindings, saved, conflict))
      && (forall k :: 0 <= k < |saved| ==> Get(plan.bindings, saved[k].scope) == After(ctx, state.bindings, saved[k]))
      && (forall s {:trigger Get(plan.bindings, s)} ::
            !Touches(saved, s) ==> Get(plan.bindings, s) == Get(state.bindings, s))
      && (plan.warned <==> exists k :: 0 <= k < |saved| && RestoresGroup(ctx, state.bindings, saved[k]))
  {
    hide Sound, Keyed, UniqueIDs, Savable, PlanOf, Consulted, RollbackDraft, NamedBy, Answerable, Changes;
    hide RollbackStart, After, RestoresGroup, Touches;
    PlanIsDraft(state, input, w);
    SourceSavable(state, input, w, used);
    DraftExactly(Consulted(state, input, w), RollbackStart(Snapshot(state.bindings, state.history, w.rules), input),
                 Changes(state, input));
  }

  /** The plan lists, in the order of the recorded changes, one for each scope that it changes. */
  lemma {:induction false} PlanRecordsExactly(state: State, input: RollbackInput, w: World, used: set<OpID>)
    requires Sound(state, used, w.codec) && PlanOf(state, input, w).Ready?
    ensures Answerable(state, input)
    ensures PlanOf(state, input, w).plan.changes ==
            Due(Consulted(state, input, w), state.bindings, Changes(state, input))
  {
    hide Sound, Keyed, UniqueIDs, Savable, PlanOf, Consulted, RollbackDraft, Answerable, Changes, RollbackStart, Due;
    PlanIsDraft(state, input, w);
    SourceSavable(state, input, w, used);
    DraftRecords(Consulted(state, input, w), RollbackStart(Snapshot(state.bindings, state.history, w.rules), input),
                 Changes(state, input));
  }

  lemma {:induction false} NamedUnlessRevertible(ctx: Context, live: Bindings, saved: seq<Change>, k: nat)
    requires k < |saved|
    ensures Revertible(ctx, live, saved[k]) || exists conflict :: NamedBy(ctx, live, saved, conflict)
  {
    FoundExactly(ctx, live, saved[k]);
    if !Revertible(ctx, live, saved[k]) {
      var conflict := Conflict(Some(saved[k].bindingID), Found(ctx, live, saved[k]).code);
      assert Named(ctx, live, saved[k], conflict);
      assert NamedBy(ctx, live, saved, conflict);
    }
  }

  /** There is no conflict exactly when the catalog is complete and every change is revertible. */
  lemma {:induction false} NoConflictExactly(state: State, input: RollbackInput, w: World, used: set<OpID>)
    requires Sound(state, used, w.codec) && PlanOf(state, input, w).Ready?
    ensures Answerable(state, input)
    ensures PlanOf(state, input, w).plan.conflicts == [] <==> input.complete && AllRevertible(state, input, w)
  {
    hide Sound, PlanOf, Consulted, Answerable, Changes, NamedBy, Named, Revertible, RestoresGroup, After, Touches;
    PlanExactly(state, input, w, used);
    var conflicts, saved := PlanOf(state, input, w).plan.conflicts, Changes(state, input);
    var ctx := Consulted(state, input, w);
    if conflicts == [] {
      assert Conflict(None, CatalogIncomplete) !in conflicts;
      forall k | 0 <= k < |saved| ensures Revertible(ctx, state.bindings, saved[k]) {
        NamedUnlessRevertible(ctx, state.bindings, saved, k);
      }
    } else {
      var conflict := conflicts[0];
      assert conflict in conflicts;
      if NamedBy(ctx, state.bindings, saved, conflict) {
        var k := NamedIsNotRevertible(ctx, state.bindings, saved, conflict);
      }
    }
  }

  lemma {:induction false} NamedIsNotRevertible(ctx: Context, live: Bindings, saved: seq<Change>, conflict: Conflict)
    returns (k: nat)
    requires NamedBy(ctx, live, saved, conflict)
    ensures k < |saved| && !Revertible(ctx, live, saved[k])
  {
    k :| 0 <= k < |saved| && Named(ctx, live, saved[k], conflict);
    FoundExactly(ctx, live, saved[k]);
  }

  /** Every scope of the operation has its earlier restriction already. */
  ghost predicate AllBack(state: State, input: RollbackInput)
    requires Answerable(state, input)
  {
    forall k :: 0 <= k < |Changes(state, input)| ==> Back(state.bindings, Changes(state, input)[k])
  }

  lemma {:induction false} NothingToDoExactly(state: State, input: RollbackInput, w: World, used: set<OpID>)
    requires Sound(state, used, w.codec)
    requires PlanOf(state, input, w).Ready? && PlanOf(state, input, w).plan.conflicts == []
    ensures Answerable(state, input)
    ensures PlanOf(state, input, w).plan.changes == [] <==> AllBack(state, input)
  {
    PlanExactly(state, input, w, used);
    NoConflictExactly(state, input, w, used);
    RollbackPlanGood(state, input, w, used);
    var plan, saved, ctx := PlanOf(state, input, w).plan, Changes(state, input), Consulted(state, input, w);
    hide Sound, PlanOf, Consulted, Answerable, Changes, Keyed, UniqueIDs, Revertible, Accounted;
    if plan.changes == [] {
      UnchangedPlan(w.codec, plan, state);
      forall k | 0 <= k < |saved| ensures Back(state.bindings, saved[k]) {
        assert Get(plan.bindings, saved[k].scope) == Get(state.bindings, saved[k].scope);
      }
    } else {
      ChangedSomewhere(w.codec, plan, state, saved);
    }
  }

  /** A plan that records a change does change the scope, and it is one of the operation's. */
  lemma {:induction false} ChangedSomewhere(codec: Codec, plan: Plan, state: State, saved: seq<Change>)
    requires GoodPlan(codec, plan, state) && plan.changes != []
    requires forall k :: 0 <= k < |plan.changes| ==> Mentions(saved, plan.changes[k])
    ensures exists k :: 0 <= k < |saved| && Get(plan.bindings, saved[k].scope) != Get(state.bindings, saved[k].scope)
  {
    var c := plan.changes[0];
    assert Mentions(saved, c) && Accounted(codec, c, Get(state.bindings, c.scope), Get(plan.bindings, c.scope));
    var k :| 0 <= k < |saved| && saved[k].scope == c.scope && saved[k].bindingID == c.bindingID;
    assert Get(plan.bindings, saved[k].scope) != Get(state.bindings, saved[k].scope);
  }

  /** The log can take the operation and normalisation the bindings. */
  predicate Storable(state: State, plan: Plan, w: World) {
    var stamped := Proposed(plan, w);
    var (record, older) := Rewritten(state.history, plan, StampChanges(plan.changes, stamped), w);
    && Normalises(w.codec, stamped)
    && var kept := Truncate([record] + older, w.codec); kept.Some? && Valid(kept.value, w.codec)
  }

  /**
   What a rollback request comes to: refused as conflicting, nothing to do, or applied, by catalog,
   bindings and recorded changes alone, given that it is answerable, not too large and asked for under the
   revision of its plan.
   */
  lemma {:induction false} OutcomeExactly(state: State, input: RollbackInput, w: World, used: set<OpID>)
    requires Sound(state, used, w.codec)
    ensures
      var outcome, planned := ApplyRollback(state, input, w).0, PlanOf(state, input, w);
      && (outcome.Denied? <==> planned.Refused?)
      && (outcome == Stale <==>
            planned.Ready? && (input.expected == NoRevision || input.expected != planned.plan.revision))
      && (planned.Ready? && outcome != Stale ==>
            && Answerable(state, input)
            && (outcome.Conflicting? <==> !(input.complete && AllRevertible(state, input, w)))
            && (outcome == Unchanged <==> input.complete && AllRevertible(state, input, w) && AllBack(state, input))
            && (outcome.Applied? <==>
                  && input.complete && AllRevertible(state, input, w) && !AllBack(state, input)
                  && Storable(state, planned.plan, w) && w.diskOK))
  {
    var planned := PlanOf(state, input, w);
    if planned.Ready? {
      NoConflictExactly(state, input, w, used);
      if planned.plan.conflicts == [] { NothingToDoExactly(state, input, w, used); }
    }
    CommitOutcomes(state, planned, input.expected, w);
    assert ApplyRollback(state, input, w) == if planned.Refused? then (Denied(planned.error), state)
                                             else Commit(state, planned.plan, input.expected, w);
    hide *;
  }

  lemma {:induction false} CommitOutcomes(state: State, planned: Planned, expected: Revision, w: World)
    ensures planned.Ready? ==>
      var plan, outcome := planned.plan, Commit(state, planned.plan, expected, w).0;
      && (outcome == Stale <==> expected == NoRevision || expected != plan.revision)
      && !outcome.Denied?
      && (outcome != Stale ==>
            && (outcome.Conflicting? <==> plan.conflicts != [])
            && (outcome == Unchanged <==> plan.conflicts == [] && plan.changes == [])
            && (outcome.Applied? <==>
                  plan.conflicts == [] && plan.changes != [] && Storable(state, plan, w) && w.diskOK))
  {
    hide Truncate, Valid, Normalises, Rewritten, StampChanges, StampBindings;
  }

  /** An applied rollback, scope by scope: each recorded one reverted and stamped, the others normalised once more. */
  lemma {:induction false} RollbackGives(state: State, input: RollbackInput, w: World, used: set<OpID>, s: Scope)
    requires Sound(state, used, w.codec) && ApplyRollback(state, input, w).0.Applied?
    ensures Answerable(state, input) && AllRevertible(state, input, w)
    ensures
      var now, was := Get(ApplyRollback(state, input, w).1.bindings, s), Get(state.bindings, s);
      var ctx := Consulted(state, input, w);
      && (!Touches(Changes(state, input), s) ==> now == if was.Some? then Some(Refreshed(w.codec, was.value)) else None)
      && forall k :: 0 <= k < |Changes(state, input)| && Changes(state, input)[k].scope == s ==>
           now == Published(w, was, Reverted(ctx, state.bindings, Changes(state, input)[k]))
  {
    hide Sound, ApplyRollback, Commit, Storable, GoodPlan, Revertible, PlanOf, Answerable, Consulted, Changes;
    hide NamedBy, Reverted, RestoresGroup;
    OutcomeExactly(state, input, w, used);
    AppliedIsCommit(state, input, w);
    var plan := PlanOf(state, input, w).plan;
    PlanIsGood(state, input, w, used);
    PlanExactly(state, input, w, used);
    CommitPublishes(state, plan, input.expected, w, s);
  }

  lemma {:induction false} PlanIsGood(state: State, input: RollbackInput, w: World, used: set<OpID>)
    requires Sound(state, used, w.codec) && PlanOf(state, input, w).Ready?
    ensures GoodPlan(w.codec, PlanOf(state, input, w).plan, state)
  {
    RollbackPlanGood(state, input, w, used);
    hide *;
  }

  lemma {:induction false} AppliedIsCommit(state: State, input: RollbackInput, w: World)
    requires ApplyRollback(state, input, w).0.Applied?
    ensures PlanOf(state, input, w).Ready?
    ensures ApplyRollback(state, input, w) == Commit(state, PlanOf(state, input, w).plan, input.expected, w)
  {
    hide PlanRollback, Truncate, Valid, Rewritten;
  }

  // --------------------------------------------------------------------------------- over whole runs

  /** An applied rollback removes a binding only if it is as the change that created it left it. */
  lemma {:induction false} RemovesOnlyUnedited(state: State, input: RollbackInput, w: World, used: set<OpID>, s: Scope)
    returns (k: nat)
    requires Sound(state, used, w.codec) && Fresh(w, used) && ApplyRollback(state, input, w).0.Applied?
    requires s in state.bindings && s !in ApplyRollback(state, input, w).1.bindings
    ensures Answerable(state, input) && k < |Changes(state, input)|
    ensures
      var c, b := Changes(state, input)[k], state.bindings[s];
      && c.scope == s && c.before.None? && c.bindingID == b.id && c.afterCreatedAt == b.createdAt
      && c.afterTemplate.Some? && SameBut(b, c.afterTemplate.value)
  {
    hide Sound, PlanOf, Consulted, Answerable, Changes, Storable, ApplyRollback, Named, RestoresGroup, NamedBy;
    AppliedKeys(state, input, w);
    PlanExactly(state, input, w, used);
    OutcomeExactly(state, input, w, used);
    var plan, saved, ctx := PlanOf(state, input, w).plan, Changes(state, input), Consulted(state, input, w);
    assert Get(plan.bindings, s).None?;
    assert Touches(saved, s);
    k :| 0 <= k < |saved| && saved[k].scope == s;
    assert Get(plan.bindings, saved[k].scope) == After(ctx, state.bindings, saved[k]);
  }

  lemma {:induction false} AppliedKeys(state: State, input: RollbackInput, w: World)
    requires ApplyRollback(state, input, w).0.Applied?
    ensures PlanOf(state, input, w).Ready?
    ensures ApplyRollback(state, input, w).1.bindings.Keys == PlanOf(state, input, w).plan.bindings.Keys
  {
    hide PlanRollback, Truncate, Valid, Rewritten;
  }

  /** The change of the operation that made this binding, all else but restriction and update time as it left it. */
  ghost predicate CreatedAsIs(state: State, input: RollbackInput, s: Scope, k: nat)
    requires Answerable(state, input) && k < |Changes(state, input)| && s in state.bindings
  {
    var c, b := Changes(state, input)[k], state.bindings[s];
    c.scope == s && c.before.None? && c.afterTemplate.Some? && SameBut(b, c.afterTemplate.value)
  }

  /**
   Over every run, edits included: a batch or rollback that removes a binding is a rollback of the operation
   that created it, and the binding has the ID, the settings and the creation time that it was created with.
   */
  lemma {:induction false} RunRemovesOnlyUnedited(state: State, steps: seq<Step>, used: set<OpID>, codec: Codec,
          i: nat, s: Scope)
    requires Sound(state, used, codec) && LegalRun(steps, used, codec) && i < |steps| && !steps[i].Edit?
    requires s in Run(state, steps[..i]).bindings && s !in Run(state, steps[..i + 1]).bindings
    ensures
      var before := Run(state, steps[..i]);
      && steps[i].Revert? && Answerable(before, steps[i].rollback)
      && exists k :: 0 <= k < |Changes(before, steps[i].rollback)| && CreatedAsIs(before, steps[i].rollback, s, k)
  {
    hide *;
    var before, step := Run(state, steps[..i]), steps[i];
    LegalFront(steps, i, used, codec);
    RunSound(state, steps[..i], used, codec);
    RunNext(state, steps[..i], step, used, codec);
    assert steps[..i + 1] == steps[..i] + [step];
    StepRemovesOnlyUnedited(before, step, UsedBy(used, steps[..i]), codec, s);
  }

  lemma {:induction false} LegalFront(steps: seq<Step>, i: nat, used: set<OpID>, codec: Codec)
    requires LegalRun(steps, used, codec) && i < |steps|
    ensures LegalRun(steps[..i], used, codec) && LegalStep(steps[i], UsedBy(used, steps[..i]), codec)
    decreases |steps|
  {
    if i < |steps| - 1 {
      LegalFront(steps[..|steps| - 1], i, used, codec);
      assert steps[..|steps| - 1][..i] == steps[..i];
    }
  }

  lemma {:induction false} StepRemovesOnlyUnedited(state: State, step: Step, used: set<OpID>, codec: Codec, s: Scope)
    requires Sound(state, used, codec) && LegalStep(step, used, codec) && !step.Edit?
    requires s in state.bindings && s !in Perform(state, step).1.bindings
    ensures step.Revert? && Answerable(state, step.rollback)
    ensures exists k :: 0 <= k < |Changes(state, step.rollback)| && CreatedAsIs(state, step.rollback, s, k)
  {
    PerformKeeps(state, step, used, codec);
    hide Sound, ApplyRollback, ApplyBatch, Committed, GoodPlan, Answerable, Changes;
    if step.Apply? {
      BatchOnlySets(state, step.batch, step.world, used, s);
      assert false;
    } else {
      var k := RemovesOnlyUnedited(state, step.rollback, step.world, used, s);
      assert CreatedAsIs(state, step.rollback, s, k);
    }
  }

  /**
   Conversely: the rollback of an operation that created a binding which has been edited since, and is
   otherwise where the log left it, reports binding_modified and changes nothing.
   */
  lemma {:induction false} EditedIsKept(state: State, input: RollbackInput, w: World, used: set<OpID>, k: nat)
    requires Sound(state, used, w.codec) && PlanOf(state, input, w).Ready?
    requires Answerable(state, input) && k < |Changes(state, input)|
    requires Open(Consulted(state, input, w), state.bindings, Changes(state, input)[k])
    requires Edited(state.bindings, Changes(state, input)[k])
    ensures Conflict(Some(Changes(state, input)[k].bindingID), BindingModified)
            in PlanOf(state, input, w).plan.conflicts
    ensures ApplyRollback(state, input, w).1 == state
  {
    hide Sound, PlanOf, Consulted, Open, Edited, Changes, Answerable;
    PlanExactly(state, input, w, used);
    var c, ctx := Changes(state, input)[k], Consulted(state, input, w);
    var conflict := Conflict(Some(c.bindingID), BindingModified);
    assert Named(ctx, state.bindings, c, conflict);
    assert NamedBy(ctx, state.bindings, Changes(state, input), conflict);
    ConflictsKeep(state, input, w);
  }

  lemma {:induction false} ConflictsKeep(state: State, input: RollbackInput, w: World)
    requires PlanOf(state, input, w).Ready? && PlanOf(state, input, w).plan.conflicts != []
    ensures ApplyRollback(state, input, w).1 == state
  {
    hide PlanRollback, Truncate, Rewritten;
  }
}
