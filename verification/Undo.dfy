/** Whole runs of batches and rollbacks: what the log knows, what rollback reaches, undo and redo. */
module Undo {
  import opened Options
  import opened Bindings
  import opened History
  import opened Planner
  import opened Operations

  /** One step of a run. Edit stands for any create, update or delete outside the log. */
  datatype Step =
    | Apply(batch: BatchInput, world: World)
    | Revert(rollback: RollbackInput, world: World)
    | Edit(bindings: Bindings)

  function Perform(state: State, step: Step): (Outcome, State) {
    match step
    case Apply(input, w) => ApplyBatch(state, input, w)
    case Revert(input, w) => ApplyRollback(state, input, w)
    case Edit(bindings) => (Unchanged, State(bindings, state.history))
  }

  function Run(state: State, steps: seq<Step>): State {
    if steps == [] then state
    else Perform(Run(state, steps[..|steps| - 1]), steps[|steps| - 1]).1
  }

  function UsedStep(used: set<OpID>, step: Step): set<OpID> {
    match step
    case Edit(_) => used
    case Apply(_, w) => used + {w.nonce}
    case Revert(_, w) => used + {w.nonce}
  }

  function UsedBy(used: set<OpID>, steps: seq<Step>): set<OpID> {
    if steps == [] then used
    else UsedStep(UsedBy(used, steps[..|steps| - 1]), steps[|steps| - 1])
  }

  /** Nonces are fresh, the clock is not the zero time, edits keep bindings well-formed. */
  ghost predicate LegalStep(step: Step, used: set<OpID>, codec: Codec) {
    match step
    case Edit(bindings) => WellFormed(bindings)
    case Apply(_, w) => Fresh(w, used) && w.codec == codec
    case Revert(_, w) => Fresh(w, used) && w.codec == codec
  }

  ghost predicate LegalRun(steps: seq<Step>, used: set<OpID>, codec: Codec) {
    steps == [] ||
    (LegalRun(steps[..|steps| - 1], used, codec) &&
     LegalStep(steps[|steps| - 1], UsedBy(used, steps[..|steps| - 1]), codec))
  }

  lemma {:induction false} RunNext(state: State, steps: seq<Step>, step: Step, used: set<OpID>, codec: Codec)
    ensures Run(state, steps + [step]) == Perform(Run(state, steps), step).1
    ensures UsedBy(used, steps + [step]) == UsedStep(UsedBy(used, steps), step)
    ensures LegalRun(steps + [step], used, codec) <==>
              LegalRun(steps, used, codec) && LegalStep(step, UsedBy(used, steps), codec)
  {
    assert (steps + [step])[..|steps|] == steps;
    hide Perform, UsedStep, LegalStep;
  }

  lemma {:induction false} SoundMonotone(state: State, used: set<OpID>, more: set<OpID>, codec: Codec)
    requires Sound(state, used, codec) && used <= more && NO_OP !in more
    ensures Sound(state, more, codec)
  {
  }

  /** The plan behind an applied step, with everything its commit guarantees. */
  lemma {:induction false} PerformKeeps(state: State, step: Step, used: set<OpID>, codec: Codec)
    requires Sound(state, used, codec) && LegalStep(step, used, codec)
    ensures
      var (outcome, next) := Perform(state, step);
      && Sound(next, UsedStep(used, step), codec)
      && (!outcome.Applied? && !step.Edit? ==> next == state)
      && (outcome.Applied? ==>
            exists plan ::
              GoodPlan(step.world.codec, plan, state) && Committed(state, plan, step.world, outcome.record, next))
  {
    var (outcome, next) := Perform(state, step);
    match step
    case Edit(_) =>
    case Apply(input, w) =>
      var planned := PlanBatch(Snapshot(state.bindings, state.history, w.rules), input, w.codec);
      if planned.Ready? {
        BatchPlanGood(state, input, w);
        CommitKeeps(state, planned.plan, input.expected, w, used);
      }
      if !outcome.Applied? { SoundMonotone(state, used, used + {w.nonce}, codec); }
    case Revert(input, w) =>
      var planned := PlanRollback(Snapshot(state.bindings, state.history, w.rules), input, w.codec);
      if planned.Ready? {
        RollbackPlanGood(state, input, w, used);
        CommitKeeps(state, planned.plan, input.expected, w, used);
      }
      if !outcome.Applied? { SoundMonotone(state, used, used + {w.nonce}, codec); }
  }

  lemma {:induction false} RunSound(state: State, steps: seq<Step>, used: set<OpID>, codec: Codec)
    requires Sound(state, used, codec) && LegalRun(steps, used, codec)
    ensures Sound(Run(state, steps), UsedBy(used, steps), codec)
  {
    if steps != [] {
      var front, last := steps[..|steps| - 1], steps[|steps| - 1];
      RunSound(state, front, used, codec);
      PerformKeeps(Run(state, front), last, UsedBy(used, front), codec);
    }
  }

  // ------------------------------------------------- the log agrees with the bindings

  /** A fingerprint that leaves out the model policy. */
  function SansAccess(binding: Option<Binding>): Option<Binding> {
    if binding.None? then None
    else Fingerprint(Some(binding.value.(settings := binding.value.settings.(modelAccess := AllModels))))
  }

  /** A recorded after-image describes this binding in everything but model policy and update time, or its absence. */
  ghost predicate Describes(c: Change, current: Option<Binding>) {
    Matches(c, current) && SansAccess(c.afterFingerprint) == SansAccess(current)
  }

  /** For every scope the log still mentions, its newest change describes the live binding. */
  ghost predicate InStep(state: State) {
    forall s :: Latest(state.history, s).Some? ==> Describes(Latest(state.history, s).value, Get(state.bindings, s))
  }

  /** Normalising the model policy once more leaves the description true. */
  lemma {:induction false} RefreshDescribes(codec: Codec, c: Change, live: Bindings, s: Scope)
    requires Describes(c, Get(live, s))
    ensures Describes(c, Get(RefreshedAll(codec, live), s))
  {
  }

  lemma {:induction false} LatestIgnoresMarks(history: seq<Record>, other: seq<Record>, s: Scope)
    requires SameButMarks(history, other)
    ensures Latest(history, s) == Latest(other, s)
  {
    if history != [] {
      assert other[0].changes == history[0].changes;
      LatestIgnoresMarks(history[1..], other[1..], s);
    }
  }

  lemma {:induction false} CommitStaysInStep(state: State, plan: Plan, w: World, record: Record, next: State)
    requires InStep(state) && Committed(state, plan, w, record, next)
    ensures InStep(next)
  {
    assert next.bindings == RefreshedAll(w.codec, Proposed(plan, w));
    hide Committed, Latest, Describes, Touches, Proposed, RefreshedAll;
    forall s | Latest(next.history, s).Some?
      ensures Describes(Latest(next.history, s).value, Get(next.bindings, s))
    {
      if Touches(record.changes, s) {
        TouchedInStep(state, plan, w, record, next, s);
      } else {
        UntouchedInStep(state, plan, w, record, next, s);
      }
      RefreshDescribes(w.codec, Latest(next.history, s).value, Proposed(plan, w), s);
    }
  }

  lemma {:induction false} TouchedInStep(state: State, plan: Plan, w: World, record: Record, next: State, s: Scope)
    requires Committed(state, plan, w, record, next) && Touches(record.changes, s)
    ensures Latest(next.history, s).Some? && Describes(Latest(next.history, s).value, Get(Proposed(plan, w), s))
  {
    hide Accounts, Rewrite, Matches, Fingerprint, Proposed;
    assert Latest(next.history, s) == Find(record.changes, s);
    var k :| 0 <= k < |record.changes| && record.changes[k] == Find(record.changes, s).value;
    StampedDescribes(record.changes[k], Get(Proposed(plan, w), s));
  }

  lemma {:induction false} StampedDescribes(c: Change, current: Option<Binding>)
    requires Matches(c, current) && c.afterFingerprint == Fingerprint(current)
    ensures Describes(c, current)
  {
  }

  lemma {:induction false} UntouchedInStep(state: State, plan: Plan, w: World, record: Record, next: State, s: Scope)
    requires InStep(state) && Committed(state, plan, w, record, next) && !Touches(record.changes, s)
    requires Latest(next.history, s).Some?
    ensures Describes(Latest(next.history, s).value, Get(Proposed(plan, w), s))
  {
    hide Rewrite, Describes, Latest, Normalises, Stamped, Diff, SameButMarks, Proposed;
    var older := Rewrite(state.history, plan.kind, plan.source, Scopes(record.changes), w.nonce);
    RewriteKeeps(state.history, plan.kind, plan.source, Scopes(record.changes), w.nonce);
    LatestBelow(state.history, older, next.history, record, s);
    assert Get(state.bindings, s) == Get(Proposed(plan, w), s);
  }

  lemma {:induction false} LatestBelow(history: seq<Record>, older: seq<Record>, kept: seq<Record>, record: Record,
          s: Scope)
    requires SameButMarks(history, older) && kept != [] && kept <= [record] + older && kept[0] == record
    requires !Touches(record.changes, s) && Latest(kept, s).Some?
    ensures Latest(kept, s) == Latest(history, s)
  {
    var n := |kept| - 1;
    assert kept[1..] == older[..n];
    LatestOfPrefix(older, n, s);
    LatestIgnoresMarks(history, older, s);
  }

  /**
   In every run of batches and rollbacks from an empty log, truncation included, the newest recorded
   change of each scope still mentioned gives exactly the live binding's restriction, creation time,
   identity and other settings except its model policy, or its absence.
   */
  lemma {:induction false} RunStaysInStep(state: State, steps: seq<Step>, used: set<OpID>, codec: Codec)
    requires Sound(state, used, codec) && InStep(state) && LegalRun(steps, used, codec)
    requires forall i :: 0 <= i < |steps| ==> !steps[i].Edit?
    ensures InStep(Run(state, steps))
  {
    if steps != [] {
      var front, last := steps[..|steps| - 1], steps[|steps| - 1];
      RunStaysInStep(state, front, used, codec);
      RunSound(state, front, used, codec);
      var before := Run(state, front);
      PerformKeeps(before, last, UsedBy(used, front), codec);
      var (outcome, next) := Perform(before, last);
      if outcome.Applied? {
        var plan :| GoodPlan(last.world.codec, plan, before) &&
          Committed(before, plan, last.world, outcome.record, next);
        CommitStaysInStep(before, plan, last.world, outcome.record, next);
      }
    }
  }

  lemma {:induction false} RecordedHasLatest(history: seq<Record>, i: nat, k: nat)
    requires i < |history| && k < |history[i].changes|
    ensures Latest(history, history[i].changes[k].scope).Some?
  {
    var s := history[i].changes[k].scope;
    if Find(history[0].changes, s).None? {
      assert i > 0 by { if i == 0 { assert Touches(history[0].changes, s); } }
      RecordedHasLatest(history[1..], i - 1, k);
    }
  }

  /** Every credential of the restriction is available, or its group has an enabled rule. */
  predicate Available(ctx: Context, target: Restriction) {
    && (target.ByAuths? ==> forall id :: id in target.ids ==> id in ctx.available)
    && (target.ByGroup? && target.group.Classify? ==>
          exists i :: 0 <= i < |ctx.rules| && ctx.rules[i].enabled && ctx.rules[i].group == target.group.suffix)
  }

  /**
   Without outside edits the drift test never fires. A rollback then reports binding_changed for
   exactly one reason: the binding is gone and this change, having only altered it, kept no template.
   */
  lemma {:induction false} BindingChangedExactly(state: State, ctx: Context, i: nat, k: nat, taken: bool)
    requires InStep(state) && ctx.history == state.history && i < |state.history| && k < |state.history[i].changes|
    ensures
      var saved := state.history[i].changes[k];
      var current := Get(state.bindings, saved.scope);
      var latest := Latest(state.history, saved.scope);
      && !Drifted(current, latest)
      && (Judge(ctx, current, taken, saved) == Clash(BindingChanged) <==>
            && saved.scope in ctx.hosts && current.None? && saved.before.Some? && saved.beforeTemplate.None?
            && latest.value.bindingID == saved.bindingID && latest.value.beforeCreatedAt == saved.beforeCreatedAt
            && Available(ctx, saved.before.value))
  {
    RecordedHasLatest(state.history, i, k);
  }

  // ------------------------------------------- model policies through commits

  ghost predicate AllSettled(codec: Codec, live: Bindings) {
    forall s :: s in live ==> Settled(codec, live[s])
  }

  lemma {:induction false} SettledStay(codec: Codec, live: Bindings)
    requires AllSettled(codec, live)
    ensures RefreshedAll(codec, live) == live
  {
    assert forall s :: s in live ==> Refreshed(codec, live[s]) == live[s];
  }

  /**
   A binding that an applied commit does not mention comes out of it unchanged if and only if its model
   policy is one that normalisation leaves alone.
   */
  lemma {:induction false} UntouchedExactly(state: State, plan: Plan, w: World, record: Record, next: State, s: Scope)
    requires Committed(state, plan, w, record, next) && s in state.bindings && !Touches(record.changes, s)
    ensures s in next.bindings && next.bindings[s] == Refreshed(w.codec, state.bindings[s])
    ensures Fingerprint(Get(next.bindings, s)) == Fingerprint(Get(state.bindings, s)) <==>
              Settled(w.codec, state.bindings[s])
  {
    var stamped := Proposed(plan, w);
    assert Touches(record.changes, s) || Get(state.bindings, s) == Get(stamped, s);
    assert Nameable(w.codec, stamped[s]);
  }

  /** For any applied batch or rollback of a run. */
  lemma {:induction false} UntouchedByStep(state: State, step: Step, used: set<OpID>, codec: Codec, s: Scope)
    requires Sound(state, used, codec) && LegalStep(step, used, codec) && Perform(state, step).0.Applied?
    requires s in state.bindings && !Touches(Perform(state, step).0.record.changes, s)
    ensures
      var next := Perform(state, step).1;
      && s in next.bindings && next.bindings[s] == Refreshed(codec, state.bindings[s])
      && (Fingerprint(Get(next.bindings, s)) == Fingerprint(Get(state.bindings, s)) <==>
        Settled(codec, state.bindings[s]))
  {
    var (outcome, next) := Perform(state, step);
    PerformKeeps(state, step, used, codec);
    var plan :| GoodPlan(codec, plan, state) && Committed(state, plan, step.world, outcome.record, next);
    UntouchedExactly(state, plan, step.world, outcome.record, next, s);
  }

  ghost predicate TemplatesSettled(codec: Codec, changes: seq<Change>) {
    forall k :: 0 <= k < |changes| ==>
      && (changes[k].beforeTemplate.Some? ==> Settled(codec, changes[k].beforeTemplate.value))
      && (changes[k].afterTemplate.Some? ==> Settled(codec, changes[k].afterTemplate.value))
  }

  /** Every model policy that a commit can meet, live or in a template, is one that normalisation leaves alone. */
  ghost predicate Tidy(codec: Codec, state: State) {
    && codec.access(AllModels) == Some(AllModels)
    && AllSettled(codec, state.bindings)
    && forall i :: 0 <= i < |state.history| ==> TemplatesSettled(codec, state.history[i].changes)
  }

  lemma {:induction false} BatchDraftSettled(codec: Codec, start: Draft, scopes: seq<Scope>, target: seq<string>)
    requires codec.access(AllModels) == Some(AllModels) && AllSettled(codec, start.bindings)
    ensures AllSettled(codec, BatchDraft(codec, start, scopes, target).bindings)
  {
    if scopes != [] {
      BatchDraftSettled(codec, start, scopes[..|scopes| - 1], target);
    }
  }

  lemma {:induction false} RollbackDraftSettled(ctx: Context, start: Draft, saved: seq<Change>)
    requires AllSettled(ctx.codec, start.bindings) && TemplatesSettled(ctx.codec, saved)
    ensures AllSettled(ctx.codec, RollbackDraft(ctx, start, saved).bindings)
  {
    if saved != [] {
      RollbackDraftSettled(ctx, start, saved[..|saved| - 1]);
      assert TemplatesSettled(ctx.codec, [saved[|saved| - 1]]);
    }
  }

  lemma {:induction false} CommitTidy(state: State, plan: Plan, w: World, record: Record, next: State)
    requires Tidy(w.codec, state) && AllSettled(w.codec, plan.bindings) && Committed(state, plan, w, record, next)
    ensures Tidy(w.codec, next) && next.bindings == Proposed(plan, w)
  {
    var stamped := Proposed(plan, w);
    assert AllSettled(w.codec, stamped);
    SettledStay(w.codec, stamped);
    var older := Rewrite(state.history, plan.kind, plan.source, Scopes(record.changes), w.nonce);
    RewriteKeeps(state.history, plan.kind, plan.source, Scopes(record.changes), w.nonce);
    forall k | 0 <= k < |record.changes|
      ensures record.changes[k].beforeTemplate.Some? ==> Settled(w.codec, record.changes[k].beforeTemplate.value)
      ensures record.changes[k].afterTemplate.Some? ==> Settled(w.codec, record.changes[k].afterTemplate.value)
    {
      var s := record.changes[k].scope;
      assert Accounted(w.codec, record.changes[k], Get(state.bindings, s), Get(stamped, s));
    }
    forall i | 0 <= i < |next.history| ensures TemplatesSettled(w.codec, next.history[i].changes) {
      assert next.history[i] == ([record] + older)[i];
    }
  }

  /** An applied step from a tidy state: its plan, and bindings published as proposed. */
  ghost predicate TidyStep(state: State, w: World, outcome: Outcome, next: State) {
    && Tidy(w.codec, next)
    && (outcome.Applied? ==> exists plan ::
          && GoodPlan(w.codec, plan, state) && Committed(state, plan, w, outcome.record, next)
          && next.bindings == Proposed(plan, w))
  }

  lemma {:induction false} BatchTidy(state: State, input: BatchInput, w: World, used: set<OpID>)
    requires Sound(state, used, w.codec) && Fresh(w, used) && Tidy(w.codec, state)
    ensures TidyStep(state, w, ApplyBatch(state, input, w).0, ApplyBatch(state, input, w).1)
  {
    var (outcome, next) := ApplyBatch(state, input, w);
    var snapshot := Snapshot(state.bindings, state.history, w.rules);
    var planned := PlanBatch(snapshot, input, w.codec);
    if planned.Ready? {
      BatchPlanGood(state, input, w);
      CommitKeeps(state, planned.plan, input.expected, w, used);
      BatchDraftSettled(w.codec, BatchStart(snapshot, input),
        SelectedScopes(SortInts(input.selected), Hosts(input.keys)), AuthIDs.Normal(input.authIDs));
      if outcome.Applied? { CommitTidy(state, planned.plan, w, outcome.record, next); }
    }
  }

  lemma {:induction false} RollbackTidy(state: State, input: RollbackInput, w: World, used: set<OpID>)
    requires Sound(state, used, w.codec) && Fresh(w, used) && Tidy(w.codec, state)
    ensures TidyStep(state, w, ApplyRollback(state, input, w).0, ApplyRollback(state, input, w).1)
  {
    var (outcome, next) := ApplyRollback(state, input, w);
    var snapshot := Snapshot(state.bindings, state.history, w.rules);
    var planned := PlanRollback(snapshot, input, w.codec);
    if planned.Ready? {
      RollbackPlanGood(state, input, w, used);
      CommitKeeps(state, planned.plan, input.expected, w, used);
      RollbackDraftSettled(ContextOf(snapshot, input, w.codec), RollbackStart(snapshot, input),
                           state.history[IndexOf(state.history, input.operation)].changes);
      if outcome.Applied? { CommitTidy(state, planned.plan, w, outcome.record, next); }
    }
  }

  lemma {:induction false} PerformTidy(state: State, step: Step, used: set<OpID>, codec: Codec)
    requires Sound(state, used, codec) && LegalStep(step, used, codec) && Tidy(codec, state)
    requires step.Edit? ==> AllSettled(codec, step.bindings)
    ensures
      var (outcome, next) := Perform(state, step);
      Tidy(codec, next) && (!step.Edit? ==> TidyStep(state, step.world, outcome, next))
  {
    match step
    case Edit(_) =>
    case Apply(input, w) => BatchTidy(state, input, w, used);
    case Revert(input, w) => RollbackTidy(state, input, w, used);
  }

  /** Where every model policy is one that normalisation leaves alone, runs keep it so. */
  lemma {:induction false} RunStaysTidy(state: State, steps: seq<Step>, used: set<OpID>, codec: Codec)
    requires Sound(state, used, codec) && LegalRun(steps, used, codec) && Tidy(codec, state)
    requires forall i :: 0 <= i < |steps| && steps[i].Edit? ==> AllSettled(codec, steps[i].bindings)
    ensures Tidy(codec, Run(state, steps))
  {
    if steps != [] {
      var front, last := steps[..|steps| - 1], steps[|steps| - 1];
      RunStaysTidy(state, front, used, codec);
      RunSound(state, front, used, codec);
      PerformTidy(Run(state, front), last, UsedBy(used, front), codec);
    }
  }

  lemma {:induction false} BatchPublishes(state: State, input: BatchInput, w: World)
    requires ApplyBatch(state, input, w).0.Applied?
    ensures
      var planned := PlanBatch(Snapshot(state.bindings, state.history, w.rules), input, w.codec);
      planned.Ready? && ApplyBatch(state, input, w).1.bindings.Keys == Proposed(planned.plan, w).Keys
  {
    hide PlanBatch, Rewritten, Truncate, Valid;
  }

  /** A batch removes no binding. */
  lemma {:induction false} BatchOnlySets(state: State, input: BatchInput, w: World, used: set<OpID>, s: Scope)
    requires Sound(state, used, w.codec) && s in state.bindings && ApplyBatch(state, input, w).0.Applied?
    ensures s in ApplyBatch(state, input, w).1.bindings
  {
    BatchPlanGood(state, input, w);
    var plan := PlanBatch(Snapshot(state.bindings, state.history, w.rules), input, w.codec).plan;
    BatchPublishes(state, input, w);
    hide PlanBatch, Sound, Refreshed, Normalises;
    if Touches(plan.changes, s) {
      var k :| 0 <= k < |plan.changes| && plan.changes[k].scope == s;
      assert Accounted(w.codec, plan.changes[k], Get(state.bindings, s), Get(plan.bindings, s));
    } else {
      assert Get(state.bindings, s) == Get(plan.bindings, s);
    }
    assert s in Proposed(plan, w);
  }

  // ----------------------------------------------------------- what rollback reaches

  ghost predicate Reaches(saved: seq<Change>, to: Bindings) {
    forall j :: 0 <= j < |saved| ==> RestrictionOf(Get(to, saved[j].scope)) == saved[j].before
  }

  /** What a commit makes of a binding that stays: one normalisation, or two with a new restriction and update time. */
  ghost predicate Succeeds(codec: Codec, was: Binding, becomes: Binding) {
    || becomes == Refreshed(codec, was)
    || becomes == Refreshed(codec, Refreshed(codec, was))
         .(restriction := becomes.restriction, updatedAt := becomes.updatedAt)
  }

  /**
   Scopes outside the changes have their bindings, normalised once more; bindings that are still there
   succeed themselves.
   */
  ghost predicate Within(codec: Codec, saved: seq<Change>, from: Bindings, to: Bindings) {
    && (forall s {:trigger Get(to, s)} :: Touches(saved, s) || Get(to, s) == Get(RefreshedAll(codec, from), s))
    && (forall s :: s in from && s in to ==> Succeeds(codec, from[s], to[s]))
  }

  /**
   The same where no model policy changes: untouched scopes are equal, the rest differ in restriction and
   update time.
   */
  ghost predicate Reversed(saved: seq<Change>, from: Bindings, to: Bindings) {
    && Reaches(saved, to)
    && (forall s {:trigger Get(to, s)} :: Touches(saved, s) || Get(to, s) == Get(from, s))
    && (forall s :: s in from && s in to ==>
          to[s] == from[s].(restriction := to[s].restriction, updatedAt := to[s].updatedAt))
  }

  /**
   A rollback of any retained operation that is applied, or finds nothing to do, leaves every scope of
   that operation with its recorded earlier restriction (or without a binding). Every binding that stays
   keeps all else but its update time, except that an applied rollback normalises every model policy
   again: once outside the operation's scopes, twice where it changed something. Any other outcome leaves
   bindings and history alone.
   */
  lemma {:induction false} RollbackReaches(state: State, input: RollbackInput, w: World, used: set<OpID>)
    requires Sound(state, used, w.codec) && Fresh(w, used)
    ensures
      var (outcome, next) := ApplyRollback(state, input, w);
      if outcome.Applied? || outcome == Unchanged then
        var i := IndexOf(state.history, input.operation);
        && i < |state.history| && Reaches(state.history[i].changes, next.bindings)
        && (outcome.Applied? ==> Within(w.codec, state.history[i].changes, state.bindings, next.bindings))
        && (outcome == Unchanged ==> next == state)
        && Sound(next, used + {w.nonce}, w.codec)
      else next == state
  {
    var (outcome, next) := ApplyRollback(state, input, w);
    var planned := PlanRollback(Snapshot(state.bindings, state.history, w.rules), input, w.codec);
    if planned.Ready? {
      RollbackPlanGood(state, input, w, used);
      CommitReaches(state, planned.plan, input.expected, w, used,
        state.history[IndexOf(state.history, input.operation)].changes);
    }
  }

  lemma {:induction false} CommitReaches(state: State, plan: Plan, expected: Revision, w: World,
          used: set<OpID>, saved: seq<Change>)
    requires Sound(state, used, w.codec) && Fresh(w, used) && GoodPlan(w.codec, plan, state)
    requires forall k :: 0 <= k < |plan.changes| ==> Mentions(saved, plan.changes[k])
    requires plan.conflicts == [] ==> Reaches(saved, plan.bindings)
    ensures
      var (outcome, next) := Commit(state, plan, expected, w);
      if outcome.Applied? || outcome == Unchanged then
        && Reaches(saved, next.bindings) && Sound(next, used + {w.nonce}, w.codec)
        && (outcome.Applied? ==> Within(w.codec, saved, state.bindings, next.bindings))
        && (outcome == Unchanged ==> next == state)
      else next == state
  {
    var (outcome, next) := Commit(state, plan, expected, w);
    CommitKeeps(state, plan, expected, w, used);
    if outcome.Applied? {
      AppliedFrame(plan, state, outcome.record, next, saved, w);
      StampReaches(plan, saved, w);
    } else if outcome == Unchanged {
      UnchangedPlan(w.codec, plan, state);
      SoundMonotone(state, used, used + {w.nonce}, w.codec);
    }
  }

  lemma {:induction false} StampReaches(plan: Plan, saved: seq<Change>, w: World)
    requires Reaches(saved, plan.bindings)
    ensures Reaches(saved, RefreshedAll(w.codec, Proposed(plan, w)))
  {
    assert forall s ::
      RestrictionOf(Get(RefreshedAll(w.codec, Proposed(plan, w)), s)) == RestrictionOf(Get(plan.bindings, s));
  }

  lemma {:induction false} AppliedFrame(plan: Plan, state: State, record: Record, next: State,
          saved: seq<Change>, w: World)
    requires Committed(state, plan, w, record, next)
    requires record.changes == StampChanges(plan.changes, Proposed(plan, w))
    requires forall k :: 0 <= k < |plan.changes| ==> Mentions(saved, plan.changes[k])
    ensures Within(w.codec, saved, state.bindings, next.bindings)
  {
    var stamped := Proposed(plan, w);
    forall s ensures Touches(saved, s) || Get(next.bindings, s) == Get(RefreshedAll(w.codec, state.bindings), s) {
      RecordedScopes(plan, record, stamped, saved, s);
      assert Touches(record.changes, s) || Get(state.bindings, s) == Get(stamped, s);
    }
    forall s | s in state.bindings && s in next.bindings
      ensures Succeeds(w.codec, state.bindings[s], next.bindings[s])
    {
      if Touches(record.changes, s) {
        var k :| 0 <= k < |record.changes| && record.changes[k].scope == s;
        assert Accounted(w.codec, record.changes[k], Get(state.bindings, s), Get(stamped, s));
        TwiceRefreshed(w.codec, state.bindings[s], stamped[s]);
      } else {
        assert Get(state.bindings, s) == Get(stamped, s);
      }
    }
  }

  lemma {:induction false} TwiceRefreshed(codec: Codec, was: Binding, stamped: Binding)
    requires stamped == Refreshed(codec, was).(restriction := stamped.restriction, updatedAt := stamped.updatedAt)
    ensures Succeeds(codec, was, Refreshed(codec, stamped))
  {
  }

  lemma {:induction false} UnchangedPlan(codec: Codec, plan: Plan, state: State)
    requires GoodPlan(codec, plan, state) && plan.changes == []
    ensures plan.bindings == state.bindings
  {
    forall s ensures Get(plan.bindings, s) == Get(state.bindings, s) {
      assert Touches(plan.changes, s) || Get(state.bindings, s) == Get(plan.bindings, s);
    }
    assert forall s :: s in plan.bindings <==> Get(plan.bindings, s).Some?;
    assert forall s :: s in state.bindings <==> Get(state.bindings, s).Some?;
    assert forall s :: s in plan.bindings ==> Get(plan.bindings, s) == Get(state.bindings, s);
  }

  lemma {:induction false} RecordedScopes(plan: Plan, record: Record, live: Bindings, saved: seq<Change>, s: Scope)
    requires record.changes == StampChanges(plan.changes, live)
    requires forall k :: 0 <= k < |plan.changes| ==> Mentions(saved, plan.changes[k])
    ensures Touches(record.changes, s) ==> Touches(saved, s)
  {
    StampTouches(plan.changes, live, s);
    if Touches(plan.changes, s) {
      var k :| 0 <= k < |plan.changes| && plan.changes[k].scope == s;
      assert Mentions(saved, plan.changes[k]);
    }
  }

  /**
   Where the live model policies are ones that normalisation leaves alone, a rollback touches nothing but
   what it names.
   */
  lemma {:induction false} SettledRollbackReverses(state: State, input: RollbackInput, w: World, used: set<OpID>)
    requires Sound(state, used, w.codec) && Fresh(w, used) && AllSettled(w.codec, state.bindings)
    ensures
      var (outcome, next) := ApplyRollback(state, input, w);
      outcome.Applied? || outcome == Unchanged ==>
        var i := IndexOf(state.history, input.operation);
        i < |state.history| && Reversed(state.history[i].changes, state.bindings, next.bindings)
  {
    RollbackReaches(state, input, w, used);
    SettledStay(w.codec, state.bindings);
    var (outcome, next) := ApplyRollback(state, input, w);
    if outcome.Applied? {
      assert forall s :: s in state.bindings ==> Refreshed(w.codec, state.bindings[s]) == state.bindings[s];
    }
  }
}
