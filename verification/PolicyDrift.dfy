/** What becomes of stored model lists that canonicalising changes again, as commits about other keys go by. */
module PolicyDrift {
  import opened Text
  import opened Bindings
  import opened History
  import opened Planner
  import opened Operations
  import opened Undo
  import opened OneKey
  import ModelAccess

  /** Model policies are normalised as the program does it; the sizes may be any. */
  ghost predicate Real(codec: Codec) {
    forall policy :: codec.access(policy) == ModelAccess.Renormalised(policy)
  }

  /** The policy that an operator's list is stored as. */
  function StoredAs(models: seq<Allowed>): ModelPolicy {
    OnlyModels(ModelAccess.Indexed(ModelAccess.Rows(models)).models)
  }

  predicate Accepted(models: seq<Allowed>) {
    ModelAccess.AllNamed(ModelAccess.Rows(models))
  }

  /** The answer of a binding with this policy. */
  function Allows(policy: ModelPolicy, provider: string, model: string): bool {
    match policy
    case AllModels => true
    case OnlyModels(list) => ModelAccess.AllowsModel(ModelAccess.AccessOf(list), provider, model)
  }

  /** Stored answers are those of the normalisation that stored the list. */
  lemma {:induction false} AllowsAsStored(models: seq<Allowed>, provider: string, model: string)
    ensures Allows(StoredAs(models), provider, model) ==
            ModelAccess.AllowsModel(ModelAccess.Indexed(ModelAccess.Rows(models)), provider, model)
  {
    ModelAccess.StoredListDecides(models);
  }

  /** The policy of a binding that has been through normalisation: everything, or a stored list. */
  ghost predicate Normalised(b: Binding) {
    b.settings.modelAccess == AllModels ||
    exists models :: Accepted(models) && b.settings.modelAccess == StoredAs(models)
  }

  predicate CanonicalList(policy: ModelPolicy) {
    policy.OnlyModels? ==> forall e :: e in policy.models ==> ModelAccess.Canonical(e) == e
  }

  lemma {:induction false} SettledExactly(codec: Codec, b: Binding)
    requires Real(codec) && Normalised(b)
    ensures Settled(codec, b) <==> CanonicalList(b.settings.modelAccess)
  {
    if b.settings.modelAccess != AllModels {
      var models :| Accepted(models) && b.settings.modelAccess == StoredAs(models);
      ModelAccess.StoredStaysExactly(models);
    }
  }

  /**
   A batch or rollback that is applied and does not mention a scope leaves that scope's binding as it was
   if and only if every entry of its stored list is its own canonical form.
   */
  lemma {:induction false} UntouchedStaysExactly(state: State, step: Step, used: set<OpID>, codec: Codec, s: Scope)
    requires Sound(state, used, codec) && LegalStep(step, used, codec) && Perform(state, step).0.Applied?
    requires Real(codec) && s in state.bindings && Normalised(state.bindings[s])
    requires !Touches(Perform(state, step).0.record.changes, s)
    ensures
      var next := Perform(state, step).1;
      Fingerprint(Get(next.bindings, s)) == Fingerprint(Get(state.bindings, s)) <==>
      CanonicalList(state.bindings[s].settings.modelAccess)
  {
    UntouchedByStep(state, step, used, codec, s);
    SettledExactly(codec, state.bindings[s]);
  }

  // ------------------------------------------------------------------ first input: a name is lost

  /** The name m(a)(b)(c), or any name with three suffixes in parentheses. */
  predicate ThreeSuffixes(a: Allowed, base: string, x: string, y: string, z: string) {
    && ModelAccess.CanonicalProvider(a.provider) != ""
    && base != "" && Trimmed(base) && ToLower(base) == base
    && ModelAccess.Inner(x) && ModelAccess.Inner(y) && ModelAccess.Inner(z)
    && a.model == ModelAccess.Suffixed(ModelAccess.Suffixed(ModelAccess.Suffixed(base, x), y), z)
  }

  /**
   A binding that was given such a name, and allows it, no longer allows it once any batch or rollback
   about other scopes has been applied, although no change of this binding is recorded.
   */
  lemma {:induction false} NameIsLost(state: State, step: Step, used: set<OpID>, codec: Codec, s: Scope,
          typed: Allowed, base: string, x: string, y: string, z: string)
    requires Sound(state, used, codec) && LegalStep(step, used, codec) && Perform(state, step).0.Applied?
    requires Real(codec) && s in state.bindings && !Touches(Perform(state, step).0.record.changes, s)
    requires ThreeSuffixes(typed, base, x, y, z) && state.bindings[s].settings.modelAccess == StoredAs([typed])
    ensures
      var next := Perform(state, step).1;
      && s in next.bindings
      && Allows(state.bindings[s].settings.modelAccess, typed.provider, typed.model)
      && !Allows(next.bindings[s].settings.modelAccess, typed.provider, typed.model)
  {
    hide *;
    UntouchedByStep(state, step, used, codec, s);
    AppliedAccepts(state, step, used, codec, s);
    LostOnce(codec, state.bindings[s], typed, base, x, y, z);
  }

  lemma {:induction false} LostOnce(codec: Codec, b: Binding, typed: Allowed, base: string, x: string, y: string,
          z: string)
    requires Real(codec) && ThreeSuffixes(typed, base, x, y, z) && b.settings.modelAccess == StoredAs([typed])
    requires Nameable(codec, b)
    ensures Allows(b.settings.modelAccess, typed.provider, typed.model)
    ensures !Allows(Refreshed(codec, b).settings.modelAccess, typed.provider, typed.model)
  {
    hide ModelAccess.Indexed, ModelAccess.Rows, ModelAccess.AllowsModel, Allows;
    AllowsAsStored([typed], typed.provider, typed.model);
    var again := StoredAs([typed]).models;
    AllowsAsStored(again, typed.provider, typed.model);
    ModelAccess.ThirdSuffixIsRevoked(typed.provider, base, x, y, z);
  }

  /** An applied step has normalised every policy it did not touch. */
  lemma {:induction false} AppliedAccepts(state: State, step: Step, used: set<OpID>, codec: Codec, s: Scope)
    requires Sound(state, used, codec) && LegalStep(step, used, codec) && Perform(state, step).0.Applied?
    requires s in state.bindings && !Touches(Perform(state, step).0.record.changes, s)
    ensures Nameable(codec, state.bindings[s])
  {
    var (outcome, next) := Perform(state, step);
    PerformKeeps(state, step, used, codec);
    var plan :| GoodPlan(codec, plan, state) && Committed(state, plan, step.world, outcome.record, next);
    assert Touches(outcome.record.changes, s) || Get(state.bindings, s) == Get(Proposed(plan, step.world), s);
  }

  /** Undoing that step does not bring the name back. */
  lemma {:induction false} UndoLeavesItLost(state: State, step: Step, undo: Step, used: set<OpID>, codec: Codec,
          s: Scope,
          typed: Allowed, base: string, x: string, y: string, z: string)
    requires Sound(state, used, codec) && LegalStep(step, used, codec) && Perform(state, step).0.Applied?
    requires Real(codec) && s in state.bindings && !Touches(Perform(state, step).0.record.changes, s)
    requires ThreeSuffixes(typed, base, x, y, z) && state.bindings[s].settings.modelAccess == StoredAs([typed])
    requires undo.Revert? && LegalStep(undo, UsedStep(used, step), codec)
    requires undo.rollback.operation == Perform(state, step).0.record.id
    requires Perform(Perform(state, step).1, undo).0.Applied?
    ensures
      var undone := Perform(Perform(state, step).1, undo).1;
      s in undone.bindings && !Allows(undone.bindings[s].settings.modelAccess, typed.provider, typed.model)
  {
    var (outcome, after) := Perform(state, step);
    UntouchedByStep(state, step, used, codec, s);
    AppliedAccepts(state, step, used, codec, s);
    PerformKeeps(state, step, used, codec);
    var plan :| GoodPlan(codec, plan, state) && Committed(state, plan, step.world, outcome.record, after);
    assert IndexOf(after.history, outcome.record.id) == 0;
    RollbackReaches(after, undo.rollback, undo.world, UsedStep(used, step));
    var undone := Perform(after, undo).1;
    assert Get(undone.bindings, s) == Get(RefreshedAll(codec, after.bindings), s);
    assert undone.bindings[s] == Refreshed(codec, after.bindings[s]);
    LostTwice(codec, state.bindings[s], typed, base, x, y, z);
  }

  lemma {:induction false} LostTwice(codec: Codec, b: Binding, typed: Allowed, base: string, x: string, y: string,
          z: string)
    requires Real(codec) && ThreeSuffixes(typed, base, x, y, z) && b.settings.modelAccess == StoredAs([typed])
    requires Nameable(codec, b)
    ensures !Allows(Refreshed(codec, Refreshed(codec, b)).settings.modelAccess, typed.provider, typed.model)
  {
    hide ModelAccess.Indexed, ModelAccess.Rows, ModelAccess.AllowsModel;
    ModelAccess.ThirdSuffixStaysRevoked(typed, base, x, y, z);
  }

  function Listing(scope: Scope, policy: ModelPolicy): Binding {
    Binding(Typed("x"), scope, Settings(Text("x"), true, false, Text("x"), policy, 0, 0, 0), ByAuths(["c"]), 1, 1)
  }

  /** One binding with this policy, and an empty log. */
  function Alone(policy: ModelPolicy): State {
    State(map[1 := Listing(1, policy)], [])
  }

  lemma {:induction false} AloneSound(policy: ModelPolicy)
    ensures Sound(Alone(policy), {}, Light())
  {
  }

  lemma {:induction false} AloneFree(policy: ModelPolicy)
    ensures Free(Alone(policy), 2, "a")
  {
  }

  /** The step that does it: with one such binding stored, a batch about another key is applied. */
  lemma {:induction false} NameIsLostByBatch(typed: Allowed, base: string, x: string, y: string, z: string)
    requires ThreeSuffixes(typed, base, x, y, z)
    requires !Rejected(StoredAs([typed]))
    ensures
      var before := Alone(StoredAs([typed]));
      var (outcome, after) := Perform(before, AloneStep(StoredAs([typed])));
      && outcome.Applied? && |outcome.record.changes| == 1 && outcome.record.changes[0].scope == 2
      && Allows(before.bindings[1].settings.modelAccess, typed.provider, typed.model)
      && 1 in after.bindings && !Allows(after.bindings[1].settings.modelAccess, typed.provider, typed.model)
  {
    AloneSound(StoredAs([typed]));
    AloneBatch(StoredAs([typed]));
    AloneLegal(StoredAs([typed]));
    LightIsReal();
    NameIsLost(Alone(StoredAs([typed])), AloneStep(StoredAs([typed])), {}, Light(), 1, typed, base, x, y, z);
  }

  /** A batch about the key with scope 2. */
  function AloneStep(policy: ModelPolicy): Step {
    Apply(BatchOn(Alone(policy), 2, "a"), At(2))
  }

  lemma {:induction false} AloneBatch(policy: ModelPolicy)
    requires !Rejected(policy)
    ensures
      var outcome := Perform(Alone(policy), AloneStep(policy)).0;
      && outcome.Applied? && |outcome.record.changes| == 1 && outcome.record.changes[0].scope == 2
      && !Touches(outcome.record.changes, 1)
  {
    AloneSound(policy);
    AloneFree(policy);
    AloneNameable(policy);
    OnlyOneChange(Alone(policy), 2, "a", 2, {}, 1);
  }

  lemma {:induction false} OnlyOneChange(state: State, scope: Scope, id: string, n: nat, used: set<OpID>, other: Scope)
    requires Sound(state, used, Light()) && Fresh(At(n), used) && Free(state, scope, id)
    requires AllNameable(Light(), state.bindings) && other != scope
    ensures
      var outcome := Perform(state, Apply(BatchOn(state, scope, id), At(n))).0;
      && outcome.Applied? && |outcome.record.changes| == 1 && outcome.record.changes[0].scope == scope
      && !Touches(outcome.record.changes, other)
  {
    hide PlanBatch, Commit, Committed, BatchOn;
    var plan := BatchTaken(state, scope, id, n, used);
    OneStamped(plan.changes, Proposed(plan, At(n)));
  }

  lemma {:induction false} AloneLegal(policy: ModelPolicy)
    ensures LegalStep(AloneStep(policy), {}, Light())
  {
  }

  lemma {:induction false} AloneNameable(policy: ModelPolicy)
    ensures Nameable(Light(), Listing(1, policy)) <==> !Rejected(policy)
    ensures Nameable(Light(), Alone(policy).bindings[1]) <==> !Rejected(policy)
  {
  }

  lemma {:induction false} LightIsReal()
    ensures Real(Light())
  {
  }

  lemma {:induction false} AloneRefused(policy: ModelPolicy)
    requires Rejected(policy)
    ensures Perform(Alone(policy), AloneStep(policy)) == (Unstorable, Alone(policy))
  {
    var state := Alone(policy);
    AloneFree(policy);
    AloneNameable(policy);
    BatchPlanned(state, 2, "a");
    var plan := PlanBatch(Snapshot(state.bindings, state.history, []), BatchOn(state, 2, "a"), Light()).plan;
    assert plan.bindings[1] == state.bindings[1];
    CommitRefused(state, plan, At(2), 1);
  }

  /** A policy that normalisation accepted once and rejects from then on. */
  predicate Rejected(policy: ModelPolicy) {
    ModelAccess.Renormalised(policy).None?
  }

  // ------------------------------------------------------------- second input: nothing commits any more

  /** The provider that loses its prefix twice, and its rest with it. */
  lemma {:induction false} DoublePrefixRejected(model: string)
    requires ModelAccess.CanonicalModel(model) != ""
    ensures
      var typed := Allowed(ModelAccess.CHANNEL + ModelAccess.CHANNEL, model);
      Accepted([typed]) && Rejected(StoredAs([typed]))
  {
    var typed := Allowed(ModelAccess.CHANNEL + ModelAccess.CHANNEL, model);
    PrefixLost(ModelAccess.CHANNEL);
    PrefixLost("");
    assert ModelAccess.CHANNEL + "" == ModelAccess.CHANNEL;
    AcceptedThenRejected(typed);
  }

  lemma {:induction false} AcceptedThenRejected(typed: Allowed)
    requires ModelAccess.CanonicalProvider(typed.provider) != "" && ModelAccess.CanonicalModel(typed.model) != ""
    requires ModelAccess.CanonicalProvider(ModelAccess.CanonicalProvider(typed.provider)) == ""
    ensures Accepted([typed]) && Rejected(StoredAs([typed]))
  {
    ModelAccess.OneRow(typed);
    assert !ModelAccess.Named(ModelAccess.Rows(StoredAs([typed]).models)[0]);
  }

  lemma {:induction false} PrefixLost(rest: string)
    requires rest == "" || rest == ModelAccess.CHANNEL
    ensures ModelAccess.CanonicalProvider(ModelAccess.CHANNEL + rest) == rest
  {
    var s := ModelAccess.CHANNEL + rest;
    TrimIsTrimmed(s);
    assert forall i :: 0 <= i < |s| ==> LowerChar(s[i]) == s[i];
    assert ToLower(s) == s;
  }

  /** While a live binding has such a policy, no batch is applied, and no rollback but one that removes the binding. */
  lemma {:induction false} NothingCommits(state: State, step: Step, used: set<OpID>, codec: Codec, s: Scope)
    requires Sound(state, used, codec) && LegalStep(step, used, codec) && Real(codec)
    requires s in state.bindings && Rejected(state.bindings[s].settings.modelAccess)
    ensures !step.Edit? && Perform(state, step).0.Applied? ==> step.Revert? && s !in Perform(state, step).1.bindings
  {
    var (outcome, next) := Perform(state, step);
    if !step.Edit? && outcome.Applied? {
      PerformKeeps(state, step, used, codec);
      var plan :| GoodPlan(codec, plan, state) && Committed(state, plan, step.world, outcome.record, next);
      RejectedIsGone(state, plan, step.world, outcome.record, next, s);
      if step.Apply? {
        BatchOnlySets(state, step.batch, step.world, used, s);
      }
    }
  }

  lemma {:induction false} RejectedIsGone(state: State, plan: Plan, w: World, record: Record, next: State, s: Scope)
    requires Committed(state, plan, w, record, next) && Real(w.codec)
    requires s in state.bindings && Rejected(state.bindings[s].settings.modelAccess)
    ensures s !in next.bindings
  {
    if s in next.bindings {
      ProposedPolicy(w.codec, record.changes, state.bindings, Proposed(plan, w), s);
    }
  }

  lemma {:induction false} ProposedPolicy(codec: Codec, changes: seq<Change>, from: Bindings, to: Bindings, s: Scope)
    requires Accounts(codec, changes, from, to) && s in from && s in to
    ensures to[s].settings.modelAccess in {from[s].settings.modelAccess, Refreshed(codec, from[s]).settings.modelAccess}
  {
    if Touches(changes, s) {
      var k :| 0 <= k < |changes| && changes[k].scope == s;
      assert Accounted(codec, changes[k], Get(from, s), Get(to, s));
    } else {
      assert Get(from, s) == Get(to, s);
    }
  }

  /** One such binding, stored when its list was accepted: a batch about another key is refused, whatever the sizes. */
  lemma {:induction false} BatchIsRefused(model: string)
    requires ModelAccess.CanonicalModel(model) != ""
    ensures
      var typed := Allowed(ModelAccess.CHANNEL + ModelAccess.CHANNEL, model);
      var policy := StoredAs([typed]);
      && Accepted([typed]) && Sound(Alone(policy), {}, Light())
      && Perform(Alone(policy), AloneStep(policy)) == (Unstorable, Alone(policy))
  {
    var policy := StoredAs([Allowed(ModelAccess.CHANNEL + ModelAccess.CHANNEL, model)]);
    DoublePrefixRejected(model);
    AloneSound(policy);
    AloneRefused(policy);
  }
}
