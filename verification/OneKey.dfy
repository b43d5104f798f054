/** Requests about a single host key, under sizes that never reach a limit: what small examples are built from. */
module OneKey {
  import opened Options
  import opened Text
  import opened AuthIDs
  import opened Bindings
  import opened History
  import opened Planner
  import opened Operations
  import opened Undo
  import ModelAccess

  /** The program's own normalisation of model policies; every size is zero. */
  function Light(): Codec {
    Codec((changes: seq<Change>) => 0, (history: seq<Record>) => 0, (p: ModelPolicy) => ModelAccess.Renormalised(p),
          (ids: seq<string>) => 0, (r: Restriction) => 0)
  }

  /** The surroundings of the n-th step: its time and its operation ID are n. */
  function At(n: nat): World {
    World([], n, n, true, Light())
  }

  function Host(scope: Scope): HostKey {
    HostKey("k", scope)
  }

  /** The three credentials that occur. */
  predicate Name(id: string) {
    |id| == 1 && 'a' <= id[0] <= 'c'
  }

  const NAMES := ["a", "b", "c"]

  /** An operation ID is sixteen random bytes in base16. */
  const ID_LENGTH := 32

  lemma {:induction false} NormalOfOne(id: string)
    requires Name(id)
    ensures Normal([id]) == [id]
  {
    NormalForm([id]);
    NamedAlone(id);
    assert Increasing([id]);
    IncreasingUnique(Normal([id]), [id]);
  }

  lemma {:induction false} NamedAlone(id: string)
    requires Name(id)
    ensures forall x :: Names([id], x) <==> x in [id]
  {
    TrimIsTrimmed(id);
    forall x ensures Names([id], x) <==> x in [id] {
      if x == id { assert Trim([id][0]) == x; }
    }
  }

  lemma {:induction false} NormalOfNames(id: string)
    requires Name(id)
    ensures id in IDSet(Normal(NAMES))
  {
    NormalForm(NAMES);
    TrimIsTrimmed(id);
    assert id == NAMES[0] || id == NAMES[1] || id == NAMES[2];
    var k :| 0 <= k < |NAMES| && NAMES[k] == id;
    assert Names(NAMES, id);
    var j :| 0 <= j < |Normal(NAMES)| && Normal(NAMES)[j] == id;
  }

  lemma {:induction false} LengthOfOne(id: string)
    ensures TotalLength([id]) == |id|
  {
    assert [id][..0] == [];
  }

  lemma {:induction false} LengthOfNames()
    ensures TotalLength(NAMES) == 3
  {
    assert NAMES[..2] == ["a", "b"] && NAMES[..2][..1] == ["a"];
    LengthOfOne("a");
  }

  // ---------------------------------------------------------------------- a batch over one key

  function Selecting(scope: Scope, id: string): BatchInput {
    BatchInput([Host(scope)], [0], [id], [id], true, NoRevision)
  }

  /** The batch as applied right after its preview. */
  function BatchOn(state: State, scope: Scope, id: string): BatchInput {
    Selecting(scope, id).(expected := BatchRevision(Snapshot(state.bindings, state.history, []), Selecting(scope, id)))
  }

  lemma {:induction false} BatchInputGood(state: State, scope: Scope, id: string)
    requires scope != NO_SCOPE && Name(id)
    ensures GoodBatchInput(BatchOn(state, scope, id))
    ensures SortInts([0]) == [0] && SelectedScopes([0], Hosts([Host(scope)])) == [scope]
  {
    NormalOfOne(id);
    LengthOfOne(id);
    LengthOfOne("k");
    assert Texts([Host(scope)]) == ["k"] && Hosts([Host(scope)]) == [scope];
    assert TotalLength([]) == 0;
    SortedZero();
    hide Normal, SortInts, TotalLength, BatchRevision;
  }

  lemma {:induction false} SortedZero()
    ensures SortInts([0]) == [0]
  {
    assert [0][..0] == [] && SortInts([]) == [] && InsertInt([], 0) == [0];
  }

  /** A step can be taken: the binding of this scope is free to get the list. */
  ghost predicate Free(state: State, scope: Scope, id: string) {
    && scope != NO_SCOPE && Name(id) && |state.history| < HISTORY_LIMIT
    && if scope in state.bindings
       then
         var b := state.bindings[scope];
         b.settings.modelAccess == AllModels && b.restriction != ByAuths([id])
       else !HasID(state.bindings, ForScope(scope))
  }

  ghost predicate AllNameable(codec: Codec, live: Bindings) {
    forall s :: s in live ==> Nameable(codec, live[s])
  }

  /** The binding as the batch proposes it, and the one change it records. */
  function Candidate(state: State, scope: Scope, id: string): Binding {
    Base(Get(state.bindings, scope), scope).(restriction := ByAuths([id]))
  }

  function TheChange(state: State, scope: Scope, id: string): Change {
    var c := Candidate(state, scope, id);
    ChangeOf(c.id, c.settings.name, c.settings.keyPreview, scope, Get(state.bindings, scope), Some(c))
  }

  lemma {:induction false} BatchPlanned(state: State, scope: Scope, id: string)
    requires Free(state, scope, id)
    ensures
      var snapshot := Snapshot(state.bindings, state.history, []);
      var input := BatchOn(state, scope, id);
      PlanBatch(snapshot, input, Light()) ==
      Ready(Plan(Batch, NO_OP, input.expected, state.bindings[scope := Candidate(state, scope, id)],
                 [TheChange(state, scope, id)], [], false))
  {
    var snapshot, input := Snapshot(state.bindings, state.history, []), BatchOn(state, scope, id);
    BatchInputGood(state, scope, id);
    NormalOfOne(id);
    var start := BatchStart(snapshot, input);
    assert start == Draft(state.bindings, [], [], false);
    OneScope(start, scope, [id]);
    OneBatchStep(state, start, scope, id);
    OneExpansion(state.bindings, scope, [id]);
    hide GoodBatchInput, BatchStep, BatchDraft, Expands, Base, Normal, BatchRevision;
  }

  lemma {:induction false} OneBatchStep(state: State, start: Draft, scope: Scope, id: string)
    requires Free(state, scope, id) && start == Draft(state.bindings, [], [], false)
    ensures CandidateUsable(Light(), start, scope)
    ensures BatchStep(Light(), start, scope, [id]) ==
            Draft(state.bindings[scope := Candidate(state, scope, id)], [TheChange(state, scope, id)], [], false)
  {
    assert Refreshed(Light(), Base(Get(state.bindings, scope), scope)) == Base(Get(state.bindings, scope), scope);
  }

  lemma {:induction false} OneScope(start: Draft, scope: Scope, target: seq<string>)
    ensures BatchDraft(Light(), start, [scope], target) == BatchStep(Light(), start, scope, target)
    ensures BatchNormalises(Light(), start, [scope], target) == CandidateUsable(Light(), start, scope)
  {
    assert [scope][..0] == [];
    assert BatchDraft(Light(), start, [], target) == start && BatchNormalises(Light(), start, [], target);
  }

  lemma {:induction false} OneExpansion(live: Bindings, scope: Scope, target: seq<string>)
    ensures !Expands(Light(), live, [scope], target)
  {
    assert [scope][..0] == [];
    assert Expansion(Light(), live, []) == 0;
  }

  // ------------------------------------------------------------------------------ the commit

  lemma {:induction false} NothingTruncated(history: seq<Record>)
    requires 0 < |history| <= HISTORY_LIMIT
    ensures Truncate(history, Light()) == Some(history)
  {
  }

  /** What a commit without obstacles makes of a state. */
  ghost predicate Stepped(state: State, plan: Plan, w: World, outcome: Outcome, next: State) {
    && outcome.Applied? && Committed(state, plan, w, outcome.record, next)
    && outcome.record.changes == StampChanges(plan.changes, Proposed(plan, w))
    && next.history ==
      [outcome.record] + Rewrite(state.history, plan.kind, plan.source, Scopes(outcome.record.changes), w.nonce)
  }

  lemma {:induction false} CommitsFreely(state: State, plan: Plan, n: nat, used: set<OpID>)
    requires Sound(state, used, Light()) && GoodPlan(Light(), plan, state) && Fresh(At(n), used)
    requires plan.conflicts == [] && plan.changes != [] && plan.revision != NoRevision
    requires |state.history| < HISTORY_LIMIT
    requires AllNameable(Light(), plan.bindings)
    ensures
      var (outcome, next) := Commit(state, plan, plan.revision, At(n));
      Stepped(state, plan, At(n), outcome, next) && Sound(next, used + {n}, Light())
  {
    var w := At(n);
    var stamped := Proposed(plan, w);
    var (record, older) := Rewritten(state.history, plan, StampChanges(plan.changes, stamped), w);
    NothingTruncated([record] + older);
    CommitApplied(state, plan, w, used);
    assert forall s :: s in stamped ==> Nameable(Light(), stamped[s]) == Nameable(Light(), plan.bindings[s]);
    assert Normalises(Light(), stamped);
  }

  /** One binding whose policy is rejected, touched or not, and the commit is refused. */
  lemma {:induction false} CommitRefused(state: State, plan: Plan, w: World, s: Scope)
    requires plan.conflicts == [] && plan.changes != [] && plan.revision != NoRevision
    requires s in plan.bindings && !Nameable(w.codec, plan.bindings[s])
    ensures Commit(state, plan, plan.revision, w) == (Unstorable, state)
  {
    assert s in Proposed(plan, w) && !Nameable(w.codec, Proposed(plan, w)[s]);
  }

  lemma {:induction false} BatchTaken(state: State, scope: Scope, id: string, n: nat, used: set<OpID>)
    returns (plan: Plan)
    requires Sound(state, used, Light()) && Fresh(At(n), used) && Free(state, scope, id)
    requires AllNameable(Light(), state.bindings)
    ensures
      var (outcome, next) := ApplyBatch(state, BatchOn(state, scope, id), At(n));
      Stepped(state, plan, At(n), outcome, next) && Sound(next, used + {n}, Light())
    ensures plan.kind == Batch && plan.source == NO_OP
    ensures plan.bindings == state.bindings[scope := Candidate(state, scope, id)]
    ensures plan.changes == [TheChange(state, scope, id)]
  {
    var input := BatchOn(state, scope, id);
    BatchPlanned(state, scope, id);
    BatchPlanGood(state, input, At(n));
    plan := PlanBatch(Snapshot(state.bindings, state.history, []), input, Light()).plan;
    assert Nameable(Light(), Candidate(state, scope, id));
    CommitsFreely(state, plan, n, used);
  }

  // ---------------------------------------------------------------- rollbacks of the only key's history

  const ONE: Scope := 7

  predicate Lists(restriction: Option<Restriction>, id: string) {
    restriction == Some(ByAuths([id])) && Name(id)
  }

  ghost predicate OfTheOne(c: Change) {
    c.scope == ONE && c.bindingID == Typed("x") && c.beforeCreatedAt == 1
  }

  predicate TheOne(b: Binding) {
    && b.id == Typed("x") && b.scope == ONE && b.createdAt == 1 && b.settings.modelAccess == AllModels
  }

  /** One binding, restricted to this credential, and a log about nothing else. */
  ghost predicate Solo(state: State, id: string) {
    && state.bindings.Keys == {ONE} && TheOne(state.bindings[ONE]) && Lists(Some(state.bindings[ONE].restriction), id)
    && InStep(state) && |state.history| < HISTORY_LIMIT
    && forall i :: 0 <= i < |state.history| ==> |state.history[i].changes| == 1 && OfTheOne(state.history[i].changes[0])
  }

  /** The host keys and the credentials on offer that a rollback request lists. */
  datatype Offer = Offer(keys: seq<HostKey>, available: seq<string>)

  /** Lists within the limits: one key, and at least the three credentials. */
  ghost predicate Suits(offer: Offer) {
    && |offer.keys| <= HOST_LIMIT && |offer.available| <= AUTH_LIMIT
    && Legible(Texts(offer.keys)) && Legible(offer.available)
    && 64 + TotalLength(Texts(offer.keys)) + TotalLength(offer.available) <= INPUT_BYTES
    && HostSet(Hosts(offer.keys)) == {ONE} && forall id :: Name(id) ==> id in IDSet(Normal(offer.available))
  }

  lemma {:induction false} SomeOfferSuits()
    ensures Suits(Offer([Host(ONE)], NAMES))
  {
    LengthOfOne("k");
    LengthOfNames();
    assert Texts([Host(ONE)]) == ["k"] && Hosts([Host(ONE)]) == [ONE];
    assert Hosts([Host(ONE)])[0] == ONE;
    forall id | Name(id) ensures id in IDSet(Normal(NAMES)) { NormalOfNames(id); }
  }

  function Reverting(operation: OpID, offer: Offer): RollbackInput {
    RollbackInput(operation, ID_LENGTH, offer.keys, offer.available, true, NoRevision)
  }

  /** The rollback as applied right after its preview. */
  function RollbackOn(state: State, operation: OpID, offer: Offer): RollbackInput {
    var input := Reverting(operation, offer);
    input.(expected := RollbackRevision(Snapshot(state.bindings, state.history, []), input))
  }

  function Restored(state: State, id: string): Binding
    requires ONE in state.bindings
  {
    state.bindings[ONE].(restriction := ByAuths([id]))
  }

  lemma {:induction false} JudgedFree(state: State, ctx: Context, i: nat, now: string, was: string)
    requires Solo(state, now) && i < |state.history| && Lists(state.history[i].changes[0].before, was) && was != now
    requires ctx.history == state.history && ctx.hosts == {ONE} && was in ctx.available && ctx.codec == Light()
    ensures Judge(ctx, Some(state.bindings[ONE]), false, state.history[i].changes[0]) ==
            Become(Some(Restored(state, was)))
  {
    RecordedHasLatest(state.history, i, 0);
    var latest := Latest(state.history, ONE);
    assert Describes(latest.value, Get(state.bindings, ONE));
    assert Nameable(Light(), state.bindings[ONE]);
  }

  lemma {:induction false} RollbackPlanned(state: State, i: nat, now: string, was: string, offer: Offer)
    requires Suits(offer) && Solo(state, now) && i < |state.history| && Lists(state.history[i].changes[0].before, was)
    requires was != now
    requires DistinctOps(state.history) && state.history[i].id != NO_OP
    ensures
      var input := RollbackOn(state, state.history[i].id, offer);
      PlanRollback(Snapshot(state.bindings, state.history, []), input, Light()) ==
      Ready(Plan(Rollback, input.operation, input.expected, state.bindings[ONE := Restored(state, was)],
                 [RollbackChange(state.history[i].changes[0], Some(state.bindings[ONE]), Some(Restored(state, was)))],
                 [], false))
  {
    var snapshot, input := Snapshot(state.bindings, state.history, []), RollbackOn(state, state.history[i].id, offer);
    assert input.expected == RollbackRevision(snapshot, input);
    PlannedFrom(state, input, i, now, was);
  }

  lemma {:induction false} PlannedFrom(state: State, input: RollbackInput, i: nat, now: string, was: string)
    requires Solo(state, now) && i < |state.history| && Lists(state.history[i].changes[0].before, was) && was != now
    requires DistinctOps(state.history) && state.history[i].id != NO_OP
    requires GoodInput(Texts(input.keys), input.available, input.expected) && HostSet(Hosts(input.keys)) == {ONE}
    requires input.idLength <= OPERATION_ID_LIMIT
    requires input.operation == state.history[i].id && input.complete && was in IDSet(Normal(input.available))
    ensures
      var snapshot := Snapshot(state.bindings, state.history, []);
      PlanRollback(snapshot, input, Light()) ==
      Ready(Plan(Rollback, input.operation, RollbackRevision(snapshot, input),
                 state.bindings[ONE := Restored(state, was)],
                 [RollbackChange(state.history[i].changes[0], Some(state.bindings[ONE]), Some(Restored(state, was)))],
                 [], false))
  {
    var snapshot := Snapshot(state.bindings, state.history, []);
    IndexAt(state.history, i);
    RollbackDrafted(state, ContextOf(snapshot, input, Light()), i, now, was);
  }

  lemma {:induction false} RollbackDrafted(state: State, ctx: Context, i: nat, now: string, was: string)
    requires Solo(state, now) && i < |state.history| && Lists(state.history[i].changes[0].before, was) && was != now
    requires ctx.history == state.history && ctx.hosts == {ONE} && was in ctx.available && ctx.codec == Light()
    ensures
      var saved := state.history[i].changes;
      RollbackDraft(ctx, Draft(state.bindings, [], [], false), saved) ==
      Draft(state.bindings[ONE := Restored(state, was)],
            [RollbackChange(saved[0], Some(state.bindings[ONE]), Some(Restored(state, was)))], [], false)
  {
    var saved, start := state.history[i].changes, Draft(state.bindings, [], [], false);
    JudgedFree(state, ctx, i, now, was);
    assert saved[..0] == [] && RollbackDraft(ctx, start, []) == start;
    assert RollbackDraft(ctx, start, saved) == RollbackStep(ctx, start, saved[0]);
    assert !HeldElsewhere(state.bindings, Typed("x"), ONE);
  }

  lemma {:induction false} IndexAt(history: seq<Record>, i: nat)
    requires DistinctOps(history) && i < |history|
    ensures IndexOf(history, history[i].id) == i
  {
  }

  /** The step after which the only binding has this credential and the newest record says what it had before. */
  ghost predicate SoloStep(state: State, was: string, w: World, outcome: Outcome, next: State, now: string) {
    && outcome.Applied? && Solo(next, now) && next.history != [] && Lists(next.history[0].changes[0].before, was)
    && next.history == [outcome.record] +
         Rewrite(state.history, outcome.record.kind, outcome.record.source, Scopes(outcome.record.changes), w.nonce)
    && outcome.record.id == w.nonce && outcome.record.revertedBy == NO_OP
    && outcome.record.markers == Diff(state.history,
         Rewrite(state.history, outcome.record.kind, outcome.record.source, Scopes(outcome.record.changes), w.nonce))
  }

  lemma {:induction false} SoloStays(state: State, was: string, plan: Plan, w: World, outcome: Outcome, next: State,
          now: string)
    requires Solo(state, was) && Stepped(state, plan, w, outcome, next) && w.codec == Light()
    requires plan.bindings == state.bindings[ONE := Restored(state, now)] && Name(now)
    requires |plan.changes| == 1 && OfTheOne(plan.changes[0]) && Lists(plan.changes[0].before, was)
    requires |state.history| + 1 < HISTORY_LIMIT
    ensures SoloStep(state, was, w, outcome, next, now)
  {
    hide Rewrite, Accounts, Diff, InStep, Normalises;
    var stamped := Proposed(plan, w);
    CommitStaysInStep(state, plan, w, outcome.record, next);
    OneStamped(plan.changes, stamped);
    RewriteKeeps(state.history, plan.kind, plan.source, Scopes(outcome.record.changes), w.nonce);
    StampedOne(state, plan, w, now);
    assert Lists(outcome.record.changes[0].before, was);
    forall i | 0 < i < |next.history| ensures next.history[i].changes == state.history[i - 1].changes {
    }
  }

  lemma {:induction false} StampedOne(state: State, plan: Plan, w: World, now: string)
    requires ONE in state.bindings && TheOne(state.bindings[ONE]) && w.codec == Light()
    requires plan.bindings == state.bindings[ONE := Restored(state, now)]
    ensures
      var next := RefreshedAll(w.codec, Proposed(plan, w));
      next.Keys == state.bindings.Keys && TheOne(next[ONE]) && next[ONE].restriction == ByAuths([now])
  {
  }

  lemma {:induction false} OneStamped(changes: seq<Change>, live: Bindings)
    requires |changes| == 1
    ensures |StampChanges(changes, live)| == 1
    ensures StampChanges(changes, live)[0] == StampChange(changes[0], Get(live, changes[0].scope))
  {
  }

  lemma {:induction false} SoloBatch(state: State, was: string, now: string, n: nat, used: set<OpID>)
    requires Sound(state, used, Light()) && Fresh(At(n), used) && Solo(state, was) && Name(now) && now != was
    requires |state.history| + 1 < HISTORY_LIMIT
    ensures
      var (outcome, next) := ApplyBatch(state, BatchOn(state, ONE, now), At(n));
      && SoloStep(state, was, At(n), outcome, next, now) && Sound(next, used + {n}, Light())
      && outcome.record.kind == Batch && outcome.record.source == NO_OP
  {
    ProposedSolo(state, was, now);
    var plan := BatchTaken(state, ONE, now, n, used);
    SoloAfterBatch(state, was, now, plan, At(n), ApplyBatch(state, BatchOn(state, ONE, now), At(n)));
  }

  lemma {:induction false} SoloAfterBatch(state: State, was: string, now: string, plan: Plan, w: World,
          done: (Outcome, State))
    requires Solo(state, was) && Name(now) && now != was && |state.history| + 1 < HISTORY_LIMIT
    requires Stepped(state, plan, w, done.0, done.1) && w.codec == Light() && plan.kind == Batch && plan.source == NO_OP
    requires plan.bindings == state.bindings[ONE := Candidate(state, ONE, now)]
    requires plan.changes == [TheChange(state, ONE, now)]
    ensures SoloStep(state, was, w, done.0, done.1, now)
    ensures done.0.record.kind == Batch && done.0.record.source == NO_OP
  {
    ProposedSolo(state, was, now);
    SoloStays(state, was, plan, w, done.0, done.1, now);
  }

  lemma {:induction false} ProposedSolo(state: State, was: string, now: string)
    requires Solo(state, was) && now != was && Name(now)
    ensures Candidate(state, ONE, now) == Restored(state, now) && OfTheOne(TheChange(state, ONE, now))
    ensures Lists(TheChange(state, ONE, now).before, was) && Free(state, ONE, now)
    ensures AllNameable(Light(), state.bindings)
  {
  }

  lemma {:induction false} SoloRollback(state: State, i: nat, now: string, was: string, n: nat, used: set<OpID>,
          offer: Offer)
    requires Suits(offer)
    requires Sound(state, used, Light()) && Fresh(At(n), used) && Solo(state, now)
    requires i < |state.history| && Lists(state.history[i].changes[0].before, was) && was != now
    requires |state.history| + 1 < HISTORY_LIMIT
    ensures
      var (outcome, next) := ApplyRollback(state, RollbackOn(state, state.history[i].id, offer), At(n));
      && SoloStep(state, now, At(n), outcome, next, was) && Sound(next, used + {n}, Light())
      && outcome.record.kind == Rollback && outcome.record.source == state.history[i].id
  {
    var plan := SoloRollbackPlan(state, i, now, was, n, used, offer);
    assert Name(was) && Light() == At(n).codec;
    hide *;
    CommitsFreely(state, plan, n, used);
    var (outcome, next) := ApplyRollback(state, RollbackOn(state, state.history[i].id, offer), At(n));
    SoloStays(state, now, plan, At(n), outcome, next, was);
    SteppedAs(state, plan, At(n), outcome, next);
  }

  lemma {:induction false} SteppedAs(state: State, plan: Plan, w: World, outcome: Outcome, next: State)
    requires Stepped(state, plan, w, outcome, next)
    ensures outcome.Applied? && outcome.record.kind == plan.kind && outcome.record.source == plan.source
  {
  }

  lemma {:induction false} SoloIDs(state: State, i: nat, used: set<OpID>)
    requires Sound(state, used, Light()) && i < |state.history|
    ensures DistinctOps(state.history) && state.history[i].id != NO_OP
  {
  }

  /** Such a rollback has a plan, and applying it is committing that plan. */
  lemma {:induction false} SoloRollbackPlan(state: State, i: nat, now: string, was: string, n: nat, used: set<OpID>,
          offer: Offer)
    returns (plan: Plan)
    requires Suits(offer)
    requires Sound(state, used, Light()) && Solo(state, now)
    requires i < |state.history| && Lists(state.history[i].changes[0].before, was) && was != now
    ensures GoodPlan(Light(), plan, state) && AllNameable(Light(), plan.bindings) && plan.conflicts == []
    ensures plan.revision != NoRevision && plan.kind == Rollback && plan.source == state.history[i].id
    ensures plan.bindings == state.bindings[ONE := Restored(state, was)]
    ensures |plan.changes| == 1 && OfTheOne(plan.changes[0]) && Lists(plan.changes[0].before, now)
    ensures ApplyRollback(state, RollbackOn(state, state.history[i].id, offer), At(n)) ==
            Commit(state, plan, plan.revision, At(n))
  {
    hide PlanRollback, GoodPlan, Commit, Accounts, InStep, ValidRecord;
    var input := RollbackOn(state, state.history[i].id, offer);
    SoloIDs(state, i, used);
    RollbackPlanned(state, i, now, was, offer);
    RollbackPlanGood(state, input, At(n), used);
    plan := PlanRollback(Snapshot(state.bindings, state.history, []), input, Light()).plan;
  }
}
