/** What a batch makes of the selected keys, said of the bindings before: which change, how, and which conflict. */
module Selections {
  import opened Options
  import opened Bindings
  import opened History
  import opened Planner
  import opened Operations
  import opened AuthIDs
  import opened Undo

  /** The key has no binding, and the ID that a new one would get belongs to another scope. */
  predicate Blocked(live: Bindings, scope: Scope) {
    scope !in live && exists s :: s in live && live[s].id == ForScope(scope)
  }

  /** A key without a binding gets one with default settings: enabled, no rotation, all models, no limits. */
  function Created(codec: Codec, scope: Scope, target: seq<string>): Binding {
    var settings := Settings(KeyName(scope), true, false, KeyPreview(scope), AllModels, 0, 0, 0);
    Refreshed(codec, Binding(ForScope(scope), scope, settings, ByAuths(target), NEVER, NEVER))
  }

  /** What the plan holds for a selected key. */
  function Assigned(codec: Codec, live: Bindings, scope: Scope, target: seq<string>): Option<Binding> {
    if Blocked(live, scope) then None
    else if scope !in live then Some(Created(codec, scope, target))
    else if live[scope].restriction == ByAuths(target) then Some(live[scope])
    else Some(Refreshed(codec, live[scope]).(restriction := ByAuths(target)))
  }

  ghost predicate DraftedFor(codec: Codec, start: Draft, scopes: seq<Scope>, target: seq<string>, draft: Draft) {
    && (forall conflict :: conflict in draft.conflicts <==>
          || conflict in start.conflicts
          || exists i :: 0 <= i < |scopes| && Blocked(start.bindings, scopes[i]) && conflict == IdentityOf(scopes[i]))
    && (forall i :: 0 <= i < |scopes| ==>
          Get(draft.bindings, scopes[i]) == Assigned(codec, start.bindings, scopes[i], target))
    && (forall s {:trigger Get(draft.bindings, s)} :: s !in scopes ==> Get(draft.bindings, s) == Get(start.bindings, s))
    && draft.warned == start.warned
  }

  function IdentityOf(scope: Scope): Conflict {
    Conflict(Some(ForScope(scope)), BindingIdentityChanged)
  }

  /** Bindings made for other keys do not block this one. */
  lemma {:induction false} BlockedAlike(codec: Codec, start: Draft, scopes: seq<Scope>, target: seq<string>,
          draft: Draft, scope: Scope)
    requires DraftedFor(codec, start, scopes, target, draft) && scope !in scopes
    ensures Get(draft.bindings, scope) == Get(start.bindings, scope)
    ensures Blocked(draft.bindings, scope) == Blocked(start.bindings, scope)
  {
    forall s ensures s in draft.bindings && draft.bindings[s].id == ForScope(scope) <==>
                     s in start.bindings && start.bindings[s].id == ForScope(scope)
    {
      assert Get(draft.bindings, s).Some? <==> s in draft.bindings;
      if s in scopes {
        var i :| 0 <= i < |scopes| && scopes[i] == s;
        assert Get(draft.bindings, scopes[i]) == Assigned(codec, start.bindings, scopes[i], target);
      }
    }
  }

  lemma {:induction false} StepFor(codec: Codec, draft: Draft, scope: Scope, target: seq<string>)
    ensures
      var next := BatchStep(codec, draft, scope, target);
      && Get(next.bindings, scope) == Assigned(codec, draft.bindings, scope, target)
      && (forall s {:trigger Get(next.bindings, s)} :: s != scope ==> Get(next.bindings, s) == Get(draft.bindings, s))
      && (forall conflict :: conflict in next.conflicts <==>
            conflict in draft.conflicts || (Blocked(draft.bindings, scope) && conflict == IdentityOf(scope)))
      && next.warned == draft.warned
  {
    assert IdentityTaken(draft, scope) <==> Blocked(draft.bindings, scope);
  }

  lemma {:induction false} AssignedAlike(codec: Codec, live: Bindings, other: Bindings, scope: Scope,
          target: seq<string>)
    requires Get(live, scope) == Get(other, scope) && Blocked(live, scope) == Blocked(other, scope)
    ensures Assigned(codec, live, scope, target) == Assigned(codec, other, scope, target)
  {
    hide Blocked;
    assert Get(live, scope).Some? <==> scope in live;
    assert Get(other, scope).Some? <==> scope in other;
  }

  lemma {:induction false} DraftForNext(codec: Codec, start: Draft, front: seq<Scope>, target: seq<string>,
          draft: Draft, scope: Scope)
    requires DraftedFor(codec, start, front, target, draft) && scope !in front
    ensures DraftedFor(codec, start, front + [scope], target, BatchStep(codec, draft, scope, target))
  {
    var next, scopes := BatchStep(codec, draft, scope, target), front + [scope];
    BlockedAlike(codec, start, front, target, draft, scope);
    AssignedAlike(codec, draft.bindings, start.bindings, scope, target);
    StepFor(codec, draft, scope, target);
    hide BatchStep, Blocked, Assigned;
    assert forall i :: 0 <= i < |front| ==> scopes[i] == front[i] && front[i] in front;
    assert scopes[|front|] == scope;
    assert forall s :: s in scopes <==> s in front || s == scope;
  }

  lemma {:induction false} DraftForExactly(codec: Codec, start: Draft, scopes: seq<Scope>, target: seq<string>)
    requires forall i, j :: 0 <= i < j < |scopes| ==> scopes[i] != scopes[j]
    ensures DraftedFor(codec, start, scopes, target, BatchDraft(codec, start, scopes, target))
  {
    assert scopes == [] ==> DraftedFor(codec, start, scopes, target, BatchDraft(codec, start, scopes, target));
    hide BatchStep, DraftedFor;
    if scopes != [] {
      var front, last := scopes[..|scopes| - 1], scopes[|scopes| - 1];
      DraftForExactly(codec, start, front, target);
      DraftForNext(codec, start, front, target, BatchDraft(codec, start, front, target), last);
      assert scopes == front + [last];
    }
  }

  /** What is recorded of a key that gets the list. */
  function Recorded(codec: Codec, live: Bindings, scope: Scope, target: seq<string>): Change {
    var was := Get(live, scope);
    var settings := if was.Some? then was.value.settings else Created(codec, scope, target).settings;
    Change(if was.Some? then was.value.id else ForScope(scope), settings.name, settings.keyPreview, scope,
           RestrictionOf(was), Some(ByAuths(target)),
           if was.Some? then Some(was.value.(updatedAt := NEVER)) else None, None,
           if was.Some? then was.value.createdAt else NEVER, NEVER,
           None, if was.None? then Some(Created(codec, scope, target)) else None)
  }

  /** The changes due, in the order of the keys. */
  function Due(codec: Codec, live: Bindings, scopes: seq<Scope>, target: seq<string>): seq<Change> {
    if scopes == [] then []
    else
      var front, scope := Due(codec, live, scopes[..|scopes| - 1], target), scopes[|scopes| - 1];
      if Blocked(live, scope) || RestrictionOf(Get(live, scope)) == Some(ByAuths(target)) then front
      else front + [Recorded(codec, live, scope, target)]
  }

  lemma {:induction false} RecordedNext(codec: Codec, live: Bindings, draft: Draft, scope: Scope, target: seq<string>)
    requires Get(draft.bindings, scope) == Get(live, scope) && Blocked(draft.bindings, scope) == Blocked(live, scope)
    ensures BatchStep(codec, draft, scope, target).changes ==
            if Blocked(live, scope) || RestrictionOf(Get(live, scope)) == Some(ByAuths(target)) then draft.changes
            else draft.changes + [Recorded(codec, live, scope, target)]
  {
    assert IdentityTaken(draft, scope) <==> Blocked(draft.bindings, scope);
    hide Blocked;
  }

  lemma {:induction false} DraftRecords(codec: Codec, start: Draft, scopes: seq<Scope>, target: seq<string>)
    requires start.changes == [] && forall i, j :: 0 <= i < j < |scopes| ==> scopes[i] != scopes[j]
    ensures BatchDraft(codec, start, scopes, target).changes == Due(codec, start.bindings, scopes, target)
  {
    hide BatchStep, Blocked, Recorded, DraftedFor;
    if scopes != [] {
      var front, last := scopes[..|scopes| - 1], scopes[|scopes| - 1];
      var draft := BatchDraft(codec, start, front, target);
      DraftRecords(codec, start, front, target);
      DraftForExactly(codec, start, front, target);
      assert last !in front;
      BlockedAlike(codec, start, front, target, draft, last);
      RecordedNext(codec, start.bindings, draft, last, target);
    }
  }

  // --------------------------------------------------------------------------------------- the request

  /** The scope belongs to one of the selected keys. */
  ghost predicate Selects(input: BatchInput, scope: Scope) {
    exists i :: i in input.selected && 0 <= i < |input.keys| && input.keys[i].scope == scope
  }

  /** Some credential of the list is not on offer. */
  ghost predicate NotOnOffer(input: BatchInput) {
    exists id :: id in Normal(input.authIDs) && id !in Normal(input.available)
  }

  function PlanOf(state: State, input: BatchInput, w: World): Planned {
    PlanBatch(Snapshot(state.bindings, state.history, w.rules), input, w.codec)
  }

  lemma {:induction false} SelectedExactly(input: BatchInput)
    requires GoodBatchInput(input)
    ensures forall s :: s in SelectedScopes(SortInts(input.selected), Hosts(input.keys)) <==> Selects(input, s)
  {
    SortIntsMembers(input.selected);
    var sorted, hosts := SortInts(input.selected), Hosts(input.keys);
    var scopes := SelectedScopes(sorted, hosts);
    forall s ensures s in scopes <==> Selects(input, s) {
      if s in scopes {
        var k :| 0 <= k < |scopes| && scopes[k] == s;
        assert sorted[k] in sorted && hosts[sorted[k]] == s;
      }
      if Selects(input, s) {
        var i :| i in input.selected && 0 <= i < |input.keys| && input.keys[i].scope == s;
        assert i in sorted;
        var k :| 0 <= k < |sorted| && sorted[k] == i;
        assert scopes[k] == s;
      }
    }
  }

  lemma {:induction false} SortIntsMembers(s: seq<int>)
    ensures forall x :: x in SortInts(s) <==> x in s
  {
    if s != [] {
      SortIntsMembers(s[..|s| - 1]);
      InsertIntMembers(SortInts(s[..|s| - 1]), s[|s| - 1]);
      assert s == s[..|s| - 1] + [s[|s| - 1]];
    }
  }

  lemma {:induction false} InsertIntMembers(s: seq<int>, x: int)
    ensures forall y :: y in InsertInt(s, x) <==> y in s || y == x
  {
    if s != [] && x > s[0] {
      InsertIntMembers(s[1..], x);
      assert s == [s[0]] + s[1..];
    }
  }

  /**
   A batch's plan reports an incomplete catalog, a credential that is not on offer, and each selected key
   that is blocked, and nothing else; it gives the other selected keys the list and leaves the rest alone.
   */
  lemma {:induction false} PlanExactly(state: State, input: BatchInput, w: World)
    requires PlanOf(state, input, w).Ready?
    ensures
      var plan, target := PlanOf(state, input, w).plan, Normal(input.authIDs);
      && (forall conflict :: conflict in plan.conflicts <==>
            || (conflict == Conflict(None, CatalogIncomplete) && !input.complete)
            || (conflict == Conflict(None, AuthUnavailable) && NotOnOffer(input))
            || exists s :: Selects(input, s) && Blocked(state.bindings, s) && conflict == IdentityOf(s))
      && (forall s {:trigger Get(plan.bindings, s)} :: Get(plan.bindings, s) ==
            if Selects(input, s) then Assigned(w.codec, state.bindings, s, target) else Get(state.bindings, s))
      && !plan.warned
  {
    hide GoodBatchInput, Blocked, Assigned, PlanOf, BatchStart, SelectedScopes, Selects, NotOnOffer, BatchDraft, Normal;
    var plan, target := PlanOf(state, input, w).plan, Normal(input.authIDs);
    var start := BatchStart(Snapshot(state.bindings, state.history, w.rules), input);
    PlanIsDraft(state, input, w);
    assert GoodSelection(SortInts(input.selected), Hosts(input.keys)) by { GoodInputSelects(input); }
    var scopes := SelectedScopes(SortInts(input.selected), Hosts(input.keys));
    SelectedExactly(input);
    StartExactly(state, input, w);
    DraftForExactly(w.codec, start, scopes, target);
    forall s ensures Get(plan.bindings, s) ==
      if Selects(input, s) then Assigned(w.codec, state.bindings, s, target) else Get(state.bindings, s)
    {
      if s in scopes { var i :| 0 <= i < |scopes| && scopes[i] == s; }
    }
  }

  /** The plan lists, by the keys' places in the catalog, one change for each key that gets the list. */
  lemma {:induction false} PlanRecordsExactly(state: State, input: BatchInput, w: World)
    requires PlanOf(state, input, w).Ready?
    ensures GoodSelection(SortInts(input.selected), Hosts(input.keys))
    ensures PlanOf(state, input, w).plan.changes ==
            Due(w.codec, state.bindings, SelectedScopes(SortInts(input.selected), Hosts(input.keys)),
                Normal(input.authIDs))
  {
    hide GoodBatchInput, PlanOf, BatchStart, SelectedScopes, BatchDraft, Normal, Due;
    PlanIsDraft(state, input, w);
    GoodInputSelects(input);
    StartExactly(state, input, w);
    DraftRecords(w.codec, BatchStart(Snapshot(state.bindings, state.history, w.rules), input),
                 SelectedScopes(SortInts(input.selected), Hosts(input.keys)), Normal(input.authIDs));
  }

  lemma {:induction false} GoodInputSelects(input: BatchInput)
    requires GoodBatchInput(input)
    ensures GoodSelection(SortInts(input.selected), Hosts(input.keys))
  {
  }

  lemma {:induction false} PlanIsDraft(state: State, input: BatchInput, w: World)
    requires PlanOf(state, input, w).Ready?
    ensures GoodBatchInput(input)
    ensures
      var scopes := SelectedScopes(SortInts(input.selected), Hosts(input.keys));
      var start := BatchStart(Snapshot(state.bindings, state.history, w.rules), input);
      var plan, draft := PlanOf(state, input, w).plan, BatchDraft(w.codec, start, scopes, Normal(input.authIDs));
      && plan.bindings == draft.bindings && plan.conflicts == draft.conflicts && plan.warned == draft.warned
      && plan.changes == draft.changes
      && forall i, j :: 0 <= i < j < |scopes| ==> scopes[i] != scopes[j]
  {
    hide BatchDraft, BatchNormalises, Expands, TooLarge, GoodInput;
  }

  lemma {:induction false} StartExactly(state: State, input: BatchInput, w: World)
    ensures
      var start := BatchStart(Snapshot(state.bindings, state.history, w.rules), input);
      && start.bindings == state.bindings && !start.warned && start.changes == []
      && forall conflict :: conflict in start.conflicts <==>
           || (conflict == Conflict(None, CatalogIncomplete) && !input.complete)
           || (conflict == Conflict(None, AuthUnavailable) && NotOnOffer(input))
  {
    hide Normal;
  }

  /** An applied batch, key by key: every selected scope has the list, and all else but the update time as before. */
  lemma {:induction false} BatchGives(state: State, input: BatchInput, w: World, used: set<OpID>, s: Scope)
    requires Sound(state, used, w.codec) && ApplyBatch(state, input, w).0.Applied?
    ensures
      var now, target := Get(ApplyBatch(state, input, w).1.bindings, s), Normal(input.authIDs);
      if !Selects(input, s) then
        now == if s in state.bindings then Some(Refreshed(w.codec, state.bindings[s])) else None
      else if s !in state.bindings then
        now == Some(Refreshed(w.codec, Created(w.codec, s, target).(createdAt := w.now, updatedAt := w.now)))
      else if state.bindings[s].restriction == ByAuths(target) then
        now == Some(Refreshed(w.codec, state.bindings[s]))
      else
        now == Some(Refreshed(w.codec,
                 Refreshed(w.codec, state.bindings[s]).(restriction := ByAuths(target), updatedAt := w.now)))
  {
    hide ApplyBatch, Commit, PlanOf, Selects, Blocked, GoodPlan, Sound, Refreshed;
    AppliedPlan(state, input, w);
    var plan := PlanOf(state, input, w).plan;
    PlanExactly(state, input, w);
    PlanIsGood(state, input, w, used);
    CommitPublishes(state, plan, input.expected, w, s);
    SoundIsDated(state, used, w.codec, s);
    assert Selects(input, s) && Blocked(state.bindings, s) ==> IdentityOf(s) in plan.conflicts;
    RefreshedKeeps(w.codec);
  }

  lemma {:induction false} PlanIsGood(state: State, input: BatchInput, w: World, used: set<OpID>)
    requires Sound(state, used, w.codec) && PlanOf(state, input, w).Ready?
    ensures GoodPlan(w.codec, PlanOf(state, input, w).plan, state)
  {
    BatchPlanGood(state, input, w);
    hide *;
  }

  lemma {:induction false} SoundIsDated(state: State, used: set<OpID>, codec: Codec, s: Scope)
    requires Sound(state, used, codec)
    ensures s in state.bindings ==> state.bindings[s].createdAt != NEVER
  {
  }

  lemma {:induction false} RefreshedKeeps(codec: Codec)
    ensures forall b {:trigger Refreshed(codec, b)} ::
              Refreshed(codec, b).createdAt == b.createdAt && Refreshed(codec, b).restriction == b.restriction
  {
  }

  lemma {:induction false} AppliedPlan(state: State, input: BatchInput, w: World)
    requires ApplyBatch(state, input, w).0.Applied?
    ensures
      var planned := PlanOf(state, input, w);
      && planned.Ready? && planned.plan.conflicts == []
      && ApplyBatch(state, input, w) == Commit(state, planned.plan, input.expected, w)
  {
    hide PlanBatch, Truncate, Valid, Rewritten;
  }
}
