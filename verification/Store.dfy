/** The store's own steps: planners and commit as loops over its fields, each equal to its specification. */
module Store {
  import opened Options
  import opened Text
  import opened Bindings
  import opened History
  import opened Planner
  import opened Operations
  import opened AuthIDs

  /** The part of the store that holds bindings and their history; every operation persists before it publishes. */
  class NativeBindingStore {
    var bindings: Bindings
    var history: seq<Record>
    var rules: seq<Rule>
    /** The policy and history part of the state file. */
    var disk: State
    const codec: Codec
    /** Every operation ID ever drawn. */
    ghost var used: set<OpID>

    ghost predicate Valid()
      reads this
    {
      Sound(Current(), used, codec) && disk == Current()
    }

    function Current(): State
      reads this
    {
      State(bindings, history)
    }

    function Shown(): Snapshot
      reads this
    {
      Snapshot(bindings, history, rules)
    }

    constructor (bindings: Bindings, rules: seq<Rule>, codec: Codec)
      requires WellFormed(bindings) && codec.history([]) <= HISTORY_BYTES
      ensures Valid() && Current() == State(bindings, []) && this.rules == rules && this.codec == codec && used == {}
    {
      this.bindings, this.history, this.rules, this.codec := bindings, [], rules, codec;
      this.disk, this.used := State(bindings, []), {};
    }

    /** planNativeBindingBatch. */
    method PlanNativeBindingBatch(input: BatchInput) returns (planned: Planned)
      ensures planned == PlanBatch(Shown(), input, codec)
    {
      var hosts := Hosts(input.keys);
      var target := CheckBatchInput(input, codec);
      if target.None? {
        return Refused(InvalidInput);
      }
      var selected := SortInts(input.selected);
      var scopes := SelectedScopes(selected, hosts);
      var available := NormalizeAuthIDs(input.available);
      var conflicts := CatalogConflicts(target.value, available, input.complete);
      var expands := CheckExpansion(codec, bindings, scopes, target.value);
      if expands {
        return Refused(InvalidInput);
      }
      var usable, proposed, changes;
      usable, proposed, changes, conflicts := DraftBatch(codec, bindings, conflicts, scopes, target.value);
      if !usable || TooLarge(changes, codec) {
        return Refused(InvalidInput);
      }
      return Ready(Plan(Batch, NO_OP, BatchRevision(Shown(), input), proposed, changes, conflicts, false));
    }

    /** planNativeBindingRollback. */
    method PlanNativeBindingRollback(input: RollbackInput) returns (planned: Planned)
      requires Valid()
      ensures planned == PlanRollback(Shown(), input, codec)
    {
      hide GoodInput, Coherent, TooLarge, RollbackDraft;
      var valid := ValidateInputs(Texts(input.keys), input.available, input.expected);
      if !valid {
        return Refused(InvalidInput);
      }
      if input.operation == NO_OP || input.idLength > OPERATION_ID_LIMIT {
        return Refused(InvalidInput);
      }
      var i := 0;
      while i < |history| && history[i].id != input.operation
        invariant 0 <= i <= |history|
        invariant forall k :: 0 <= k < i ==> history[k].id != input.operation
      {
        i := i + 1;
      }
      assert i == IndexOf(history, input.operation);
      if i == |history| {
        return Refused(UnknownOperation);
      }
      var conflicts := When(!input.complete, [], Conflict(None, CatalogIncomplete));
      var hosts: set<Scope> := {};
      for n := 0 to |input.keys|
        invariant hosts == HostSet(Hosts(input.keys)[..n])
      {
        if input.keys[n].scope != NO_SCOPE {
          hosts := hosts + {input.keys[n].scope};
        }
      }
      assert Hosts(input.keys)[..|input.keys|] == Hosts(input.keys);
      var normal := NormalizeAuthIDs(input.available);
      var ctx := Context(history, hosts, IDSet(normal), rules, codec);
      var saved := history[i].changes;
      assert ValidRecord(history[i]);
      var byScope, changes, warned;
      byScope, changes, conflicts, warned := DraftRollback(ctx, bindings, conflicts, saved);
      if TooLarge(changes, codec) {
        return Refused(InvalidInput);
      }
      return Ready(Plan(Rollback, input.operation, RollbackRevision(Shown(), input),
                        byScope, changes, conflicts, warned));
    }

    /** commitNativeBindingPlan: persist the pair, then publish it. */
    method CommitNativeBindingPlan(plan: Plan, expected: Revision, w: World) returns (outcome: Outcome)
      requires Valid() && GoodPlan(w.codec, plan, Current()) && Fresh(w, used) && w.codec == codec
      modifies this
      ensures Valid() && rules == old(rules) && used == old(used) + {w.nonce}
      ensures (outcome, Current()) == Commit(old(Current()), plan, expected, w)
    {
      hide Rewrite, Truncate, StampBindings, StampChanges, RefreshedAll, Keyed, UniqueIDs, Accounts, Coherent;
      CommitKeeps(Current(), plan, expected, w, used);
      SoundLater(Current(), used, w.nonce, codec);
      used := used + {w.nonce};
      if expected == NoRevision || expected != plan.revision {
        return Stale;
      }
      if |plan.conflicts| > 0 {
        return Conflicting(plan.conflicts);
      }
      if |plan.changes| == 0 {
        return Unchanged;
      }
      var live, changes := StampPlan(codec, plan, w.now, Current());
      if !(Keyed(live) && UniqueIDs(live)) {
        return Unstorable;
      }
      var normal := NormalizeAll(codec, live);
      if normal.None? {
        return Unstorable;
      }
      live := normal.value;
      var older := RewriteHistory(history, plan.kind, plan.source, changes, w.nonce);
      var record := Record(w.nonce, plan.kind, plan.source, NO_OP, w.now, changes, []);
      record := WithMarkers(record, history, older);
      assert [] + Diff(history, older) == Diff(history, older);
      assert (record, older) == Rewritten(history, plan, changes, w);
      var kept := TruncateHistory([record] + older, codec);
      if kept.None? || !History.Valid(kept.value, codec) {
        return Unstorable;
      }
      if !w.diskOK {
        return NotPersisted;
      }
      disk := State(live, kept.value);
      bindings, history := live, kept.value;
      return Applied(record);
    }

    /** ApplyNativeBindingBatch. */
    method ApplyNativeBindingBatch(input: BatchInput, w: World) returns (outcome: Outcome)
      requires Valid() && Fresh(w, used) && w.codec == codec && w.rules == rules
      modifies this
      ensures Valid() && rules == old(rules)
      ensures (outcome, Current()) == ApplyBatch(old(Current()), input, w)
    {
      var planned := PlanNativeBindingBatch(input);
      match planned
      case Refused(error) =>
        return Denied(error);
      case Ready(plan) =>
        BatchPlanGood(Current(), input, w);
        outcome := CommitNativeBindingPlan(plan, input.expected, w);
    }

    /** ApplyNativeBindingRollback. */
    method ApplyNativeBindingRollback(input: RollbackInput, w: World) returns (outcome: Outcome)
      requires Valid() && Fresh(w, used) && w.codec == codec && w.rules == rules
      modifies this
      ensures Valid() && rules == old(rules)
      ensures (outcome, Current()) == ApplyRollback(old(Current()), input, w)
    {
      var planned := PlanNativeBindingRollback(input);
      match planned
      case Refused(error) =>
        return Denied(error);
      case Ready(plan) =>
        RollbackPlanGood(Current(), input, w, used);
        outcome := CommitNativeBindingPlan(plan, input.expected, w);
    }
  }

  /** The lengths of readable texts added to what has been counted; None at one that is too long or contains a NUL. */
  method AddLengths(values: seq<string>, counted: nat) returns (r: Option<nat>)
    ensures r == if Legible(values) then Some(counted + TotalLength(values)) else None
  {
    var total := counted;
    for n := 0 to |values|
      invariant forall k :: 0 <= k < n ==> |values[k]| <= TEXT_LIMIT && '\0' !in values[k]
      invariant total == counted + TotalLength(values[..n])
    {
      if |values[n]| > TEXT_LIMIT || '\0' in values[n] {
        return None;
      }
      assert values[..n + 1][..n] == values[..n];
      total := total + |values[n]|;
    }
    assert values[..|values|] == values;
    return Some(total);
  }

  /** validateNativeBindingBatchInputs. */
  method ValidateInputs(keys: seq<string>, available: seq<string>, revision: Revision) returns (valid: bool)
    ensures valid <==> GoodInput(keys, available, revision)
  {
    if |keys| > HOST_LIMIT || |available| > AUTH_LIMIT || RevisionLength(revision) > REVISION_LIMIT {
      return false;
    }
    var counted := AddLengths(keys, RevisionLength(revision));
    if counted.None? {
      return false;
    }
    counted := AddLengths(available, counted.value);
    return counted.Some? && counted.value <= INPUT_BYTES;
  }

  /** The checks of planNativeBindingBatch on its request; the target list if all of them pass. */
  method CheckBatchInput(input: BatchInput, codec: Codec) returns (target: Option<seq<string>>)
    ensures target == if GoodBatchInput(input) then Some(Normal(input.authIDs)) else None
  {
    var texts := Texts(input.keys);
    var valid := ValidateInputs(texts, input.available, input.expected);
    if !valid || |input.selected| == 0 || |input.selected| > HOST_LIMIT
       || |input.authIDs| == 0 || |input.authIDs| > AUTH_LIMIT {
      return None;
    }
    valid := ValidateInputs([], input.authIDs, NoRevision);
    if !valid {
      return None;
    }
    var normal := NormalizeAuthIDs(input.authIDs);
    if normal == [] {
      return None;
    }
    var counted := AddLengths(texts, RevisionLength(input.expected));
    counted := AddLengths(input.available, counted.value);
    counted := AddLengths(input.authIDs, counted.value);
    if counted.value > INPUT_BYTES {
      return None;
    }
    var usable := CheckSelection(SortInts(input.selected), Hosts(input.keys));
    return if usable then Some(normal) else None;
  }

  /** The two limits on what a batch would expand to, the second counted key by key. */
  method CheckExpansion(codec: Codec, live: Bindings, scopes: seq<Scope>, target: seq<string>) returns (expands: bool)
    requires scopes != []
    ensures expands <==> Expands(codec, live, scopes, target)
  {
    var bytes := codec.list(target) * |scopes|;
    if codec.list(target) > HISTORY_BYTES / |scopes| {
      BeyondShare(codec.list(target), |scopes|);
      return true;
    }
    for n := 0 to |scopes|
      invariant bytes == codec.list(target) * |scopes| + Expansion(codec, live, scopes[..n])
      invariant n > 0 ==> bytes <= HISTORY_BYTES
    {
      assert scopes[..n + 1][..n] == scopes[..n];
      if scopes[n] in live {
        bytes := bytes + codec.restriction(live[scopes[n]].restriction);
      }
      if bytes > HISTORY_BYTES {
        ExpansionGrows(codec, live, scopes, n + 1);
        return true;
      }
    }
    assert scopes[..|scopes|] == scopes;
    return false;
  }

  lemma {:induction false} BeyondShare(size: nat, count: nat)
    requires count > 0 && size > HISTORY_BYTES / count
    ensures size * count > HISTORY_BYTES
  {
    var share := HISTORY_BYTES / count;
    assert HISTORY_BYTES < (share + 1) * count;
    assert (share + 1) * count <= size * count;
  }

  lemma {:induction false} ExpansionGrows(codec: Codec, live: Bindings, scopes: seq<Scope>, n: nat)
    requires n <= |scopes|
    ensures Expansion(codec, live, scopes[..n]) <= Expansion(codec, live, scopes)
    decreases |scopes| - n
  {
    if n < |scopes| {
      assert scopes[..n + 1][..n] == scopes[..n];
      ExpansionGrows(codec, live, scopes, n + 1);
    } else {
      assert scopes[..n] == scopes;
    }
  }

  /**
   The loop of normalizeNativeKeyBindings over bindings whose IDs and scopes are unique; None at a rejected
   policy.
   */
  method NormalizeAll(codec: Codec, live: Bindings) returns (r: Option<Bindings>)
    ensures r == if forall s :: s in live ==> Nameable(codec, live[s]) then Some(RefreshedAll(codec, live)) else None
  {
    var next := live;
    var left := live.Keys;
    while left != {}
      invariant left <= live.Keys == next.Keys
      invariant forall s :: s in live && s !in left ==> Nameable(codec, live[s]) && next[s] == Refreshed(codec, live[s])
      invariant forall s :: s in left ==> next[s] == live[s]
      decreases left
    {
      var s :| s in left;
      var policy := codec.access(next[s].settings.modelAccess);
      if policy.None? {
        assert !Nameable(codec, live[s]);
        return None;
      }
      next := next[s := next[s].(settings := next[s].settings.(modelAccess := policy.value))];
      left := left - {s};
    }
    assert next == RefreshedAll(codec, live);
    return Some(next);
  }

  /** The loop of planNativeBindingRollback over the recorded changes. */
  method DraftRollback(ctx: Context, live: Bindings, initial: seq<Conflict>, saved: seq<Change>)
    returns (byScope: Bindings, changes: seq<Change>, conflicts: seq<Conflict>, warned: bool)
    requires UniqueIDs(live) && forall k :: 0 <= k < |saved| ==> ValidChange(saved[k])
    ensures Draft(byScope, changes, conflicts, warned) == RollbackDraft(ctx, Draft(live, [], initial, false), saved)
  {
    ghost var start := Draft(live, [], initial, false);
    byScope, changes, conflicts, warned := live, [], initial, false;
    var byID: map<BindingID, Scope> := map s | s in live :: live[s].id := s;
    for n := 0 to |saved|
      invariant Draft(byScope, changes, conflicts, warned) == RollbackDraft(ctx, start, saved[..n])
      invariant Indexes(byID, byScope)
    {
      var c := saved[n];
      assert saved[..n + 1][..n] == saved[..n];
      var current := Get(byScope, c.scope);
      var taken := c.bindingID in byID && byID[c.bindingID] != c.scope;
      TakenByIndex(byID, byScope, c);
      var verdict := JudgeChange(ctx, current, taken, c);
      if verdict.Clash? {
        conflicts := AddConflict(conflicts, Conflict(Some(c.bindingID), verdict.code));
      } else if verdict.Become? {
        IndexesAfter(byID, byScope, ctx, c, verdict.candidate);
        if verdict.candidate.None? {
          byScope := byScope - {c.scope};
          byID := byID - {c.bindingID};
        } else {
          byScope := byScope[c.scope := verdict.candidate.value];
          byID := byID[c.bindingID := c.scope];
          warned := warned || verdict.candidate.value.restriction.ByGroup?;
        }
        changes := changes + [RollbackChange(c, current, verdict.candidate)];
      }
    }
    assert saved[..|saved|] == saved;
  }

  lemma {:induction false} TakenByIndex(byID: map<BindingID, Scope>, live: Bindings, c: Change)
    requires Indexes(byID, live)
    ensures HeldElsewhere(live, c.bindingID, c.scope) <==> c.bindingID in byID && byID[c.bindingID] != c.scope
  {
  }

  lemma {:induction false} IndexesAfter(byID: map<BindingID, Scope>, live: Bindings, ctx: Context, c: Change,
          candidate: Option<Binding>)
    requires Indexes(byID, live) && ValidChange(c)
    requires Judge(ctx, Get(live, c.scope), HeldElsewhere(live, c.bindingID, c.scope), c) == Become(candidate)
    ensures
      if candidate.None? then Indexes(byID - {c.bindingID}, live - {c.scope})
      else Indexes(byID[c.bindingID := c.scope], live[c.scope := candidate.value])
  {
    var current := Get(live, c.scope);
    assert current.Some? ==> current.value.id == c.bindingID;
    assert candidate.Some? ==> candidate.value.id == c.bindingID;
    assert current.None? ==> !HeldElsewhere(live, c.bindingID, c.scope);
  }

  ghost predicate Indexes(byID: map<BindingID, Scope>, live: Bindings) {
    && (forall id :: id in byID ==> byID[id] in live && live[byID[id]].id == id)
    && (forall s :: s in live ==> live[s].id in byID && byID[live[s].id] == s)
  }

  lemma {:induction false} AddTwice(conflicts: seq<Conflict>, c: Conflict)
    ensures AddConflict(AddConflict(conflicts, c), c) == AddConflict(conflicts, c)
  {
    var once := AddConflict(conflicts, c);
    assert c !in conflicts ==> once[|conflicts|] == c;
  }

  method CatalogConflicts(target: seq<string>, available: seq<string>,
          complete: bool) returns (conflicts: seq<Conflict>)
    ensures conflicts ==
      When(exists id :: id in target && id !in available,
           When(!complete, [], Conflict(None, CatalogIncomplete)), Conflict(None, AuthUnavailable))
  {
    ghost var incomplete := When(!complete, [], Conflict(None, CatalogIncomplete));
    conflicts := if complete then [] else [Conflict(None, CatalogIncomplete)];
    ghost var missing := false;
    for n := 0 to |target|
      invariant missing <==> exists id :: id in target[..n] && id !in available
      invariant conflicts == When(missing, incomplete, Conflict(None, AuthUnavailable))
    {
      assert target[..n + 1] == target[..n] + [target[n]];
      if target[n] !in available {
        AddTwice(incomplete, Conflict(None, AuthUnavailable));
        conflicts := AddConflict(conflicts, Conflict(None, AuthUnavailable));
        missing := true;
      }
    }
    assert target[..|target|] == target;
  }

  /** One selected key's binding with the target list, normalised; None if its model policy is rejected. */
  method BatchCandidate(codec: Codec, current: Option<Binding>, scope: Scope, target: seq<string>)
    returns (r: Option<Binding>)
    ensures r == if Nameable(codec, Base(current, scope))
                 then Some(Refreshed(codec, Base(current, scope)).(restriction := ByAuths(target))) else None
  {
    var candidate := if current.Some? then current.value else NewBinding(scope);
    var policy := codec.access(candidate.settings.modelAccess);
    if policy.None? {
      return None;
    }
    return Some(candidate.(settings := candidate.settings.(modelAccess := policy.value),
      restriction := ByAuths(target)));
  }

  /** The loop of planNativeBindingBatch over the selected keys; it stops at a candidate that normalisation rejects. */
  method DraftBatch(codec: Codec, live: Bindings, initial: seq<Conflict>, scopes: seq<Scope>, target: seq<string>)
    returns (usable: bool, proposed: Bindings, changes: seq<Change>, conflicts: seq<Conflict>)
    ensures usable <==> BatchNormalises(codec, Draft(live, [], initial, false), scopes, target)
    ensures usable ==>
      Draft(proposed, changes, conflicts, false) == BatchDraft(codec, Draft(live, [], initial, false), scopes, target)
  {
    usable := true;
    proposed, changes, conflicts := live, [], initial;
    ghost var start := Draft(live, [], initial, false);
    var byID := set s | s in live :: live[s].id;
    for n := 0 to |scopes|
      invariant usable && Draft(proposed, changes, conflicts, false) == BatchDraft(codec, start, scopes[..n], target)
      invariant BatchNormalises(codec, start, scopes[..n], target)
      invariant HoldsIDs(byID, proposed)
    {
      assert scopes[..n + 1][..n] == scopes[..n];
      var scope := scopes[n];
      var current := Get(proposed, scope);
      ghost var before := BatchDraft(codec, start, scopes[..n], target);
      assert BatchDraft(codec, start, scopes[..n + 1], target) == BatchStep(codec, before, scope, target);
      assert IdentityTaken(before, scope) <==> current.None? && ForScope(scope) in byID;
      if current.None? && ForScope(scope) in byID {
        conflicts := AddConflict(conflicts, Conflict(Some(ForScope(scope)), BindingIdentityChanged));
      } else {
        var normalized := BatchCandidate(codec, current, scope, target);
        if normalized.None? {
          RejectedStays(codec, start, scopes, target, n + 1);
          usable := false;
          return;
        }
        var candidate := normalized.value;
        if RestrictionOf(current) != Some(candidate.restriction) {
          var name, preview := candidate.settings.name, candidate.settings.keyPreview;
          changes := changes + [ChangeOf(candidate.id, name, preview, scope, current, Some(candidate))];
          HoldsAfter(byID, proposed, scope, candidate);
          byID := byID + {candidate.id};
          proposed := proposed[scope := candidate];
        }
      }
    }
    assert scopes[..|scopes|] == scopes;
  }

  lemma {:induction false} RejectedStays(codec: Codec, start: Draft, scopes: seq<Scope>, target: seq<string>, n: nat)
    requires n <= |scopes| && !BatchNormalises(codec, start, scopes[..n], target)
    ensures !BatchNormalises(codec, start, scopes, target)
    decreases |scopes| - n
  {
    if n < |scopes| {
      assert scopes[..n + 1][..n] == scopes[..n];
      RejectedStays(codec, start, scopes, target, n + 1);
    } else {
      assert scopes[..n] == scopes;
    }
  }

  ghost predicate HoldsIDs(byID: set<BindingID>, live: Bindings) {
    forall id :: id in byID <==> HasID(live, id)
  }

  lemma {:induction false} HoldsAfter(byID: set<BindingID>, live: Bindings, scope: Scope, candidate: Binding)
    requires HoldsIDs(byID, live) && (scope in live ==> candidate.id == live[scope].id)
    ensures HoldsIDs(byID + {candidate.id}, live[scope := candidate])
  {
    var next := live[scope := candidate];
    forall id ensures id in byID + {candidate.id} <==> HasID(next, id) {
      if HasID(live, id) {
        var s :| s in live && live[s].id == id;
        assert next[s].id == id;
      }
      if id == candidate.id { assert next[scope].id == id; }
    }
  }

  lemma {:induction false} SoundLater(state: State, used: set<OpID>, nonce: OpID, codec: Codec)
    requires Sound(state, used, codec) && nonce != NO_OP
    ensures Sound(state, used + {nonce}, codec)
  {
    assert forall i :: 0 <= i < |state.history| ==> KnownMarks(state.history[i], used + {NO_OP});
  }

  method CheckSelection(selected: seq<int>, hosts: seq<Scope>) returns (usable: bool)
    ensures usable <==> GoodSelection(selected, hosts)
  {
    var seen: set<Scope> := {};
    for n := 0 to |selected|
      invariant GoodSelection(selected[..n], hosts)
      invariant forall s :: s in seen <==> exists k :: 0 <= k < n && hosts[selected[k]] == s
    {
      if selected[n] < 0 || selected[n] >= |hosts| || (n > 0 && selected[n - 1] == selected[n]) {
        return false;
      }
      var scope := hosts[selected[n]];
      if scope == NO_SCOPE || scope in seen {
        return false;
      }
      seen := seen + {scope};
    }
    assert selected[..|selected|] == selected;
    return true;
  }

  /** The body of the rollback planner's loop, test by test. */
  method JudgeChange(ctx: Context, current: Option<Binding>, taken: bool, saved: Change) returns (verdict: Verdict)
    ensures verdict == Judge(ctx, current, taken, saved)
  {
    if saved.scope !in ctx.hosts {
      return Clash(HostKeyMissing);
    }
    var instance := if saved.before.None? then saved.afterCreatedAt else saved.beforeCreatedAt;
    if current.Some? && (current.value.id != saved.bindingID || current.value.createdAt != instance) {
      return Clash(BindingIdentityChanged);
    }
    if RestrictionOf(current) == saved.before {
      return Keep;
    }
    var latest := LatestChange(ctx.history, saved.scope);
    if current.None? && saved.before.Some? && latest.Some?
       && (latest.value.bindingID != saved.bindingID || latest.value.beforeCreatedAt != instance) {
      return Clash(BindingIdentityChanged);
    }
    if latest.None? || RestrictionOf(current) != latest.value.after
       || (current.Some? && latest.value.bindingID != current.value.id)
       || (current.Some? && latest.value.afterCreatedAt != current.value.createdAt) {
      return Clash(BindingChanged);
    }
    if saved.before.None? {
      if saved.afterTemplate.None? || PolicyFingerprint(current.value) != PolicyFingerprint(saved.afterTemplate.value) {
        return Clash(BindingModified);
      }
      return Become(None);
    }
    var target := saved.before.value;
    if target.ByAuths? {
      for n := 0 to |target.ids|
        invariant forall k :: 0 <= k < n ==> target.ids[k] in ctx.available
      {
        if target.ids[n] !in ctx.available {
          assert target.ids[n] in target.ids;
          return Clash(AuthUnavailable);
        }
      }
    } else if target.group.Classify? {
      var ruled := false;
      for n := 0 to |ctx.rules|
        invariant ruled <==> exists k :: 0 <= k < n && ctx.rules[k].enabled && ctx.rules[k].group == target.group.suffix
      {
        if ctx.rules[n].enabled && ctx.rules[n].group == target.group.suffix {
          ruled := true;
        }
      }
      if !ruled {
        return Clash(GroupUnavailable);
      }
    }
    var base: Binding;
    if current.None? {
      if saved.beforeTemplate.None? {
        return Clash(BindingChanged);
      }
      if taken {
        return Clash(BindingIdentityChanged);
      }
      base := saved.beforeTemplate.value;
    } else {
      base := current.value;
    }
    var policy := ctx.codec.access(base.settings.modelAccess);
    if !Acceptable(target) || policy.None? {
      return Clash(InvalidRestriction);
    }
    return Become(Some(base.(settings := base.settings.(modelAccess := policy.value), restriction := target)));
  }

  /** latestNativeBindingRecordedChange. */
  method LatestChange(history: seq<Record>, scope: Scope) returns (latest: Option<Change>)
    ensures latest == Latest(history, scope)
  {
    for i := 0 to |history|
      invariant Latest(history, scope) == Latest(history[i..], scope)
    {
      var changes := history[i].changes;
      for j := 0 to |changes|
        invariant Find(changes, scope) == Find(changes[j..], scope)
      {
        assert changes[j..][1..] == changes[j + 1..];
        if changes[j].scope == scope {
          return Some(changes[j]);
        }
      }
      assert history[i..][1..] == history[i + 1..];
    }
    return None;
  }

  lemma {:induction false} StampNext(live: Bindings, changes: seq<Change>, n: nat, now: Time)
    requires DistinctScopes(changes) && n < |changes|
    ensures
      var before, after := StampBindings(live, changes[..n], now), StampBindings(live, changes[..n + 1], now);
      var s := changes[n].scope;
      && (s in live ==> before[s] == live[s] && after == before[s := StampBinding(live[s], now)])
      && (s !in live ==> after == before)
      && Get(after, s) == Get(StampBindings(live, changes, now), s)
  {
    var c := changes[n];
    assert changes[..n + 1] == changes[..n] + [c];
    assert Touches(changes, c.scope) && !Touches(changes[..n], c.scope);
    forall s ensures Touches(changes[..n + 1], s) <==> Touches(changes[..n], s) || s == c.scope {
      TouchesAppend(changes[..n], c, s);
    }
  }

  /** The index leads to a binding with the ID, and to every binding's ID. */
  ghost predicate LeadsBack(byID: map<BindingID, Scope>, live: Bindings) {
    && (forall id :: id in byID ==> byID[id] in live && live[byID[id]].id == id)
    && (forall s :: s in live ==> live[s].id in byID)
  }

  method IndexByID(live: Bindings) returns (byID: map<BindingID, Scope>)
    ensures LeadsBack(byID, live)
  {
    byID := map[];
    var left := live.Keys;
    while left != {}
      invariant left <= live.Keys
      invariant forall id :: id in byID ==> byID[id] in live && live[byID[id]].id == id
      invariant forall s :: s in live && s !in left ==> live[s].id in byID
      decreases left
    {
      var s :| s in left;
      byID := byID[live[s].id := s];
      left := left - {s};
    }
  }

  /** The change's binding, if it has one, is found under its ID. */
  lemma {:induction false} FoundByID(codec: Codec, plan: Plan, state: State, byID: map<BindingID, Scope>, n: nat)
    requires GoodPlan(codec, plan, state) && WellFormed(state.bindings) && n < |plan.changes|
    requires LeadsBack(byID, plan.bindings)
    ensures
      var c := plan.changes[n];
      && (c.bindingID in byID <==> c.scope in plan.bindings)
      && (c.bindingID in byID ==> byID[c.bindingID] == c.scope)
  {
    HolderIsOwn(codec, plan, state, n);
  }

  lemma {:induction false} StampedNext(plan: Plan, n: nat, now: Time)
    requires DistinctScopes(plan.changes) && n < |plan.changes|
    ensures
      var final := StampBindings(plan.bindings, plan.changes, now);
      var before, after := StampBindings(plan.bindings, plan.changes[..n], now),
        StampBindings(plan.bindings, plan.changes[..n + 1], now);
      var c := plan.changes[n];
      && (c.scope in plan.bindings ==>
            && c.scope in before && after == before[c.scope := StampBinding(before[c.scope], now)]
            && StampChanges(plan.changes, final)[n] == StampChange(c, Some(StampBinding(before[c.scope], now))))
      && (c.scope !in plan.bindings ==> after == before && StampChanges(plan.changes, final)[n] == c)
  {
    StampNext(plan.bindings, plan.changes, n, now);
  }

  /** One change: its binding, found under its ID, and what the change records of it. */
  method StampOne(live: Bindings, byID: map<BindingID, Scope>, c: Change, now: Time) returns (next: Bindings,
          stamped: Change)
    requires c.bindingID in byID <==> c.scope in live
    requires c.bindingID in byID ==> byID[c.bindingID] == c.scope
    ensures c.scope in live ==>
      && next == live[c.scope := StampBinding(live[c.scope], now)]
      && stamped == StampChange(c, Some(StampBinding(live[c.scope], now)))
    ensures c.scope !in live ==> next == live && stamped == c
  {
    next, stamped := live, c;
    if c.bindingID in byID {
      var s := byID[c.bindingID];
      var candidate := live[s];
      var created := if candidate.createdAt == NEVER then now else candidate.createdAt;
      candidate := candidate.(createdAt := created, updatedAt := now);
      next := live[s := candidate];
      stamped := c.(afterCreatedAt := candidate.createdAt, afterFingerprint := Fingerprint(Some(candidate)),
                    afterTemplate := if c.afterTemplate.Some? then Some(candidate) else None);
    }
  }

  /** What one round of the loop finds, and what it has to leave. */
  lemma {:induction false} FoundNext(codec: Codec, plan: Plan, state: State, byID: map<BindingID, Scope>, n: nat,
          live: Bindings, now: Time)
    requires GoodPlan(codec, plan, state) && WellFormed(state.bindings) && n < |plan.changes|
    requires LeadsBack(byID, plan.bindings)
    requires live == StampBindings(plan.bindings, plan.changes[..n], now)
    ensures
      var c := plan.changes[n];
      var after := StampBindings(plan.bindings, plan.changes[..n + 1], now);
      var stamped := StampChanges(plan.changes, StampBindings(plan.bindings, plan.changes, now))[n];
      && (c.bindingID in byID <==> c.scope in live) && (c.bindingID in byID ==> byID[c.bindingID] == c.scope)
      && (c.scope in live ==>
            && after == live[c.scope := StampBinding(live[c.scope], now)]
            && stamped == StampChange(c, Some(StampBinding(live[c.scope], now))))
      && (c.scope !in live ==> after == live && stamped == c)
  {
    FoundByID(codec, plan, state, byID, n);
    StampedNext(plan, n, now);
  }

  /** Sets times and fingerprints, finding each change's binding through its ID. */
  method StampPlan(codec: Codec, plan: Plan, now: Time, ghost state: State)
    returns (live: Bindings, changes: seq<Change>)
    requires GoodPlan(codec, plan, state) && WellFormed(state.bindings)
    ensures live == StampBindings(plan.bindings, plan.changes, now)
    ensures changes == StampChanges(plan.changes, live)
  {
    hide GoodPlan, WellFormed, StampChange, StampBinding;
    live, changes := plan.bindings, [];
    var byID := IndexByID(plan.bindings);
    ghost var stamped := StampChanges(plan.changes, StampBindings(plan.bindings, plan.changes, now));
    for n := 0 to |plan.changes|
      invariant live == StampBindings(plan.bindings, plan.changes[..n], now)
      invariant changes == stamped[..n]
    {
      FoundNext(codec, plan, state, byID, n, live, now);
      var c;
      live, c := StampOne(live, byID, plan.changes[n], now);
      changes := changes + [c];
    }
    assert plan.changes[..|plan.changes|] == plan.changes && stamped[..|plan.changes|] == stamped;
  }

  /** A change's binding ID leads to the binding of its own scope, or to none. */
  lemma {:induction false} HolderIsOwn(codec: Codec, plan: Plan, state: State, n: nat)
    requires GoodPlan(codec, plan, state) && WellFormed(state.bindings) && n < |plan.changes|
    ensures
      var c := plan.changes[n];
      && (c.scope in plan.bindings ==> plan.bindings[c.scope].id == c.bindingID)
      && forall s :: s in plan.bindings && plan.bindings[s].id == c.bindingID ==> s == c.scope
  {
    var c := plan.changes[n];
    assert Accounted(codec, c, Get(state.bindings, c.scope), Get(plan.bindings, c.scope));
    forall s | s in plan.bindings && s != c.scope ensures plan.bindings[s].id != c.bindingID {
      if Touches(plan.changes, s) {
        var k :| 0 <= k < |plan.changes| && plan.changes[k].scope == s;
        assert Accounted(codec, plan.changes[k], Get(state.bindings, s), Get(plan.bindings, s));
      } else {
        assert Get(state.bindings, s) == Get(plan.bindings, s);
      }
    }
  }

  /** markNativeBindingOperation, in place. */
  method MarkNativeBindingOperation(history: array<Record>, id: OpID, reverter: OpID, depth: nat)
    modifies history
    ensures history[..] == Mark(old(history[..]), id, reverter, depth)
    decreases HISTORY_LIMIT + 1 - depth
  {
    if depth > HISTORY_LIMIT {
      return;
    }
    for i := 0 to history.Length
      invariant forall k :: 0 <= k < i ==> history[k].id != id
      invariant history[..] == old(history[..])
    {
      if history[i].id != id {
        continue;
      }
      assert i == IndexOf(history[..], id);
      var record := history[i];
      history[i] := record.(revertedBy := reverter);
      assert history[..] == SetReverted(old(history[..]), i, reverter);
      if record.kind == Rollback && record.source != NO_OP {
        var prior := if reverter == NO_OP then record.id else NO_OP;
        MarkNativeBindingOperation(history, record.source, prior, depth + 1);
      }
      return;
    }
    assert IndexOf(history[..], id) == history.Length;
  }

  /** Puts back what the source's own markers changed, where the log still shows it. */
  method RestoreMarkers(history: array<Record>, shown: seq<Record>, markers: seq<Marker>)
    requires history.Length == |shown|
    modifies history
    ensures history[..] == Restore(old(history[..]), shown, markers)
  {
    for m := 0 to |markers|
      invariant history[..] == Restore(old(history[..]), shown, markers[..m])
    {
      ghost var before := history[..];
      assert markers[..m + 1][..m] == markers[..m];
      for i := 0 to history.Length
        invariant forall k :: 0 <= k < i ==> history[k] == RestoreOne(before, shown, markers[m])[k]
        invariant forall k :: i <= k < history.Length ==> history[k] == before[k]
      {
        if history[i].id == markers[m].operation && shown[i].revertedBy == markers[m].after {
          history[i] := history[i].(revertedBy := markers[m].before);
        }
      }
      assert history[..] == RestoreOne(before, shown, markers[m]);
    }
    assert markers[..|markers|] == markers;
  }

  /** A jump supersedes newer batches it covers completely. */
  method SupersedeBatches(history: array<Record>, source: OpID, changes: seq<Change>, reverter: OpID)
    modifies history
    ensures history[..] == Supersede(old(history[..]), source, Scopes(changes), reverter)
  {
    var affected: set<Scope> := {};
    for n := 0 to |changes|
      invariant affected == Scopes(changes[..n])
    {
      affected := affected + {changes[n].scope};
    }
    assert changes[..|changes|] == changes;
    ghost var before := history[..];
    ghost var stop := IndexOf(before, source);
    var i := 0;
    while i < history.Length && history[i].id != source
      invariant 0 <= i <= stop
      invariant forall k :: 0 <= k < i ==> history[k] == Supersede(before, source, affected, reverter)[k]
      invariant forall k :: i <= k < history.Length ==> history[k] == before[k]
    {
      if history[i].kind == Batch {
        var complete := true;
        for n := 0 to |history[i].changes|
          invariant complete <==> forall k :: 0 <= k < n ==> history[i].changes[k].scope in affected
        {
          if history[i].changes[n].scope !in affected {
            complete := false;
          }
        }
        if complete {
          history[i] := history[i].(revertedBy := reverter);
        }
      }
      i := i + 1;
    }
    assert history[..] == Supersede(before, source, affected, reverter);
  }

  /** The position of a record, or the length of the log. */
  method Locate(history: seq<Record>, id: OpID) returns (i: nat)
    ensures i == IndexOf(history, id)
  {
    i := 0;
    while i < |history| && history[i].id != id
      invariant 0 <= i <= |history|
      invariant forall k :: 0 <= k < i ==> history[k].id != id
    {
      i := i + 1;
    }
  }

  /** The rewriting of a private copy of the log. */
  method RewriteHistory(history: seq<Record>, kind: Kind, source: OpID, changes: seq<Change>, reverter: OpID)
    returns (older: seq<Record>)
    ensures older == Rewrite(history, kind, source, Scopes(changes), reverter)
  {
    if kind == Batch {
      return history;
    }
    var copy := new Record[|history|](i requires 0 <= i < |history| => history[i]);
    assert copy[..] == history;
    MarkNativeBindingOperation(copy, source, reverter, 0);
    var i := Locate(history, source);
    if i < |history| && history[i].kind == Rollback {
      RestoreMarkers(copy, history, history[i].markers);
    }
    SupersedeBatches(copy, source, changes, reverter);
    older := copy[..];
  }

  /** The record with the markers added by which two logs differ. */
  function Marked(record: Record, shown: seq<Record>, history: seq<Record>): Record
    requires |shown| == |history|
  {
    record.(markers := record.markers + Diff(shown, history))
  }

  /** Appends to the new record every marker that the rewriting changed. */
  method WithMarkers(record: Record, shown: seq<Record>, history: seq<Record>) returns (r: Record)
    requires |shown| == |history|
    ensures r == Marked(record, shown, history)
  {
    r := record;
    for i := 0 to |history|
      invariant r == record.(markers := record.markers + Diff(shown[..i], history[..i]))
    {
      assert shown[..i + 1][..i] == shown[..i] && history[..i + 1][..i] == history[..i];
      if history[i].revertedBy != shown[i].revertedBy {
        r := r.(markers := r.markers + [Marker(history[i].id, shown[i].revertedBy, history[i].revertedBy)]);
      }
    }
    assert shown[..|shown|] == shown && history[..|history|] == history;
  }

  method TruncateHistory(history: seq<Record>, codec: Codec) returns (kept: Option<seq<Record>>)
    requires history != []
    ensures kept == Truncate(history, codec)
  {
    var rest := history;
    if |rest| > HISTORY_LIMIT {
      rest := rest[..HISTORY_LIMIT];
    }
    while true
      invariant rest != [] && Shrink(rest, codec) == Truncate(history, codec)
      decreases |rest|
    {
      if codec.history(rest) <= HISTORY_BYTES {
        return Some(rest);
      }
      if |rest| == 1 {
        return None;
      }
      rest := rest[..|rest| - 1];
    }
  }
}
