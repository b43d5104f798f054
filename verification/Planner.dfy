/** What a batch or a rollback would change: the planners as functions of a snapshot and a request. */
module Planner {
  import opened Options
  import opened Text
  import opened Bindings
  import opened History
  import opened AuthIDs

  const HOST_LIMIT := 4096
  const AUTH_LIMIT := 16384
  const TEXT_LIMIT := 4096
  const REVISION_LIMIT := 256
  const OPERATION_ID_LIMIT := 256
  const INPUT_BYTES := 2 * 1024 * 1024
  const OPERATION_OVERHEAD := 1024
  const CHANGE_OVERHEAD := 512

  /** A credential classification rule, reduced to the classify group it feeds. */
  datatype Rule = Rule(group: string, enabled: bool)

  datatype Snapshot = Snapshot(bindings: Bindings, history: seq<Record>, rules: seq<Rule>)

  datatype Action = BatchOf(selected: seq<int>, target: seq<string>) | RollbackOf(operation: OpID)

  /** The digest of everything a plan depends on; NoRevision is the empty string, Other any further text. */
  datatype Revision =
    | NoRevision
    | Other(text: string)
    | Digest(snapshot: Snapshot, hosts: seq<Scope>, available: seq<string>, complete: bool, action: Action)

  /** A host API key with the caller scope that is its digest; the scope of a blank key is NO_SCOPE. */
  datatype HostKey = HostKey(text: string, scope: Scope)

  datatype BatchInput = BatchInput(
    keys: seq<HostKey>, selected: seq<int>, authIDs: seq<string>,
    available: seq<string>, complete: bool, expected: Revision)

  /** The operation is known by number here; its ID as given has a length of its own. */
  datatype RollbackInput = RollbackInput(
    operation: OpID, idLength: nat, keys: seq<HostKey>, available: seq<string>, complete: bool, expected: Revision)

  function Hosts(keys: seq<HostKey>): (hosts: seq<Scope>)
    ensures |hosts| == |keys| && forall i :: 0 <= i < |keys| ==> hosts[i] == keys[i].scope
  {
    seq(|keys|, i requires 0 <= i < |keys| => keys[i].scope)
  }

  function Texts(keys: seq<HostKey>): (texts: seq<string>)
    ensures |texts| == |keys| && forall i :: 0 <= i < |keys| ==> texts[i] == keys[i].text
  {
    seq(|keys|, i requires 0 <= i < |keys| => keys[i].text)
  }

  // ------------------------------------------------------------ input limits

  /** A digest is 64 hexadecimal characters. */
  function RevisionLength(revision: Revision): nat {
    match revision
    case NoRevision => 0
    case Other(text) => |text|
    case Digest(_, _, _, _, _) => 64
  }

  predicate Legible(values: seq<string>) {
    forall i :: 0 <= i < |values| ==> |values[i]| <= TEXT_LIMIT && '\0' !in values[i]
  }

  /** Limits on the keys, the available credentials and the revision of a request. */
  predicate GoodInput(keys: seq<string>, available: seq<string>, revision: Revision) {
    && |keys| <= HOST_LIMIT && |available| <= AUTH_LIMIT && RevisionLength(revision) <= REVISION_LIMIT
    && Legible(keys) && Legible(available)
    && RevisionLength(revision) + TotalLength(keys) + TotalLength(available) <= INPUT_BYTES
  }

  /** The encoded restrictions that the selected scopes have now. */
  function Expansion(codec: Codec, live: Bindings, scopes: seq<Scope>): nat {
    if scopes == [] then 0
    else
      var scope := scopes[|scopes| - 1];
      Expansion(codec, live, scopes[..|scopes| - 1]) +
      if scope in live then codec.restriction(live[scope].restriction) else 0
  }

  /** What the operation would record before and after, without the rest of the changes, exceeds the log's limit. */
  predicate Expands(codec: Codec, live: Bindings, scopes: seq<Scope>, target: seq<string>) {
    codec.list(target) * |scopes| + Expansion(codec, live, scopes) > HISTORY_BYTES
  }

  datatype Code =
    | CatalogIncomplete | AuthUnavailable | GroupUnavailable | HostKeyMissing
    | BindingChanged | BindingModified | BindingIdentityChanged | InvalidRestriction

  datatype Conflict = Conflict(bindingID: Option<BindingID>, code: Code)

  datatype Plan = Plan(
    kind: Kind, source: OpID, revision: Revision, bindings: Bindings,
    changes: seq<Change>, conflicts: seq<Conflict>, warned: bool)

  datatype Error = InvalidInput | UnknownOperation

  datatype Planned = Refused(error: Error) | Ready(plan: Plan)

  /** A plan under construction. */
  datatype Draft = Draft(bindings: Bindings, changes: seq<Change>, conflicts: seq<Conflict>, warned: bool)

  function AddConflict(conflicts: seq<Conflict>, c: Conflict): seq<Conflict> {
    if c in conflicts then conflicts else conflicts + [c]
  }

  function When(condition: bool, conflicts: seq<Conflict>, c: Conflict): seq<Conflict> {
    if condition then AddConflict(conflicts, c) else conflicts
  }

  /** One change as the planner records it, before commit stamps times and fingerprints. */
  function ChangeOf(
    id: BindingID, name: Label, preview: Label, scope: Scope,
    current: Option<Binding>, candidate: Option<Binding>): Change
  {
    Change(id, name, preview, scope, RestrictionOf(current), RestrictionOf(candidate),
           Fingerprint(current), None,
           if current.Some? then current.value.createdAt else NEVER, NEVER,
           if candidate.None? then current else None,
           if current.None? then candidate else None)
  }

  predicate HasID(live: Bindings, id: BindingID) {
    exists s :: s in live && live[s].id == id
  }

  predicate HeldElsewhere(live: Bindings, id: BindingID, scope: Scope) {
    exists s :: s in live && s != scope && live[s].id == id
  }

  // ---------------------------------------------------------------- batch

  function NewBinding(scope: Scope): Binding {
    Binding(ForScope(scope), scope,
            Settings(KeyName(scope), true, false, KeyPreview(scope), AllModels, 0, 0, 0),
            NO_RESTRICTION, NEVER, NEVER)
  }

  /** The binding that a batch starts from: the live one, or a new one for this key. */
  function Base(current: Option<Binding>, scope: Scope): Binding {
    if current.Some? then current.value else NewBinding(scope)
  }

  /** The ID that a new binding would get belongs to the binding of another scope. */
  predicate IdentityTaken(draft: Draft, scope: Scope) {
    Get(draft.bindings, scope).None? && HasID(draft.bindings, ForScope(scope))
  }

  function BatchStep(codec: Codec, draft: Draft, scope: Scope, target: seq<string>): Draft {
    var current := Get(draft.bindings, scope);
    if IdentityTaken(draft, scope) then
      draft.(conflicts := AddConflict(draft.conflicts, Conflict(Some(ForScope(scope)), BindingIdentityChanged)))
    else
      var candidate := Refreshed(codec, Base(current, scope)).(restriction := ByAuths(target));
      if RestrictionOf(current) == Some(candidate.restriction) then draft
      else
        draft.(
          bindings := draft.bindings[scope := candidate],
          changes := draft.changes +
            [ChangeOf(candidate.id, candidate.settings.name, candidate.settings.keyPreview, scope,
                      current, Some(candidate))])
  }

  function BatchDraft(codec: Codec, start: Draft, scopes: seq<Scope>, target: seq<string>): Draft {
    if scopes == [] then start
    else BatchStep(codec, BatchDraft(codec, start, scopes[..|scopes| - 1], target), scopes[|scopes| - 1], target)
  }

  /** Every candidate passes normalisation; otherwise there is no plan at all. */
  predicate BatchNormalises(codec: Codec, start: Draft, scopes: seq<Scope>, target: seq<string>) {
    scopes == [] ||
    (BatchNormalises(codec, start, scopes[..|scopes| - 1], target) &&
     CandidateUsable(codec, BatchDraft(codec, start, scopes[..|scopes| - 1], target), scopes[|scopes| - 1]))
  }

  predicate CandidateUsable(codec: Codec, draft: Draft, scope: Scope) {
    IdentityTaken(draft, scope) || Nameable(codec, Base(Get(draft.bindings, scope), scope))
  }

  function InsertInt(s: seq<int>, x: int): seq<int> {
    if s == [] || x <= s[0] then [x] + s else [s[0]] + InsertInt(s[1..], x)
  }

  /** sort.Ints. */
  function SortInts(s: seq<int>): seq<int> {
    if s == [] then [] else InsertInt(SortInts(s[..|s| - 1]), s[|s| - 1])
  }

  /** The selection is usable: in range, without repeats, and naming distinct non-blank keys. */
  predicate GoodSelection(selected: seq<int>, hosts: seq<Scope>) {
    && (forall i :: 0 <= i < |selected| ==> 0 <= selected[i] < |hosts|)
    && (forall i :: 0 < i < |selected| ==> selected[i - 1] != selected[i])
    && (forall i :: 0 <= i < |selected| ==> hosts[selected[i]] != NO_SCOPE)
    && (forall i, j :: 0 <= i < j < |selected| ==> hosts[selected[i]] != hosts[selected[j]])
  }

  function SelectedScopes(selected: seq<int>, hosts: seq<Scope>): seq<Scope>
    requires GoodSelection(selected, hosts)
  {
    seq(|selected|, i requires 0 <= i < |selected| => hosts[selected[i]])
  }

  predicate TooLarge(changes: seq<Change>, codec: Codec) {
    changes != [] && codec.planned(changes) + CHANGE_OVERHEAD * |changes| + OPERATION_OVERHEAD > HISTORY_BYTES
  }

  predicate GoodBatchInput(input: BatchInput) {
    && GoodInput(Texts(input.keys), input.available, input.expected)
    && 1 <= |input.selected| <= HOST_LIMIT && 1 <= |input.authIDs|
    && GoodInput([], input.authIDs, NoRevision)
    && Normal(input.authIDs) != []
    && RevisionLength(input.expected) + TotalLength(Texts(input.keys)) + TotalLength(input.available)
       + TotalLength(input.authIDs) <= INPUT_BYTES
    && GoodSelection(SortInts(input.selected), Hosts(input.keys))
  }

  function BatchStart(snapshot: Snapshot, input: BatchInput): Draft {
    var target := Normal(input.authIDs);
    var available := Normal(input.available);
    var incomplete := When(!input.complete, [], Conflict(None, CatalogIncomplete));
    Draft(snapshot.bindings, [],
          When(exists id :: id in target && id !in available, incomplete, Conflict(None, AuthUnavailable)), false)
  }

  function BatchRevision(snapshot: Snapshot, input: BatchInput): Revision {
    Digest(snapshot, Hosts(input.keys), Normal(input.available), input.complete,
           BatchOf(SortInts(input.selected), Normal(input.authIDs)))
  }

  function PlanBatch(snapshot: Snapshot, input: BatchInput, codec: Codec): Planned {
    if !GoodBatchInput(input) then Refused(InvalidInput)
    else
      var scopes := SelectedScopes(SortInts(input.selected), Hosts(input.keys));
      var target, start := Normal(input.authIDs), BatchStart(snapshot, input);
      var draft := BatchDraft(codec, start, scopes, target);
      if Expands(codec, snapshot.bindings, scopes, target) then Refused(InvalidInput)
      else if !BatchNormalises(codec, start, scopes, target) then Refused(InvalidInput)
      else if TooLarge(draft.changes, codec) then Refused(InvalidInput)
      else Ready(Plan(Batch, NO_OP, BatchRevision(snapshot, input),
                      draft.bindings, draft.changes, draft.conflicts, draft.warned))
  }

  // ------------------------------------------------------------- rollback

  /** What the rollback of one recorded change consults. */
  datatype Context = Context(
    history: seq<Record>, hosts: set<Scope>, available: set<string>, rules: seq<Rule>, codec: Codec)

  /** The planner's finding for one recorded change. */
  datatype Verdict = Keep | Clash(code: Code) | Become(candidate: Option<Binding>)

  function InstanceCreatedAt(saved: Change): Time {
    if saved.before.None? then saved.afterCreatedAt else saved.beforeCreatedAt
  }

  /** The live binding is not what the newest recorded change of its scope left behind. */
  predicate Drifted(current: Option<Binding>, latest: Option<Change>) {
    || latest.None?
    || RestrictionOf(current) != latest.value.after
    || (current.Some? && latest.value.bindingID != current.value.id)
    || (current.Some? && latest.value.afterCreatedAt != current.value.createdAt)
  }

  predicate GroupUsable(group: Group, rules: seq<Rule>) {
    group.Classify? ==> exists i :: 0 <= i < |rules| && rules[i].enabled && rules[i].group == group.suffix
  }

  /** The finding once the scope's identity and its latest change have been accepted. */
  function JudgeTarget(ctx: Context, current: Option<Binding>, taken: bool, saved: Change): Verdict {
    if saved.before.None? then
      if current.None? then Keep
      else if saved.afterTemplate.None? ||
        PolicyFingerprint(current.value) != PolicyFingerprint(saved.afterTemplate.value)
      then Clash(BindingModified)
      else Become(None)
    else
      var target := saved.before.value;
      if target.ByAuths? && exists id :: id in target.ids && id !in ctx.available then Clash(AuthUnavailable)
      else if target.ByGroup? && !GroupUsable(target.group, ctx.rules) then Clash(GroupUnavailable)
      else if current.None? && saved.beforeTemplate.None? then Clash(BindingChanged)
      else if current.None? && taken then Clash(BindingIdentityChanged)
      else
        var base := if current.Some? then current.value else saved.beforeTemplate.value;
        if !Acceptable(target) || !Nameable(ctx.codec, base) then Clash(InvalidRestriction)
        else Become(Some(Refreshed(ctx.codec, base).(restriction := target)))
  }

  /** taken: another scope holds the binding ID that the change would bring back. */
  function Judge(ctx: Context, current: Option<Binding>, taken: bool, saved: Change): Verdict {
    var instance := InstanceCreatedAt(saved);
    var latest := Latest(ctx.history, saved.scope);
    if saved.scope !in ctx.hosts then Clash(HostKeyMissing)
    else if current.Some? && (current.value.id != saved.bindingID || current.value.createdAt != instance) then
      Clash(BindingIdentityChanged)
    else if RestrictionOf(current) == saved.before then Keep
    else if current.None? && saved.before.Some? && latest.Some? &&
            (latest.value.bindingID != saved.bindingID || latest.value.beforeCreatedAt != instance) then
      Clash(BindingIdentityChanged)
    else if Drifted(current, latest) then Clash(BindingChanged)
    else JudgeTarget(ctx, current, taken, saved)
  }

  function RollbackChange(saved: Change, current: Option<Binding>, candidate: Option<Binding>): Change {
    if current.Some? then
      ChangeOf(saved.bindingID, current.value.settings.name, current.value.settings.keyPreview, saved.scope, current,
        candidate)
    else ChangeOf(saved.bindingID, saved.name, saved.keyPreview, saved.scope, current, candidate)
  }

  function SetBinding(live: Bindings, scope: Scope, binding: Option<Binding>): Bindings {
    if binding.Some? then live[scope := binding.value] else live - {scope}
  }

  function RollbackStep(ctx: Context, draft: Draft, saved: Change): Draft {
    var current := Get(draft.bindings, saved.scope);
    match Judge(ctx, current, HeldElsewhere(draft.bindings, saved.bindingID, saved.scope), saved)
    case Keep => draft
    case Clash(code) => draft.(conflicts := AddConflict(draft.conflicts, Conflict(Some(saved.bindingID), code)))
    case Become(candidate) =>
      Draft(SetBinding(draft.bindings, saved.scope, candidate),
            draft.changes + [RollbackChange(saved, current, candidate)],
            draft.conflicts,
            draft.warned || (candidate.Some? && candidate.value.restriction.ByGroup?))
  }

  function RollbackDraft(ctx: Context, start: Draft, saved: seq<Change>): Draft {
    if saved == [] then start
    else RollbackStep(ctx, RollbackDraft(ctx, start, saved[..|saved| - 1]), saved[|saved| - 1])
  }

  function HostSet(hosts: seq<Scope>): set<Scope> {
    set i | 0 <= i < |hosts| && hosts[i] != NO_SCOPE :: hosts[i]
  }

  function IDSet(ids: seq<string>): set<string> {
    set i | 0 <= i < |ids| :: ids[i]
  }

  function ContextOf(snapshot: Snapshot, input: RollbackInput, codec: Codec): Context {
    Context(snapshot.history, HostSet(Hosts(input.keys)), IDSet(Normal(input.available)), snapshot.rules, codec)
  }

  function RollbackStart(snapshot: Snapshot, input: RollbackInput): Draft {
    Draft(snapshot.bindings, [], When(!input.complete, [], Conflict(None, CatalogIncomplete)), false)
  }

  function RollbackRevision(snapshot: Snapshot, input: RollbackInput): Revision {
    Digest(snapshot, Hosts(input.keys), Normal(input.available), input.complete, RollbackOf(input.operation))
  }

  function PlanRollback(snapshot: Snapshot, input: RollbackInput, codec: Codec): Planned {
    var i := IndexOf(snapshot.history, input.operation);
    if !GoodInput(Texts(input.keys), input.available, input.expected) then Refused(InvalidInput)
    else if input.operation == NO_OP || input.idLength > OPERATION_ID_LIMIT then Refused(InvalidInput)
    else if i == |snapshot.history| then Refused(UnknownOperation)
    else
      var draft := RollbackDraft(ContextOf(snapshot, input, codec), RollbackStart(snapshot, input),
        snapshot.history[i].changes);
      if TooLarge(draft.changes, codec) then Refused(InvalidInput)
      else Ready(Plan(Rollback, input.operation, RollbackRevision(snapshot, input),
                      draft.bindings, draft.changes, draft.conflicts, draft.warned))
  }

  // ------------------------------------------------- what a plan accounts for

  /** Commit has not filled in the after-image's time and fingerprint yet. */
  predicate Unstamped(changes: seq<Change>) {
    forall k :: 0 <= k < |changes| ==> changes[k].afterCreatedAt == NEVER && changes[k].afterFingerprint == None
  }

  /**
   A change tells the truth about the binding its scope had before and has after. A binding that stays
   has its model policy normalised once more and otherwise differs in restriction and update time only.
   */
  ghost predicate Accounted(codec: Codec, c: Change, was: Option<Binding>, becomes: Option<Binding>) {
    && c.scope != NO_SCOPE
    && c.before == RestrictionOf(was) && c.after == RestrictionOf(becomes) && c.before != c.after
    && c.beforeFingerprint == Fingerprint(was)
    && c.beforeCreatedAt == (if was.Some? then was.value.createdAt else NEVER)
    && (was.Some? ==> c.bindingID == was.value.id)
    && (becomes.Some? ==> c.bindingID == becomes.value.id)
    && (was.Some? && becomes.Some? ==>
          var now := becomes.value;
          now == Refreshed(codec, was.value).(restriction := now.restriction, updatedAt := now.updatedAt))
    && c.beforeTemplate == (if becomes.None? then was else None)
    && c.afterTemplate == (if was.None? then becomes else None)
  }

  /** The changes list exactly the differences between two sets of bindings, one per scope and binding. */
  ghost predicate Accounts(codec: Codec, changes: seq<Change>, from: Bindings, to: Bindings) {
    && DistinctScopes(changes)
    && DistinctBindings(changes)
    && (forall s {:trigger Get(from, s)} {:trigger Get(to, s)} :: Touches(changes, s) || Get(from, s) == Get(to, s))
    && (forall k :: 0 <= k < |changes| ==>
          Accounted(codec, changes[k], Get(from, changes[k].scope), Get(to, changes[k].scope)))
  }

  lemma {:induction false} TouchesAppend(changes: seq<Change>, c: Change, s: Scope)
    ensures Touches(changes + [c], s) <==> Touches(changes, s) || c.scope == s
  {
    var all := changes + [c];
    if Touches(changes, s) {
      var k :| 0 <= k < |changes| && changes[k].scope == s;
      assert all[k].scope == s;
    }
    if c.scope == s { assert all[|changes|].scope == s; }
  }

  /** Adding one accounted change of a scope not yet touched. */
  lemma {:induction false} AccountsAppend(codec: Codec, changes: seq<Change>, from: Bindings, to: Bindings,
          c: Change, binding: Option<Binding>)
    requires Accounts(codec, changes, from, to) && !Touches(changes, c.scope)
    requires forall k :: 0 <= k < |changes| ==> changes[k].bindingID != c.bindingID
    requires Accounted(codec, c, Get(to, c.scope), binding)
    ensures Accounts(codec, changes + [c], from, SetBinding(to, c.scope, binding))
  {
    var all, next := changes + [c], SetBinding(to, c.scope, binding);
    assert Get(from, c.scope) == Get(to, c.scope);
    assert Get(next, c.scope) == binding;
    forall s ensures Touches(all, s) || Get(from, s) == Get(next, s) {
      TouchesAppend(changes, c, s);
      assert s != c.scope ==> Get(next, s) == Get(to, s);
    }
    forall k | 0 <= k < |all| ensures Accounted(codec, all[k], Get(from, all[k].scope), Get(next, all[k].scope)) {
      if k < |changes| {
        assert Touches(changes, changes[k].scope);
        assert Get(next, changes[k].scope) == Get(to, changes[k].scope);
      }
    }
  }

  /** What holds of a batch draft after some scopes have been considered. */
  ghost predicate BatchProgress(codec: Codec, from: Bindings, draft: Draft, scopes: seq<Scope>,
          target: seq<string>) {
    && Accounts(codec, draft.changes, from, draft.bindings)
    && Keyed(draft.bindings) && UniqueIDs(draft.bindings) && Unstamped(draft.changes)
    && |draft.changes| <= |scopes|
    && (forall k :: 0 <= k < |draft.changes| ==>
          draft.changes[k].scope in scopes && draft.changes[k].after == Some(ByAuths(target)))
  }

  lemma {:induction false} BatchStepProgress(codec: Codec, from: Bindings, draft: Draft, scopes: seq<Scope>,
          target: seq<string>, scope: Scope)
    requires BatchProgress(codec, from, draft, scopes, target) && target != []
    requires scope != NO_SCOPE && scope !in scopes
    ensures BatchProgress(codec, from, BatchStep(codec, draft, scope, target), scopes + [scope], target)
  {
    var next := BatchStep(codec, draft, scope, target);
    BatchStepKeyed(codec, draft, scope, target);
    assert !Touches(draft.changes, scope);
    hide Keyed, Accounts;
    if next.changes != draft.changes {
      var c := next.changes[|draft.changes|];
      assert next.changes == draft.changes + [c];
      BatchIDFresh(codec, draft, from, scope, c);
      AccountsAppend(codec, draft.changes, from, draft.bindings, c, Some(next.bindings[scope]));
      assert next.bindings == SetBinding(draft.bindings, scope, Some(next.bindings[scope]));
    }
  }

  lemma {:induction false} BatchStepKeyed(codec: Codec, draft: Draft, scope: Scope, target: seq<string>)
    requires Keyed(draft.bindings) && UniqueIDs(draft.bindings) && scope != NO_SCOPE && target != []
    ensures
      var next := BatchStep(codec, draft, scope, target);
      && Keyed(next.bindings) && UniqueIDs(next.bindings)
      && (next.changes != draft.changes ==>
            && scope in next.bindings && |next.changes| == |draft.changes| + 1
            && Accounted(codec, next.changes[|draft.changes|], Get(draft.bindings, scope), Some(next.bindings[scope])))
      && (next.changes == draft.changes ==> next.bindings == draft.bindings)
  {
  }

  lemma {:induction false} BatchDraftAccounts(codec: Codec, start: Draft, scopes: seq<Scope>, target: seq<string>)
    requires start.changes == [] && Keyed(start.bindings) && UniqueIDs(start.bindings) && target != []
    requires forall i :: 0 <= i < |scopes| ==> scopes[i] != NO_SCOPE
    requires forall i, j :: 0 <= i < j < |scopes| ==> scopes[i] != scopes[j]
    ensures BatchProgress(codec, start.bindings, BatchDraft(codec, start, scopes, target), scopes, target)
  {
    if scopes != [] {
      var front := scopes[..|scopes| - 1];
      BatchDraftAccounts(codec, start, front, target);
      BatchStepProgress(codec, start.bindings, BatchDraft(codec, start, front, target), front, target,
        scopes[|scopes| - 1]);
      assert scopes == front + [scopes[|scopes| - 1]];
    }
  }

  lemma {:induction false} BatchIDFresh(codec: Codec, draft: Draft, from: Bindings, scope: Scope, c: Change)
    requires Accounts(codec, draft.changes, from, draft.bindings) && !Touches(draft.changes, scope)
    requires UniqueIDs(draft.bindings)
    requires forall k :: 0 <= k < |draft.changes| ==> draft.changes[k].after.Some?
    requires Get(draft.bindings, scope).Some? ==> c.bindingID == draft.bindings[scope].id
    requires Get(draft.bindings, scope).None? ==> !HasID(draft.bindings, c.bindingID)
    ensures forall k :: 0 <= k < |draft.changes| ==> draft.changes[k].bindingID != c.bindingID
  {
    forall k | 0 <= k < |draft.changes| ensures draft.changes[k].bindingID != c.bindingID {
      var t := draft.changes[k].scope;
      assert Touches(draft.changes, t);
      assert t in draft.bindings && draft.bindings[t].id == draft.changes[k].bindingID;
    }
  }

  /** What holds of a rollback draft after some recorded changes have been considered. */
  ghost predicate RollbackProgress(codec: Codec, from: Bindings, draft: Draft, done: seq<Change>) {
    && Accounts(codec, draft.changes, from, draft.bindings)
    && Keyed(draft.bindings) && UniqueIDs(draft.bindings) && Unstamped(draft.changes)
    && |draft.changes| <= |done|
    && (forall k :: 0 <= k < |draft.changes| ==> Mentions(done, draft.changes[k]))
    && (draft.conflicts == [] ==> forall j :: 0 <= j < |done| ==>
          RestrictionOf(Get(draft.bindings, done[j].scope)) == done[j].before)
  }

  ghost predicate Mentions(done: seq<Change>, c: Change) {
    exists j :: 0 <= j < |done| && done[j].scope == c.scope && done[j].bindingID == c.bindingID
  }

  ghost predicate Savable(changes: seq<Change>) {
    && DistinctScopes(changes) && DistinctBindings(changes)
    && forall k :: 0 <= k < |changes| ==> ValidChange(changes[k])
  }

  lemma {:induction false} RollbackStepProgress(ctx: Context, from: Bindings, draft: Draft, done: seq<Change>,
          saved: Change)
    requires RollbackProgress(ctx.codec, from, draft, done) && Savable(done + [saved])
    ensures RollbackProgress(ctx.codec, from, RollbackStep(ctx, draft, saved), done + [saved])
  {
    hide Judge, Accounts, Keyed, UniqueIDs, ValidChange;
    var all, next := done + [saved], RollbackStep(ctx, draft, saved);
    var current := Get(draft.bindings, saved.scope);
    var verdict := Judge(ctx, current, HeldElsewhere(draft.bindings, saved.bindingID, saved.scope), saved);
    assert all[|done|] == saved && forall j :: 0 <= j < |done| ==> all[j] == done[j];
    assert ValidChange(saved);
    StepSeparate(draft, done, saved);
    if verdict.Become? {
      var c := RollbackChange(saved, current, verdict.candidate);
      assert c.scope == saved.scope && c.bindingID == saved.bindingID && Mentions(all, c);
      BecomesAccounted(ctx, draft.bindings, saved, verdict.candidate);
      AccountsAppend(ctx.codec, draft.changes, from, draft.bindings, c, verdict.candidate);
    }
    StepReaches(ctx, draft, done, saved);
  }

  /** The change that a step records is true, and the bindings it leaves are in order. */
  lemma {:induction false} BecomesAccounted(ctx: Context, live: Bindings, saved: Change, candidate: Option<Binding>)
    requires Keyed(live) && UniqueIDs(live) && ValidChange(saved)
    requires Judge(ctx, Get(live, saved.scope), HeldElsewhere(live, saved.bindingID, saved.scope), saved) ==
             Become(candidate)
    ensures Accounted(ctx.codec, RollbackChange(saved, Get(live, saved.scope), candidate), Get(live, saved.scope),
            candidate)
    ensures Keyed(SetBinding(live, saved.scope, candidate)) && UniqueIDs(SetBinding(live, saved.scope, candidate))
  {
  }

  /** The step's binding and scope are new to the draft. */
  lemma {:induction false} StepSeparate(draft: Draft, done: seq<Change>, saved: Change)
    requires Savable(done + [saved])
    requires forall k :: 0 <= k < |draft.changes| ==> Mentions(done, draft.changes[k])
    ensures forall k :: 0 <= k < |draft.changes| ==>
              && Mentions(done + [saved], draft.changes[k])
              && draft.changes[k].scope != saved.scope && draft.changes[k].bindingID != saved.bindingID
  {
    var all := done + [saved];
    assert all[|done|] == saved;
    forall k | 0 <= k < |draft.changes|
      ensures Mentions(all, draft.changes[k]) && draft.changes[k].scope != saved.scope
      ensures draft.changes[k].bindingID != saved.bindingID
    {
      assert Mentions(done, draft.changes[k]);
      var j :| 0 <= j < |done| && done[j].scope == draft.changes[k].scope &&
        done[j].bindingID == draft.changes[k].bindingID;
      assert all[j] == done[j];
    }
  }

  /** Without a conflict the step gives its scope the recorded restriction, and leaves the earlier ones theirs. */
  lemma {:induction false} StepReaches(ctx: Context, draft: Draft, done: seq<Change>, saved: Change)
    requires Savable(done + [saved])
    requires draft.conflicts == [] ==> forall j :: 0 <= j < |done| ==>
               RestrictionOf(Get(draft.bindings, done[j].scope)) == done[j].before
    ensures
      var all, next := done + [saved], RollbackStep(ctx, draft, saved);
      next.conflicts == [] ==> forall j :: 0 <= j < |all| ==>
        RestrictionOf(Get(next.bindings, all[j].scope)) == all[j].before
  {
    var all, next := done + [saved], RollbackStep(ctx, draft, saved);
    assert all[|done|] == saved;
    if next.conflicts == [] {
      forall j | 0 <= j < |all| ensures RestrictionOf(Get(next.bindings, all[j].scope)) == all[j].before {
        if j < |done| {
          assert all[j] == done[j] && done[j].scope != saved.scope;
          assert Get(next.bindings, done[j].scope) == Get(draft.bindings, done[j].scope);
        }
      }
    }
  }

  lemma {:induction false} RollbackDraftAccounts(ctx: Context, start: Draft, saved: seq<Change>)
    requires start.changes == [] && Keyed(start.bindings) && UniqueIDs(start.bindings) && Savable(saved)
    ensures RollbackProgress(ctx.codec, start.bindings, RollbackDraft(ctx, start, saved), saved)
  {
    hide RollbackProgress, RollbackStep, Keyed, UniqueIDs;
    if saved == [] {
      NothingProgresses(ctx.codec, start);
    } else {
      var front, last := saved[..|saved| - 1], saved[|saved| - 1];
      assert saved == front + [last];
      SavableBefore(front, last);
      RollbackDraftAccounts(ctx, start, front);
      hide Savable;
      RollbackStepProgress(ctx, start.bindings, RollbackDraft(ctx, start, front), front, last);
    }
  }

  lemma {:induction false} NothingProgresses(codec: Codec, start: Draft)
    requires start.changes == [] && Keyed(start.bindings) && UniqueIDs(start.bindings)
    ensures RollbackProgress(codec, start.bindings, start, [])
  {
  }

  lemma {:induction false} SavableBefore(front: seq<Change>, last: Change)
    requires Savable(front + [last])
    ensures Savable(front)
  {
    assert forall i :: 0 <= i < |front| ==> (front + [last])[i] == front[i];
  }
}
