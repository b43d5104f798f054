/** Committing a plan: stamping, history rewriting, truncation, and the state they produce. */
module Operations {
  import opened Options
  import opened Bindings
  import opened History
  import opened Planner
  import opened AuthIDs

  /** The pair that is persisted and published together. */
  datatype State = State(bindings: Bindings, history: seq<Record>)

  datatype Outcome =
    | Denied(error: Error)
    | Stale
    | Conflicting(conflicts: seq<Conflict>)
    | Unchanged
    | Unstorable
    | NotPersisted
    | Applied(record: Record)

  /** What the surroundings contribute to one call: rules, clock, nonce, disk, sizes and normalisation. */
  datatype World = World(rules: seq<Rule>, now: Time, nonce: OpID, diskOK: bool, codec: Codec)

  function StampBinding(b: Binding, now: Time): Binding {
    b.(createdAt := if b.createdAt == NEVER then now else b.createdAt, updatedAt := now)
  }

  function StampBindings(live: Bindings, changes: seq<Change>, now: Time): Bindings {
    map s | s in live :: if Touches(changes, s) then StampBinding(live[s], now) else live[s]
  }

  function StampChange(c: Change, after: Option<Binding>): Change {
    if after.None? then c
    else c.(afterCreatedAt := after.value.createdAt, afterFingerprint := Fingerprint(after),
            afterTemplate := if c.afterTemplate.Some? then after else None)
  }

  function StampChanges(changes: seq<Change>, live: Bindings): seq<Change> {
    seq(|changes|, k requires 0 <= k < |changes| => StampChange(changes[k], Get(live, changes[k].scope)))
  }

  /** The new record and the rewritten older records. */
  function Rewritten(history: seq<Record>, plan: Plan, changes: seq<Change>, w: World): (Record, seq<Record>) {
    var older := Rewrite(history, plan.kind, plan.source, Scopes(changes), w.nonce);
    (Record(w.nonce, plan.kind, plan.source, NO_OP, w.now, changes, Diff(history, older)), older)
  }

  /** Normalisation accepts the bindings: IDs and scopes are unique and every restriction and model policy is usable. */
  predicate Normalises(codec: Codec, live: Bindings) {
    Keyed(live) && UniqueIDs(live) && forall s :: s in live ==> Nameable(codec, live[s])
  }

  /** The changes are stamped from the bindings as planned; the bindings are then normalised, all of them. */
  function Commit(state: State, plan: Plan, expected: Revision, w: World): (Outcome, State) {
    if expected == NoRevision || expected != plan.revision then (Stale, state)
    else if plan.conflicts != [] then (Conflicting(plan.conflicts), state)
    else if plan.changes == [] then (Unchanged, state)
    else
      var stamped := StampBindings(plan.bindings, plan.changes, w.now);
      var (record, older) := Rewritten(state.history, plan, StampChanges(plan.changes, stamped), w);
      var kept := Truncate([record] + older, w.codec);
      if !Normalises(w.codec, stamped) then (Unstorable, state)
      else if kept.None? || !Valid(kept.value, w.codec) then (Unstorable, state)
      else if !w.diskOK then (NotPersisted, state)
      else (Applied(record), State(RefreshedAll(w.codec, stamped), kept.value))
  }

  function ApplyBatch(state: State, input: BatchInput, w: World): (Outcome, State) {
    match PlanBatch(Snapshot(state.bindings, state.history, w.rules), input, w.codec)
    case Refused(error) => (Denied(error), state)
    case Ready(plan) => Commit(state, plan, input.expected, w)
  }

  function ApplyRollback(state: State, input: RollbackInput, w: World): (Outcome, State) {
    match PlanRollback(Snapshot(state.bindings, state.history, w.rules), input, w.codec)
    case Refused(error) => (Denied(error), state)
    case Ready(plan) => Commit(state, plan, input.expected, w)
  }

  // ------------------------------------------------------- what every step keeps

  /** Facts about the log that the loader does not check but every operation keeps. */
  ghost predicate Coherent(history: seq<Record>, used: set<OpID>) {
    && NO_OP !in used
    && (forall i :: 0 <= i < |history| ==> KnownMarks(history[i], used + {NO_OP}))
    && (forall i :: 0 <= i < |history| ==>
          DistinctBindings(history[i].changes) && history[i].id in used)
    && (forall i :: 0 <= i < |history| && history[i].kind == Rollback ==> history[i].source in used)
    && SourcesOlder(history)
  }

  /** A rollback's source is strictly older than the rollback. */
  ghost predicate SourcesOlder(history: seq<Record>) {
    forall i, j | 0 <= i < |history| && 0 <= j < |history| ::
      history[i].kind == Rollback && history[i].source == history[j].id ==> i < j
  }

  /** The operation IDs a record refers to as reverting ones. */
  ghost predicate KnownMarks(record: Record, ids: set<OpID>) {
    && record.revertedBy in ids
    && forall m :: 0 <= m < |record.markers| ==> record.markers[m].before in ids && record.markers[m].after in ids
  }

  ghost predicate Sound(state: State, used: set<OpID>, codec: Codec) {
    WellFormed(state.bindings) && Valid(state.history, codec) && Coherent(state.history, used)
  }

  /** Only revertedBy differs. */
  ghost predicate SameButMarks(history: seq<Record>, other: seq<Record>) {
    && |history| == |other|
    && forall i :: 0 <= i < |history| ==> other[i] == history[i].(revertedBy := other[i].revertedBy)
  }

  lemma {:induction false} MarkKeeps(history: seq<Record>, id: OpID, reverter: OpID, depth: nat)
    ensures SameButMarks(history, Mark(history, id, reverter, depth))
    decreases HISTORY_LIMIT + 1 - depth
  {
    var i := IndexOf(history, id);
    if depth <= HISTORY_LIMIT && i < |history| && history[i].kind == Rollback && history[i].source != NO_OP {
      var prior := if reverter == NO_OP then history[i].id else NO_OP;
      MarkKeeps(SetReverted(history, i, reverter), history[i].source, prior, depth + 1);
    }
  }

  lemma {:induction false} RestoreKeeps(history: seq<Record>, shown: seq<Record>, markers: seq<Marker>)
    requires |history| == |shown|
    ensures SameButMarks(history, Restore(history, shown, markers))
  {
    if markers != [] { RestoreKeeps(history, shown, markers[..|markers| - 1]); }
  }

  lemma {:induction false} RewriteKeeps(history: seq<Record>, kind: Kind, source: OpID, affected: set<Scope>,
          reverter: OpID)
    ensures SameButMarks(history, Rewrite(history, kind, source, affected, reverter))
  {
    if kind == Rollback {
      var marked := Mark(history, source, reverter, 0);
      MarkKeeps(history, source, reverter, 0);
      RestoreKeeps(marked, history, SourceMarkers(history, source));
    }
  }

  lemma {:induction false} MarkValues(history: seq<Record>, id: OpID, reverter: OpID, depth: nat, ids: set<OpID>)
    requires reverter in ids && NO_OP in ids
    requires forall i :: 0 <= i < |history| ==> history[i].revertedBy in ids && history[i].id in ids
    ensures forall i :: 0 <= i < |history| ==> Mark(history, id, reverter, depth)[i].revertedBy in ids
    decreases HISTORY_LIMIT + 1 - depth
  {
    var i := IndexOf(history, id);
    if depth <= HISTORY_LIMIT && i < |history| && history[i].kind == Rollback && history[i].source != NO_OP {
      var prior := if reverter == NO_OP then history[i].id else NO_OP;
      MarkValues(SetReverted(history, i, reverter), history[i].source, prior, depth + 1, ids);
    }
  }

  lemma {:induction false} RestoreValues(history: seq<Record>, shown: seq<Record>, markers: seq<Marker>, ids: set<OpID>)
    requires |history| == |shown|
    requires forall i :: 0 <= i < |history| ==> history[i].revertedBy in ids
    requires forall m :: 0 <= m < |markers| ==> markers[m].before in ids
    ensures forall i :: 0 <= i < |history| ==> Restore(history, shown, markers)[i].revertedBy in ids
  {
    if markers != [] { RestoreValues(history, shown, markers[..|markers| - 1], ids); }
  }

  /** Rewriting only ever writes the new operation's ID, known IDs, or none. */
  lemma {:induction false} RewriteValues(history: seq<Record>, kind: Kind, source: OpID, affected: set<Scope>,
          reverter: OpID, ids: set<OpID>)
    requires forall i :: 0 <= i < |history| ==> KnownMarks(history[i], ids) && history[i].id in ids
    requires reverter in ids && NO_OP in ids
    ensures forall i :: 0 <= i < |history| ==> Rewrite(history, kind, source, affected, reverter)[i].revertedBy in ids
  {
    if kind == Rollback {
      MarkValues(history, source, reverter, 0, ids);
      RestoreValues(Mark(history, source, reverter, 0), history, SourceMarkers(history, source), ids);
    }
  }

  lemma {:induction false} DiffValues(shown: seq<Record>, history: seq<Record>, ids: set<OpID>)
    requires |shown| == |history|
    requires forall i :: 0 <= i < |history| ==> shown[i].revertedBy in ids && history[i].revertedBy in ids
    ensures forall m :: 0 <= m < |Diff(shown, history)| ==>
      Diff(shown, history)[m].before in ids && Diff(shown, history)[m].after in ids
    decreases |history|
  {
    if history != [] { DiffValues(shown[..|history| - 1], history[..|history| - 1], ids); }
  }

  lemma {:induction false} DiffMarkers(shown: seq<Record>, history: seq<Record>)
    requires |shown| == |history|
    ensures |Diff(shown, history)| <= |history|
    ensures forall m :: 0 <= m < |Diff(shown, history)| ==>
      exists i :: 0 <= i < |history| && history[i].id == Diff(shown, history)[m].operation
    decreases |history|
  {
    if history != [] {
      var n := |history| - 1;
      DiffMarkers(shown[..n], history[..n]);
      forall m | 0 <= m < |Diff(shown, history)|
        ensures exists i :: 0 <= i < |history| && history[i].id == Diff(shown, history)[m].operation
      {
        if m < |Diff(shown[..n], history[..n])| {
          var i :| 0 <= i < n && history[..n][i].id == Diff(shown[..n], history[..n])[m].operation;
          assert history[i].id == Diff(shown, history)[m].operation;
        } else {
          assert history[n].id == Diff(shown, history)[m].operation;
        }
      }
    }
  }

  /** A recorded after-image describes this binding in restriction, creation time and identity, or its absence. */
  ghost predicate Matches(c: Change, current: Option<Binding>) {
    && c.after == RestrictionOf(current)
    && c.afterCreatedAt == (if current.Some? then current.value.createdAt else NEVER)
    && (current.Some? ==> c.bindingID == current.value.id)
  }

  /** The after-images carry the creation time and fingerprint of these bindings. */
  ghost predicate Stamped(changes: seq<Change>, live: Bindings) {
    forall k :: 0 <= k < |changes| ==>
      Matches(changes[k], Get(live, changes[k].scope)) &&
        changes[k].afterFingerprint == Fingerprint(Get(live, changes[k].scope))
  }

  lemma {:induction false} StampOne(codec: Codec, c: Change, was: Option<Binding>, becomes: Option<Binding>, now: Time)
    requires Accounted(codec, c, was, becomes) && c.afterCreatedAt == NEVER && c.afterFingerprint == None
    ensures
      var live := if becomes.Some? then Some(StampBinding(becomes.value, now)) else None;
      (was.Some? ==> was.value.createdAt != NEVER) ==>
        && Accounted(codec, StampChange(c, live), was, live) && Matches(StampChange(c, live), live)
        && StampChange(c, live).afterFingerprint == Fingerprint(live)
  {
  }

  lemma {:induction false} StampTouches(changes: seq<Change>, live: Bindings, s: Scope)
    ensures Touches(StampChanges(changes, live), s) <==> Touches(changes, s)
  {
    var stamped := StampChanges(changes, live);
    assert forall k :: 0 <= k < |changes| ==> stamped[k].scope == changes[k].scope;
    if Touches(changes, s) {
      var k :| 0 <= k < |changes| && changes[k].scope == s;
      assert stamped[k].scope == s;
    }
  }

  /** Stamping keeps the account exact and makes the result a well-formed set of live bindings. */
  lemma {:induction false} StampAccounts(codec: Codec, changes: seq<Change>, from: Bindings, to: Bindings, now: Time)
    requires Accounts(codec, changes, from, to) && Unstamped(changes)
    requires WellFormed(from) && Keyed(to) && UniqueIDs(to) && now != NEVER
    ensures
      var live := StampBindings(to, changes, now);
      && Accounts(codec, StampChanges(changes, live), from, live)
      && Stamped(StampChanges(changes, live), live)
      && WellFormed(live)
  {
    var live := StampBindings(to, changes, now);
    var stamped := StampChanges(changes, live);
    forall k | 0 <= k < |changes|
      ensures Accounted(codec, stamped[k], Get(from, stamped[k].scope), Get(live, stamped[k].scope))
      ensures Matches(stamped[k], Get(live, stamped[k].scope))
      ensures stamped[k].afterFingerprint == Fingerprint(Get(live, stamped[k].scope))
    {
      var s := changes[k].scope;
      assert Touches(changes, s);
      StampOne(codec, changes[k], Get(from, s), Get(to, s), now);
    }
    forall s ensures Touches(stamped, s) || Get(from, s) == Get(live, s) {
      StampTouches(changes, live, s);
      assert Touches(changes, s) || Get(from, s) == Get(to, s);
    }
    StampedDates(codec, changes, from, to, now);
  }

  lemma {:induction false} StampedDates(codec: Codec, changes: seq<Change>, from: Bindings, to: Bindings, now: Time)
    requires Accounts(codec, changes, from, to) && Dated(from) && now != NEVER && Keyed(to) && UniqueIDs(to)
    ensures WellFormed(StampBindings(to, changes, now))
  {
    var live := StampBindings(to, changes, now);
    forall s | s in live ensures live[s].createdAt != NEVER {
      assert Touches(changes, s) || Get(from, s) == Get(to, s);
    }
  }

  /** Normalising model policies keeps bindings well-formed. */
  lemma {:induction false} RefreshKeeps(codec: Codec, live: Bindings)
    requires WellFormed(live)
    ensures WellFormed(RefreshedAll(codec, live))
  {
    assert forall s :: s in live ==> RefreshedAll(codec, live)[s] == Refreshed(codec, live[s]);
  }

  // ---------------------------------------------------------- plans and commits

  /** What commit relies on: the plan accounts for its own changes and names a source it found. */
  ghost predicate GoodPlan(codec: Codec, plan: Plan, state: State) {
    && Accounts(codec, plan.changes, state.bindings, plan.bindings)
    && Keyed(plan.bindings) && UniqueIDs(plan.bindings) && Unstamped(plan.changes)
    && |plan.changes| <= CHANGE_LIMIT
    && (plan.kind == Rollback ==> IndexOf(state.history, plan.source) < |state.history|)
  }

  lemma {:induction false} BatchPlanGood(state: State, input: BatchInput, w: World)
    requires WellFormed(state.bindings)
    ensures
      var planned := PlanBatch(Snapshot(state.bindings, state.history, w.rules), input, w.codec);
      planned.Ready? ==>
        && GoodPlan(w.codec, planned.plan, state)
        && forall k :: 0 <= k < |planned.plan.changes| ==>
          planned.plan.changes[k].after == Some(ByAuths(Normal(input.authIDs)))
  {
    if GoodBatchInput(input) {
      var scopes := SelectedScopes(SortInts(input.selected), Hosts(input.keys));
      var snapshot := Snapshot(state.bindings, state.history, w.rules);
      SortIntsLength(input.selected);
      BatchDraftAccounts(w.codec, BatchStart(snapshot, input), scopes, Normal(input.authIDs));
    }
  }

  lemma {:induction false} SortIntsLength(s: seq<int>)
    ensures |SortInts(s)| == |s|
  {
    if s != [] {
      SortIntsLength(s[..|s| - 1]);
      InsertIntLength(SortInts(s[..|s| - 1]), s[|s| - 1]);
    }
  }

  lemma {:induction false} InsertIntLength(s: seq<int>, x: int)
    ensures |InsertInt(s, x)| == |s| + 1
  {
    if s != [] { InsertIntLength(s[1..], x); }
  }

  lemma {:induction false} RollbackPlanGood(state: State, input: RollbackInput, w: World, used: set<OpID>)
    requires Sound(state, used, w.codec)
    ensures
      var planned := PlanRollback(Snapshot(state.bindings, state.history, w.rules), input, w.codec);
      planned.Ready? ==>
        && GoodPlan(w.codec, planned.plan, state) && planned.plan.kind == Rollback
        && planned.plan.source == input.operation
        && var saved := state.history[IndexOf(state.history, input.operation)].changes;
           (forall k :: 0 <= k < |planned.plan.changes| ==> Mentions(saved, planned.plan.changes[k]))
           && (planned.plan.conflicts == [] ==> forall j :: 0 <= j < |saved| ==>
                 RestrictionOf(Get(planned.plan.bindings, saved[j].scope)) == saved[j].before)
  {
    var i := IndexOf(state.history, input.operation);
    var snapshot := Snapshot(state.bindings, state.history, w.rules);
    if i < |state.history| {
      assert ValidRecord(state.history[i]);
      RollbackDraftAccounts(ContextOf(snapshot, input, w.codec), RollbackStart(snapshot, input),
        state.history[i].changes);
    }
  }

  lemma {:induction false} NewRecordValid(state: State, plan: Plan, w: World, used: set<OpID>)
    requires Sound(state, used, w.codec) && GoodPlan(w.codec, plan, state) && plan.changes != []
    requires w.now != NEVER && w.nonce != NO_OP
    ensures
      var stamped := StampBindings(plan.bindings, plan.changes, w.now);
      var (record, older) := Rewritten(state.history, plan, StampChanges(plan.changes, stamped), w);
      ValidRecord(record) && DistinctBindings(record.changes)
  {
    var stamped := StampBindings(plan.bindings, plan.changes, w.now);
    var changes := StampChanges(plan.changes, stamped);
    var (record, older) := Rewritten(state.history, plan, changes, w);
    StampAccounts(w.codec, plan.changes, state.bindings, plan.bindings, w.now);
    forall k | 0 <= k < |changes| ensures ValidChange(changes[k]) {
      assert Accounted(w.codec, changes[k], Get(state.bindings, changes[k].scope), Get(stamped, changes[k].scope));
    }
    RewriteKeeps(state.history, plan.kind, plan.source, Scopes(changes), w.nonce);
    DiffMarkers(state.history, older);
    forall m | 0 <= m < |record.markers| ensures record.markers[m].operation != NO_OP {
      var i :| 0 <= i < |older| && older[i].id == record.markers[m].operation;
      assert ValidRecord(state.history[i]);
    }
  }

  /** The log a commit would store, before truncation, keeps every structural fact. */
  lemma {:induction false} RewrittenKeeps(history: seq<Record>, record: Record, older: seq<Record>,
          kept: seq<Record>, used: set<OpID>, codec: Codec)
    requires Valid(history, codec) && Coherent(history, used) && SameButMarks(history, older)
    requires ValidRecord(record) && DistinctBindings(record.changes) && record.id !in used
    requires record.kind == Rollback ==> record.source in used
    requires KnownMarks(record, used + {record.id, NO_OP})
    requires forall i :: 0 <= i < |older| ==> older[i].revertedBy in used + {record.id, NO_OP}
    requires kept <= [record] + older && kept != [] && |kept| <= HISTORY_LIMIT && codec.history(kept) <= HISTORY_BYTES
    ensures Valid(kept, codec) && Coherent(kept, used + {record.id})
  {
    assert record.id != NO_OP && forall i :: 0 <= i < |history| ==> ValidRecord(history[i]);
    hide ValidRecord;
    assert kept[0] == record;
    forall i | 0 < i < |kept|
      ensures kept[i] == history[i - 1].(revertedBy := older[i - 1].revertedBy) && ValidRecord(kept[i])
      ensures KnownMarks(kept[i], used + {record.id} + {NO_OP})
    {
      assert kept[i] == ([record] + older)[i] == older[i - 1];
      assert ValidRecord(history[i - 1]) && KnownMarks(history[i - 1], used + {NO_OP});
      MarkedStaysValid(history[i - 1], older[i - 1].revertedBy);
    }
  }

  lemma {:induction false} MarkedStaysValid(record: Record, reverter: OpID)
    requires ValidRecord(record)
    ensures ValidRecord(record.(revertedBy := reverter))
  {
  }

  /** The bindings of a plan with their times, before the commit normalises them. */
  function Proposed(plan: Plan, w: World): Bindings {
    StampBindings(plan.bindings, plan.changes, w.now)
  }

  /**
   Everything a commit guarantees, whatever the plan's kind: the record lists exactly the differences
   between the old bindings and the proposed ones, and the new bindings are the proposed ones with every
   model policy, touched or not, normalised again.
   */
  ghost predicate Committed(state: State, plan: Plan, w: World, record: Record, next: State) {
    && record.id == w.nonce && record.kind == plan.kind && record.source == plan.source && record.changes != []
    && record.revertedBy == NO_OP && record.createdAt == w.now
    && Accounts(w.codec, record.changes, state.bindings, Proposed(plan, w))
    && Stamped(record.changes, Proposed(plan, w))
    && Normalises(w.codec, Proposed(plan, w)) && next.bindings == RefreshedAll(w.codec, Proposed(plan, w))
    && next.history != [] && next.history[0] == record
    && next.history <= [record] + Rewrite(state.history, plan.kind, plan.source, Scopes(record.changes), w.nonce)
    && record.markers ==
      Diff(state.history, Rewrite(state.history, plan.kind, plan.source, Scopes(record.changes), w.nonce))
  }

  ghost predicate Fresh(w: World, used: set<OpID>) {
    w.now != NEVER && w.nonce != NO_OP && w.nonce !in used
  }

  lemma {:induction false} CommitKeeps(state: State, plan: Plan, expected: Revision, w: World, used: set<OpID>)
    requires Sound(state, used, w.codec) && GoodPlan(w.codec, plan, state) && Fresh(w, used)
    ensures
      var (outcome, next) := Commit(state, plan, expected, w);
      && (!outcome.Applied? ==> next == state)
      && (outcome.Applied? ==>
        Committed(state, plan, w, outcome.record, next) && Sound(next, used + {w.nonce}, w.codec))
  {
    var (outcome, next) := Commit(state, plan, expected, w);
    if outcome.Applied? {
      CommitApplied(state, plan, w, used);
    }
  }

  lemma {:induction false} CommitApplied(state: State, plan: Plan, w: World, used: set<OpID>)
    requires Sound(state, used, w.codec) && GoodPlan(w.codec, plan, state) && Fresh(w, used) && plan.changes != []
    ensures
      var stamped := Proposed(plan, w);
      var (record, older) := Rewritten(state.history, plan, StampChanges(plan.changes, stamped), w);
      var kept := Truncate([record] + older, w.codec);
      && WellFormed(stamped)
      && (kept.Some? ==>
            && Valid(kept.value, w.codec)
            && (Normalises(w.codec, stamped) ==>
                  Committed(state, plan, w, record, State(RefreshedAll(w.codec, stamped), kept.value)))
            && Sound(State(RefreshedAll(w.codec, stamped), kept.value), used + {w.nonce}, w.codec))
  {
    var stamped := Proposed(plan, w);
    var changes := StampChanges(plan.changes, stamped);
    var (record, older) := Rewritten(state.history, plan, changes, w);
    StampAccounts(w.codec, plan.changes, state.bindings, plan.bindings, w.now);
    RefreshKeeps(w.codec, stamped);
    NewRecordValid(state, plan, w, used);
    RewriteKeeps(state.history, plan.kind, plan.source, Scopes(changes), w.nonce);
    TruncateIsLongest([record] + older, w.codec);
    var kept := Truncate([record] + older, w.codec);
    if kept.Some? {
      if plan.kind == Rollback {
        var i := IndexOf(state.history, plan.source);
        assert state.history[i].id in used;
      }
      var ids := used + {w.nonce, NO_OP};
      assert forall i :: 0 <= i < |state.history| ==> KnownMarks(state.history[i], used + {NO_OP});
      RewriteValues(state.history, plan.kind, plan.source, Scopes(changes), w.nonce, ids);
      DiffValues(state.history, older, ids);
      RewrittenKeeps(state.history, record, older, kept.value, used, w.codec);
      assert kept.value[0] == ([record] + older)[0];
    }
  }

  /**
   On sound states a commit that has something to write is refused for two reasons only: one record alone
   is too large for the log, or normalisation rejects the model policy of some binding, touched or not.
   */
  lemma {:induction false} UnstorableExactly(state: State, plan: Plan, expected: Revision, w: World, used: set<OpID>)
    requires Sound(state, used, w.codec) && GoodPlan(w.codec, plan, state) && Fresh(w, used)
    ensures
      var (record, older) := Rewritten(state.history, plan, StampChanges(plan.changes, Proposed(plan, w)), w);
      Commit(state, plan, expected, w).0 == Unstorable <==>
        && expected != NoRevision && expected == plan.revision && plan.conflicts == [] && plan.changes != []
        && (Truncate([record] + older, w.codec).None? ||
            exists s :: s in plan.bindings && !Nameable(w.codec, plan.bindings[s]))
  {
    if plan.changes != [] {
      CommitApplied(state, plan, w, used);
      ProposedNormalises(plan, w);
    }
  }

  lemma {:induction false} ProposedNormalises(plan: Plan, w: World)
    requires WellFormed(Proposed(plan, w))
    ensures Normalises(w.codec, Proposed(plan, w)) <==>
              forall s :: s in plan.bindings ==> Nameable(w.codec, plan.bindings[s])
  {
    var stamped := Proposed(plan, w);
    assert forall s :: s in stamped ==> Nameable(w.codec, stamped[s]) == Nameable(w.codec, plan.bindings[s]);
  }

  /** A planned binding as published: with its times if its restriction changed, and normalised once more. */
  function Published(w: World, was: Option<Binding>, planned: Option<Binding>): Option<Binding> {
    if planned.None? then None
    else if RestrictionOf(was) == RestrictionOf(planned) then Some(Refreshed(w.codec, planned.value))
    else
      var born := if planned.value.createdAt == NEVER then w.now else planned.value.createdAt;
      Some(Refreshed(w.codec, planned.value.(createdAt := born, updatedAt := w.now)))
  }

  /** What an applied commit makes of every scope. */
  lemma {:induction false} CommitPublishes(state: State, plan: Plan, expected: Revision, w: World, s: Scope)
    requires GoodPlan(w.codec, plan, state) && Commit(state, plan, expected, w).0.Applied?
    ensures Get(Commit(state, plan, expected, w).1.bindings, s) ==
            Published(w, Get(state.bindings, s), Get(plan.bindings, s))
  {
    AppliedBindings(state, plan, expected, w);
    hide Commit;
    if Touches(plan.changes, s) {
      var k :| 0 <= k < |plan.changes| && plan.changes[k].scope == s;
      assert Accounted(w.codec, plan.changes[k], Get(state.bindings, s), Get(plan.bindings, s));
    } else {
      assert Get(state.bindings, s) == Get(plan.bindings, s);
    }
  }

  lemma {:induction false} AppliedBindings(state: State, plan: Plan, expected: Revision, w: World)
    requires Commit(state, plan, expected, w).0.Applied?
    ensures Commit(state, plan, expected, w).1.bindings ==
            RefreshedAll(w.codec, StampBindings(plan.bindings, plan.changes, w.now))
  {
    hide Truncate, Valid, Rewritten, RefreshedAll, StampBindings, StampChanges, Normalises;
  }
}
