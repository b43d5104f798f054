/** The revertedBy marker that an applied rollback leaves on every older record, read off the log before. */
module Marking {
  import opened Options
  import opened Bindings
  import opened History
  import opened Planner
  import opened Operations
  import opened Markers

  /** A batch newer than the source, every scope of which is affected. */
  predicate Superseded(history: seq<Record>, source: OpID, affected: set<Scope>, i: nat)
    requires i < |history|
  {
    && history[i].kind == Batch && (forall j :: 0 <= j <= i ==> history[j].id != source)
    && forall c :: c in history[i].changes ==> c.scope in affected
  }

  /** What the source's own markers put back on a record that still shows the value they wrote. */
  function PutBack(markers: seq<Marker>, record: Record): Option<OpID> {
    if markers == [] then None
    else
      var m := markers[|markers| - 1];
      if m.operation == record.id && m.after == record.revertedBy then Some(m.before)
      else PutBack(markers[..|markers| - 1], record)
  }

  /** Along the chain of sources: the rollback first, and then by turns none and the ID of the record before. */
  function Turn(history: seq<Record>, places: seq<nat>, rollback: OpID, k: nat): OpID
    requires k < |places| && forall j :: 0 <= j < |places| ==> places[j] < |history|
  {
    if k == 0 then rollback else if k % 2 == 1 then NO_OP else history[places[k - 1]].id
  }

  lemma {:induction false} ValueIsTurn(history: seq<Record>, places: seq<nat>, rollback: OpID, k: nat)
    requires ChainSafe(history) && rollback != NO_OP
    requires k < |places| && forall j :: 0 <= j < |places| ==> places[j] < |history|
    ensures Value(history, places, rollback, k) == Turn(history, places, rollback, k)
  {
    if k > 0 { ValueIsTurn(history, places, rollback, k - 1); }
  }

  // ------------------------------------------------------------------------------- one pass at a time

  lemma {:induction false} IndexAlike(history: seq<Record>, other: seq<Record>, id: OpID)
    requires SameButMarks(history, other)
    ensures IndexOf(other, id) == IndexOf(history, id)
    ensures SourcesOlder(history) ==> SourcesOlder(other)
  {
    var n, m := IndexOf(history, id), IndexOf(other, id);
    assert forall j :: 0 <= j < |history| ==> other[j].id == history[j].id;
    assert n < |history| ==> other[n].id == id;
    assert m < |other| ==> history[m].id == id;
  }

  /** Marking, in a log that differs from the first in markers only, follows the first log's chain. */
  lemma {:induction false} MarksAlong(history: seq<Record>, now: seq<Record>, id: OpID, reverter: OpID, i: nat)
    requires ChainSafe(history) && SameButMarks(history, now) && SourcesOlder(now) && i < |history|
    ensures LeftByChain(history, Chain(history, id), reverter, i, now[i], MarkAll(now, id, reverter)[i])
    decreases |history| - IndexOf(history, id)
  {
    hide LeftByChain, IndexOf, DistinctOps, Chain, MarkAll, SourcesOlder, SetReverted, SameButMarks;
    assert |now| == |history| by { SameLength(history, now); }
    var n := IndexOf(history, id);
    IndexAlike(history, now, id);
    ChainStep(history, id);
    MarkAllStep(now, id, reverter);
    if n < |history| {
      var marked := SetReverted(now, n, reverter);
      MarkedAlike(history, now, n, reverter, i);
      if Reverts(history[n]) {
        var tail := Chain(history, history[n].source);
        var value := if reverter == NO_OP then history[n].id else NO_OP;
        SourceIsOlder(history, n);
        SourceBehind(now, n, reverter);
        if i <= n {
          MarkedBelow(marked, history[n].source, value, i);
          ChainBegins(history, n, tail, reverter, i, now[i], marked[i]);
        } else {
          MarksAlong(history, marked, history[n].source, value, i);
          ChainGrows(history, n, tail, reverter, i, now[i], MarkAll(now, id, reverter)[i]);
        }
      } else {
        ChainBegins(history, n, [], reverter, i, now[i], marked[i]);
        assert [n] + [] == Chain(history, id);
      }
    } else {
      OffTheChain(history, Chain(history, id), reverter, i, now[i]);
    }
  }

  lemma {:induction false} SameLength(history: seq<Record>, now: seq<Record>)
    requires SameButMarks(history, now)
    ensures |now| == |history|
  {
  }

  lemma {:induction false} MarkedAlike(history: seq<Record>, now: seq<Record>, n: nat, reverter: OpID, i: nat)
    requires SameButMarks(history, now) && SourcesOlder(now) && n < |history| && i < |history|
    ensures |now| == |history|
    ensures
      var marked := SetReverted(now, n, reverter);
      && SameButMarks(history, marked) && SourcesOlder(marked) && |marked| == |history|
      && now[n].kind == history[n].kind && now[n].source == history[n].source && now[n].id == history[n].id
      && (if i == n then marked[i].revertedBy == reverter else marked[i] == now[i])
      && (Reverts(history[n]) ==> IndexOf(marked, history[n].source) > n)
  {
    if Reverts(history[n]) { SourceBehind(now, n, reverter); }
  }

  lemma {:induction false} RestoredExactly(history: seq<Record>, shown: seq<Record>, markers: seq<Marker>, i: nat)
    requires |history| == |shown| && i < |history| && history[i].id == shown[i].id
    ensures Restore(history, shown, markers)[i] ==
            match PutBack(markers, shown[i])
            case None => history[i]
            case Some(before) => history[i].(revertedBy := before)
  {
    if markers != [] {
      RestoreKeeps(history, shown, markers[..|markers| - 1]);
      RestoredExactly(history, shown, markers[..|markers| - 1], i);
    }
  }

  lemma {:induction false} SupersededExactly(history: seq<Record>, source: OpID, affected: set<Scope>, reverter: OpID,
          i: nat)
    requires i < |history|
    ensures Supersede(history, source, affected, reverter)[i] ==
            if Superseded(history, source, affected, i) then history[i].(revertedBy := reverter) else history[i]
  {
    assert Covers(affected, history[i].changes) <==> forall c :: c in history[i].changes ==> c.scope in affected;
  }

  /** The marker that the rollback leaves: of a batch it supersedes, by its source's markers, or along the chain. */
  ghost predicate Leaves(history: seq<Record>, source: OpID, markers: seq<Marker>, affected: set<Scope>,
          rollback: OpID, i: nat, now: OpID)
    requires ChainSafe(history) && i < |history|
  {
    if Superseded(history, source, affected, i) then now == rollback
    else
      match PutBack(markers, history[i])
      case Some(before) => now == before
      case None =>
        var places := Chain(history, source);
        && (i !in places ==> now == history[i].revertedBy)
        && forall k :: 0 <= k < |places| && places[k] == i ==> now == Turn(history, places, rollback, k)
  }

  lemma {:induction false} RewriteExactly(history: seq<Record>, source: OpID, affected: set<Scope>, rollback: OpID,
          i: nat)
    requires ChainSafe(history) && |history| <= HISTORY_LIMIT && rollback != NO_OP && i < |history|
    ensures Leaves(history, source, SourceMarkers(history, source), affected, rollback, i,
                   Rewrite(history, Rollback, source, affected, rollback)[i].revertedBy)
  {
    var marked, markers := Mark(history, source, rollback, 0), SourceMarkers(history, source);
    MarkKeeps(history, source, rollback, 0);
    CapNeverReached(history, source, rollback, 0);
    MarksAlong(history, history, source, rollback, i);
    RestoredExactly(marked, history, markers, i);
    var restored := Restore(marked, history, markers);
    RestoreKeeps(marked, history, markers);
    SupersededExactly(restored, source, affected, rollback, i);
    SupersededAlike(history, marked, restored, source, affected, i);
    var places := Chain(history, source);
    forall k | 0 <= k < |places| ensures Value(history, places, rollback, k) == Turn(history, places, rollback, k) {
      ValueIsTurn(history, places, rollback, k);
    }
    hide Superseded, PutBack, Turn, Value, Chain, Mark, MarkAll, Restore, Supersede, IndexOf, ChainSafe, SourceMarkers;
  }

  lemma {:induction false} SupersededAlike(history: seq<Record>, marked: seq<Record>, restored: seq<Record>,
          source: OpID, affected: set<Scope>, i: nat)
    requires SameButMarks(history, marked) && SameButMarks(marked, restored) && i < |history|
    ensures |restored| == |marked| == |history|
    ensures Superseded(restored, source, affected, i) <==> Superseded(history, source, affected, i)
  {
    assert forall j :: 0 <= j < |history| ==> restored[j].id == marked[j].id == history[j].id;
    assert restored[i].changes == marked[i].changes == history[i].changes;
  }

  // ---------------------------------------------------------------------------------- the operations

  lemma {:induction false} SourceMarkersExactly(history: seq<Record>, source: OpID)
    requires DistinctOps(history)
    ensures forall j :: 0 <= j < |history| && history[j].id == source ==>
              SourceMarkers(history, source) == if history[j].kind == Rollback then history[j].markers else []
  {
  }

  /** The record lists the older one with both values if and only if it changed its marker. */
  ghost predicate Listed(markers: seq<Marker>, was: Record, now: Record) {
    if now.revertedBy == was.revertedBy then forall m :: m in markers ==> m.operation != was.id
    else forall m :: m in markers && m.operation == was.id <==> m == Marker(was.id, was.revertedBy, now.revertedBy)
  }

  lemma {:induction false} DiffLists(shown: seq<Record>, history: seq<Record>, i: nat)
    requires SameButMarks(shown, history) && DistinctOps(history) && i < |history|
    ensures |shown| == |history| && Listed(Diff(shown, history), shown[i], history[i])
  {
    var k := DiffFinds(shown, history, i);
    hide Diff;
    var markers := Diff(shown, history);
    if shown[i].revertedBy != history[i].revertedBy {
      forall m ensures m in markers && m.operation == shown[i].id <==>
                       m == Marker(shown[i].id, shown[i].revertedBy, history[i].revertedBy)
      {
        if m in markers && m.operation == shown[i].id {
          var l :| 0 <= l < |markers| && markers[l] == m;
          assert l == k;
        }
        assert markers[k] in markers;
      }
    }
  }

  /**
   An applied rollback leaves every older record it retains as it was but for the marker, and that is told by the
   log before, the rollback's ID and the scopes it changed. Its own record lists exactly the markers it changed.
   */
  lemma {:induction false} RollbackMarksExactly(state: State, input: RollbackInput, w: World, used: set<OpID>,
          r: Record, next: State, i: nat)
    requires Sound(state, used, w.codec) && Fresh(w, used) && ApplyRollback(state, input, w) == (Applied(r), next)
    requires i + 1 < |next.history|
    ensures next.history[0] == r && r.revertedBy == NO_OP
    ensures forall s :: s in Scopes(r.changes) <==> exists c :: c in r.changes && c.scope == s
    ensures ChainSafe(state.history) && i < |state.history|
    ensures
      var was, now := state.history[i], next.history[i + 1];
      && now == was.(revertedBy := now.revertedBy)
      && Leaves(state.history, input.operation, SourceMarkers(state.history, input.operation), Scopes(r.changes),
                r.id, i, now.revertedBy)
      && Listed(r.markers, was, now)
  {
    var plan := AppliedRollback(state, input, w, used);
    ScopesExactly(r.changes);
    SafeLog(state, used, w.codec);
    ShiftedByOne(state, plan, w, r, next, i);
    assert r.id == w.nonce && r.revertedBy == NO_OP && next.history[0] == r;
    var older := Rewrite(state.history, Rollback, input.operation, Scopes(r.changes), r.id);
    assert r.markers == Diff(state.history, older);
    assert DistinctOps(state.history);
    hide Sound, Committed, GoodPlan, Rewrite, Diff, ApplyRollback, Leaves, Listed, SourceMarkers, Scopes, SourcesOlder;
    AlikeDistinct(state.history, older);
    RewriteExactly(state.history, input.operation, Scopes(r.changes), r.id, i);
    DiffLists(state.history, older, i);
  }

  lemma {:induction false} ScopesExactly(changes: seq<Change>)
    ensures forall s :: s in Scopes(changes) <==> exists c :: c in changes && c.scope == s
  {
    forall s ensures s in Scopes(changes) <==> exists c :: c in changes && c.scope == s {
      if s in Scopes(changes) {
        var k :| 0 <= k < |changes| && changes[k].scope == s;
        assert changes[k] in changes;
      }
    }
  }

  lemma {:induction false} AlikeDistinct(history: seq<Record>, other: seq<Record>)
    requires SameButMarks(history, other) && DistinctOps(history)
    ensures DistinctOps(other)
  {
  }

  /** An applied batch leaves every older record it retains as it was. */
  lemma {:induction false} BatchMarksNothing(state: State, input: BatchInput, w: World, used: set<OpID>, r: Record,
          next: State, i: nat)
    requires Sound(state, used, w.codec) && Fresh(w, used) && ApplyBatch(state, input, w) == (Applied(r), next)
    requires i + 1 < |next.history|
    ensures next.history[0] == r && r.revertedBy == NO_OP && i < |state.history|
    ensures next.history[i + 1] == state.history[i]
  {
    hide Sound, ApplyBatch, Accounts, Stamped;
    var plan := AppliedBatch(state, input, w, used, r, next);
    assert Rewrite(state.history, Batch, plan.source, Scopes(r.changes), w.nonce) == state.history;
    assert next.history[i + 1] == ([r] + state.history)[i + 1];
  }

  lemma {:induction false} AppliedBatch(state: State, input: BatchInput, w: World, used: set<OpID>, r: Record,
          next: State) returns (plan: Plan)
    requires Sound(state, used, w.codec) && Fresh(w, used) && ApplyBatch(state, input, w) == (Applied(r), next)
    ensures plan.kind == Batch && Committed(state, plan, w, r, next)
  {
    plan := PlanBatch(Snapshot(state.bindings, state.history, w.rules), input, w.codec).plan;
    assert ApplyBatch(state, input, w) == Commit(state, plan, input.expected, w) && plan.kind == Batch;
    BatchPlanGood(state, input, w);
    hide *;
    CommitKeeps(state, plan, input.expected, w, used);
  }
}
