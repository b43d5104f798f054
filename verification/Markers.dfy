/** The revertedBy markers: undoing a rollback puts them back. */
module Markers {
  import opened Bindings
  import opened History
  import opened Planner
  import opened Operations

  // -------------------------------------------------- the marking recursion terminates by itself

  /** The marking recursion without its depth cap. */
  ghost function MarkAll(history: seq<Record>, id: OpID, reverter: OpID): (r: seq<Record>)
    requires SourcesOlder(history)
    ensures |r| == |history|
    decreases |history| - IndexOf(history, id)
  {
    var i := IndexOf(history, id);
    if i == |history| then history
    else
      var marked := SetReverted(history, i, reverter);
      if history[i].kind == Rollback && history[i].source != NO_OP then
        assert IndexOf(marked, history[i].source) > i by { SourceBehind(history, i, reverter); }
        MarkAll(marked, history[i].source, if reverter == NO_OP then history[i].id else NO_OP)
      else marked
  }

  lemma {:induction false} SourceBehind(history: seq<Record>, i: nat, reverter: OpID)
    requires SourcesOlder(history) && i < |history| && history[i].kind == Rollback
    ensures
      var marked := SetReverted(history, i, reverter);
      SourcesOlder(marked) && IndexOf(marked, history[i].source) > i
  {
    var marked := SetReverted(history, i, reverter);
    var j := IndexOf(marked, history[i].source);
    assert j < |marked| ==> history[j].id == history[i].source;
  }

  /** Every step moves to an older record, so within the operation limit the depth cap is never felt. */
  lemma {:induction false} CapNeverReached(history: seq<Record>, id: OpID, reverter: OpID, depth: nat)
    requires SourcesOlder(history) && |history| <= HISTORY_LIMIT && depth <= IndexOf(history, id)
    ensures Mark(history, id, reverter, depth) == MarkAll(history, id, reverter)
    decreases |history| - IndexOf(history, id)
  {
    var i := IndexOf(history, id);
    if i < |history| && history[i].kind == Rollback && history[i].source != NO_OP {
      SourceBehind(history, i, reverter);
      var prior := if reverter == NO_OP then history[i].id else NO_OP;
      CapNeverReached(SetReverted(history, i, reverter), history[i].source, prior, depth + 1);
    }
  }

  // ------------------------------------------------------------------- markers record and restore

  ghost predicate MarkedFor(markers: seq<Marker>, k: nat, id: OpID) {
    && k < |markers| && markers[k].operation == id
    && forall m :: 0 <= m < |markers| && m != k ==> markers[m].operation != id
  }

  lemma {:induction false} RestoreMisses(history: seq<Record>, shown: seq<Record>, markers: seq<Marker>, i: nat)
    requires |history| == |shown| && i < |history|
    requires forall m :: 0 <= m < |markers| ==> markers[m].operation != history[i].id
    ensures Restore(history, shown, markers)[i] == history[i]
  {
    if markers != [] { RestoreMisses(history, shown, markers[..|markers| - 1], i); }
  }

  lemma {:induction false} RestoreHits(history: seq<Record>, shown: seq<Record>, markers: seq<Marker>, i: nat, k: nat)
    requires |history| == |shown| && i < |history| && MarkedFor(markers, k, history[i].id)
    requires shown[i].revertedBy == markers[k].after
    ensures Restore(history, shown, markers)[i] == history[i].(revertedBy := markers[k].before)
  {
    var front := markers[..|markers| - 1];
    RestoreKeeps(history, shown, front);
    if k == |markers| - 1 {
      RestoreMisses(history, shown, front, i);
    } else {
      assert MarkedFor(front, k, history[i].id);
      RestoreHits(history, shown, front, i, k);
    }
  }

  /** The markers of an operation list exactly the records whose revertedBy it changed. */
  lemma {:induction false} DiffFinds(shown: seq<Record>, history: seq<Record>, i: nat) returns (k: nat)
    requires SameButMarks(shown, history) && DistinctOps(history) && i < |history|
    ensures shown[i].revertedBy != history[i].revertedBy ==>
      && MarkedFor(Diff(shown, history), k, history[i].id)
      && Diff(shown, history)[k] == Marker(history[i].id, shown[i].revertedBy, history[i].revertedBy)
    ensures shown[i].revertedBy == history[i].revertedBy ==>
      forall m :: 0 <= m < |Diff(shown, history)| ==> Diff(shown, history)[m].operation != history[i].id
    decreases |history|
  {
    var n := |history| - 1;
    var front := Diff(shown[..n], history[..n]);
    if i < n {
      k := DiffFinds(shown[..n], history[..n], i);
    } else {
      k := |front|;
      DiffMarkers(shown[..n], history[..n]);
      forall m | 0 <= m < |front| ensures front[m].operation != history[n].id {
        var j :| 0 <= j < |history[..n]| && history[..n][j].id == front[m].operation;
        assert history[j].id != history[n].id;
      }
    }
  }

  // ------------------------------------------------------------------- undoing a rollback

  /** What two rollbacks in a row did to the log: the second takes back the first. */
  ghost predicate UndoneAtOnce(first: State, rollback: Plan, w1: World, r1: Record, second: State,
                               undo: Plan, w2: World, r2: Record, third: State)
  {
    && rollback.kind == Rollback && undo.kind == Rollback
    && Committed(first, rollback, w1, r1, second)
    && undo.source == r1.id
    && Committed(second, undo, w2, r2, third)
  }

  /** Where the undo's marking leaves the records below the rollback it takes back. */
  ghost function AfterMarking(history: seq<Record>, source: OpID, undo: OpID): seq<Record>
    requires history != []
  {
    Mark(SetReverted(history, 0, undo), source, NO_OP, 1)
  }

  /** The whole rewriting when the newest record is the source: marking, then its own markers. */
  lemma {:induction false} RewriteNewest(history: seq<Record>, affected: set<Scope>, undo: OpID)
    requires history != [] && history[0].kind == Rollback && history[0].source != NO_OP && undo != NO_OP
    ensures
      var r1 := history[0];
      Rewrite(history, Rollback, r1.id, affected, undo) ==
      Restore(AfterMarking(history, r1.source, undo), history, r1.markers)
  {
    var r1 := history[0];
    var marked := Mark(history, r1.id, undo, 0);
    assert marked == AfterMarking(history, r1.source, undo);
    MarkKeeps(history, r1.id, undo, 0);
    RestoreKeeps(marked, history, r1.markers);
    var restored := Restore(marked, history, r1.markers);
    assert restored[0].id == r1.id;
    assert Supersede(restored, r1.id, affected, undo) == restored;
  }

  /** One record through a rollback r1 and the rollback of r1. */
  lemma {:induction false} RestoredAt(history: seq<Record>, older: seq<Record>, r1: Record, next: seq<Record>,
          affected: set<Scope>, undo: OpID, i: nat)
    requires SameButMarks(history, older) && DistinctOps(history) && r1.markers == Diff(history, older)
    requires r1.kind == Rollback && r1.source != NO_OP && undo != NO_OP
    requires next <= [r1] + older && i + 1 < |next|
    ensures
      Rewrite(next, Rollback, r1.id, affected, undo)[i + 1].revertedBy ==
      if older[i].revertedBy != history[i].revertedBy then history[i].revertedBy
      else AfterMarking(next, r1.source, undo)[i + 1].revertedBy
  {
    assert next[0] == r1 && next[i + 1] == older[i];
    RewriteNewest(next, affected, undo);
    var marked := AfterMarking(next, r1.source, undo);
    MarkKeeps(SetReverted(next, 0, undo), r1.source, NO_OP, 1);
    assert marked[i + 1].id == older[i].id;
    assert DistinctOps(older);
    var k := DiffFinds(history, older, i);
    if older[i].revertedBy != history[i].revertedBy {
      RestoreHits(marked, next, r1.markers, i + 1, k);
    } else {
      RestoreMisses(marked, next, r1.markers, i + 1);
    }
  }

  /** Where a record of the first log stands after a committed rollback. */
  lemma {:induction false} ShiftedByOne(state: State, plan: Plan, w: World, record: Record, next: State, i: nat)
    requires Committed(state, plan, w, record, next) && plan.kind == Rollback && i + 1 < |next.history|
    ensures
      var older := Rewrite(state.history, Rollback, plan.source, Scopes(record.changes), w.nonce);
      && i < |state.history| && SameButMarks(state.history, older)
      && next.history[0] == record && next.history <= [record] + older
      && next.history[i + 1] == older[i] && older[i].id == state.history[i].id
      && older[i] == state.history[i].(revertedBy := older[i].revertedBy)
  {
    hide Rewrite, Accounts, Normalises, Stamped, Diff, Proposed, RefreshedAll;
    var older := Rewrite(state.history, Rollback, plan.source, Scopes(record.changes), w.nonce);
    RewriteKeeps(state.history, Rollback, plan.source, Scopes(record.changes), w.nonce);
    assert next.history[i + 1] == ([record] + older)[i + 1];
  }

  /**
   Undoing a rollback at once gives every retained record whose marker the rollback changed its exact
   earlier marker. A record it did not change ends where the undo's own marking puts it.
   */
  lemma {:induction false} UndoRestoresMarkers(first: State, rollback: Plan, w1: World, r1: Record, second: State,
          undo: Plan, w2: World, r2: Record, third: State,
          used: set<OpID>, codec: Codec, i: nat)
    requires UndoneAtOnce(first, rollback, w1, r1, second, undo, w2, r2, third)
    requires Sound(first, used, codec) && GoodPlan(codec, rollback, first)
    requires Fresh(w1, used) && Fresh(w2, used + {w1.nonce})
    requires i + 2 < |third.history|
    ensures i < |first.history| && i + 1 < |second.history|
    ensures third.history[i + 2].id == second.history[i + 1].id == first.history[i].id
    ensures
      third.history[i + 2].revertedBy ==
      if second.history[i + 1].revertedBy != first.history[i].revertedBy then first.history[i].revertedBy
      else AfterMarking(second.history, r1.source, r2.id)[i + 1].revertedBy
  {
    var older := Rewrite(first.history, Rollback, rollback.source, Scopes(r1.changes), w1.nonce);
    ShiftedByOne(second, undo, w2, r2, third, i + 1);
    ShiftedByOne(first, rollback, w1, r1, second, i);
    SourceExists(first, rollback, codec, used);
    RestoredAt(first.history, older, r1, second.history, Scopes(r2.changes), r2.id, i);
  }

  lemma {:induction false} SourceExists(state: State, plan: Plan, codec: Codec, used: set<OpID>)
    requires Sound(state, used, codec) && GoodPlan(codec, plan, state) && plan.kind == Rollback
    ensures plan.source != NO_OP
  {
    assert ValidRecord(state.history[IndexOf(state.history, plan.source)]);
  }

  /** The source of a rollback of a batch is marked with the rollback's ID. */
  lemma {:induction false} BatchSourceMarked(history: seq<Record>, source: OpID, affected: set<Scope>, reverter: OpID)
    requires IndexOf(history, source) < |history| && history[IndexOf(history, source)].kind == Batch
    ensures Rewrite(history, Rollback, source, affected, reverter)[IndexOf(history, source)].revertedBy == reverter
  {
    var i := IndexOf(history, source);
    var marked := Mark(history, source, reverter, 0);
    assert marked == SetReverted(history, i, reverter);
    assert SourceMarkers(history, source) == [];
    assert forall j :: 0 <= j < i ==> marked[j].id != source;
    assert marked[i].id == source;
    assert IndexOf(marked, source) == i;
  }

  /** Reinstating a batch touches no record but that batch. */
  lemma {:induction false} MarkBatchOnly(history: seq<Record>, id: OpID, reverter: OpID, depth: nat, i: nat)
    requires i < |history| && history[i].id != id
    requires IndexOf(history, id) < |history| ==> history[IndexOf(history, id)].kind == Batch
    ensures Mark(history, id, reverter, depth)[i] == history[i]
  {
  }

  /** When the rollback's source was a batch, undoing it restores the marker of every retained record. */
  lemma {:induction false} UndoOfBatchRollbackRestoresAll(first: State, rollback: Plan, w1: World, r1: Record,
          second: State,
          undo: Plan, w2: World, r2: Record, third: State,
          used: set<OpID>, codec: Codec, i: nat)
    requires UndoneAtOnce(first, rollback, w1, r1, second, undo, w2, r2, third)
    requires Sound(first, used, codec) && GoodPlan(codec, rollback, first)
    requires first.history[IndexOf(first.history, rollback.source)].kind == Batch
    requires Fresh(w1, used) && Fresh(w2, used + {w1.nonce})
    requires i + 2 < |third.history|
    ensures i < |first.history| && third.history[i + 2] == first.history[i]
  {
    assert Committed(first, rollback, w1, r1, second) && Committed(second, undo, w2, r2, third);
    assert rollback.kind == Rollback && undo.kind == Rollback;
    hide *;
    UndoRestoresMarkers(first, rollback, w1, r1, second, undo, w2, r2, third, used, codec, i);
    ShiftedByOne(second, undo, w2, r2, third, i + 1);
    ShiftedByOne(first, rollback, w1, r1, second, i);
    if second.history[i + 1].revertedBy == first.history[i].revertedBy {
      UnchangedStays(first, rollback, w1, r1, second, r2.id, used, codec, i);
    }
  }

  /**
   A record that the rollback of a batch did not mark is not the batch, so marking the batch again does not
   reach it.
   */
  lemma {:induction false} UnchangedStays(first: State, rollback: Plan, w1: World, r1: Record, second: State,
          undo: OpID, used: set<OpID>, codec: Codec, i: nat)
    requires Committed(first, rollback, w1, r1, second) && rollback.kind == Rollback
    requires Sound(first, used, codec) && GoodPlan(codec, rollback, first) && Fresh(w1, used)
    requires first.history[IndexOf(first.history, rollback.source)].kind == Batch
    requires i + 1 < |second.history| && i < |first.history|
    requires second.history[i + 1].revertedBy == first.history[i].revertedBy
    ensures AfterMarking(second.history, r1.source, undo)[i + 1].revertedBy == first.history[i].revertedBy
  {
    hide Rewrite, Accounts, ValidRecord, WellFormed, Mark, Supersede, Restore, Normalises, Diff, DistinctBindings;
    hide DistinctScopes, Proposed, ValidChange, Stamped;
    var older := Rewrite(first.history, Rollback, rollback.source, Scopes(r1.changes), w1.nonce);
    ShiftedByOne(first, rollback, w1, r1, second, i);
    var s := IndexOf(first.history, rollback.source);
    BatchSourceMarked(first.history, rollback.source, Scopes(r1.changes), w1.nonce);
    assert KnownMarks(first.history[s], used + {NO_OP});
    var shown := SetReverted(second.history, 0, undo);
    SecondSource(first, second, older, rollback.source, r1, shown, used, codec);
    MarkBatchOnly(shown, rollback.source, NO_OP, 1, i + 1);
  }

  lemma {:induction false} SecondSource(first: State, second: State, older: seq<Record>, source: OpID,
          r1: Record, shown: seq<Record>,
          used: set<OpID>, codec: Codec)
    requires Sound(first, used, codec) && SameButMarks(first.history, older) && r1.id !in used
    requires second.history != [] && second.history <= [r1] + older
    requires SameButMarks(second.history, shown)
    requires IndexOf(first.history, source) < |first.history|
    requires first.history[IndexOf(first.history, source)].kind == Batch
    ensures IndexOf(shown, source) < |shown| ==> shown[IndexOf(shown, source)].kind == Batch
  {
    var j := IndexOf(shown, source);
    var s := IndexOf(first.history, source);
    if j < |shown| {
      assert first.history[s].id in used;
      assert shown[j].id == second.history[j].id == ([r1] + older)[j].id;
      assert j > 0 && first.history[j - 1].id == source;
      assert j - 1 == s;
    }
  }

  // ------------------------------------------------- where the undo's marking leads, on the first log

  ghost predicate ChainSafe(history: seq<Record>) {
    SourcesOlder(history) && DistinctOps(history) && forall i :: 0 <= i < |history| ==> history[i].id != NO_OP
  }

  /** The places of an operation, of its source if it is a rollback, of the source's source and so on. */
  ghost function Chain(history: seq<Record>, id: OpID): (places: seq<nat>)
    requires SourcesOlder(history)
    ensures forall k :: 0 <= k < |places| ==> IndexOf(history, id) <= places[k] < |history|
    ensures forall j, k :: 0 <= j < k < |places| ==> places[j] < places[k]
    decreases |history| - IndexOf(history, id)
  {
    var n := IndexOf(history, id);
    if n == |history| then []
    else if history[n].kind == Rollback && history[n].source != NO_OP then
      SourceIsOlder(history, n);
      [n] + Chain(history, history[n].source)
    else [n]
  }

  lemma {:induction false} SourceIsOlder(history: seq<Record>, n: nat)
    requires SourcesOlder(history) && n < |history| && history[n].kind == Rollback
    ensures IndexOf(history, history[n].source) > n
  {
  }

  /** What marking leaves at the k-th place: the first value, and then by turns none and the ID of the record before. */
  ghost function Value(history: seq<Record>, places: seq<nat>, first: OpID, k: nat): OpID
    requires k < |places| && forall j :: 0 <= j < |places| ==> places[j] < |history|
  {
    if k == 0 then first
    else if Value(history, places, first, k - 1) == NO_OP then history[places[k - 1]].id
    else NO_OP
  }

  /** Starting from none: none at even places, at odd places the ID of the record before. */
  lemma {:induction false} ValueByTurns(history: seq<Record>, places: seq<nat>, k: nat)
    requires ChainSafe(history) && k < |places| && forall j :: 0 <= j < |places| ==> places[j] < |history|
    ensures Value(history, places, NO_OP, k) == ByTurns(history, places, k)
  {
    if k > 0 { ValueByTurns(history, places, k - 1); }
  }

  lemma {:induction false} ValueTail(history: seq<Record>, places: seq<nat>, first: OpID, k: nat)
    requires 0 < k < |places| && forall j :: 0 <= j < |places| ==> places[j] < |history|
    ensures
      var next := if first == NO_OP then history[places[0]].id else NO_OP;
      Value(history, places, first, k) == Value(history, places[1..], next, k - 1)
  {
    if k > 1 { ValueTail(history, places, first, k - 1); }
  }

  /** A log whose records from the second on are those of an older log, but for markers and a lost tail. */
  ghost predicate Extends(history: seq<Record>, next: seq<Record>) {
    && 0 < |next| <= |history| + 1
    && (forall j {:trigger history[j]} :: 0 <= j && j + 1 < |next| ==>
          && next[j + 1].id == history[j].id && next[j + 1].kind == history[j].kind
          && next[j + 1].source == history[j].source)
    && (forall j :: 0 <= j < |history| ==> history[j].id != next[0].id)
  }

  lemma {:induction false} FoundLater(history: seq<Record>, next: seq<Record>, id: OpID)
    requires Extends(history, next) && id != next[0].id && DistinctOps(history)
    ensures IndexOf(next, id) == if IndexOf(history, id) + 1 < |next| then IndexOf(history, id) + 1 else |next|
  {
    var n, m := IndexOf(history, id), IndexOf(next, id);
    if n + 1 < |next| { assert next[n + 1].id == id; }
    if m < |next| { assert history[m - 1].id == id; }
  }

  lemma {:induction false} MarkedBelow(history: seq<Record>, id: OpID, reverter: OpID, j: nat)
    requires SourcesOlder(history) && j < IndexOf(history, id)
    ensures MarkAll(history, id, reverter)[j] == history[j]
    decreases |history| - IndexOf(history, id)
  {
    var i := IndexOf(history, id);
    if i < |history| && history[i].kind == Rollback && history[i].source != NO_OP {
      SourceBehind(history, i, reverter);
      var value := if reverter == NO_OP then history[i].id else NO_OP;
      MarkedBelow(SetReverted(history, i, reverter), history[i].source, value, j);
    }
  }

  /** A record that is not on the chain is as it was; one that is has the value of its place. */
  ghost predicate LeftByChain(history: seq<Record>, places: seq<nat>, reverter: OpID, i: nat, was: Record, now: Record)
    requires forall j :: 0 <= j < |places| ==> places[j] < |history|
  {
    && (i !in places ==> now == was)
    && forall k :: 0 <= k < |places| && places[k] == i ==> now.revertedBy == Value(history, places, reverter, k)
  }

  lemma {:induction false} ChainGrows(history: seq<Record>, n: nat, tail: seq<nat>, reverter: OpID, i: nat,
          was: Record, now: Record)
    requires n < |history| && n != i && forall j :: 0 <= j < |tail| ==> tail[j] < |history|
    requires LeftByChain(history, tail, if reverter == NO_OP then history[n].id else NO_OP, i, was, now)
    ensures LeftByChain(history, [n] + tail, reverter, i, was, now)
  {
    var places := [n] + tail;
    forall k | 0 <= k < |places| && places[k] == i ensures now.revertedBy == Value(history, places, reverter, k) {
      ValueTail(history, places, reverter, k);
      assert places[1..] == tail;
    }
  }

  /** Marking in the longer log sets the places of the chain in the older one by turns, and nothing else. */
  lemma {:induction false} MarksChain(history: seq<Record>, next: seq<Record>, id: OpID, reverter: OpID, i: nat)
    requires ChainSafe(history) && Extends(history, next) && SourcesOlder(next) && id != next[0].id && i + 1 < |next|
    requires forall j :: 0 <= j < |history| && history[j].kind == Rollback ==> history[j].source != next[0].id
    ensures LeftByChain(history, Chain(history, id), reverter, i, next[i + 1], MarkAll(next, id, reverter)[i + 1])
    decreases |history| - IndexOf(history, id)
  {
    hide LeftByChain, IndexOf, DistinctOps, Chain, MarkAll, Extends, SourcesOlder, SetReverted;
    var n := IndexOf(history, id);
    assert |next| <= |history| + 1 by { ExtendsShort(history, next); }
    FoundLater(history, next, id);
    ChainStep(history, id);
    MarkAllStep(next, id, reverter);
    if n + 1 < |next| {
      var marked := SetReverted(next, n + 1, reverter);
      MarkedExtends(history, next, n, reverter, i);
      if Reverts(history[n]) {
        var tail := Chain(history, history[n].source);
        var value := if reverter == NO_OP then history[n].id else NO_OP;
        SourceIsOlder(history, n);
        SourceBehind(next, n + 1, reverter);
        if i <= n {
          MarkedBelow(marked, history[n].source, value, i + 1);
          ChainBegins(history, n, tail, reverter, i, next[i + 1], marked[i + 1]);
        } else {
          MarksChain(history, marked, history[n].source, value, i);
          ChainGrows(history, n, tail, reverter, i, next[i + 1], MarkAll(next, id, reverter)[i + 1]);
        }
      } else {
        assert Chain(history, id) == [n] + [];
        ChainBegins(history, n, [], reverter, i, next[i + 1], marked[i + 1]);
      }
    } else {
      OffTheChain(history, Chain(history, id), reverter, i, next[i + 1]);
    }
  }

  lemma {:induction false} ExtendsShort(history: seq<Record>, next: seq<Record>)
    requires Extends(history, next)
    ensures |next| <= |history| + 1
  {
  }

  /** Setting one marker leaves the longer log one that extends the older. */
  lemma {:induction false} MarkedExtends(history: seq<Record>, next: seq<Record>, n: nat, reverter: OpID, i: nat)
    requires Extends(history, next) && SourcesOlder(next) && n < |history| && n + 1 < |next| && i + 1 < |next|
    ensures
      var marked := SetReverted(next, n + 1, reverter);
      && |marked| == |next| && Extends(history, marked) && SourcesOlder(marked) && marked[0].id == next[0].id
      && history[n].kind == next[n + 1].kind && history[n].source == next[n + 1].source
      && history[n].id == next[n + 1].id
      && (if i == n then marked[i + 1].revertedBy == reverter else marked[i + 1] == next[i + 1])
  {
  }

  lemma {:induction false} ChainStep(history: seq<Record>, id: OpID)
    requires SourcesOlder(history)
    ensures
      var n := IndexOf(history, id);
      Chain(history, id) ==
      if n == |history| then [] else [n] + (if Reverts(history[n]) then Chain(history, history[n].source) else [])
  {
  }

  predicate Reverts(record: Record) {
    record.kind == Rollback && record.source != NO_OP
  }

  lemma {:induction false} MarkAllStep(history: seq<Record>, id: OpID, reverter: OpID)
    requires SourcesOlder(history)
    ensures
      var n := IndexOf(history, id);
      if n == |history| then MarkAll(history, id, reverter) == history
      else
        var marked := SetReverted(history, n, reverter);
        var value := if reverter == NO_OP then history[n].id else NO_OP;
        && SourcesOlder(marked)
        && MarkAll(history, id, reverter) ==
           if Reverts(history[n]) then MarkAll(marked, history[n].source, value) else marked
  {
    if IndexOf(history, id) < |history| && Reverts(history[IndexOf(history, id)]) {
      SourceBehind(history, IndexOf(history, id), reverter);
    }
  }

  /** Above the chain nothing changes; its first place takes the value given. */
  lemma {:induction false} ChainBegins(history: seq<Record>, n: nat, tail: seq<nat>, reverter: OpID, i: nat,
          was: Record, now: Record)
    requires n < |history| && forall j :: 0 <= j < |tail| ==> n < tail[j] < |history|
    requires tail != [] ==> i <= n
    requires if i == n then now.revertedBy == reverter else now == was
    ensures LeftByChain(history, [n] + tail, reverter, i, was, now)
  {
  }

  lemma {:induction false} OffTheChain(history: seq<Record>, places: seq<nat>, reverter: OpID, i: nat, was: Record)
    requires forall j :: 0 <= j < |places| ==> i < places[j] < |history|
    ensures LeftByChain(history, places, reverter, i, was, was)
  {
  }

  /** The undo's own marking, read off the log from before the rollback. */
  lemma {:induction false} UndoMarksChain(first: State, rollback: Plan, w1: World, r1: Record, second: State,
          undo: OpID, used: set<OpID>, codec: Codec, i: nat)
    requires Committed(first, rollback, w1, r1, second) && rollback.kind == Rollback
    requires Sound(first, used, codec) && GoodPlan(codec, rollback, first) && Fresh(w1, used)
    requires Sound(second, used + {w1.nonce}, codec) && i + 1 < |second.history|
    ensures ChainSafe(first.history) && i < |first.history|
    ensures LeftByChain(first.history, Chain(first.history, r1.source), NO_OP, i,
                        second.history[i + 1], AfterMarking(second.history, r1.source, undo)[i + 1])
  {
    ShiftedByOne(first, rollback, w1, r1, second, i);
    ExtendsAfter(first, rollback, w1, r1, second, used, codec);
    SafeBelow(first, rollback, w1, used, codec);
    SafeLog(second, used + {w1.nonce}, codec);
    assert r1.id == w1.nonce && r1.source == rollback.source;
    hide *;
    MarksChainBelow(first.history, second.history, r1.source, undo, i);
  }

  lemma {:induction false} SafeLog(state: State, used: set<OpID>, codec: Codec)
    requires Sound(state, used, codec)
    ensures ChainSafe(state.history) && SourcesOlder(state.history) && |state.history| <= HISTORY_LIMIT
  {
    assert forall j :: 0 <= j < |state.history| ==> ValidRecord(state.history[j]);
    hide ValidRecord, KnownMarks, WellFormed, DistinctBindings;
  }

  /** Nothing in the log is the operation about to be committed, nor a rollback of it. */
  lemma {:induction false} SafeBelow(state: State, rollback: Plan, w: World, used: set<OpID>, codec: Codec)
    requires Sound(state, used, codec) && GoodPlan(codec, rollback, state) && rollback.kind == Rollback
    requires Fresh(w, used)
    ensures ChainSafe(state.history) && rollback.source != w.nonce
    ensures forall j :: 0 <= j < |state.history| && state.history[j].kind == Rollback ==>
              state.history[j].source != w.nonce
  {
    SafeLog(state, used, codec);
    hide ValidRecord, KnownMarks, WellFormed, DistinctBindings, Accounts;
    assert state.history[IndexOf(state.history, rollback.source)].id in used;
  }

  lemma {:induction false} MarksChainBelow(history: seq<Record>, next: seq<Record>, source: OpID, undo: OpID, i: nat)
    requires ChainSafe(history) && Extends(history, next) && SourcesOlder(next) && |next| <= HISTORY_LIMIT
    requires source != next[0].id && i + 1 < |next|
    requires forall j :: 0 <= j < |history| && history[j].kind == Rollback ==> history[j].source != next[0].id
    ensures LeftByChain(history, Chain(history, source), NO_OP, i, next[i + 1], AfterMarking(next, source, undo)[i + 1])
  {
    var shown := SetReverted(next, 0, undo);
    assert SourcesOlder(shown) && Extends(history, shown);
    FoundLater(history, shown, source);
    CapNeverReached(shown, source, NO_OP, 1);
    MarksChain(history, shown, source, NO_OP, i);
  }

  lemma {:induction false} ExtendsAfter(first: State, rollback: Plan, w1: World, r1: Record, second: State,
          used: set<OpID>, codec: Codec)
    requires Committed(first, rollback, w1, r1, second) && rollback.kind == Rollback
    requires Sound(first, used, codec) && Fresh(w1, used)
    ensures Extends(first.history, second.history) && second.history[0] == r1
  {
    var older := Rewrite(first.history, Rollback, rollback.source, Scopes(r1.changes), w1.nonce);
    RewriteKeeps(first.history, Rollback, rollback.source, Scopes(r1.changes), w1.nonce);
    assert forall j :: 0 <= j < |first.history| ==> first.history[j].id in used;
    ExtendsBy(first.history, r1, older, second.history);
  }

  lemma {:induction false} ExtendsBy(history: seq<Record>, record: Record, older: seq<Record>, next: seq<Record>)
    requires SameButMarks(history, older) && next != [] && next <= [record] + older
    requires forall j :: 0 <= j < |history| ==> history[j].id != record.id
    ensures Extends(history, next) && next[0] == record
  {
    forall j | 0 <= j && j + 1 < |next|
      ensures next[j + 1].id == history[j].id && next[j + 1].kind == history[j].kind
      ensures next[j + 1].source == history[j].source
    {
      assert next[j + 1] == ([record] + older)[j + 1] == older[j];
    }
  }

  /** An applied rollback, as a commit of a plan. */
  lemma {:induction false} AppliedRollback(state: State, input: RollbackInput, w: World, used: set<OpID>)
    returns (plan: Plan)
    requires Sound(state, used, w.codec) && Fresh(w, used) && ApplyRollback(state, input, w).0.Applied?
    ensures
      var (outcome, next) := ApplyRollback(state, input, w);
      && GoodPlan(w.codec, plan, state) && plan.kind == Rollback && plan.source == input.operation
      && Committed(state, plan, w, outcome.record, next) && Sound(next, used + {w.nonce}, w.codec)
  {
    plan := PlanRollback(Snapshot(state.bindings, state.history, w.rules), input, w.codec).plan;
    RollbackPlanGood(state, input, w, used);
    CommitKeeps(state, plan, input.expected, w, used);
  }

  /**
   For any rollback and its undo the exact condition, read off the log before the rollback. Follow the
   sources from the rollback's source. A retained record keeps its marker through both if and only if the
   rollback changed it, or it is not on that chain, or it already has what the chain gives it: none at even
   places, at odd places the ID of the record before.
   */
  lemma {:induction false} MarkerRestoredExactly(
          first: State, input: RollbackInput, w1: World, r1: Record, second: State,
          undo: RollbackInput, w2: World, r2: Record, third: State, used: set<OpID>, i: nat)
    requires Sound(first, used, w1.codec) && w2.codec == w1.codec
    requires Fresh(w1, used) && Fresh(w2, used + {w1.nonce})
    requires ApplyRollback(first, input, w1) == (Applied(r1), second) && undo.operation == r1.id
    requires ApplyRollback(second, undo, w2) == (Applied(r2), third) && i + 2 < |third.history|
    ensures
      && SourcesOlder(first.history) && i < |first.history| && i + 1 < |second.history|
      && var was, places := first.history[i].revertedBy, Chain(first.history, input.operation);
      && (third.history[i + 2].revertedBy == was <==>
            || second.history[i + 1].revertedBy != was
            || i !in places
            || exists k :: 0 <= k < |places| && places[k] == i && was == ByTurns(first.history, places, k))
      && (second.history[i + 1].revertedBy == was ==> forall k :: 0 <= k < |places| && places[k] == i ==>
            third.history[i + 2].revertedBy == ByTurns(first.history, places, k))
  {
    var plan1 := AppliedRollback(first, input, w1, used);
    var plan2 := AppliedRollback(second, undo, w2, used + {w1.nonce});
    assert UndoneAtOnce(first, plan1, w1, r1, second, plan2, w2, r2, third);
    assert r1.source == input.operation && ChainSafe(first.history) by { SafeLog(first, used, w1.codec); }
    hide *;
    UndoRestoresMarkers(first, plan1, w1, r1, second, plan2, w2, r2, third, used, w1.codec, i);
    UndoMarksChain(first, plan1, w1, r1, second, r2.id, used, w1.codec, i);
    ChainDecides(first.history, Chain(first.history, input.operation), i,
                 second.history[i + 1], AfterMarking(second.history, r1.source, r2.id)[i + 1]);
  }

  lemma {:induction false} ChainDecides(history: seq<Record>, places: seq<nat>, i: nat, was: Record, now: Record)
    requires ChainSafe(history) && forall j :: 0 <= j < |places| ==> places[j] < |history|
    requires LeftByChain(history, places, NO_OP, i, was, now)
    ensures now.revertedBy == was.revertedBy <==>
      i !in places || exists k :: 0 <= k < |places| && places[k] == i && was.revertedBy == ByTurns(history, places, k)
    ensures forall k :: 0 <= k < |places| && places[k] == i ==> now.revertedBy == ByTurns(history, places, k)
  {
    forall k | 0 <= k < |places| && places[k] == i ensures now.revertedBy == ByTurns(history, places, k) {
      ValueByTurns(history, places, k);
    }
    if i in places {
      var k :| 0 <= k < |places| && places[k] == i;
      assert now.revertedBy == ByTurns(history, places, k);
    }
  }

  ghost function ByTurns(history: seq<Record>, places: seq<nat>, k: nat): OpID
    requires k < |places| && forall j :: 0 <= j < |places| ==> places[j] < |history|
  {
    if k % 2 == 0 then NO_OP else history[places[k - 1]].id
  }
}
