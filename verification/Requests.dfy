/** Which requests the planners take up, said of the request as given. */
module Requests {
  import opened Options
  import opened Text
  import opened Bindings
  import opened History
  import opened Planner
  import opened Operations
  import opened AuthIDs
  import opened Revisions
  import opened Selections

  /** A text that is too long, or holds a NUL. */
  predicate Unreadable(texts: seq<string>) {
    exists i :: 0 <= i < |texts| && (|texts[i]| > 4096 || '\0' in texts[i])
  }

  /** More keys, credentials or text than a request may have. */
  predicate Oversized(input: BatchInput) {
    || |input.keys| > 4096 || |input.selected| > 4096 || |input.available| > 16384 || |input.authIDs| > 16384
    || RevisionLength(input.expected) > 256
    || Unreadable(Texts(input.keys)) || Unreadable(input.available) || Unreadable(input.authIDs)
    || RevisionLength(input.expected) + TotalLength(Texts(input.keys)) + TotalLength(input.available)
       + TotalLength(input.authIDs) > 0x20_0000
  }

  /** A selected index is out of range, or its key is blank. */
  predicate SelectsNoKey(input: BatchInput) {
    exists a :: 0 <= a < |input.selected| &&
      !(0 <= input.selected[a] < |input.keys| && input.keys[input.selected[a]].scope != NO_SCOPE)
  }

  /** Two selected keys have the same scope, as they have when an index is repeated. */
  predicate Repeats(input: BatchInput)
    requires !SelectsNoKey(input)
  {
    exists a, b :: 0 <= a < b < |input.selected| &&
      input.keys[input.selected[a]].scope == input.keys[input.selected[b]].scope
  }

  predicate NoCredential(input: BatchInput) {
    forall i :: 0 <= i < |input.authIDs| ==> Trim(input.authIDs[i]) == ""
  }

  lemma {:induction false} NoCredentialExactly(input: BatchInput)
    ensures NoCredential(input) <==> Normal(input.authIDs) == []
  {
    NormalForm(input.authIDs);
    var normal := Normal(input.authIDs);
    if normal != [] {
      var id := normal[0];
      assert id in normal;
      assert Names(input.authIDs, id);
    } else {
      forall i | 0 <= i < |input.authIDs| ensures Trim(input.authIDs[i]) == "" {
        assert Trim(input.authIDs[i]) !in normal;
      }
    }
  }

  lemma {:induction false} LegibleExactly(texts: seq<string>)
    ensures Legible(texts) <==> !Unreadable(texts)
  {
  }

  // ------------------------------------------------------------------------------------ the selection

  predicate InRange(selected: seq<int>, hosts: seq<Scope>) {
    forall i :: 0 <= i < |selected| ==> 0 <= selected[i] < |hosts|
  }

  /** Pairwise different in the given order is the same in any other. */
  predicate Apart(selected: seq<int>, hosts: seq<Scope>)
    requires InRange(selected, hosts)
  {
    forall i, j :: 0 <= i < j < |selected| ==> hosts[selected[i]] != hosts[selected[j]]
  }

  lemma {:induction false} ApartAnyOrder(one: seq<int>, two: seq<int>, hosts: seq<Scope>)
    requires multiset(one) == multiset(two) && InRange(one, hosts) && InRange(two, hosts) && Apart(one, hosts)
    ensures Apart(two, hosts)
  {
    forall i, j | 0 <= i < j < |two| ensures hosts[two[i]] != hosts[two[j]] {
      if two[i] == two[j] {
        TwiceThere(two, i, j);
        OnceThere(one, two[i], hosts);
      } else {
        assert two[i] in multiset(two) && two[j] in multiset(two);
        var k :| 0 <= k < |one| && one[k] == two[i];
        var l :| 0 <= l < |one| && one[l] == two[j];
      }
    }
  }

  lemma {:induction false} TwiceThere(s: seq<int>, i: nat, j: nat)
    requires i < j < |s| && s[i] == s[j]
    ensures multiset(s)[s[i]] >= 2
  {
    var x := s[i];
    assert s == s[..i] + [x] + s[i + 1..j] + [x] + s[j + 1..];
  }

  lemma {:induction false} OnceThere(s: seq<int>, x: int, hosts: seq<Scope>)
    requires InRange(s, hosts) && Apart(s, hosts)
    ensures multiset(s)[x] <= 1
  {
    if s != [] {
      var front, last := s[..|s| - 1], s[|s| - 1];
      assert s == front + [last];
      OnceThere(front, x, hosts);
      assert forall i :: 0 <= i < |front| ==> hosts[s[i]] != hosts[s[|front|]];
      assert last !in front;
      assert last !in multiset(front);
    }
  }

  lemma {:induction false} KeysExactly(input: BatchInput)
    ensures
      var sorted, hosts := SortInts(input.selected), Hosts(input.keys);
      !SelectsNoKey(input) <==>
        InRange(sorted, hosts) && forall i :: 0 <= i < |sorted| ==> hosts[sorted[i]] != NO_SCOPE
  {
    var sorted, hosts := SortInts(input.selected), Hosts(input.keys);
    SortIntsMembers(input.selected);
    hide SortInts;
    forall i | 0 <= i < |sorted| && !SelectsNoKey(input)
      ensures 0 <= sorted[i] < |hosts| && hosts[sorted[i]] != NO_SCOPE
    {
      assert sorted[i] in sorted;
      var a :| 0 <= a < |input.selected| && input.selected[a] == sorted[i];
    }
    forall x | x in input.selected ensures x in sorted {
    }
    assert forall a :: 0 <= a < |input.selected| ==> input.selected[a] in sorted;
  }

  lemma {:induction false} SelectionExactly(input: BatchInput)
    ensures GoodSelection(SortInts(input.selected), Hosts(input.keys)) <==> !SelectsNoKey(input) && !Repeats(input)
  {
    var sorted, hosts := SortInts(input.selected), Hosts(input.keys);
    SortIntsSorted(input.selected);
    KeysExactly(input);
    hide SortInts, AscendingInts;
    if !SelectsNoKey(input) {
      assert InRange(input.selected, hosts) && (Apart(input.selected, hosts) <==> !Repeats(input));
      hide SelectsNoKey, Repeats;
      if Apart(input.selected, hosts) { ApartAnyOrder(input.selected, sorted, hosts); }
      if Apart(sorted, hosts) { ApartAnyOrder(sorted, input.selected, hosts); }
      assert Apart(sorted, hosts) ==> forall i :: 0 < i < |sorted| ==> sorted[i - 1] != sorted[i];
    }
  }

  /** The request is in order, whatever the bindings and the log. */
  predicate InOrder(input: BatchInput) {
    && input.selected != [] && !NoCredential(input) && !Oversized(input)
    && !SelectsNoKey(input) && !Repeats(input)
  }

  lemma {:induction false} GoodInputExactly(input: BatchInput)
    ensures GoodBatchInput(input) <==> InOrder(input)
  {
    NoCredentialExactly(input);
    LegibleExactly(Texts(input.keys));
    LegibleExactly(input.available);
    LegibleExactly(input.authIDs);
    SelectionExactly(input);
    NoTexts();
    hide GoodSelection, SelectsNoKey, Repeats, NoCredential, Unreadable, Legible, TotalLength, Normal, SortInts;
    NoneNormal(input.authIDs);
  }

  lemma {:induction false} NoneNormal(ids: seq<string>)
    ensures ids == [] ==> Normal(ids) == []
  {
  }

  lemma {:induction false} NoTexts()
    ensures TotalLength([]) == 0 && Legible([])
  {
  }

  // ------------------------------------------------------------------------------------ the operation

  /** A selected key's binding, or the new one it would get, is rejected by normalisation. */
  ghost predicate Unnameable(codec: Codec, live: Bindings, scope: Scope) {
    !Blocked(live, scope) && !Nameable(codec, Base(Get(live, scope), scope))
  }

  lemma {:induction false} NormalisesExactly(codec: Codec, start: Draft, scopes: seq<Scope>, target: seq<string>)
    requires forall i, j :: 0 <= i < j < |scopes| ==> scopes[i] != scopes[j]
    ensures BatchNormalises(codec, start, scopes, target) <==>
            forall i :: 0 <= i < |scopes| ==> !Unnameable(codec, start.bindings, scopes[i])
  {
    if scopes != [] {
      var front, last := scopes[..|scopes| - 1], scopes[|scopes| - 1];
      var draft := BatchDraft(codec, start, front, target);
      NormalisesExactly(codec, start, front, target);
      DraftForExactly(codec, start, front, target);
      assert last !in front;
      BlockedAlike(codec, start, front, target, draft, last);
      assert IdentityTaken(draft, last) <==> Blocked(draft.bindings, last);
      hide Blocked, DraftedFor, BatchDraft, Nameable;
      assert forall i :: 0 <= i < |front| ==> front[i] == scopes[i];
    }
  }

  // ---- sizes

  /** What the encoded restriction of a scope takes, if it has one. */
  function Encoded(codec: Codec, live: Bindings, scope: Scope): nat {
    if scope in live then codec.restriction(live[scope].restriction) else 0
  }

  ghost function TotalEncoded(codec: Codec, live: Bindings, scopes: set<Scope>): nat
    decreases |scopes|
  {
    if scopes == {} then 0
    else
      var s :| s in scopes;
      TotalEncoded(codec, live, scopes - {s}) + Encoded(codec, live, s)
  }

  lemma {:induction false} TotalWithout(codec: Codec, live: Bindings, scopes: set<Scope>, s: Scope)
    requires s in scopes
    ensures TotalEncoded(codec, live, scopes) == TotalEncoded(codec, live, scopes - {s}) + Encoded(codec, live, s)
    decreases |scopes|
  {
    hide Encoded;
    var t :| t in scopes
      && TotalEncoded(codec, live, scopes) == TotalEncoded(codec, live, scopes - {t}) + Encoded(codec, live, t);
    if t != s {
      TotalWithout(codec, live, scopes - {t}, s);
      TotalWithout(codec, live, scopes - {s}, t);
      assert scopes - {t} - {s} == scopes - {s} - {t};
    }
  }

  ghost function ScopeSet(scopes: seq<Scope>): set<Scope> {
    set s | s in scopes
  }

  lemma {:induction false} ExpansionExactly(codec: Codec, live: Bindings, scopes: seq<Scope>)
    requires forall i, j :: 0 <= i < j < |scopes| ==> scopes[i] != scopes[j]
    ensures Expansion(codec, live, scopes) == TotalEncoded(codec, live, ScopeSet(scopes))
  {
    if scopes != [] {
      var front, last := scopes[..|scopes| - 1], scopes[|scopes| - 1];
      ExpansionExactly(codec, live, front);
      assert scopes == front + [last] && last !in front;
      TotalWithout(codec, live, ScopeSet(scopes), last);
      assert ScopeSet(scopes) - {last} == ScopeSet(front);
    }
  }

  /** The scopes of the selected keys. */
  ghost function SelectedSet(input: BatchInput): set<Scope>
    requires !SelectsNoKey(input)
  {
    set i | i in input.selected && 0 <= i < |input.keys| :: input.keys[i].scope
  }

  /** The list once for every key and the restrictions that it replaces take more than the log has room for. */
  ghost predicate Outgrows(codec: Codec, live: Bindings, input: BatchInput)
    requires !SelectsNoKey(input)
  {
    codec.list(Normal(input.authIDs)) * |input.selected| + TotalEncoded(codec, live, SelectedSet(input)) > 0x40_0000
  }

  lemma {:induction false} ExpandsExactly(codec: Codec, live: Bindings, input: BatchInput)
    requires GoodBatchInput(input)
    ensures !SelectsNoKey(input)
    ensures
      var scopes := SelectedScopes(SortInts(input.selected), Hosts(input.keys));
      Expands(codec, live, scopes, Normal(input.authIDs)) <==> Outgrows(codec, live, input)
  {
    GoodInputSelects(input);
    var scopes := SelectedScopes(SortInts(input.selected), Hosts(input.keys));
    SelectionExactly(input);
    SelectedExactly(input);
    SortIntsSorted(input.selected);
    assert |SortInts(input.selected)| == |multiset(SortInts(input.selected))| == |input.selected|;
    hide SortInts, TotalEncoded, Expansion, Normal;
    ExpansionExactly(codec, live, scopes);
    forall s ensures s in ScopeSet(scopes) <==> s in SelectedSet(input) {
      assert s in scopes <==> Selects(input, s);
    }
    assert ScopeSet(scopes) == SelectedSet(input);
  }

  /** What a planned operation would add to the log alone is more than the log has room for. */
  predicate Overflows(changes: seq<Change>, codec: Codec) {
    |changes| > 0 && codec.planned(changes) + 512 * |changes| + 1024 > 0x40_0000
  }

  lemma {:induction false} TooLargeExactly(changes: seq<Change>, codec: Codec)
    ensures TooLarge(changes, codec) <==> Overflows(changes, codec)
  {
  }

  /** A batch is refused for its request, for its size, or because normalisation rejects a binding; then as invalid. */
  lemma {:induction false} BatchRefusedExactly(state: State, input: BatchInput, w: World)
    ensures
      var planned := Selections.PlanOf(state, input, w);
      && (planned.Refused? ==> planned.error == InvalidInput)
      && (planned.Refused? <==>
            || !InOrder(input)
            || var scopes := (GoodInputExactly(input); SelectedScopes(SortInts(input.selected), Hosts(input.keys)));
               var start := BatchStart(Snapshot(state.bindings, state.history, w.rules), input);
               || Outgrows(w.codec, state.bindings, input)
               || (exists s :: Selects(input, s) && Unnameable(w.codec, state.bindings, s))
               || Overflows(BatchDraft(w.codec, start, scopes, Normal(input.authIDs)).changes, w.codec))
  {
    GoodInputExactly(input);
    if GoodBatchInput(input) {
      GoodInputSelects(input);
      var scopes := SelectedScopes(SortInts(input.selected), Hosts(input.keys));
      var start := BatchStart(Snapshot(state.bindings, state.history, w.rules), input);
      SelectedExactly(input);
      StartExactly(state, input, w);
      NormalisesExactly(w.codec, start, scopes, Normal(input.authIDs));
      ExpandsExactly(w.codec, state.bindings, input);
      TooLargeExactly(BatchDraft(w.codec, start, scopes, Normal(input.authIDs)).changes, w.codec);
      hide Outgrows, Overflows;
      hide BatchDraft, Expands, TooLarge, BatchNormalises, BatchStart, Selects, Unnameable, GoodBatchInput, InOrder;
      assert (exists s :: Selects(input, s) && Unnameable(w.codec, state.bindings, s)) <==>
          exists i :: 0 <= i < |scopes| && Unnameable(w.codec, state.bindings, scopes[i]) by {
        if i :| 0 <= i < |scopes| && Unnameable(w.codec, state.bindings, scopes[i]) {
          assert scopes[i] in scopes;
        }
      }
    }
  }

  predicate OversizedRollback(input: RollbackInput) {
    || |input.keys| > 4096 || |input.available| > 16384 || input.idLength > 256
    || RevisionLength(input.expected) > 256
    || Unreadable(Texts(input.keys)) || Unreadable(input.available)
    || RevisionLength(input.expected) + TotalLength(Texts(input.keys)) + TotalLength(input.available) > 0x20_0000
  }

  /** A rollback is refused as invalid for its request or its size, and as unknown if the log has no such operation. */
  lemma {:induction false} RollbackRefusedExactly(snapshot: Snapshot, input: RollbackInput, codec: Codec)
    ensures
      var planned, i := PlanRollback(snapshot, input, codec), IndexOf(snapshot.history, input.operation);
      var bad, unknown := input.operation == NO_OP || OversizedRollback(input),
        forall j :: 0 <= j < |snapshot.history| ==> snapshot.history[j].id != input.operation;
      && (planned == Refused(UnknownOperation) <==> !bad && unknown)
      && (planned == Refused(InvalidInput) <==>
            || bad
            || (!unknown && i < |snapshot.history|
                && Overflows(RollbackDraft(ContextOf(snapshot, input, codec), RollbackStart(snapshot, input),
                                           snapshot.history[i].changes).changes, codec)))
  {
    LegibleExactly(Texts(input.keys));
    LegibleExactly(input.available);
    var i := IndexOf(snapshot.history, input.operation);
    if i < |snapshot.history| {
      TooLargeExactly(RollbackDraft(ContextOf(snapshot, input, codec), RollbackStart(snapshot, input),
                                    snapshot.history[i].changes).changes, codec);
    }
    hide Unreadable, Legible, TotalLength, RollbackDraft, TooLarge, Overflows, ContextOf, RollbackStart;
  }
}
