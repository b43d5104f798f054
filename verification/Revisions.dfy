/** Optimistic concurrency: what accepting a commit under a previewed revision means. */
module Revisions {
  import opened Options
  import opened Bindings
  import opened History
  import opened Planner
  import opened Operations
  import opened Undo

  predicate AscendingInts(s: seq<int>) {
    forall i, j :: 0 <= i < j < |s| ==> s[i] <= s[j]
  }

  lemma {:induction false} InsertIntCounts(s: seq<int>, x: int)
    ensures multiset(InsertInt(s, x)) == multiset(s) + multiset{x}
  {
    if s != [] && x > s[0] {
      InsertIntCounts(s[1..], x);
      assert s == [s[0]] + s[1..];
    }
  }

  lemma {:induction false} InsertIntSorted(s: seq<int>, x: int)
    requires AscendingInts(s)
    ensures AscendingInts(InsertInt(s, x))
  {
    if s != [] && x > s[0] {
      InsertIntSorted(s[1..], x);
      InsertIntCounts(s[1..], x);
      var rest := InsertInt(s[1..], x);
      forall j | 0 <= j < |rest| ensures s[0] <= rest[j] {
        assert rest[j] in multiset(rest);
        assert rest[j] == x || rest[j] in s[1..];
      }
    }
  }

  lemma {:induction false} NoneAscend()
    ensures AscendingInts([])
  {
  }

  lemma {:induction false} SortIntsSorted(s: seq<int>)
    ensures AscendingInts(SortInts(s)) && multiset(SortInts(s)) == multiset(s)
  {
    hide InsertInt, AscendingInts;
    if s == [] {
      NoneAscend();
    } else {
      var front, last := s[..|s| - 1], s[|s| - 1];
      SortIntsSorted(front);
      InsertIntSorted(SortInts(front), last);
      InsertIntCounts(SortInts(front), last);
      assert s == front + [last];
      assert multiset(s) == multiset(front) + multiset{last};
    }
  }

  lemma {:induction false} HeadAtMost(s: seq<int>, t: seq<int>)
    requires AscendingInts(s) && multiset(s) == multiset(t) && s != [] && t != []
    ensures s[0] <= t[0]
  {
    assert t[0] in multiset(s);
    var i :| 0 <= i < |s| && s[i] == t[0];
  }

  lemma {:induction false} AscendingUnique(s: seq<int>, t: seq<int>)
    requires AscendingInts(s) && AscendingInts(t) && multiset(s) == multiset(t)
    ensures s == t
  {
    if |s| == 0 || |t| == 0 {
      assert |s| == |multiset(s)| == |multiset(t)| == |t|;
    } else {
      HeadAtMost(s, t);
      HeadAtMost(t, s);
      assert s == [s[0]] + s[1..] && t == [t[0]] + t[1..];
      assert multiset(s[1..]) == multiset(s) - multiset{s[0]};
      assert multiset(t[1..]) == multiset(t) - multiset{t[0]};
      AscendingUnique(s[1..], t[1..]);
    }
  }

  /** The order in which the indices were selected does not matter. */
  lemma {:induction false} SelectionOrderIrrelevant(snapshot: Snapshot, input: BatchInput, selected: seq<int>,
          codec: Codec)
    requires multiset(selected) == multiset(input.selected)
    ensures PlanBatch(snapshot, input.(selected := selected), codec) == PlanBatch(snapshot, input, codec)
  {
    SortIntsSorted(selected);
    SortIntsSorted(input.selected);
    AscendingUnique(SortInts(selected), SortInts(input.selected));
    assert |selected| == |multiset(selected)| == |multiset(input.selected)| == |input.selected|;
    SortedSelectionDecides(snapshot, input, selected, codec);
  }

  lemma {:induction false} SortedSelectionDecides(snapshot: Snapshot, input: BatchInput, selected: seq<int>,
          codec: Codec)
    requires SortInts(selected) == SortInts(input.selected) && |selected| == |input.selected|
    ensures PlanBatch(snapshot, input.(selected := selected), codec) == PlanBatch(snapshot, input, codec)
  {
    var other := input.(selected := selected);
    assert GoodBatchInput(other) <==> GoodBatchInput(input);
    assert BatchStart(snapshot, other) == BatchStart(snapshot, input);
    assert BatchRevision(snapshot, other) == BatchRevision(snapshot, input);
  }

  /** What a preview shows of a change. */
  datatype Shown = Shown(bindingID: BindingID, name: Label, keyPreview: Label, before: Option<Restriction>,
                         after: Option<Restriction>)

  function Listed(changes: seq<Change>): seq<Shown> {
    seq(|changes|, k requires 0 <= k < |changes| =>
      Shown(changes[k].bindingID, changes[k].name, changes[k].keyPreview, changes[k].before, changes[k].after))
  }

  lemma {:induction false} CommitLists(state: State, plan: Plan, expected: Revision, w: World)
    ensures Commit(state, plan, expected, w).0.Applied? ==>
      expected == plan.revision && plan.conflicts == [] && plan.changes != [] &&
      Listed(Commit(state, plan, expected, w).0.record.changes) == Listed(plan.changes)
  {
  }

  /** A revision shown by some earlier preview: of a batch, or of a rollback. */
  datatype Preview =
    | OfBatch(state: State, batch: BatchInput, world: World)
    | OfRollback(state: State, rollback: RollbackInput, world: World)

  /** Both are planned by the same program: the same sizes and the same normalisation. */
  ghost predicate SameProgram(p: Preview, step: Step) {
    !step.Edit? && p.world.codec == step.world.codec
  }

  function Plans(p: Preview): Planned {
    match p
    case OfBatch(state, input, w) => PlanBatch(Snapshot(state.bindings, state.history, w.rules), input, w.codec)
    case OfRollback(state, input, w) => PlanRollback(Snapshot(state.bindings, state.history, w.rules), input, w.codec)
  }

  function Expected(step: Step): Revision {
    match step
    case Apply(input, _) => input.expected
    case Revert(input, _) => input.expected
    case Edit(_) => NoRevision
  }

  lemma {:induction false} SameRevisionSamePlan(left: Preview, right: Preview)
    requires left.world.codec == right.world.codec
    requires Plans(left).Ready? && Plans(right).Ready? && Plans(left).plan.revision == Plans(right).plan.revision
    ensures Plans(left) == Plans(right) && left.state == right.state
  {
    if left.OfBatch? && right.OfBatch? {
      SameBatch(Snapshot(left.state.bindings, left.state.history, left.world.rules), left.batch,
                Snapshot(right.state.bindings, right.state.history, right.world.rules), right.batch, left.world.codec);
    } else if left.OfRollback? && right.OfRollback? {
      SameRollback(Snapshot(left.state.bindings, left.state.history, left.world.rules), left.rollback,
                   Snapshot(right.state.bindings, right.state.history, right.world.rules), right.rollback,
                   left.world.codec);
    } else {
      KindsDiffer(left, right);
    }
  }

  lemma {:induction false} KindsDiffer(left: Preview, right: Preview)
    requires Plans(left).Ready? && Plans(right).Ready? && left.OfBatch? != right.OfBatch?
    ensures Plans(left).plan.revision != Plans(right).plan.revision
  {
  }

  lemma {:induction false} SameRollback(s: Snapshot, left: RollbackInput, t: Snapshot, right: RollbackInput,
          codec: Codec)
    requires PlanRollback(s, left, codec).Ready? && PlanRollback(t, right, codec).Ready?
    requires RollbackRevision(s, left) == RollbackRevision(t, right)
    ensures s == t && PlanRollback(s, left, codec) == PlanRollback(t, right, codec)
  {
    assert ContextOf(s, left, codec) == ContextOf(t, right, codec) && RollbackStart(s, left) == RollbackStart(t, right);
  }

  lemma {:induction false} SameBatch(s: Snapshot, left: BatchInput, t: Snapshot, right: BatchInput, codec: Codec)
    requires PlanBatch(s, left, codec).Ready? && PlanBatch(t, right, codec).Ready?
    requires BatchRevision(s, left) == BatchRevision(t, right)
    ensures s == t && PlanBatch(s, left, codec) == PlanBatch(t, right, codec)
  {
    assert BatchStart(s, left) == BatchStart(t, right);
  }

  /**
   A commit accepted under a revision makes exactly the changes listed by any preview, however much
   earlier, that showed this revision; and the bindings and history are those the preview was made of.
   */
  lemma {:induction false} AcceptedAsPreviewed(preview: Preview, state: State, step: Step)
    requires Plans(preview).Ready? && Perform(state, step).0.Applied? && SameProgram(preview, step)
    requires Expected(step) == Plans(preview).plan.revision
    ensures state == preview.state
    ensures Listed(Perform(state, step).0.record.changes) == Listed(Plans(preview).plan.changes)
  {
    match step
    case Apply(input, w) =>
      var now := OfBatch(state, input, w);
      CommitLists(state, Plans(now).plan, input.expected, w);
      SameRevisionSamePlan(preview, now);
    case Revert(input, w) =>
      var now := OfRollback(state, input, w);
      CommitLists(state, Plans(now).plan, input.expected, w);
      SameRevisionSamePlan(preview, now);
  }

  /** The log is not one that existed when only these IDs were in use. */
  ghost predicate NewerThan(state: State, ids: set<OpID>) {
    state.history != [] && state.history[0].id !in ids
  }

  /** An applied step puts a record with a fresh ID in front; any other step keeps the log. */
  lemma {:induction false} HeadAfter(state: State, step: Step, used: set<OpID>, codec: Codec)
    requires Sound(state, used, codec) && LegalStep(step, used, codec)
    ensures
      var (outcome, next) := Perform(state, step);
      if outcome.Applied? then NewerThan(next, used) else next.history == state.history
  {
    PerformKeeps(state, step, used, codec);
    var (outcome, next) := Perform(state, step);
    if outcome.Applied? {
      var plan :| GoodPlan(codec, plan, state) && Committed(state, plan, step.world, outcome.record, next);
    }
  }

  lemma {:induction false} StaysNewer(state: State, steps: seq<Step>, i: nat, j: nat, used: set<OpID>, codec: Codec,
          ids: set<OpID>)
    requires Sound(state, used, codec) && LegalRun(steps, used, codec) && i < j <= |steps|
    requires NewerThan(Run(state, steps[..i + 1]), ids) && ids <= UsedBy(used, steps[..i])
    ensures NewerThan(Run(state, steps[..j]), ids)
    decreases j
  {
    hide *;
    if i < j - 1 {
      StaysNewer(state, steps, i, j - 1, used, codec, ids);
      UsedGrows(steps, i, j - 1, used);
      NewerNext(state, steps, j - 1, used, codec, ids);
    }
  }

  lemma {:induction false} NewerNext(state: State, steps: seq<Step>, j: nat, used: set<OpID>, codec: Codec,
          ids: set<OpID>)
    requires Sound(state, used, codec) && LegalRun(steps, used, codec) && j < |steps|
    requires NewerThan(Run(state, steps[..j]), ids) || Perform(Run(state, steps[..j]), steps[j]).0.Applied?
    requires ids <= UsedBy(used, steps[..j])
    ensures NewerThan(Run(state, steps[..j + 1]), ids)
  {
    NextStep(state, steps, j, used, codec);
    StepNewer(Run(state, steps[..j]), steps[j], UsedBy(used, steps[..j]), codec, ids);
  }

  lemma {:induction false} NextStep(state: State, steps: seq<Step>, j: nat, used: set<OpID>, codec: Codec)
    requires Sound(state, used, codec) && LegalRun(steps, used, codec) && j < |steps|
    ensures Sound(Run(state, steps[..j]), UsedBy(used, steps[..j]), codec)
    ensures LegalStep(steps[j], UsedBy(used, steps[..j]), codec)
    ensures Run(state, steps[..j + 1]) == Perform(Run(state, steps[..j]), steps[j]).1
  {
    PrefixLegal(steps, j, used, codec);
    LegalAt(steps, j, used, codec);
    RunSound(state, steps[..j], used, codec);
    assert steps[..j + 1][..j] == steps[..j];
  }

  lemma {:induction false} StepNewer(state: State, step: Step, used: set<OpID>, codec: Codec, ids: set<OpID>)
    requires Sound(state, used, codec) && LegalStep(step, used, codec) && ids <= used
    requires NewerThan(state, ids) || Perform(state, step).0.Applied?
    ensures NewerThan(Perform(state, step).1, ids)
  {
    HeadAfter(state, step, used, codec);
  }

  lemma {:induction false} PrefixLegal(steps: seq<Step>, n: nat, used: set<OpID>, codec: Codec)
    requires LegalRun(steps, used, codec) && n <= |steps|
    ensures LegalRun(steps[..n], used, codec)
    decreases |steps|
  {
    if n < |steps| {
      assert steps[..|steps| - 1][..n] == steps[..n];
      PrefixLegal(steps[..|steps| - 1], n, used, codec);
    } else {
      assert steps[..n] == steps;
    }
  }

  lemma {:induction false} UsedGrows(steps: seq<Step>, i: nat, j: nat, used: set<OpID>)
    requires i <= j <= |steps|
    ensures UsedBy(used, steps[..i]) <= UsedBy(used, steps[..j])
    decreases j
  {
    if i < j {
      UsedGrows(steps, i, j - 1, used);
      assert steps[..j][..j - 1] == steps[..j - 1];
    }
  }

  /** In any run, edits included, no revision is accepted for a second effective commit. */
  lemma {:induction false} NoRevisionTwice(state: State, steps: seq<Step>, i: nat, j: nat, used: set<OpID>,
          codec: Codec)
    requires Sound(state, used, codec) && LegalRun(steps, used, codec) && i < j < |steps|
    requires Perform(Run(state, steps[..i]), steps[i]).0.Applied?
    requires Perform(Run(state, steps[..j]), steps[j]).0.Applied?
    ensures Expected(steps[i]) != Expected(steps[j])
  {
    NewerNext(state, steps, i, used, codec, UsedBy(used, steps[..i]));
    StaysNewer(state, steps, i, j, used, codec, UsedBy(used, steps[..i]));
    PrefixLegal(steps, i, used, codec);
    RunSound(state, steps[..i], used, codec);
    var early, late := Run(state, steps[..i]), Run(state, steps[..j]);
    assert early.history != [] ==> early.history[0].id in UsedBy(used, steps[..i]);
    AcceptedRevision(early, steps[i]);
    if Expected(steps[i]) == Expected(steps[j]) {
      LegalAt(steps, i, used, codec);
      LegalAt(steps, j, used, codec);
      AcceptedAsPreviewed(PreviewOf(early, steps[i]), late, steps[j]);
    }
  }

  lemma {:induction false} LegalAt(steps: seq<Step>, i: nat, used: set<OpID>, codec: Codec)
    requires LegalRun(steps, used, codec) && i < |steps|
    ensures LegalStep(steps[i], UsedBy(used, steps[..i]), codec)
  {
    PrefixLegal(steps, i + 1, used, codec);
    assert steps[..i + 1][..i] == steps[..i];
  }

  function PreviewOf(state: State, step: Step): Preview
    requires !step.Edit?
  {
    match step
    case Apply(input, w) => OfBatch(state, input, w)
    case Revert(input, w) => OfRollback(state, input, w)
  }

  lemma {:induction false} AcceptedRevision(state: State, step: Step)
    requires Perform(state, step).0.Applied?
    ensures Plans(PreviewOf(state, step)).Ready? && Plans(PreviewOf(state, step)).plan.revision == Expected(step)
  {
  }
}
