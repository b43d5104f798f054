/** The undo log: recorded operations, newest first, and the markers that say which one reverted which. */
module History {
  import opened Options
  import opened Bindings

  const HISTORY_LIMIT := 50
  const HISTORY_BYTES := 4 * 1024 * 1024
  const CHANGE_LIMIT := 4096

  /** Operation IDs; 0 is the empty string. */
  type OpID = nat
  const NO_OP: OpID := 0

  datatype Kind = Batch | Rollback

  datatype Change = Change(
    bindingID: BindingID, name: Label, keyPreview: Label, scope: Scope,
    before: Option<Restriction>, after: Option<Restriction>,
    beforeFingerprint: Option<Binding>, afterFingerprint: Option<Binding>,
    beforeCreatedAt: Time, afterCreatedAt: Time,
    beforeTemplate: Option<Binding>, afterTemplate: Option<Binding>)

  datatype Marker = Marker(operation: OpID, before: OpID, after: OpID)

  datatype Record = Record(
    id: OpID, kind: Kind, source: OpID, revertedBy: OpID, createdAt: Time,
    changes: seq<Change>, markers: seq<Marker>)

  /**
   What the bindings and the log are put through on their way into the file. The first two and the last
   two give JSON sizes. access normalises a model policy, or rejects it; every commit and every edit
   applies it again to what it stored before, and the result can differ.
   */
  datatype Codec = Codec(
    planned: seq<Change> -> nat, history: seq<Record> -> nat,
    access: ModelPolicy -> Option<ModelPolicy>,
    list: seq<string> -> nat, restriction: Restriction -> nat)

  predicate Nameable(codec: Codec, b: Binding) {
    codec.access(b.settings.modelAccess).Some?
  }

  /** The binding with its model policy normalised once more; a rejected policy stays as it is. */
  function Refreshed(codec: Codec, b: Binding): (r: Binding)
    ensures r.id == b.id && r.scope == b.scope && r.restriction == b.restriction
    ensures r.createdAt == b.createdAt && r.updatedAt == b.updatedAt
  {
    match codec.access(b.settings.modelAccess)
    case None => b
    case Some(policy) => b.(settings := b.settings.(modelAccess := policy))
  }

  function RefreshedAll(codec: Codec, live: Bindings): (r: Bindings)
    ensures r.Keys == live.Keys
  {
    map s | s in live :: Refreshed(codec, live[s])
  }

  /** Normalising its model policy once more changes nothing. */
  predicate Settled(codec: Codec, b: Binding) {
    codec.access(b.settings.modelAccess) == Some(b.settings.modelAccess)
  }

  predicate Touches(changes: seq<Change>, scope: Scope) {
    exists k :: 0 <= k < |changes| && changes[k].scope == scope
  }

  predicate DistinctScopes(changes: seq<Change>) {
    forall i, j :: 0 <= i < j < |changes| ==> changes[i].scope != changes[j].scope
  }

  predicate DistinctBindings(changes: seq<Change>) {
    forall i, j :: 0 <= i < j < |changes| ==> changes[i].bindingID != changes[j].bindingID
  }

  predicate DistinctOps(history: seq<Record>) {
    forall i, j :: 0 <= i < j < |history| ==> history[i].id != history[j].id
  }

  predicate Recordable(restriction: Option<Restriction>) {
    restriction.Some? ==> restriction.value != ByGroup(Tier("")) && restriction.value != ByAuths([])
  }

  predicate TemplateFits(template: Option<Binding>, change: Change) {
    template.Some? ==> template.value.id == change.bindingID && template.value.scope == change.scope
  }

  predicate ValidChange(change: Change) {
    && change.scope != NO_SCOPE
    && (change.before.Some? || change.after.Some?)
    && Recordable(change.before) && Recordable(change.after)
    && TemplateFits(change.beforeTemplate, change) && TemplateFits(change.afterTemplate, change)
  }

  predicate ValidRecord(record: Record) {
    && record.id != NO_OP && record.createdAt != NEVER
    && 1 <= |record.changes| <= CHANGE_LIMIT && |record.markers| <= HISTORY_LIMIT
    && (forall m :: 0 <= m < |record.markers| ==> record.markers[m].operation != NO_OP)
    && DistinctScopes(record.changes)
    && (forall k :: 0 <= k < |record.changes| ==> ValidChange(record.changes[k]))
  }

  /** What the state file's loader accepts. */
  predicate Valid(history: seq<Record>, codec: Codec) {
    && |history| <= HISTORY_LIMIT
    && DistinctOps(history)
    && (forall i :: 0 <= i < |history| ==> ValidRecord(history[i]))
    && codec.history(history) <= HISTORY_BYTES
  }

  function IndexOf(history: seq<Record>, id: OpID): (i: nat)
    ensures i <= |history|
    ensures i < |history| ==> history[i].id == id
    ensures forall k :: 0 <= k < i ==> history[k].id != id
  {
    if history == [] || history[0].id == id then 0
    else
      var i := 1 + IndexOf(history[1..], id);
      assert forall k :: 0 < k < i ==> history[k] == history[1..][k - 1];
      i
  }

  function Find(changes: seq<Change>, scope: Scope): (c: Option<Change>)
    ensures c.Some? <==> Touches(changes, scope)
    ensures c.Some? ==> c.value in changes && c.value.scope == scope
  {
    if changes == [] then None
    else if changes[0].scope == scope then Some(changes[0])
    else
      var c := Find(changes[1..], scope);
      assert forall k :: 0 < k < |changes| ==> changes[k] == changes[1..][k - 1];
      c
  }

  /** The newest recorded change of a scope. */
  function Latest(history: seq<Record>, scope: Scope): Option<Change> {
    if history == [] then None
    else
      var here := Find(history[0].changes, scope);
      if here.Some? then here else Latest(history[1..], scope)
  }

  lemma {:induction false} FindAt(changes: seq<Change>, k: nat)
    requires k < |changes| && DistinctScopes(changes)
    ensures Find(changes, changes[k].scope) == Some(changes[k])
  {
    var found := Find(changes, changes[k].scope);
    assert Touches(changes, changes[k].scope);
    var j :| 0 <= j < |changes| && changes[j] == found.value;
  }

  /** Dropping records from the tail never changes what the newest mention of a scope says. */
  lemma {:induction false} LatestOfPrefix(history: seq<Record>, n: nat, scope: Scope)
    requires n <= |history| && Latest(history[..n], scope).Some?
    ensures Latest(history[..n], scope) == Latest(history, scope)
  {
    if n > 0 && Find(history[0].changes, scope).None? {
      assert history[..n][1..] == history[1..][..n - 1];
      LatestOfPrefix(history[1..], n - 1, scope);
    }
  }

  function SetReverted(history: seq<Record>, i: nat, reverter: OpID): seq<Record>
    requires i < |history|
  {
    history[i := history[i].(revertedBy := reverter)]
  }

  /** Follows sources from one operation to the next, alternately reverting and reinstating. */
  function Mark(history: seq<Record>, id: OpID, reverter: OpID, depth: nat): (r: seq<Record>)
    ensures |r| == |history|
    decreases HISTORY_LIMIT + 1 - depth
  {
    if depth > HISTORY_LIMIT then history
    else
      var i := IndexOf(history, id);
      if i == |history| then history
      else
        var marked := SetReverted(history, i, reverter);
        if history[i].kind == Rollback && history[i].source != NO_OP then
          Mark(marked, history[i].source, if reverter == NO_OP then history[i].id else NO_OP, depth + 1)
        else marked
  }

  /** Undoes one marker where the log still shows the value it wrote. */
  function RestoreOne(history: seq<Record>, shown: seq<Record>, m: Marker): seq<Record>
    requires |history| == |shown|
  {
    seq(|history|, i requires 0 <= i < |history| =>
      if history[i].id == m.operation && shown[i].revertedBy == m.after
      then history[i].(revertedBy := m.before) else history[i])
  }

  function Restore(history: seq<Record>, shown: seq<Record>, markers: seq<Marker>): (r: seq<Record>)
    requires |history| == |shown|
    ensures |r| == |history|
  {
    if markers == [] then history
    else RestoreOne(Restore(history, shown, markers[..|markers| - 1]), shown, markers[|markers| - 1])
  }

  predicate Covers(affected: set<Scope>, changes: seq<Change>) {
    forall k :: 0 <= k < |changes| ==> changes[k].scope in affected
  }

  /** A rollback supersedes every newer batch whose scopes it covers completely. */
  function Supersede(history: seq<Record>, source: OpID, affected: set<Scope>, reverter: OpID): seq<Record> {
    var stop := IndexOf(history, source);
    seq(|history|, i requires 0 <= i < |history| =>
      if i < stop && history[i].kind == Batch && Covers(affected, history[i].changes)
      then history[i].(revertedBy := reverter) else history[i])
  }

  /** The markers an operation leaves: every revertedBy it changed, old and new value. */
  function Diff(shown: seq<Record>, history: seq<Record>): seq<Marker>
    requires |shown| == |history|
    decreases |history|
  {
    if history == [] then []
    else
      var n := |history| - 1;
      var front := Diff(shown[..n], history[..n]);
      if shown[n].revertedBy == history[n].revertedBy then front
      else front + [Marker(history[n].id, shown[n].revertedBy, history[n].revertedBy)]
  }

  function Scopes(changes: seq<Change>): set<Scope> {
    set k | 0 <= k < |changes| :: changes[k].scope
  }

  function SourceMarkers(history: seq<Record>, source: OpID): seq<Marker> {
    var i := IndexOf(history, source);
    if i < |history| && history[i].kind == Rollback then history[i].markers else []
  }

  /** The whole rewriting of revertedBy that committing an operation performs on the older records. */
  function Rewrite(history: seq<Record>, kind: Kind, source: OpID, affected: set<Scope>,
          reverter: OpID): (r: seq<Record>)
    ensures |r| == |history|
  {
    if kind == Batch then history
    else
      var marked := Mark(history, source, reverter, 0);
      Supersede(Restore(marked, history, SourceMarkers(history, source)), source, affected, reverter)
  }

  /** Drops the oldest records until the encoded log fits; None when even one record does not. */
  function Shrink(history: seq<Record>, codec: Codec): Option<seq<Record>>
    requires history != []
  {
    if codec.history(history) <= HISTORY_BYTES then Some(history)
    else if |history| == 1 then None
    else Shrink(history[..|history| - 1], codec)
  }

  function Truncate(history: seq<Record>, codec: Codec): Option<seq<Record>>
    requires history != []
  {
    Shrink(if |history| > HISTORY_LIMIT then history[..HISTORY_LIMIT] else history, codec)
  }

  /** Within both limits of the log. */
  predicate Fits(history: seq<Record>, codec: Codec) {
    |history| <= HISTORY_LIMIT && codec.history(history) <= HISTORY_BYTES
  }

  /** A front that fits, while none that is longer does. */
  ghost predicate LongestFit(history: seq<Record>, n: nat, codec: Codec) {
    && 1 <= n <= |history| && Fits(history[..n], codec)
    && forall m :: n < m <= |history| ==> !Fits(history[..m], codec)
  }

  lemma {:induction false} ShrinkIsLongest(history: seq<Record>, codec: Codec)
    requires history != []
    ensures Shrink(history, codec).None? ==>
              forall m :: 1 <= m <= |history| ==> codec.history(history[..m]) > HISTORY_BYTES
    ensures Shrink(history, codec).Some? ==>
      var kept := Shrink(history, codec).value;
      && 1 <= |kept| <= |history| && kept == history[..|kept|] && codec.history(kept) <= HISTORY_BYTES
      && forall m :: |kept| < m <= |history| ==> codec.history(history[..m]) > HISTORY_BYTES
  {
    assert history[..|history|] == history;
    if codec.history(history) > HISTORY_BYTES && |history| > 1 {
      var front := history[..|history| - 1];
      ShrinkIsLongest(front, codec);
      assert forall m :: 0 <= m <= |front| ==> front[..m] == history[..m];
    }
  }

  /** Truncation gives the longest fitting front, and nothing only when not even one record fits. */
  lemma {:induction false} TruncateIsLongest(history: seq<Record>, codec: Codec)
    requires history != []
    ensures Truncate(history, codec).None? ==> forall m :: 1 <= m <= |history| ==> !Fits(history[..m], codec)
    ensures Truncate(history, codec).Some? ==>
      var kept := Truncate(history, codec).value;
      LongestFit(history, |kept|, codec) && kept == history[..|kept|]
  {
    var short := if |history| > HISTORY_LIMIT then history[..HISTORY_LIMIT] else history;
    ShrinkIsLongest(short, codec);
    assert forall m :: 0 <= m <= |short| ==> short[..m] == history[..m];
  }
}
