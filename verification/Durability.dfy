/** What every interleaving of flushes, saves, edits, commits, resets and reconfigurations guarantees. */
module Durability {
  import opened Options
  import opened Persistence

  // -------------------------------------------------------------------- resets are never undone

  lemma {:induction false} ClearedGrows(w: System, move: Move, a: Account)
    requires Safe(w)
    ensures ClearedAt(w.cleared, a) <= ClearedAt(Apply(w, move).cleared, a)
  {
    match move
    case Record(_) =>
    case Step(t, c) =>
      if t in w.threads && Advance(w, t, c).Some? && !WroteReset(w.threads[t]) {
        assert PolicySampled(w, w.threads[t]);
        AdvanceEffect(w, t, c, Advance(w, t, c).value);
      }
  }

  lemma {:induction false} ClearedGrowsAlong(w: System, moves: seq<Move>, i: nat, j: nat, a: Account)
    requires Safe(w) && i <= j <= |moves|
    ensures ClearedAt(Run(w, moves[..i]).cleared, a) <= ClearedAt(Run(w, moves[..j]).cleared, a)
    decreases j
  {
    if i < j {
      ClearedGrowsAlong(w, moves, i, j - 1, a);
      RunSafe(w, moves[..j - 1]);
      assert moves[..j][..j - 1] == moves[..j - 1];
      ClearedGrows(Run(w, moves[..j - 1]), moves[j - 1], a);
    }
  }

  /** The step that makes a reset of some accounts effective, after its file write succeeded. */
  predicate CommitsReset(w: System, move: Move, accounts: set<Account>) {
    move.Step? && move.thread in w.threads && w.threads[move.thread] == Resetting(ResetWritten(accounts, true))
  }

  /**
   Once a reset of an account has committed, neither the live counters nor any state file that any
   later step leaves behind counts a record made before the reset.
   */
  lemma {:induction false} ResetNeverUndone(w: System, moves: seq<Move>, i: nat, j: nat, accounts: set<Account>,
          a: Account)
    requires Initial(w) && i < j <= |moves| && a in accounts
    requires CommitsReset(Run(w, moves[..i]), moves[i], accounts)
    ensures
      var reset, later := Run(w, moves[..i]), Run(w, moves[..j]);
      forall n :: n in Counted(later.file.usage, a) || n in Counted(later.usage, a) ==> reset.next <= n
  {
    InitiallySafe(w);
    var reset := Run(w, moves[..i]);
    RunSafe(w, moves[..i]);
    RunSafe(w, moves[..j]);
    assert moves[..i + 1][..i] == moves[..i];
    assert ClearedAt(Apply(reset, moves[i]).cleared, a) == reset.next;
    ClearedGrowsAlong(w, moves, i + 1, j, a);
  }

  // ------------------------------------------------------------------------- crash consistency

  /** The mutation in progress whose complete new pair is already in the file. */
  ghost predicate InProgress(w: System, t: Thread) {
    t in w.threads && w.updateMu == Some(t) && InFlight(w.threads[t]) == Some(w.file.policy)
  }

  /**
   At every moment of every run the file's bindings and history are the live pair, a pair that loads as the
   live one, or the complete pair of the single mutation in progress: never one component of each.
   */
  lemma {:induction false} CrashConsistent(w: System, moves: seq<Move>)
    requires Initial(w)
    ensures
      var now := Run(w, moves);
      now.policy == now.file.policy || now.policy == w.load(now.file.policy) || exists t :: InProgress(now, t)
  {
    InitiallySafe(w);
    RunSafe(w, moves);
    SameLoad(w, moves);
    var now := Run(w, moves);
    if now.policy != now.file.policy && now.policy != w.load(now.file.policy) {
      assert InProgress(now, now.updateMu.value);
    }
  }

  lemma {:induction false} SameLoad(w: System, moves: seq<Move>)
    requires Safe(w)
    ensures Run(w, moves).load == w.load
  {
    if moves != [] {
      var before, move := Run(w, moves[..|moves| - 1]), moves[|moves| - 1];
      SameLoad(w, moves[..|moves| - 1]);
      RunSafe(w, moves[..|moves| - 1]);
      if move.Step? && move.thread in before.threads && Advance(before, move.thread, move.choice).Some? {
        assert PolicySampled(before, before.threads[move.thread]);
        AdvanceEffect(before, move.thread, move.choice, Advance(before, move.thread, move.choice).value);
      }
    }
  }

  /** The step of a reconfiguration that replaces the live state with what it loaded. */
  predicate Publishes(w: System, move: Move) {
    && move.Step? && move.thread in w.threads && w.ledgerMu.None? && !move.choice.refused
    && w.threads[move.thread].Configuring? && w.threads[move.thread].configure.ConfigureLoaded?
  }

  function LoadedFile(w: System, move: Move): File
    requires Publishes(w, move)
  {
    w.threads[move.thread].configure.file
  }

  /** Loading leaves the pair as it is in the file. */
  ghost predicate LoadsAsWritten(w: System, move: Move) {
    Publishes(w, move) ==> w.load(LoadedFile(w, move).policy) == LoadedFile(w, move).policy
  }

  /** The file shows exactly the pair of the mutation in flight, else the live pair. */
  ghost predicate Exact(w: System) {
    ShowsExactly(w, Holder(w))
  }

  /**
   Where the file is exact, the next step keeps it so if and only if it does not publish a pair that loading
   changed.
   */
  lemma {:induction false} StepExactly(w: System, move: Move)
    requires Safe(w) && Exact(w)
    ensures Exact(Apply(w, move)) <==> LoadsAsWritten(w, move)
  {
    if move.Step? && move.thread in w.threads && Advance(w, move.thread, move.choice).Some? {
      if Publishes(w, move) {
        PublishingExactly(w, move);
      } else {
        OtherStepExact(w, move.thread, move.choice);
      }
    }
  }

  lemma {:induction false} OtherStepExact(w: System, t: Thread, c: Choice)
    requires Safe(w) && Exact(w) && t in w.threads && Advance(w, t, c).Some? && !Publishes(w, Step(t, c))
    ensures Exact(Advance(w, t, c).value)
  {
    var next := Advance(w, t, c).value;
    assert PolicySampled(w, w.threads[t]);
    AdvanceEffect(w, t, c, next);
    if w.threads[t].Configuring? && w.threads[t].configure.ConfigureLoaded? {
      assert c.refused && next == To(w, t, Leaving);
    }
  }

  ghost predicate ExactAt(w: System, moves: seq<Move>, i: nat)
    requires i <= |moves|
  {
    Exact(Run(w, moves[..i]))
  }

  ghost predicate LoadsAsWrittenAt(w: System, moves: seq<Move>, i: nat)
    requires i < |moves|
  {
    LoadsAsWritten(Run(w, moves[..i]), moves[i])
  }

  lemma {:induction false} ExactNext(w: System, moves: seq<Move>, i: nat)
    requires Safe(w) && i < |moves| && ExactAt(w, moves, i)
    ensures ExactAt(w, moves, i + 1) <==> LoadsAsWrittenAt(w, moves, i)
  {
    RunSafe(w, moves[..i]);
    NextMove(w, moves, i);
    StepExactly(Run(w, moves[..i]), moves[i]);
  }

  lemma {:induction false} ExactUpTo(w: System, moves: seq<Move>, i: nat)
    requires Safe(w) && Exact(w) && i <= |moves|
    requires forall j :: 0 <= j < |moves| ==> LoadsAsWrittenAt(w, moves, j)
    ensures ExactAt(w, moves, i)
    decreases i
  {
    if i > 0 {
      ExactUpTo(w, moves, i - 1);
      ExactNext(w, moves, i - 1);
    }
  }

  /**
   Over every run, reconfigurations included: the file is the live pair, or that of the mutation in
   flight, at every moment if and only if each reconfiguration that publishes loads a pair that loading
   leaves as it is.
   */
  lemma {:induction false} ExactThroughoutExactly(w: System, moves: seq<Move>)
    requires Initial(w)
    ensures
      (forall i :: 0 <= i <= |moves| ==> ExactAt(w, moves, i)) <==>
      forall i :: 0 <= i < |moves| ==> LoadsAsWrittenAt(w, moves, i)
  {
    InitiallySafe(w);
    if forall i :: 0 <= i < |moves| ==> LoadsAsWrittenAt(w, moves, i) {
      forall i | 0 <= i <= |moves| ensures ExactAt(w, moves, i) { ExactUpTo(w, moves, i); }
    } else if forall i :: 0 <= i <= |moves| ==> ExactAt(w, moves, i) {
      forall i | 0 <= i < |moves| ensures LoadsAsWrittenAt(w, moves, i) {
        assert ExactAt(w, moves, i + 1);
        ExactNext(w, moves, i);
      }
    }
  }

  /**
   A crash between two steps loses no acknowledged mutation: with no operation under way the file holds the
   live pair or loads as it, and holds it where every reconfiguration loaded a pair that loading leaves alone.
   */
  lemma {:induction false} QuiescentFileIsLive(w: System, moves: seq<Move>)
    requires Initial(w) && Run(w, moves).updateMu.None?
    ensures
      var now := Run(w, moves);
      && (now.policy == now.file.policy || now.policy == w.load(now.file.policy))
      && ((forall i :: 0 <= i < |moves| ==> LoadsAsWrittenAt(w, moves, i)) ==> now.file.policy == now.policy)
  {
    InitiallySafe(w);
    RunSafe(w, moves);
    SameLoad(w, moves);
    if forall i :: 0 <= i < |moves| ==> LoadsAsWrittenAt(w, moves, i) {
      ExactThroughoutExactly(w, moves);
      assert ExactAt(w, moves, |moves|) && moves[..|moves|] == moves;
    }
  }

  lemma {:induction false} NextMove(w: System, moves: seq<Move>, i: nat)
    requires i < |moves|
    ensures Run(w, moves[..i + 1]) == Apply(Run(w, moves[..i]), moves[i])
  {
    assert moves[..i + 1][..i] == moves[..i];
  }

  lemma {:induction false} PublishingExactly(w: System, move: Move)
    requires Safe(w) && Publishes(w, move)
    ensures Exact(Apply(w, move)) <==> LoadsAsWritten(w, move)
  {
    var next := Apply(w, move);
    assert PolicySampled(w, w.threads[move.thread]);
    assert HoldsUpdate(w.threads[move.thread]);
    assert next.policy == w.load(LoadedFile(w, move).policy) && next.file == w.file;
  }

  // ------------------------------------------------------------------- the file lags, never leads

  ghost predicate Within(part: Usage, whole: Usage) {
    forall a, n :: n in Counted(part, a) ==> n in Counted(whole, a)
  }

  ghost predicate ThreadLags(w: System, pc: PC) {
    Sample(pc).Some? ==> Within(Sample(pc).value, w.usage)
  }

  /** The file, and everything that a thread may still write or publish, counts only records that are live. */
  ghost predicate Lags(w: System) {
    Within(w.file.usage, w.usage) && forall t :: t in w.threads ==> ThreadLags(w, w.threads[t])
  }

  /** A flush that has sampled the counters and not yet written them. */
  predicate FlushPending(w: System) {
    w.persistMu.Some? && w.persistMu.value in w.threads && Sample(w.threads[w.persistMu.value]).Some?
  }

  /** What was loaded covers what the file counts by now, and what a pending flush has sampled. */
  ghost predicate KeepsUp(w: System, loaded: Usage) {
    && Within(w.file.usage, loaded)
    && (FlushPending(w) ==> Within(Sample(w.threads[w.persistMu.value]).value, loaded))
  }

  lemma {:induction false} SampleNeedsLock(w: System, t: Thread, u: Thread)
    requires LocksHeld(w) && t in w.threads && u in w.threads && u != t && HoldsUpdate(w.threads[t])
    ensures Sample(w.threads[u]).Some? ==> w.persistMu == Some(u) && w.threads[u].Flushing?
  {
    assert !HoldsUpdate(w.threads[u]);
  }

  /**
   A reconfiguration that publishes what it loaded leaves the file behind the live counters if and only if
   the loaded counters cover the file and the sample of a flush that is still to be written.
   */
  lemma {:induction false} PublishingKeepsLagExactly(w: System, move: Move)
    requires Safe(w) && Publishes(w, move)
    ensures Lags(Apply(w, move)) <==> KeepsUp(w, LoadedFile(w, move).usage)
  {
    var t, next := move.thread, Apply(w, move);
    assert HoldsUpdate(w.threads[t]) && !HoldsPersist(w.threads[t]);
    assert next.usage == LoadedFile(w, move).usage && next.file == w.file && Sample(next.threads[t]).None?;
    forall u | u in next.threads && u != t ensures next.threads[u] == w.threads[u] {
    }
    if KeepsUp(w, LoadedFile(w, move).usage) {
      forall u | u in next.threads ensures ThreadLags(next, next.threads[u]) {
        if u != t { SampleNeedsLock(w, t, u); }
      }
    }
    if Lags(next) {
      if FlushPending(w) { assert ThreadLags(next, next.threads[w.persistMu.value]); }
    }
  }

  ghost predicate Leads(w: System, a: Account) {
    !(Counted(w.file.usage, a) <= Counted(w.usage, a))
  }

  /** The condition is needed: without it the file leads at once, or as soon as the pending flush has written. */
  lemma {:induction false} NotKeepingUpLeads(w: System, move: Move) returns (more: seq<Move>, a: Account)
    requires Safe(w) && Publishes(w, move) && !KeepsUp(w, LoadedFile(w, move).usage)
    ensures |more| <= 1 && Leads(Run(Apply(w, move), more), a)
  {
    var next, loaded := Apply(w, move), LoadedFile(w, move).usage;
    if !Within(w.file.usage, loaded) {
      var n;
      a, n :| n in Counted(w.file.usage, a) && n !in Counted(loaded, a);
      more := [];
    } else {
      var u := w.persistMu.value;
      assert !HoldsPersist(w.threads[move.thread]);
      SampleNeedsLock(w, move.thread, u);
      var n;
      a, n :| n in Counted(Sample(w.threads[u]).value, a) && n !in Counted(loaded, a);
      more := [Step(u, Choice(Flush, {}, map[], [], true, false, false))];
      WrittenSample(next, u, Choice(Flush, {}, map[], [], true, false, false));
    }
  }

  /** A pending flush that gets to write leaves its sample in the file. */
  lemma {:induction false} WrittenSample(w: System, u: Thread, c: Choice)
    requires u in w.threads && w.threads[u].Flushing? && w.threads[u].flush.FlushSampled? && c.diskOK
    ensures Run(w, [Step(u, c)]).file.usage == w.threads[u].flush.usage && Run(w, [Step(u, c)]).usage == w.usage
  {
    var moves := [Step(u, c)];
    assert moves[..0] == [] && Run(w, moves) == Apply(w, moves[0]);
  }

  lemma {:induction false} LagKept(w: System, t: Thread, next: System)
    requires LocksHeld(w) && Lags(w) && t in w.threads && Effect(w, t, next) && !WroteReset(w.threads[t])
    requires next.usage == w.usage
    ensures Lags(next)
  {
    var pc := next.threads[t];
    assert ThreadLags(w, w.threads[t]);
    forall u | u in next.threads ensures ThreadLags(next, next.threads[u]) {
      if u != t { assert ThreadLags(w, w.threads[u]); }
      else if pc.Resetting? && pc.reset.ResetSampled? {
        forall a, n | n in Counted(Cleared(w.usage, pc.reset.accounts), a) ensures n in Counted(w.usage, a) {
        }
      }
    }
  }

  lemma {:induction false} LagKeptByReset(w: System, t: Thread, c: Choice)
    requires LocksHeld(w) && AllClean(w) && Lags(w) && t in w.threads && WroteReset(w.threads[t])
    ensures Lags(Advance(w, t, c).value)
  {
    var next := Advance(w, t, c).value;
    var pc := w.threads[t].reset;
    assert ThreadClean(w, w.threads[t]);
    forall u | u in next.threads ensures ThreadLags(next, next.threads[u]) {
      if u != t { assert !HoldsUpdate(w.threads[u]) && !HoldsPersist(w.threads[u]); }
    }
    if pc.ok {
      forall a, n | n in Counted(w.file.usage, a) ensures n in Counted(Cleared(w.usage, pc.accounts), a) {
        assert a !in pc.accounts;
      }
    }
  }

  lemma {:induction false} UsageKept(w: System, t: Thread, c: Choice)
    requires t in w.threads && Advance(w, t, c).Some? && !Publishes(w, Step(t, c)) && !WroteReset(w.threads[t])
    ensures Advance(w, t, c).value.usage == w.usage
  {
  }

  lemma {:induction false} LagsAfter(w: System, move: Move)
    requires Safe(w) && Lags(w) && (Publishes(w, move) ==> KeepsUp(w, LoadedFile(w, move).usage))
    ensures Lags(Apply(w, move))
  {
    match move
    case Record(a) =>
      var next := Apply(w, move);
      forall t | t in next.threads ensures ThreadLags(next, next.threads[t]) {
        assert ThreadLags(w, w.threads[t]);
      }
    case Step(t, c) =>
      if Publishes(w, move) {
        PublishingKeepsLagExactly(w, move);
      } else if t in w.threads && Advance(w, t, c).Some? {
        if WroteReset(w.threads[t]) {
          LagKeptByReset(w, t, c);
        } else {
          assert PolicySampled(w, w.threads[t]);
          AdvanceEffect(w, t, c, Advance(w, t, c).value);
          UsageKept(w, t, c);
          LagKept(w, t, Advance(w, t, c).value);
        }
      }
  }

  /** Every reconfiguration of the run that publishes does so while what it loaded keeps up. */
  ghost predicate PublishesInTime(w: System, moves: seq<Move>) {
    forall i :: 0 <= i < |moves| ==> InTime(w, moves, i)
  }

  ghost predicate InTime(w: System, moves: seq<Move>, i: nat)
    requires i < |moves|
  {
    var now := Run(w, moves[..i]);
    Publishes(now, moves[i]) ==> KeepsUp(now, LoadedFile(now, moves[i]).usage)
  }

  ghost predicate LagsAt(w: System, moves: seq<Move>, i: nat)
    requires i <= |moves|
  {
    Lags(Run(w, moves[..i]))
  }

  lemma {:induction false} LagsUpTo(w: System, moves: seq<Move>, i: nat)
    requires Safe(w) && Lags(w) && PublishesInTime(w, moves) && i <= |moves|
    ensures LagsAt(w, moves, i)
    decreases i
  {
    if i > 0 {
      LagsUpTo(w, moves, i - 1);
      assert InTime(w, moves, i - 1);
      LagsNext(w, moves, i - 1);
    }
  }

  lemma {:induction false} LagsNext(w: System, moves: seq<Move>, i: nat)
    requires Safe(w) && i < |moves| && LagsAt(w, moves, i) && InTime(w, moves, i)
    ensures LagsAt(w, moves, i + 1)
  {
    RunSafe(w, moves[..i]);
    NextMove(w, moves, i);
    LagsAfter(Run(w, moves[..i]), moves[i]);
  }

  /**
   Over every run, reconfigurations included: the file and all that is about to be written stay behind the
   live counters at every moment if and only if each reconfiguration publishes while what it loaded covers
   the file and the sample of a pending flush.
   */
  lemma {:induction false} LagsThroughoutExactly(w: System, moves: seq<Move>)
    requires Initial(w)
    ensures (forall i :: 0 <= i <= |moves| ==> LagsAt(w, moves, i)) <==> PublishesInTime(w, moves)
  {
    InitiallySafe(w);
    if PublishesInTime(w, moves) {
      forall i | 0 <= i <= |moves| ensures LagsAt(w, moves, i) { LagsUpTo(w, moves, i); }
    } else if forall i :: 0 <= i <= |moves| ==> LagsAt(w, moves, i) {
      forall i | 0 <= i < |moves| ensures InTime(w, moves, i) {
        RunSafe(w, moves[..i]);
        NextMove(w, moves, i);
        assert LagsAt(w, moves, i + 1);
        if Publishes(Run(w, moves[..i]), moves[i]) { PublishingKeepsLagExactly(Run(w, moves[..i]), moves[i]); }
      }
    }
  }

  /** Then the file never counts a record that the live ledger does not. */
  lemma {:induction false} FileNeverLeads(w: System, moves: seq<Move>, a: Account)
    requires Initial(w) && PublishesInTime(w, moves)
    ensures Counted(Run(w, moves).file.usage, a) <= Counted(Run(w, moves).usage, a)
  {
    LagsThroughoutExactly(w, moves);
    assert LagsAt(w, moves, |moves|) && moves[..|moves|] == moves;
  }

  function Then(w: System, thread: Thread, task: Task): System {
    Apply(w, Step(thread, Choice(task, {}, map[], [], true, false, false)))
  }

  /** A reconfiguration up to the point where it has loaded the file. */
  function Loaded(w: System): System {
    var half := Then(Then(Then(w, 0, Configure), 0, Configure), 0, Configure);
    Then(Then(Then(half, 0, Configure), 0, Configure), 0, Configure)
  }

  lemma {:induction false} LoadedState(w: System)
    requires Initial(w) && 0 in w.threads
    ensures Loaded(w) == w.(updateMu := Some(0), threads := w.threads[0 := Configuring(ConfigureLoaded(w.file))])
  {
    SampledState(w);
    var w3 := Then(Then(Then(w, 0, Configure), 0, Configure), 0, Configure);
    assert w3.threads[0 := Configuring(ConfigureLoaded(w.file))] ==
      w.threads[0 := Configuring(ConfigureLoaded(w.file))];
    FlushedState(w3);
  }

  lemma {:induction false} SampledState(w: System)
    requires Initial(w) && 0 in w.threads
    ensures Then(Then(Then(w, 0, Configure), 0, Configure), 0, Configure) ==
            w.(updateMu := Some(0), persistMu := Some(0),
              threads := w.threads[0 := Configuring(ConfigureSampled(w.usage))])
  {
    var w1 := Then(w, 0, Configure);
    var w2 := Then(w1, 0, Configure);
    assert w1 == w.(updateMu := Some(0), threads := w.threads[0 := Configuring(ConfigureLocked)]);
    assert w2 == w1.(persistMu := Some(0), threads := w.threads[0 := Configuring(ConfigurePersist)]);
  }

  lemma {:induction false} FlushedState(w: System)
    requires 0 in w.threads && w.threads[0] == Configuring(ConfigureSampled(w.file.usage))
    ensures Then(Then(Then(w, 0, Configure), 0, Configure), 0, Configure) ==
            w.(persistMu := None, threads := w.threads[0 := Configuring(ConfigureLoaded(w.file))])
  {
    var w1 := Then(w, 0, Configure);
    var w2 := Then(w1, 0, Configure);
    assert w1 == w.(threads := w.threads[0 := Configuring(ConfigureFlushed)]);
    assert w2 == w1.(persistMu := None, threads := w.threads[0 := Configuring(ConfigureReleased)]);
  }

  lemma {:induction false} FlushSampledState(w: System)
    requires 1 in w.threads && w.threads[1] == Idle && w.persistMu.None? && w.ledgerMu.None?
    ensures Then(Then(w, 1, Flush), 1, Flush) ==
            w.(persistMu := Some(1), threads := w.threads[1 := Flushing(FlushSampled(w.usage))])
  {
    var w1 := Then(w, 1, Flush);
    assert w1 == w.(persistMu := Some(1), threads := w.threads[1 := Flushing(FlushLocked)]);
  }

  /**
   Across a reconfiguration the file can lead: a record made after the file was loaded is dropped from
   memory when the loaded counters are published, while a flush that had sampled it still writes it.
   */
  lemma {:induction false} FileCanLeadAfterReconfigure(w: System, a: Account)
    requires Initial(w) && 0 in w.threads && 1 in w.threads && w.usage == map[]
    ensures
      var billed := Apply(Loaded(w), Record(a));
      var sampled := Then(Then(billed, 1, Flush), 1, Flush);
      var end := Then(Then(sampled, 0, Configure), 1, Flush);
      w.next in Counted(end.file.usage, a) && w.next !in Counted(end.usage, a)
  {
    LoadedState(w);
    var billed := Apply(Loaded(w), Record(a));
    FlushSampledState(billed);
    var sampled := Then(Then(billed, 1, Flush), 1, Flush);
    var published := Then(sampled, 0, Configure);
    assert published.threads[1] == Flushing(FlushSampled(billed.usage));
  }

  // ------------------------------------------------------------------------------ no deadlock

  ghost predicate CanStep(w: System, t: Thread, c: Choice) {
    t in w.threads && !w.threads[t].Idle? && Advance(w, t, c).Some?
  }

  /** The lock order updateMu, persistMu, ledger keeps some unfinished operation able to move. */
  lemma {:induction false} NeverStuck(w: System, moves: seq<Move>, t: Thread, c: Choice)
    requires Initial(w) && t in Run(w, moves).threads && !Run(w, moves).threads[t].Idle?
    ensures exists u :: CanStep(Run(w, moves), u, c)
  {
    InitiallySafe(w);
    RunSafe(w, moves);
    var now := Run(w, moves);
    var holder :=
      if now.ledgerMu.Some? then now.ledgerMu.value
      else if now.persistMu.Some? then now.persistMu.value
      else t;
    HolderMoves(now, holder, c);
  }

  lemma {:induction false} HolderMoves(w: System, t: Thread, c: Choice)
    requires LocksHeld(w) && t in w.threads && !w.threads[t].Idle?
    requires w.ledgerMu.Some? ==> w.ledgerMu == Some(t)
    requires w.ledgerMu.None? && w.persistMu.Some? ==> w.persistMu == Some(t)
    ensures CanStep(w, t, c)
  {
  }
}
