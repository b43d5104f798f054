/** What an operation has done by the time its thread is idle again, whatever the other threads did meanwhile. */
module Completion {
  import opened Options
  import opened History
  import opened Operations
  import opened Persistence
  import opened Durability

  /** The thread is busy before each of the moves. */
  ghost predicate Busy(w: System, moves: seq<Move>, t: Thread) {
    forall i :: 0 <= i < |moves| ==> t in Run(w, moves[..i]).threads && Run(w, moves[..i]).threads[t] != Idle
  }

  /** The thread's step that writes the file for a mutation or a reset, with a disk that works. */
  predicate Writes(w: System, move: Move, t: Thread) {
    && move.Step? && move.thread == t && t in w.threads && move.choice.diskOK
    && match w.threads[t]
       case Saving(p) => p.SaveReady?
       case Editing(p) => p.EditReady?
       case Committing(p) => p.CommitPersist?
       case Resetting(p) => p.ResetSampled?
       case _ => false
  }

  ghost predicate Wrote(w: System, moves: seq<Move>, t: Thread) {
    exists i :: 0 <= i < |moves| && Writes(Run(w, moves[..i]), moves[i], t)
  }

  lemma {:induction false} BusyFront(w: System, moves: seq<Move>, t: Thread)
    requires moves != [] && Busy(w, moves, t)
    ensures
      var front, last := moves[..|moves| - 1], moves[|moves| - 1];
      && Busy(w, front, t) && t in Run(w, front).threads && Run(w, front).threads[t] != Idle
      && (Wrote(w, moves, t) <==> Wrote(w, front, t) || Writes(Run(w, front), last, t))
  {
    hide Run, Writes;
    var front := moves[..|moves| - 1];
    assert forall i :: 0 <= i <= |front| ==> front[..i] == moves[..i];
    assert moves[..|front|] == front;
  }

  // ------------------------------------------------------------------------- saves, edits and commits

  /** File and memory hold the pair if it was written, and what they held before if not. */
  predicate Settled(w: System, policy: State, wrote: bool, before: System) {
    if wrote then w.file.policy == policy == w.policy
    else w.file.policy == before.file.policy && w.policy == before.policy
  }

  /** Written or not, memory still has what it had. */
  predicate Pending(w: System, policy: State, wrote: bool, before: System) {
    && w.policy == before.policy
    && w.file.policy == if wrote then policy else before.file.policy
  }

  /** The pair an operation that was not refused is about to write. */
  function Proposal(w: System, pc: PC): Option<State> {
    match pc
    case Saving(SaveSampled(_)) => Some(w.policy)
    case Editing(EditProposed(_, bindings)) => Some(State(bindings, w.policy.history))
    case Committing(CommitProposed(_, policy)) => Some(policy)
    case _ => None
  }

  ghost predicate Stage(w: System, t: Thread, policy: State, wrote: bool, before: System) {
    t in w.threads && match w.threads[t]
    case Saving(p) => SaveStage(w, p, policy, wrote, before)
    case Editing(p) => EditStage(w, p, policy, wrote, before)
    case Committing(p) => CommitStage(w, p, policy, wrote, before)
    case Leaving => Settled(w, policy, wrote, before)
    case Idle => Settled(w, policy, wrote, before)
    case _ => false
  }

  ghost predicate SaveStage(w: System, pc: SavePC, policy: State, wrote: bool, before: System) {
    match pc
    case SaveLocked => false
    case SaveSampled(_) => policy == before.policy && !wrote && Pending(w, policy, false, before)
    case SaveBindings(_, b) =>
      policy == before.policy && b == policy.bindings && !wrote && Pending(w, policy, false, before)
    case SavePersist(_, b) =>
      policy == before.policy && b == policy.bindings && !wrote && Pending(w, policy, false, before)
    case SaveReady(_, p) => p == policy == before.policy && !wrote && Pending(w, policy, false, before)
    case SaveWritten => policy == before.policy && Pending(w, policy, wrote, before)
  }

  ghost predicate EditStage(w: System, pc: EditPC, policy: State, wrote: bool, before: System) {
    policy.history == before.policy.history && match pc
    case EditLocked => false
    case EditProposed(_, b) => b == policy.bindings && !wrote && Pending(w, policy, false, before)
    case EditPersist(_, b) => b == policy.bindings && !wrote && Pending(w, policy, false, before)
    case EditReady(_, p) => p == policy && !wrote && Pending(w, policy, false, before)
    case EditWritten(p, ok) => p == policy && ok == wrote && Pending(w, policy, wrote, before)
    case EditReleased(p, ok) => p == policy && ok == wrote && Pending(w, policy, wrote, before)
  }

  ghost predicate CommitStage(w: System, pc: CommitPC, policy: State, wrote: bool, before: System) {
    match pc
    case CommitLocked => false
    case CommitProposed(_, p) => p == policy && !wrote && Pending(w, policy, false, before)
    case CommitPersist(_, p) => p == policy && !wrote && Pending(w, policy, false, before)
    case CommitWritten(p, ok) => p == policy && ok == wrote && Pending(w, policy, wrote, before)
    case CommitReleased(p, ok) => p == policy && ok == wrote && Pending(w, policy, wrote, before)
  }

  /** While a thread holds updateMu no other changes the pair in file or memory, nor where that thread stands. */
  lemma {:induction false} OthersLeavePolicy(w: System, move: Move, t: Thread)
    requires Safe(w) && t in w.threads && HoldsUpdate(w.threads[t]) && !(move.Step? && move.thread == t)
    ensures
      var next := Apply(w, move);
      && t in next.threads && next.threads[t] == w.threads[t]
      && next.policy == w.policy && next.file.policy == w.file.policy
  {
    if move.Step? && move.thread in w.threads && Advance(w, move.thread, move.choice).Some? {
      assert PolicySampled(w, w.threads[move.thread]) && !HoldsUpdate(w.threads[move.thread]);
      AdvanceEffect(w, move.thread, move.choice, Advance(w, move.thread, move.choice).value);
    }
  }

  lemma {:induction false} OwnSave(w: System, t: Thread, c: Choice, policy: State, wrote: bool, before: System)
    requires Stage(w, t, policy, wrote, before) && w.threads[t].Saving?
    ensures Stage(Apply(w, Step(t, c)), t, policy, wrote || Writes(w, Step(t, c), t), before)
  {
    hide EditStage, CommitStage, FlushStep, EditStep, CommitStep, ResetStep, ConfigureStep, EdgeStep;
    match w.threads[t].save
    case SaveSampled(_) =>
    case SaveBindings(_, _) =>
    case SavePersist(_, _) =>
    case SaveReady(_, _) =>
    case SaveWritten =>
  }

  lemma {:induction false} EditStepStage(w: System, t: Thread, c: Choice, policy: State, wrote: bool, before: System)
    requires t in w.threads && w.threads[t].Editing? && EditStage(w, w.threads[t].edit, policy, wrote, before)
    ensures !w.threads[t].edit.EditLocked?
    ensures
      match EditStep(w, t, c)
      case Some(next) => Stage(next, t, policy, wrote || (w.threads[t].edit.EditReady? && c.diskOK), before)
      case None => !w.threads[t].edit.EditReady?
  {
    hide SaveStage, CommitStage;
    match w.threads[t].edit
    case EditProposed(_, _) =>
    case EditPersist(_, _) =>
    case EditReady(_, _) =>
    case EditWritten(_, _) =>
    case EditReleased(_, _) =>
  }

  lemma {:induction false} OwnEdit(w: System, t: Thread, c: Choice, policy: State, wrote: bool, before: System)
    requires Stage(w, t, policy, wrote, before) && w.threads[t].Editing?
    ensures Stage(Apply(w, Step(t, c)), t, policy, wrote || Writes(w, Step(t, c), t), before)
  {
    hide SaveStage, EditStage, CommitStage, Settled;
    hide FlushStep, SaveStep, EditStep, CommitStep, ResetStep, ConfigureStep, EdgeStep;
    EditStepStage(w, t, c, policy, wrote, before);
  }

  lemma {:induction false} OwnCommit(w: System, t: Thread, c: Choice, policy: State, wrote: bool, before: System)
    requires Stage(w, t, policy, wrote, before) && w.threads[t].Committing?
    ensures Stage(Apply(w, Step(t, c)), t, policy, wrote || Writes(w, Step(t, c), t), before)
  {
    hide SaveStage, EditStage, FlushStep, SaveStep, EditStep, ResetStep, ConfigureStep, EdgeStep;
    match w.threads[t].commit
    case CommitProposed(_, _) =>
    case CommitPersist(_, _) =>
    case CommitWritten(_, _) =>
    case CommitReleased(_, _) =>
  }

  lemma {:induction false} StageMove(w: System, move: Move, t: Thread, policy: State, wrote: bool, before: System)
    requires Safe(w) && Stage(w, t, policy, wrote, before) && w.threads[t] != Idle
    ensures Stage(Apply(w, move), t, policy, wrote || Writes(w, move, t), before)
  {
    if !(move.Step? && move.thread == t) {
      OthersLeavePolicy(w, move, t);
    } else if w.threads[t].Saving? {
      OwnSave(w, t, move.choice, policy, wrote, before);
    } else if w.threads[t].Editing? {
      OwnEdit(w, t, move.choice, policy, wrote, before);
    } else if w.threads[t].Committing? {
      OwnCommit(w, t, move.choice, policy, wrote, before);
    }
  }

  lemma {:induction false} Stages(w: System, moves: seq<Move>, t: Thread, policy: State)
    requires Safe(w) && Stage(w, t, policy, false, w) && Busy(w, moves, t)
    ensures Stage(Run(w, moves), t, policy, Wrote(w, moves, t), w)
  {
    hide Stage, Safe, Writes, Apply;
    if moves != [] {
      var front, last := moves[..|moves| - 1], moves[|moves| - 1];
      BusyFront(w, moves, t);
      Stages(w, front, t, policy);
      RunSafe(w, front);
      StageMove(Run(w, front), last, t, policy, Wrote(w, front, t), w);
    }
  }

  /**
   A save, an edit of one binding, a batch or a rollback that was not refused: once its thread is idle again,
   file and memory hold its pair if the disk worked when it wrote, and else the pairs they held before.
   */
  lemma {:induction false} MutationTakesEffect(w: System, moves: seq<Move>, t: Thread)
    requires Safe(w) && t in w.threads && Proposal(w, w.threads[t]).Some?
    requires Busy(w, moves, t) && t in Run(w, moves).threads && Run(w, moves).threads[t] == Idle
    ensures Settled(Run(w, moves), Proposal(w, w.threads[t]).value, Wrote(w, moves, t), w)
  {
    hide Safe, Apply, Run, Busy, Wrote;
    Stages(w, moves, t, Proposal(w, w.threads[t]).value);
  }

  // ------------------------------------------------------------------------- resets

  /** Live counters only grow, but for accounts that were reset. */
  ghost predicate OnlyLost(w: System, before: System, accounts: set<Account>) {
    && before.next <= w.next
    && forall a :: a !in accounts ==> Counted(before.usage, a) <= Counted(w.usage, a)
  }

  ghost predicate ResetStage(w: System, t: Thread, accounts: set<Account>, wrote: bool, before: System) {
    t in w.threads && match w.threads[t]
    case Resetting(p) =>
      (match p
       case ResetLocked => false
       case ResetChosen(a) => a == accounts && !wrote && OnlyLost(w, before, {})
       case ResetPersist(a) => a == accounts && !wrote && OnlyLost(w, before, {})
       case ResetLedger(a) => a == accounts && !wrote && OnlyLost(w, before, {})
       case ResetSampled(a, _) => a == accounts && !wrote && OnlyLost(w, before, {})
       case ResetWritten(a, ok) => a == accounts && ok == wrote && OnlyLost(w, before, {})
       case ResetPublished => Forgotten(w, accounts, wrote, before))
    case Leaving => Forgotten(w, accounts, wrote, before)
    case Idle => Forgotten(w, accounts, wrote, before)
    case _ => false
  }

  ghost predicate Forgotten(w: System, accounts: set<Account>, wrote: bool, before: System) {
    && OnlyLost(w, before, if wrote then accounts else {})
    && (wrote ==> forall a :: a in accounts ==> before.next <= ClearedAt(w.cleared, a))
  }

  /** While a thread holds updateMu no other takes records off the live counters. */
  lemma {:induction false} OthersLeaveCounters(w: System, move: Move, t: Thread)
    requires Safe(w) && t in w.threads && HoldsUpdate(w.threads[t]) && !(move.Step? && move.thread == t)
    ensures
      var next := Apply(w, move);
      && t in next.threads && next.threads[t] == w.threads[t] && next.cleared == w.cleared && OnlyLost(next, w, {})
  {
    hide SaveStep, EditStep, CommitStep, ResetStep, ConfigureStep;
    if move.Step? && move.thread in w.threads {
      var pc := w.threads[move.thread];
      assert !HoldsUpdate(pc);
      if pc.Flushing? {
        match pc.flush
        case FlushLocked =>
        case FlushSampled(_) =>
        case FlushWritten =>
      } else {
        match move.choice.task
        case Flush =>
        case Save =>
        case Edit =>
        case Commit =>
        case Reset =>
        case Configure =>
      }
    }
  }

  lemma {:induction false} OwnReset(w: System, t: Thread, c: Choice, accounts: set<Account>, wrote: bool,
          before: System)
    requires ResetStage(w, t, accounts, wrote, before) && w.threads[t] != Idle
    ensures ResetStage(Apply(w, Step(t, c)), t, accounts, wrote || Writes(w, Step(t, c), t), before)
  {
    hide FlushStep, SaveStep, EditStep, CommitStep, ConfigureStep;
    if w.threads[t].Resetting? {
      match w.threads[t].reset
      case ResetChosen(_) =>
      case ResetPersist(_) =>
      case ResetLedger(_) =>
      case ResetSampled(_, _) =>
      case ResetWritten(_, _) =>
      case ResetPublished =>
    }
  }

  lemma {:induction false} ResetMove(w: System, move: Move, t: Thread, accounts: set<Account>, wrote: bool,
          before: System)
    requires Safe(w) && ResetStage(w, t, accounts, wrote, before) && w.threads[t] != Idle
    ensures ResetStage(Apply(w, move), t, accounts, wrote || Writes(w, move, t), before)
  {
    if move.Step? && move.thread == t {
      OwnReset(w, t, move.choice, accounts, wrote, before);
    } else {
      OthersLeaveCounters(w, move, t);
    }
  }

  lemma {:induction false} ResetStages(w: System, moves: seq<Move>, t: Thread, accounts: set<Account>)
    requires Safe(w) && ResetStage(w, t, accounts, false, w) && Busy(w, moves, t)
    ensures ResetStage(Run(w, moves), t, accounts, Wrote(w, moves, t), w)
  {
    hide ResetStage, Safe, Writes, Apply;
    if moves != [] {
      var front, last := moves[..|moves| - 1], moves[|moves| - 1];
      BusyFront(w, moves, t);
      ResetStages(w, front, t, accounts);
      RunSafe(w, front);
      ResetMove(Run(w, front), last, t, accounts, Wrote(w, front, t), w);
    }
  }

  /**
   A quota reset that was not refused: once its thread is idle again, neither file nor memory counts a record
   of the chosen accounts from before it if the disk worked when it wrote. Memory loses no record of any other
   account meanwhile, and none at all if the disk failed.
   */
  lemma {:induction false} ResetTakesEffect(w: System, moves: seq<Move>, t: Thread, accounts: set<Account>)
    requires Safe(w) && t in w.threads && w.threads[t] == Resetting(ResetChosen(accounts))
    requires Busy(w, moves, t) && t in Run(w, moves).threads && Run(w, moves).threads[t] == Idle
    ensures Wrote(w, moves, t) ==> forall a, n :: a in accounts && n < w.next ==>
              n !in Counted(Run(w, moves).usage, a) && n !in Counted(Run(w, moves).file.usage, a)
    ensures OnlyLost(Run(w, moves), w, if Wrote(w, moves, t) then accounts else {})
  {
    ResetStages(w, moves, t, accounts);
    RunSafe(w, moves);
    ForgottenAreGone(Run(w, moves), accounts, Wrote(w, moves, t), w);
  }

  lemma {:induction false} ForgottenAreGone(w: System, accounts: set<Account>, wrote: bool, before: System)
    requires AllClean(w) && Forgotten(w, accounts, wrote, before)
    ensures wrote ==> forall a, n :: a in accounts && n < before.next ==>
              n !in Counted(w.usage, a) && n !in Counted(w.file.usage, a)
  {
    hide ThreadClean, Counted;
  }

  // ------------------------------------------------------------------------- counters in the file

  /** The counters a mutation or a reconfiguration has sampled to write them. */
  function Carrying(pc: PC): Option<Usage> {
    match pc
    case Saving(_) => Sample(pc)
    case Editing(_) => Sample(pc)
    case Committing(_) => Sample(pc)
    case Configuring(ConfigureSampled(u)) => Some(u)
    case _ => None
  }

  /** The thread's step that writes them, with a disk that works. */
  predicate WritesCounters(w: System, move: Move, t: Thread) {
    || (Writes(w, move, t) && !w.threads[t].Resetting?)
    || (move.Step? && move.thread == t && t in w.threads && move.choice.diskOK && w.threads[t].Configuring?
        && w.threads[t].configure.ConfigureSampled?)
  }

  /** Memory, file and everything that a thread may still write or publish count these records. */
  ghost predicate Carried(w: System, usage: Usage) {
    && Within(usage, w.usage) && Within(usage, w.file.usage)
    && forall t :: t in w.threads && Sample(w.threads[t]).Some? ==> Within(usage, Sample(w.threads[t]).value)
  }

  predicate HoldsOff(pc: PC) {
    HoldsUpdate(pc) && !pc.Resetting?
  }

  lemma {:induction false} WritingCarries(w: System, move: Move, t: Thread, usage: Usage)
    requires Safe(w) && WritesCounters(w, move, t) && Carrying(w.threads[t]) == Some(usage) && Within(usage, w.usage)
    ensures Carried(Apply(w, move), usage) && HoldsOff(Apply(w, move).threads[t])
  {
    var next := Apply(w, move);
    WritingSteps(w, move, t, usage);
    hide Apply, WritesCounters, Carrying;
    forall u | u in next.threads && u != t ensures Sample(next.threads[u]).None? {
      SampleNeedsLock(w, t, u);
    }
  }

  ghost predicate WritesSample(w: System, t: Thread, next: System, usage: Usage) {
    && next.usage == w.usage && next.file.usage == usage
    && t in next.threads && next.threads == w.threads[t := next.threads[t]]
    && Sample(next.threads[t]).None? && HoldsOff(next.threads[t])
  }

  lemma {:induction false} SaveWrites(w: System, t: Thread, c: Choice, usage: Usage)
    requires t in w.threads && w.threads[t].Saving? && w.threads[t].save.SaveReady?
    requires w.threads[t].save.usage == usage && c.diskOK
    ensures SaveStep(w, t, c).Some? && WritesSample(w, t, SaveStep(w, t, c).value, usage)
  {
  }

  lemma {:induction false} EditWrites(w: System, t: Thread, c: Choice, usage: Usage)
    requires t in w.threads && w.threads[t].Editing? && w.threads[t].edit.EditReady?
    requires w.threads[t].edit.usage == usage && c.diskOK
    ensures EditStep(w, t, c).Some? && WritesSample(w, t, EditStep(w, t, c).value, usage)
  {
  }

  lemma {:induction false} CommitWrites(w: System, t: Thread, c: Choice, usage: Usage)
    requires t in w.threads && w.threads[t].Committing? && w.threads[t].commit.CommitPersist?
    requires w.threads[t].commit.usage == usage && c.diskOK
    ensures CommitStep(w, t, c).Some? && WritesSample(w, t, CommitStep(w, t, c).value, usage)
  {
  }

  lemma {:induction false} ConfigureWrites(w: System, t: Thread, c: Choice, usage: Usage)
    requires t in w.threads && w.threads[t].Configuring? && w.threads[t].configure.ConfigureSampled?
    requires w.threads[t].configure.usage == usage && c.diskOK
    ensures ConfigureStep(w, t, c).Some? && WritesSample(w, t, ConfigureStep(w, t, c).value, usage)
  {
  }

  lemma {:induction false} WritingSteps(w: System, move: Move, t: Thread, usage: Usage)
    requires WritesCounters(w, move, t) && Carrying(w.threads[t]) == Some(usage)
    ensures
      HoldsPersist(w.threads[t]) && HoldsUpdate(w.threads[t]) && WritesSample(w, t, Apply(w, move), usage)
  {
    hide SaveStep, EditStep, CommitStep, ConfigureStep, WritesSample;
    if w.threads[t].Saving? {
      SaveWrites(w, t, move.choice, usage);
    } else if w.threads[t].Editing? {
      EditWrites(w, t, move.choice, usage);
    } else if w.threads[t].Committing? {
      CommitWrites(w, t, move.choice, usage);
    } else {
      ConfigureWrites(w, t, move.choice, usage);
    }
  }

  /** Nothing but a reset takes records off, and none starts while a thread holds updateMu for something else. */
  lemma {:induction false} CarriedNext(w: System, move: Move, t: Thread, usage: Usage)
    requires Safe(w) && Carried(w, usage) && t in w.threads && HoldsOff(w.threads[t])
    ensures Carried(Apply(w, move), usage)
  {
    if move.Step? && move.thread in w.threads && Advance(w, move.thread, move.choice).Some? {
      var u, next := move.thread, Apply(w, move);
      assert PolicySampled(w, w.threads[u]) && !WroteReset(w.threads[u]);
      AdvanceEffect(w, u, move.choice, next);
      StepCarries(w, u, next, usage);
    }
  }

  lemma {:induction false} StepCarries(w: System, u: Thread, next: System, usage: Usage)
    requires Carried(w, usage) && u in w.threads && u in next.threads
    requires LockEffect(w, u, next) && UsageEffect(w, u, next)
    requires !(next.threads[u].Resetting? && next.threads[u].reset.ResetSampled?)
    ensures Carried(next, usage)
  {
    hide Within, PolicyEffect;
  }

  lemma {:induction false} SaveHoldsOff(w: System, t: Thread, c: Choice, next: System)
    requires t in w.threads && w.threads[t].Saving? && SaveStep(w, t, c) == Some(next)
    ensures t in next.threads && HoldsOff(next.threads[t])
  {
    match w.threads[t].save
    case SaveLocked =>
    case SaveSampled(_) =>
    case SaveBindings(_, _) =>
    case SavePersist(_, _) =>
    case SaveReady(_, _) =>
    case SaveWritten =>
  }

  lemma {:induction false} EditHoldsOff(w: System, t: Thread, c: Choice, next: System)
    requires t in w.threads && w.threads[t].Editing? && EditStep(w, t, c) == Some(next)
    ensures t in next.threads && HoldsOff(next.threads[t])
  {
    match w.threads[t].edit
    case EditLocked =>
    case EditProposed(_, _) =>
    case EditPersist(_, _) =>
    case EditReady(_, _) =>
    case EditWritten(_, _) =>
    case EditReleased(_, _) =>
  }

  lemma {:induction false} CommitHoldsOff(w: System, t: Thread, c: Choice, next: System)
    requires t in w.threads && w.threads[t].Committing? && CommitStep(w, t, c) == Some(next)
    ensures t in next.threads && HoldsOff(next.threads[t])
  {
    match w.threads[t].commit
    case CommitLocked =>
    case CommitProposed(_, _) =>
    case CommitPersist(_, _) =>
    case CommitWritten(_, _) =>
    case CommitReleased(_, _) =>
  }

  lemma {:induction false} ConfigureHoldsOff(w: System, t: Thread, c: Choice, next: System)
    requires t in w.threads && w.threads[t].Configuring? && ConfigureStep(w, t, c) == Some(next)
    ensures t in next.threads && HoldsOff(next.threads[t])
  {
    match w.threads[t].configure
    case ConfigureLocked =>
    case ConfigurePersist =>
    case ConfigureSampled(_) =>
    case ConfigureFlushed =>
    case ConfigureReleased =>
    case ConfigureLoaded(_) =>
  }

  /** Not resetting stays not resetting until the thread is idle. */
  lemma {:induction false} HoldsOffNext(w: System, move: Move, t: Thread)
    requires Safe(w) && t in w.threads && HoldsOff(w.threads[t])
    ensures t in Apply(w, move).threads
    ensures HoldsOff(Apply(w, move).threads[t]) || Apply(w, move).threads[t] == Idle
  {
    if !(move.Step? && move.thread == t) {
      OthersLeaveCounters(w, move, t);
    } else if Advance(w, t, move.choice).Some? {
      hide SaveStep, EditStep, CommitStep, ConfigureStep;
      var pc, c, next := w.threads[t], move.choice, Advance(w, t, move.choice).value;
      if c.refused && Refusable(pc) {
      } else if pc.Saving? {
        SaveHoldsOff(w, t, c, next);
      } else if pc.Editing? {
        EditHoldsOff(w, t, c, next);
      } else if pc.Committing? {
        CommitHoldsOff(w, t, c, next);
      } else if pc.Configuring? {
        ConfigureHoldsOff(w, t, c, next);
      }
    }
  }

  lemma {:induction false} CarriedAlong(w: System, moves: seq<Move>, t: Thread, usage: Usage)
    requires Safe(w) && Carried(w, usage) && t in w.threads && HoldsOff(w.threads[t]) && Busy(w, moves, t)
    ensures
      var end := Run(w, moves);
      Carried(end, usage) && t in end.threads && (HoldsOff(end.threads[t]) || end.threads[t] == Idle)
  {
    hide Safe, Carried, Apply, HoldsOff;
    if moves != [] {
      var front, last := moves[..|moves| - 1], moves[|moves| - 1];
      BusyFront(w, moves, t);
      CarriedAlong(w, front, t, usage);
      RunSafe(w, front);
      CarriedNext(Run(w, front), last, t, usage);
      HoldsOffNext(Run(w, front), last, t);
    }
  }

  /** The thread carries these counters from here through the moves. */
  ghost predicate CarriesAlong(w: System, moves: seq<Move>, t: Thread, usage: Usage) {
    forall i :: 0 <= i <= |moves| ==>
      t in Run(w, moves[..i]).threads && Carrying(Run(w, moves[..i]).threads[t]) == Some(usage)
  }

  lemma {:induction false} StaysLive(w: System, moves: seq<Move>, t: Thread, usage: Usage)
    requires Safe(w) && Within(usage, w.usage) && CarriesAlong(w, moves, t, usage)
    ensures Within(usage, Run(w, moves).usage) && t in Run(w, moves).threads
    ensures Carrying(Run(w, moves).threads[t]) == Some(usage)
  {
    hide Safe, Within, Carrying, Apply;
    assert moves[..|moves|] == moves;
    if moves != [] {
      var front, last := moves[..|moves| - 1], moves[|moves| - 1];
      assert forall i :: 0 <= i <= |front| ==> front[..i] == moves[..i];
      StaysLive(w, front, t, usage);
      RunSafe(w, front);
      StaysLiveNext(Run(w, front), last, t, usage);
    }
  }

  lemma {:induction false} StaysLiveNext(w: System, move: Move, t: Thread, usage: Usage)
    requires Safe(w) && Within(usage, w.usage) && t in w.threads && Carrying(w.threads[t]) == Some(usage)
    ensures Within(usage, Apply(w, move).usage)
  {
    if move.Step? && move.thread == t {
      var next := Apply(w, move);
      assert !WroteReset(w.threads[t]) && !Publishes(w, move);
      if Advance(w, t, move.choice).Some? { UsageKept(w, t, move.choice); }
    } else {
      OthersLeaveCounters(w, move, t);
    }
  }

  /**
   The counters that a mutation or a reconfiguration sampled and then wrote, with a disk that works: by the time
   its thread is idle again, file and memory still count every record of the sample.
   */
  lemma {:induction false} SampleIsKept(w: System, moves: seq<Move>, j: nat, t: Thread)
    requires Safe(w) && j < |moves| && CarriesAlong(w, moves[..j], t, w.usage)
    requires WritesCounters(Run(w, moves[..j]), moves[j], t)
    requires Busy(Run(w, moves[..j + 1]), moves[j + 1..], t)
    ensures Within(w.usage, Run(w, moves).usage) && Within(w.usage, Run(w, moves).file.usage)
  {
    hide Safe, Within, Apply, WritesCounters, Carrying, HoldsOff;
    var there := Run(w, moves[..j]);
    assert Within(w.usage, w.usage) by { WithinItself(w.usage); }
    StaysLive(w, moves[..j], t, w.usage);
    RunSafe(w, moves[..j]);
    WritingCarries(there, moves[j], t, w.usage);
    assert moves[..j + 1][..j] == moves[..j] && moves[..j + 1][j] == moves[j];
    RunSafe(w, moves[..j + 1]);
    assert t in Run(w, moves[..j + 1]).threads by { WritingKeepsThread(there, moves[j], t); }
    CarriedAlong(Run(w, moves[..j + 1]), moves[j + 1..], t, w.usage);
    RunSplits(w, moves, j + 1);
  }

  lemma {:induction false} WithinItself(usage: Usage)
    ensures Within(usage, usage)
  {
  }

  lemma {:induction false} WritingKeepsThread(w: System, move: Move, t: Thread)
    requires WritesCounters(w, move, t)
    ensures t in Apply(w, move).threads
  {
  }

  lemma {:induction false} RunSplits(w: System, moves: seq<Move>, i: nat)
    requires i <= |moves|
    ensures Run(Run(w, moves[..i]), moves[i..]) == Run(w, moves)
  {
    if i < |moves| {
      var front := moves[..|moves| - 1];
      assert front[..i] == moves[..i] && moves[i..][..|moves| - i - 1] == front[i..];
      RunSplits(w, front, i);
    } else {
      assert moves[..i] == moves && moves[i..] == [];
    }
  }

  // ------------------------------------------------------------------------- flushes

  /** A flush at the moment of its write: nothing else writes the file until its thread is idle again. */
  lemma {:induction false} FlushTakesEffect(w: System, moves: seq<Move>, t: Thread, usage: Usage, c: Choice)
    requires Safe(w) && t in w.threads && w.threads[t] == Flushing(FlushSampled(usage))
    requires Busy(Apply(w, Step(t, c)), moves, t)
    ensures Run(Apply(w, Step(t, c)), moves).file == if c.diskOK then File(usage, w.file.policy) else w.file
  {
    ApplySafe(w, Step(t, c));
    FileStays(Apply(w, Step(t, c)), moves, t);
  }

  lemma {:induction false} FileStays(w: System, moves: seq<Move>, t: Thread)
    requires Safe(w) && t in w.threads && w.threads[t] == Flushing(FlushWritten) && Busy(w, moves, t)
    ensures
      var end := Run(w, moves);
      end.file == w.file && t in end.threads && (end.threads[t] == Idle || end.threads[t] == Flushing(FlushWritten))
  {
    hide Safe, Apply;
    if moves != [] {
      var front, last := moves[..|moves| - 1], moves[|moves| - 1];
      BusyFront(w, moves, t);
      FileStays(w, front, t);
      RunSafe(w, front);
      FileStaysAtMove(Run(w, front), last, t);
    }
  }

  lemma {:induction false} FileStaysAtMove(w: System, move: Move, t: Thread)
    requires Safe(w) && t in w.threads && w.threads[t] == Flushing(FlushWritten)
    ensures
      var next := Apply(w, move);
      && next.file == w.file && t in next.threads
      && (next.threads[t] == Idle || next.threads[t] == Flushing(FlushWritten))
  {
    if move.Step? && move.thread in w.threads && move.thread != t {
      assert !HoldsPersist(w.threads[move.thread]);
      WritingNeedsLock(w, move.thread, move.choice);
    }
  }

  /** Only the holder of persistMu writes the file. */
  lemma {:induction false} WritingNeedsLock(w: System, t: Thread, c: Choice)
    requires t in w.threads && !HoldsPersist(w.threads[t])
    ensures
      var next := Apply(w, Step(t, c));
      next.file == w.file && t in next.threads && next.threads == w.threads[t := next.threads[t]]
  {
    hide FlushStep, Begin;
    var pc := w.threads[t];
    if pc.Saving? {
      match pc.save
      case SaveLocked =>
      case SaveSampled(_) =>
      case SaveBindings(_, _) =>
    } else if pc.Idle? && Begin(w, t, c.task).Some? {
      BeginningWritesNothing(w, t, c.task);
    }
  }

  lemma {:induction false} BeginningWritesNothing(w: System, t: Thread, task: Task)
    requires t in w.threads && Begin(w, t, task).Some?
    ensures
      var next := Begin(w, t, task).value;
      next.file == w.file && t in next.threads && next.threads == w.threads[t := next.threads[t]]
  {
    match task
    case Flush =>
    case Save =>
    case Edit =>
    case Commit =>
    case Reset =>
    case Configure =>
  }

  // ------------------------------------------------------------------------- records

  /** Every record that is counted anywhere was taken before now. */
  ghost predicate Numbered(usage: Usage, next: Serial) {
    forall a, n :: n in Counted(usage, a) ==> n < next
  }

  ghost predicate AllNumbered(w: System) {
    && Numbered(w.usage, w.next) && Numbered(w.file.usage, w.next)
    && forall t :: t in w.threads && Sample(w.threads[t]).Some? ==> Numbered(Sample(w.threads[t]).value, w.next)
  }

  lemma {:induction false} StepNumbers(w: System, t: Thread, next: System)
    requires AllNumbered(w) && t in w.threads && t in next.threads && LockEffect(w, t, next) && UsageEffect(w, t, next)
    ensures AllNumbered(next)
  {
    hide Numbered;
    var became := next.threads[t];
    if became.Resetting? && became.reset.ResetSampled? { ClearedNumbered(w.usage, became.reset.accounts, w.next); }
  }

  lemma {:induction false} ClearedNumbered(usage: Usage, accounts: set<Account>, next: Serial)
    requires Numbered(usage, next)
    ensures Numbered(Cleared(usage, accounts), next)
  {
    forall a, n | n in Counted(Cleared(usage, accounts), a) ensures n < next {
      assert n in Counted(usage, a);
    }
  }

  lemma {:induction false} ResetNumbers(w: System, t: Thread, c: Choice)
    requires AllNumbered(w) && t in w.threads && WroteReset(w.threads[t])
    ensures AllNumbered(Apply(w, Step(t, c)))
  {
    ClearedNumbered(w.usage, w.threads[t].reset.accounts, w.next);
    hide Numbered;
  }

  lemma {:induction false} BillNumbers(w: System, a: Account)
    requires AllNumbered(w)
    ensures AllNumbered(Bill(w, a))
  {
    var next := Bill(w, a);
    forall b, n | n in Counted(next.usage, b) ensures n < next.next {
      assert n in Counted(w.usage, b) || n == w.next;
    }
  }

  lemma {:induction false} RunNumbers(w: System, moves: seq<Move>)
    requires Safe(w) && AllNumbered(w)
    ensures AllNumbered(Run(w, moves))
  {
    if moves != [] {
      var front, last := Run(w, moves[..|moves| - 1]), moves[|moves| - 1];
      RunNumbers(w, moves[..|moves| - 1]);
      RunSafe(w, moves[..|moves| - 1]);
      hide AllNumbered, Advance;
      if last.Record? {
        BillNumbers(front, last.account);
      } else if last.thread in front.threads && Advance(front, last.thread, last.choice).Some? {
        if WroteReset(front.threads[last.thread]) {
          ResetNumbers(front, last.thread, last.choice);
        } else {
          assert PolicySampled(front, front.threads[last.thread]);
          AdvanceEffect(front, last.thread, last.choice, Apply(front, last));
          StepNumbers(front, last.thread, Apply(front, last));
        }
      }
    }
  }

  /**
   A record that the ledger takes is one more for its account, that nothing counted before, and none less for any
   other; while a reset holds the ledger's lock it has to wait.
   */
  lemma {:induction false} RecordIsOneMore(w: System, moves: seq<Move>, a: Account)
    requires Safe(w) && AllNumbered(w)
    ensures
      var before, after := Run(w, moves), Apply(Run(w, moves), Move.Record(a));
      && (before.ledgerMu.Some? ==> after == before)
      && (before.ledgerMu.None? ==>
            && |Counted(after.usage, a)| == |Counted(before.usage, a)| + 1
            && Counted(before.usage, a) <= Counted(after.usage, a)
            && (forall b :: b != a ==> Counted(after.usage, b) == Counted(before.usage, b))
            && after.file == before.file)
  {
    RunNumbers(w, moves);
    var before := Run(w, moves);
    assert before.next !in Counted(before.usage, a);
  }
}
