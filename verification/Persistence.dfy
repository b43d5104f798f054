/**
 The writers of the state file as threads that take one atomic step at a time.
 updateMu serialises management operations, persistMu serialises file writes, the ledger lock guards
 the live counters. Critical sections of the store's read-write lock are single steps.
 */
module Persistence {
  import opened Options
  import opened Bindings
  import opened History
  import opened Operations

  type Thread = nat
  type Account = nat

  /** Usage records are numbered in the order in which the ledger takes them. */
  type Serial = nat

  /** Which records each account's counters count. */
  type Usage = map<Account, set<Serial>>

  function Counted(usage: Usage, account: Account): set<Serial> {
    if account in usage then usage[account] else {}
  }

  /** The state file, replaced as a whole. policy is the pair of bindings and history. */
  datatype File = File(usage: Usage, policy: State)

  datatype Task = Flush | Save | Edit | Commit | Reset | Configure

  // FlushUsage
  datatype FlushPC = FlushLocked | FlushSampled(usage: Usage) | FlushWritten

  // A management mutation followed by saveState
  datatype SavePC =
    | SaveLocked | SaveSampled(usage: Usage) | SaveBindings(usage: Usage, bindings: Bindings)
    | SavePersist(usage: Usage, bindings: Bindings) | SaveReady(usage: Usage, policy: State) | SaveWritten

  // Create, update or delete of one binding: proposed bindings, history sampled under persistMu
  datatype EditPC =
    | EditLocked | EditProposed(usage: Usage, bindings: Bindings) | EditPersist(usage: Usage, bindings: Bindings)
    | EditReady(usage: Usage, policy: State) | EditWritten(policy: State, ok: bool)
    | EditReleased(policy: State, ok: bool)

  // Batch or rollback: the proposed pair
  datatype CommitPC =
    | CommitLocked | CommitProposed(usage: Usage, policy: State) | CommitPersist(usage: Usage, policy: State)
    | CommitWritten(policy: State, ok: bool) | CommitReleased(policy: State, ok: bool)

  // Quota reset
  datatype ResetPC =
    | ResetLocked | ResetChosen(accounts: set<Account>) | ResetPersist(accounts: set<Account>)
    | ResetLedger(accounts: set<Account>) | ResetSampled(accounts: set<Account>, usage: Usage)
    | ResetWritten(accounts: set<Account>, ok: bool) | ResetPublished

  // Reconfigure: flush, load the file, replace the live state, perhaps save a baseline
  datatype ConfigurePC =
    | ConfigureLocked | ConfigurePersist | ConfigureSampled(usage: Usage) | ConfigureFlushed
    | ConfigureReleased | ConfigureLoaded(file: File)

  /** Where a thread stands, with what it has sampled so far. Leaving has only updateMu left to release. */
  datatype PC =
    | Idle
    | Leaving
    | Flushing(flush: FlushPC)
    | Saving(save: SavePC)
    | Editing(edit: EditPC)
    | Committing(commit: CommitPC)
    | Resetting(reset: ResetPC)
    | Configuring(configure: ConfigurePC)

  datatype System = System(
    updateMu: Option<Thread>, persistMu: Option<Thread>, ledgerMu: Option<Thread>,
    usage: Usage, policy: State, file: File, threads: map<Thread, PC>,
    next: Serial,
    // how loading normalises a pair read from the file
    load: State -> State,
    // auxiliary, read by no step: the first serial after each account's last committed reset
    cleared: map<Account, Serial>)

  /** What the surroundings decide at a step. A refused operation ends before it changes anything. */
  datatype Choice = Choice(task: Task, accounts: set<Account>, bindings: Bindings, history: seq<Record>,
                           diskOK: bool, again: bool, refused: bool)

  datatype Move = Record(account: Account) | Step(thread: Thread, choice: Choice)

  function To(w: System, t: Thread, pc: PC): System {
    w.(threads := w.threads[t := pc])
  }

  function LockUpdate(w: System, t: Thread, pc: PC): Option<System> {
    if w.updateMu.Some? then None else Some(To(w.(updateMu := Some(t)), t, pc))
  }

  function LockPersist(w: System, t: Thread, pc: PC): Option<System> {
    if w.persistMu.Some? then None else Some(To(w.(persistMu := Some(t)), t, pc))
  }

  function LockLedger(w: System, t: Thread, pc: PC): Option<System> {
    if w.ledgerMu.Some? then None else Some(To(w.(ledgerMu := Some(t)), t, pc))
  }

  /** Sampling the ledger needs its lock for a moment. */
  function Sampling(w: System, t: Thread, pc: PC): Option<System> {
    if w.ledgerMu.Some? then None else Some(To(w, t, pc))
  }

  /** An atomic replacement of the file that succeeds completely or changes nothing. */
  function Write(w: System, file: File, ok: bool): System {
    if ok then w.(file := file) else w
  }

  function Cleared(usage: Usage, accounts: set<Account>): Usage {
    map a | a in usage.Keys + accounts :: if a in accounts then {} else usage[a]
  }

  function Mark(cleared: map<Account, Serial>, accounts: set<Account>, next: Serial): map<Account, Serial> {
    map a | a in cleared.Keys + accounts :: if a in accounts then next else cleared[a]
  }

  function Begin(w: System, t: Thread, task: Task): Option<System> {
    match task
    case Flush => LockPersist(w, t, Flushing(FlushLocked))
    case Save => LockUpdate(w, t, Saving(SaveLocked))
    case Edit => LockUpdate(w, t, Editing(EditLocked))
    case Commit => LockUpdate(w, t, Committing(CommitLocked))
    case Reset => LockUpdate(w, t, Resetting(ResetLocked))
    case Configure => LockUpdate(w, t, Configuring(ConfigureLocked))
  }

  /** FlushUsage. */
  function FlushStep(w: System, t: Thread, c: Choice): Option<System>
    requires t in w.threads && w.threads[t].Flushing?
  {
    match w.threads[t].flush
    case FlushLocked => Sampling(w, t, Flushing(FlushSampled(w.usage)))
    case FlushSampled(usage) => Some(To(Write(w, w.file.(usage := usage), c.diskOK), t, Flushing(FlushWritten)))
    case FlushWritten => Some(To(w.(persistMu := None), t, Idle))
  }

  /** A management mutation ending in saveState. */
  function SaveStep(w: System, t: Thread, c: Choice): Option<System>
    requires t in w.threads && w.threads[t].Saving?
  {
    match w.threads[t].save
    case SaveLocked => Sampling(w, t, Saving(SaveSampled(w.usage)))
    case SaveSampled(usage) => Some(To(w, t, Saving(SaveBindings(usage, w.policy.bindings))))
    case SaveBindings(usage, bindings) => LockPersist(w, t, Saving(SavePersist(usage, bindings)))
    case SavePersist(usage, bindings) => Some(To(w, t, Saving(SaveReady(usage, State(bindings, w.policy.history)))))
    case SaveReady(usage, policy) => Some(To(Write(w, File(usage, policy), c.diskOK), t, Saving(SaveWritten)))
    case SaveWritten => Some(To(w.(persistMu := None), t, Leaving))
  }

  /** Create, update or delete of one binding: persisted before it is published. */
  function EditStep(w: System, t: Thread, c: Choice): Option<System>
    requires t in w.threads && w.threads[t].Editing?
  {
    match w.threads[t].edit
    case EditLocked => Sampling(w, t, Editing(EditProposed(w.usage, c.bindings)))
    case EditProposed(usage, bindings) => LockPersist(w, t, Editing(EditPersist(usage, bindings)))
    case EditPersist(usage, bindings) => Some(To(w, t, Editing(EditReady(usage, State(bindings, w.policy.history)))))
    case EditReady(usage, policy) =>
      Some(To(Write(w, File(usage, policy), c.diskOK), t, Editing(EditWritten(policy, c.diskOK))))
    case EditWritten(policy, ok) => Some(To(w.(persistMu := None), t, Editing(EditReleased(policy, ok))))
    case EditReleased(policy, ok) =>
      Some(To(if ok then w.(policy := w.policy.(bindings := policy.bindings)) else w, t, Leaving))
  }

  /** A batch or a rollback: the pair is persisted, then published. */
  function CommitStep(w: System, t: Thread, c: Choice): Option<System>
    requires t in w.threads && w.threads[t].Committing?
  {
    match w.threads[t].commit
    case CommitLocked => Sampling(w, t, Committing(CommitProposed(w.usage, State(c.bindings, c.history))))
    case CommitProposed(usage, policy) => LockPersist(w, t, Committing(CommitPersist(usage, policy)))
    case CommitPersist(usage, policy) =>
      Some(To(Write(w, File(usage, policy), c.diskOK), t, Committing(CommitWritten(policy, c.diskOK))))
    case CommitWritten(policy, ok) => Some(To(w.(persistMu := None), t, Committing(CommitReleased(policy, ok))))
    case CommitReleased(policy, ok) => Some(To(if ok then w.(policy := policy) else w, t, Leaving))
  }

  function Emptying(w: System, accounts: set<Account>): System {
    w.(usage := Cleared(w.usage, accounts), cleared := Mark(w.cleared, accounts, w.next))
  }

  /** A quota reset: the ledger lock is held from the snapshot to the publication. */
  function ResetStep(w: System, t: Thread, c: Choice): Option<System>
    requires t in w.threads && w.threads[t].Resetting?
  {
    match w.threads[t].reset
    case ResetLocked => Some(To(w, t, Resetting(ResetChosen(c.accounts))))
    case ResetChosen(accounts) => LockPersist(w, t, Resetting(ResetPersist(accounts)))
    case ResetPersist(accounts) => LockLedger(w, t, Resetting(ResetLedger(accounts)))
    case ResetLedger(accounts) => Some(To(w, t, Resetting(ResetSampled(accounts, Cleared(w.usage, accounts)))))
    case ResetSampled(accounts, usage) =>
      Some(To(Write(w, w.file.(usage := usage), c.diskOK), t, Resetting(ResetWritten(accounts, c.diskOK))))
    case ResetWritten(accounts, ok) =>
      Some(To(if ok then Emptying(w, accounts) else w, t, Resetting(ResetPublished)))
    case ResetPublished => Some(To(w.(ledgerMu := None, persistMu := None), t, Leaving))
  }

  /** Reconfigure: flush, load the file, replace the live state, perhaps save a baseline. */
  function ConfigureStep(w: System, t: Thread, c: Choice): Option<System>
    requires t in w.threads && w.threads[t].Configuring?
  {
    match w.threads[t].configure
    case ConfigureLocked => LockPersist(w, t, Configuring(ConfigurePersist))
    case ConfigurePersist => Sampling(w, t, Configuring(ConfigureSampled(w.usage)))
    case ConfigureSampled(usage) =>
      Some(To(Write(w, w.file.(usage := usage), c.diskOK), t, Configuring(ConfigureFlushed)))
    case ConfigureFlushed => Some(To(w.(persistMu := None), t, Configuring(ConfigureReleased)))
    case ConfigureReleased => Some(To(w, t, Configuring(ConfigureLoaded(w.file))))
    case ConfigureLoaded(file) =>
      var loaded := w.(usage := file.usage, policy := w.load(file.policy));
      Sampling(loaded, t, if c.again then Saving(SaveLocked) else Leaving)
  }

  /** The first and the last step of an operation. */
  predicate AtEdge(pc: PC) {
    pc.Idle? || pc.Leaving?
  }

  function EdgeStep(w: System, t: Thread, c: Choice): Option<System>
    requires t in w.threads && AtEdge(w.threads[t])
  {
    if w.threads[t].Idle? then Begin(w, t, c.task) else Some(To(w.(updateMu := None), t, Idle))
  }

  /**
   Where an operation can still be refused: a mutation once it has looked at the state, a reconfiguration
   for its settings, for a file that cannot be read, and for contents that do not normalise.
   */
  predicate Refusable(pc: PC) {
    match pc
    case Saving(p) => p.SaveLocked?
    case Editing(p) => p.EditLocked?
    case Committing(p) => p.CommitLocked?
    case Resetting(p) => p.ResetLocked?
    case Configuring(p) => p.ConfigureLocked? || p.ConfigureReleased? || p.ConfigureLoaded?
    case _ => false
  }

  /** One step of a thread; None when it has to wait for a lock. */
  function Advance(w: System, t: Thread, c: Choice): Option<System>
    requires t in w.threads
  {
    var pc := w.threads[t];
    if c.refused && Refusable(pc) then Some(To(w, t, Leaving))
    else if AtEdge(pc) then EdgeStep(w, t, c)
    else if pc.Flushing? then FlushStep(w, t, c)
    else if pc.Saving? then SaveStep(w, t, c)
    else if pc.Editing? then EditStep(w, t, c)
    else if pc.Committing? then CommitStep(w, t, c)
    else if pc.Resetting? then ResetStep(w, t, c)
    else ConfigureStep(w, t, c)
  }

  /** A usage record enters the live ledger as soon as the ledger lock is free. */
  function Bill(w: System, a: Account): System {
    if w.ledgerMu.Some? then w
    else w.(usage := w.usage[a := Counted(w.usage, a) + {w.next}], next := w.next + 1)
  }

  function Apply(w: System, move: Move): System {
    match move
    case Record(a) => Bill(w, a)
    case Step(t, c) => if t in w.threads && Advance(w, t, c).Some? then Advance(w, t, c).value else w
  }

  function Run(w: System, moves: seq<Move>): System {
    if moves == [] then w else Apply(Run(w, moves[..|moves| - 1]), moves[|moves| - 1])
  }

  // ------------------------------------------------------------------------- what holds in every run

  predicate HoldsUpdate(pc: PC) {
    !pc.Idle? && !pc.Flushing?
  }

  predicate HoldsPersist(pc: PC) {
    match pc
    case Flushing(_) => true
    case Saving(p) => p.SavePersist? || p.SaveReady? || p.SaveWritten?
    case Editing(p) => p.EditPersist? || p.EditReady? || p.EditWritten?
    case Committing(p) => p.CommitPersist? || p.CommitWritten?
    case Resetting(p) => !p.ResetLocked? && !p.ResetChosen?
    case Configuring(p) => p.ConfigurePersist? || p.ConfigureSampled? || p.ConfigureFlushed?
    case _ => false
  }

  predicate HoldsLedger(pc: PC) {
    pc.Resetting? && !pc.reset.ResetLocked? && !pc.reset.ResetChosen? && !pc.reset.ResetPersist?
  }

  /** The usage a thread has sampled and may still write or publish. */
  function Sample(pc: PC): Option<Usage> {
    match pc
    case Flushing(FlushSampled(u)) => Some(u)
    case Saving(p) => if p.SaveLocked? || p.SaveWritten? then None else Some(p.usage)
    case Editing(p) => if p.EditProposed? || p.EditPersist? || p.EditReady? then Some(p.usage) else None
    case Committing(p) => if p.CommitProposed? || p.CommitPersist? then Some(p.usage) else None
    case Resetting(ResetSampled(_, u)) => Some(u)
    case Configuring(ConfigureSampled(u)) => Some(u)
    case Configuring(ConfigureLoaded(file)) => Some(file.usage)
    case _ => None
  }

  /** A reset between its write and its publication. */
  predicate WroteReset(pc: PC) {
    pc.Resetting? && pc.reset.ResetWritten?
  }

  ghost predicate LocksHeld(w: System) {
    && (forall t :: t in w.threads ==>
          && (HoldsUpdate(w.threads[t]) <==> w.updateMu == Some(t))
          && (HoldsPersist(w.threads[t]) <==> w.persistMu == Some(t))
          && (HoldsLedger(w.threads[t]) <==> w.ledgerMu == Some(t)))
    && (w.updateMu.Some? ==> w.updateMu.value in w.threads)
    && (w.persistMu.Some? ==> w.persistMu.value in w.threads)
    && (w.ledgerMu.Some? ==> w.ledgerMu.value in w.threads)
  }

  function ClearedAt(cleared: map<Account, Serial>, a: Account): Serial {
    if a in cleared then cleared[a] else 0
  }

  /** Nothing recorded before an account's last reset is counted. */
  ghost predicate Clean(usage: Usage, cleared: map<Account, Serial>) {
    forall a, n :: n in Counted(usage, a) ==> ClearedAt(cleared, a) <= n
  }

  /** What a resetting thread knows of the accounts it is emptying. */
  ghost predicate Emptied(usage: Usage, accounts: set<Account>) {
    forall a :: a in accounts ==> Counted(usage, a) == {}
  }

  ghost predicate ThreadClean(w: System, pc: PC) {
    && (Sample(pc).Some? ==> Clean(Sample(pc).value, w.cleared))
    && (pc.Resetting? && pc.reset.ResetSampled? ==> Emptied(pc.reset.usage, pc.reset.accounts))
    && (WroteReset(pc) && pc.reset.ok ==> Emptied(w.file.usage, pc.reset.accounts))
  }

  ghost predicate AllClean(w: System) {
    && Clean(w.usage, w.cleared) && Clean(w.file.usage, w.cleared)
    && (forall a :: ClearedAt(w.cleared, a) <= w.next)
    && (forall t :: t in w.threads ==> ThreadClean(w, w.threads[t]))
  }

  /** The new policy of a mutation that has written it to the file but not yet published it. */
  function InFlight(pc: PC): Option<State> {
    match pc
    case Editing(EditWritten(policy, true)) => Some(policy)
    case Editing(EditReleased(policy, true)) => Some(policy)
    case Committing(CommitWritten(policy, true)) => Some(policy)
    case Committing(CommitReleased(policy, true)) => Some(policy)
    case _ => None
  }

  /** Where the thread stands that holds updateMu. */
  function Holder(w: System): PC {
    if w.updateMu.Some? && w.updateMu.value in w.threads then w.threads[w.updateMu.value] else Idle
  }

  /** The file shows the proposed pair of the mutation in flight, else one that is live or loads as what is. */
  ghost predicate Shows(w: System, pc: PC) {
    match InFlight(pc)
    case Some(policy) => w.file.policy == policy
    case None => w.policy == w.file.policy || w.policy == w.load(w.file.policy)
  }

  /** The same, with the live pair written in the file as it is. */
  ghost predicate ShowsExactly(w: System, pc: PC) {
    w.file.policy == if InFlight(pc).Some? then InFlight(pc).value else w.policy
  }

  /** What threads have sampled of the policy is still what is live. */
  ghost predicate PolicySampled(w: System, pc: PC) {
    match pc
    case Saving(SaveBindings(_, bindings)) => bindings == w.policy.bindings
    case Saving(SavePersist(_, bindings)) => bindings == w.policy.bindings
    case Saving(SaveReady(_, policy)) => policy == w.policy
    case Editing(EditReady(_, policy)) => policy.history == w.policy.history
    case Editing(EditWritten(policy, _)) => policy.history == w.policy.history
    case Editing(EditReleased(policy, _)) => policy.history == w.policy.history
    case Configuring(ConfigureLoaded(file)) => file.policy == w.file.policy
    case _ => true
  }

  ghost predicate Consistent(w: System) {
    && Shows(w, Holder(w))
    && forall t :: t in w.threads ==> PolicySampled(w, w.threads[t])
  }

  ghost predicate Safe(w: System) {
    LocksHeld(w) && AllClean(w) && Consistent(w)
  }

  ghost predicate Initial(w: System) {
    && w.updateMu == w.persistMu == w.ledgerMu == None
    && (forall t :: t in w.threads ==> w.threads[t] == Idle)
    && w.file == File(w.usage, w.policy) && w.cleared == map[]
  }

  lemma {:induction false} InitiallySafe(w: System)
    requires Initial(w)
    ensures Safe(w)
  {
  }

  /** A lock changes hands only between free and the stepping thread. */
  ghost predicate Handed(before: Option<Thread>, after: Option<Thread>, t: Thread, held: bool, holds: bool) {
    && after == (if holds then Some(t) else if held then None else before)
    && (holds && !held ==> before.None?)
  }

  ghost predicate LockEffect(w: System, t: Thread, next: System)
    requires t in w.threads && t in next.threads
  {
    var was, became := w.threads[t], next.threads[t];
    && next.threads == w.threads[t := became] && next.load == w.load
    && Handed(w.updateMu, next.updateMu, t, HoldsUpdate(was), HoldsUpdate(became))
    && Handed(w.persistMu, next.persistMu, t, HoldsPersist(was), HoldsPersist(became))
    && Handed(w.ledgerMu, next.ledgerMu, t, HoldsLedger(was), HoldsLedger(became))
  }

  /** Where a step that publishes no reset takes counters from. */
  ghost predicate UsageEffect(w: System, t: Thread, next: System)
    requires t in w.threads && t in next.threads
  {
    var was, became := w.threads[t], next.threads[t];
    && next.cleared == w.cleared && next.next == w.next
    && (next.usage == w.usage || Sample(was) == Some(next.usage))
    && (next.file.usage == w.file.usage || (Sample(was) == Some(next.file.usage) && HoldsPersist(was)))
    && (if became.Resetting? && became.reset.ResetSampled?
        then became.reset.usage == Cleared(w.usage, became.reset.accounts)
        else Sample(became) in {None, Sample(was), Some(w.usage), Some(w.file.usage)})
    && (WroteReset(became) && became.reset.ok ==>
          && was.Resetting? && was.reset.ResetSampled? && was.reset.accounts == became.reset.accounts
          && next.file.usage == was.reset.usage)
  }

  /** How a step treats the pair on disk and the live pair. */
  ghost predicate PolicyEffect(w: System, t: Thread, next: System)
    requires t in w.threads && t in next.threads
  {
    var was, became := w.threads[t], next.threads[t];
    && PolicySampled(next, became)
    && (HoldsUpdate(was) || (next.file.policy == w.file.policy && next.policy == w.policy && InFlight(became).None?))
    && (HoldsUpdate(was) ==> Shows(next, became))
    && (HoldsUpdate(was) && ShowsExactly(w, was) && !(was.Configuring? && was.configure.ConfigureLoaded?) ==>
          ShowsExactly(next, became))
  }

  /** What the stepping thread knows beforehand. */
  ghost predicate Ready(w: System, t: Thread)
    requires t in w.threads
  {
    var pc := w.threads[t];
    && (HoldsUpdate(pc) ==> w.updateMu == Some(t)) && (HoldsPersist(pc) ==> w.persistMu == Some(t))
    && (HoldsLedger(pc) ==> w.ledgerMu == Some(t))
    && PolicySampled(w, pc)
    && (HoldsUpdate(pc) ==> Shows(w, pc))
  }

  ghost predicate Effect(w: System, t: Thread, next: System)
    requires t in w.threads
  {
    && t in next.threads
    && LockEffect(w, t, next) && (WroteReset(w.threads[t]) || UsageEffect(w, t, next)) && PolicyEffect(w, t, next)
  }

  lemma {:induction false} FlushLocks(w: System, t: Thread, c: Choice, next: System)
    requires t in w.threads && w.threads[t].Flushing? && Ready(w, t) && FlushStep(w, t, c) == Some(next)
    ensures t in next.threads && LockEffect(w, t, next)
  {
    hide PolicySampled, Shows, Sample, InFlight;
    match w.threads[t].flush
    case FlushLocked =>
    case FlushSampled(_) =>
    case FlushWritten =>
  }

  lemma {:induction false} FlushCounters(w: System, t: Thread, c: Choice, next: System)
    requires t in w.threads && w.threads[t].Flushing? && Ready(w, t) && FlushStep(w, t, c) == Some(next)
    ensures t in next.threads && UsageEffect(w, t, next)
  {
    hide PolicySampled, Shows, InFlight;
    match w.threads[t].flush
    case FlushLocked =>
    case FlushSampled(_) =>
    case FlushWritten =>
  }

  lemma {:induction false} FlushPolicy(w: System, t: Thread, c: Choice, next: System)
    requires t in w.threads && w.threads[t].Flushing? && Ready(w, t) && FlushStep(w, t, c) == Some(next)
    ensures t in next.threads && PolicyEffect(w, t, next)
  {
    hide Sample;
    match w.threads[t].flush
    case FlushLocked =>
    case FlushSampled(_) =>
    case FlushWritten =>
  }

  lemma {:induction false} SaveLocks(w: System, t: Thread, c: Choice, next: System)
    requires t in w.threads && w.threads[t].Saving? && Ready(w, t) && SaveStep(w, t, c) == Some(next)
    ensures t in next.threads && LockEffect(w, t, next)
  {
    hide PolicySampled, Shows, Sample, InFlight;
    match w.threads[t].save
    case SaveLocked =>
    case SaveSampled(_) =>
    case SaveBindings(_, _) =>
    case SavePersist(_, _) =>
    case SaveReady(_, _) =>
    case SaveWritten =>
  }

  lemma {:induction false} SaveCounters(w: System, t: Thread, c: Choice, next: System)
    requires t in w.threads && w.threads[t].Saving? && Ready(w, t) && SaveStep(w, t, c) == Some(next)
    ensures t in next.threads && UsageEffect(w, t, next)
  {
    hide PolicySampled, Shows, InFlight;
    match w.threads[t].save
    case SaveLocked =>
    case SaveSampled(_) =>
    case SaveBindings(_, _) =>
    case SavePersist(_, _) =>
    case SaveReady(_, _) =>
    case SaveWritten =>
  }

  lemma {:induction false} SavePolicy(w: System, t: Thread, c: Choice, next: System)
    requires t in w.threads && w.threads[t].Saving? && Ready(w, t) && SaveStep(w, t, c) == Some(next)
    ensures t in next.threads && PolicyEffect(w, t, next)
  {
    hide Sample;
    match w.threads[t].save
    case SaveLocked =>
    case SaveSampled(_) =>
    case SaveBindings(_, _) =>
    case SavePersist(_, _) =>
    case SaveReady(_, _) =>
    case SaveWritten =>
  }

  lemma {:induction false} EditLocks(w: System, t: Thread, c: Choice, next: System)
    requires t in w.threads && w.threads[t].Editing? && Ready(w, t) && EditStep(w, t, c) == Some(next)
    ensures t in next.threads && LockEffect(w, t, next)
  {
    hide PolicySampled, Shows, Sample, InFlight;
    match w.threads[t].edit
    case EditLocked =>
    case EditProposed(_, _) =>
    case EditPersist(_, _) =>
    case EditReady(_, _) =>
    case EditWritten(_, _) =>
    case EditReleased(_, _) =>
  }

  lemma {:induction false} EditCounters(w: System, t: Thread, c: Choice, next: System)
    requires t in w.threads && w.threads[t].Editing? && Ready(w, t) && EditStep(w, t, c) == Some(next)
    ensures t in next.threads && UsageEffect(w, t, next)
  {
    hide PolicySampled, Shows, InFlight;
    match w.threads[t].edit
    case EditLocked =>
    case EditProposed(_, _) =>
    case EditPersist(_, _) =>
    case EditReady(_, _) =>
    case EditWritten(_, _) =>
    case EditReleased(_, _) =>
  }

  lemma {:induction false} EditPolicy(w: System, t: Thread, c: Choice, next: System)
    requires t in w.threads && w.threads[t].Editing? && Ready(w, t) && EditStep(w, t, c) == Some(next)
    ensures t in next.threads && PolicyEffect(w, t, next)
  {
    hide Sample;
    match w.threads[t].edit
    case EditLocked =>
    case EditProposed(_, _) =>
    case EditPersist(_, _) =>
    case EditReady(_, _) =>
    case EditWritten(_, _) =>
    case EditReleased(_, _) =>
  }

  lemma {:induction false} CommitLocks(w: System, t: Thread, c: Choice, next: System)
    requires t in w.threads && w.threads[t].Committing? && Ready(w, t) && CommitStep(w, t, c) == Some(next)
    ensures t in next.threads && LockEffect(w, t, next)
  {
    hide PolicySampled, Shows, Sample, InFlight;
    match w.threads[t].commit
    case CommitLocked =>
    case CommitProposed(_, _) =>
    case CommitPersist(_, _) =>
    case CommitWritten(_, _) =>
    case CommitReleased(_, _) =>
  }

  lemma {:induction false} CommitCounters(w: System, t: Thread, c: Choice, next: System)
    requires t in w.threads && w.threads[t].Committing? && Ready(w, t) && CommitStep(w, t, c) == Some(next)
    ensures t in next.threads && UsageEffect(w, t, next)
  {
    hide PolicySampled, Shows, InFlight;
    match w.threads[t].commit
    case CommitLocked =>
    case CommitProposed(_, _) =>
    case CommitPersist(_, _) =>
    case CommitWritten(_, _) =>
    case CommitReleased(_, _) =>
  }

  lemma {:induction false} CommitPolicy(w: System, t: Thread, c: Choice, next: System)
    requires t in w.threads && w.threads[t].Committing? && Ready(w, t) && CommitStep(w, t, c) == Some(next)
    ensures t in next.threads && PolicyEffect(w, t, next)
  {
    hide Sample;
    match w.threads[t].commit
    case CommitLocked =>
    case CommitProposed(_, _) =>
    case CommitPersist(_, _) =>
    case CommitWritten(_, _) =>
    case CommitReleased(_, _) =>
  }

  lemma {:induction false} ResetLocks(w: System, t: Thread, c: Choice, next: System)
    requires t in w.threads && w.threads[t].Resetting? && Ready(w, t) && ResetStep(w, t, c) == Some(next)
    ensures t in next.threads && LockEffect(w, t, next)
  {
    hide PolicySampled, Shows, Sample, InFlight;
    match w.threads[t].reset
    case ResetLocked =>
    case ResetChosen(_) =>
    case ResetPersist(_) =>
    case ResetLedger(_) =>
    case ResetSampled(_, _) =>
    case ResetWritten(_, _) =>
    case ResetPublished =>
  }

  lemma {:induction false} ResetCounters(w: System, t: Thread, c: Choice, next: System)
    requires t in w.threads && w.threads[t].Resetting? && Ready(w, t) && ResetStep(w, t, c) == Some(next)
    ensures t in next.threads && (WroteReset(w.threads[t]) || UsageEffect(w, t, next))
  {
    hide PolicySampled, Shows, InFlight;
    match w.threads[t].reset
    case ResetLocked =>
    case ResetChosen(_) =>
    case ResetPersist(_) =>
    case ResetLedger(_) =>
    case ResetSampled(_, _) =>
    case ResetWritten(_, _) =>
    case ResetPublished =>
  }

  lemma {:induction false} ResetPolicy(w: System, t: Thread, c: Choice, next: System)
    requires t in w.threads && w.threads[t].Resetting? && Ready(w, t) && ResetStep(w, t, c) == Some(next)
    ensures t in next.threads && PolicyEffect(w, t, next)
  {
    hide Sample;
    match w.threads[t].reset
    case ResetLocked =>
    case ResetChosen(_) =>
    case ResetPersist(_) =>
    case ResetLedger(_) =>
    case ResetSampled(_, _) =>
    case ResetWritten(_, _) =>
    case ResetPublished =>
  }

  lemma {:induction false} ConfigureLocks(w: System, t: Thread, c: Choice, next: System)
    requires t in w.threads && w.threads[t].Configuring? && Ready(w, t) && ConfigureStep(w, t, c) == Some(next)
    ensures t in next.threads && LockEffect(w, t, next)
  {
    hide PolicySampled, Shows, Sample, InFlight;
    match w.threads[t].configure
    case ConfigureLocked =>
    case ConfigurePersist =>
    case ConfigureSampled(_) =>
    case ConfigureFlushed =>
    case ConfigureReleased =>
    case ConfigureLoaded(_) =>
  }

  lemma {:induction false} ConfigureCounters(w: System, t: Thread, c: Choice, next: System)
    requires t in w.threads && w.threads[t].Configuring? && Ready(w, t) && ConfigureStep(w, t, c) == Some(next)
    ensures t in next.threads && UsageEffect(w, t, next)
  {
    hide PolicySampled, Shows, InFlight;
    match w.threads[t].configure
    case ConfigureLocked =>
    case ConfigurePersist =>
    case ConfigureSampled(_) =>
    case ConfigureFlushed =>
    case ConfigureReleased =>
    case ConfigureLoaded(_) =>
  }

  lemma {:induction false} ConfigurePolicy(w: System, t: Thread, c: Choice, next: System)
    requires t in w.threads && w.threads[t].Configuring? && Ready(w, t) && ConfigureStep(w, t, c) == Some(next)
    ensures t in next.threads && PolicyEffect(w, t, next)
  {
    hide Sample;
    match w.threads[t].configure
    case ConfigureLocked =>
    case ConfigurePersist =>
    case ConfigureSampled(_) =>
    case ConfigureFlushed =>
    case ConfigureReleased =>
    case ConfigureLoaded(_) =>
  }

  lemma {:induction false} EdgeLocks(w: System, t: Thread, c: Choice, next: System)
    requires t in w.threads && AtEdge(w.threads[t]) && Ready(w, t) && EdgeStep(w, t, c) == Some(next)
    ensures t in next.threads && LockEffect(w, t, next)
  {
    hide PolicySampled, Shows, Sample, InFlight;
    if w.threads[t].Idle? {
      match c.task
      case Flush =>
      case Save =>
      case Edit =>
      case Commit =>
      case Reset =>
      case Configure =>
    }
  }

  lemma {:induction false} EdgeCounters(w: System, t: Thread, c: Choice, next: System)
    requires t in w.threads && AtEdge(w.threads[t]) && Ready(w, t) && EdgeStep(w, t, c) == Some(next)
    ensures t in next.threads && UsageEffect(w, t, next)
  {
    hide PolicySampled, Shows, InFlight;
    if w.threads[t].Idle? {
      match c.task
      case Flush =>
      case Save =>
      case Edit =>
      case Commit =>
      case Reset =>
      case Configure =>
    }
  }

  lemma {:induction false} EdgePolicy(w: System, t: Thread, c: Choice, next: System)
    requires t in w.threads && AtEdge(w.threads[t]) && Ready(w, t) && EdgeStep(w, t, c) == Some(next)
    ensures t in next.threads && PolicyEffect(w, t, next)
  {
    hide Sample;
    if w.threads[t].Idle? {
      match c.task
      case Flush =>
      case Save =>
      case Edit =>
      case Commit =>
      case Reset =>
      case Configure =>
    }
  }

  lemma {:induction false} RefusedEffect(w: System, t: Thread)
    requires t in w.threads && Refusable(w.threads[t]) && Ready(w, t)
    ensures Effect(w, t, To(w, t, Leaving))
  {
  }

  lemma {:induction false} AdvanceEffect(w: System, t: Thread, c: Choice, next: System)
    requires t in w.threads && Ready(w, t) && Advance(w, t, c) == Some(next)
    ensures Effect(w, t, next)
  {
    var pc := w.threads[t];
    hide Ready, LockEffect, UsageEffect, PolicyEffect, WroteReset;
    hide FlushStep, SaveStep, EditStep, CommitStep, ResetStep, ConfigureStep, EdgeStep;
    if c.refused && Refusable(pc) {
      RefusedEffect(w, t);
    } else if AtEdge(pc) {
      EdgeLocks(w, t, c, next);
      EdgeCounters(w, t, c, next);
      EdgePolicy(w, t, c, next);
    } else if pc.Flushing? {
      FlushLocks(w, t, c, next);
      FlushCounters(w, t, c, next);
      FlushPolicy(w, t, c, next);
    } else if pc.Saving? {
      SaveLocks(w, t, c, next);
      SaveCounters(w, t, c, next);
      SavePolicy(w, t, c, next);
    } else if pc.Editing? {
      EditLocks(w, t, c, next);
      EditCounters(w, t, c, next);
      EditPolicy(w, t, c, next);
    } else if pc.Committing? {
      CommitLocks(w, t, c, next);
      CommitCounters(w, t, c, next);
      CommitPolicy(w, t, c, next);
    } else if pc.Resetting? {
      ResetLocks(w, t, c, next);
      ResetCounters(w, t, c, next);
      ResetPolicy(w, t, c, next);
    } else {
      ConfigureLocks(w, t, c, next);
      ConfigureCounters(w, t, c, next);
      ConfigurePolicy(w, t, c, next);
    }
  }

  lemma {:induction false} LocksKept(w: System, t: Thread, next: System)
    requires LocksHeld(w) && t in w.threads && Effect(w, t, next)
    ensures LocksHeld(next)
  {
  }

  lemma {:induction false} CleanKept(w: System, t: Thread, next: System)
    requires LocksHeld(w) && AllClean(w) && t in w.threads && Effect(w, t, next) && !WroteReset(w.threads[t])
    ensures AllClean(next)
  {
    var became := next.threads[t];
    assert ThreadClean(w, w.threads[t]);
    forall u | u in next.threads ensures ThreadClean(next, next.threads[u]) {
      if u != t {
        assert next.threads[u] == w.threads[u] && ThreadClean(w, w.threads[u]);
      } else if became.Resetting? && became.reset.ResetSampled? {
        ClearedIsClean(w.usage, w.cleared, became.reset.accounts);
      }
    }
  }

  lemma {:induction false} ClearedIsClean(usage: Usage, cleared: map<Account, Serial>, accounts: set<Account>)
    requires Clean(usage, cleared)
    ensures Clean(Cleared(usage, accounts), cleared) && Emptied(Cleared(usage, accounts), accounts)
  {
    forall a ensures Counted(Cleared(usage, accounts), a) <= Counted(usage, a) {
    }
  }

  /** Publishing a reset: no other thread holds a sample, since each would need a lock the reset holds. */
  lemma {:induction false} ResetKept(w: System, t: Thread, c: Choice)
    requires LocksHeld(w) && AllClean(w) && t in w.threads && WroteReset(w.threads[t])
    ensures AllClean(Advance(w, t, c).value)
  {
    var next := Advance(w, t, c).value;
    var pc := w.threads[t].reset;
    assert ThreadClean(w, w.threads[t]);
    forall u | u in next.threads ensures ThreadClean(next, next.threads[u]) {
      if u != t {
        assert !HoldsUpdate(w.threads[u]) && !HoldsPersist(w.threads[u]);
      }
    }
    if pc.ok {
      MarkedIsClean(w.usage, w.cleared, pc.accounts, w.next);
      MarkedFileClean(w.file.usage, w.cleared, pc.accounts, w.next);
      assert forall a :: ClearedAt(next.cleared, a) == if a in pc.accounts then w.next else ClearedAt(w.cleared, a);
    }
  }

  lemma {:induction false} MarkedIsClean(usage: Usage, cleared: map<Account, Serial>, accounts: set<Account>,
          next: Serial)
    requires Clean(usage, cleared)
    ensures Clean(Cleared(usage, accounts), Mark(cleared, accounts, next))
  {
    forall a, n | n in Counted(Cleared(usage, accounts), a) ensures ClearedAt(Mark(cleared, accounts, next), a) <= n {
      assert a !in accounts && n in Counted(usage, a);
    }
  }

  lemma {:induction false} MarkedFileClean(usage: Usage, cleared: map<Account, Serial>, accounts: set<Account>,
          next: Serial)
    requires Clean(usage, cleared) && Emptied(usage, accounts)
    ensures Clean(usage, Mark(cleared, accounts, next))
  {
    forall a, n | n in Counted(usage, a) ensures ClearedAt(Mark(cleared, accounts, next), a) <= n {
      assert a !in accounts;
    }
  }

  lemma {:induction false} ConsistentKept(w: System, t: Thread, next: System)
    requires LocksHeld(w) && LocksHeld(next) && Consistent(w) && t in w.threads && Effect(w, t, next)
    ensures Consistent(next)
  {
    assert PolicySampled(w, w.threads[t]);
    forall u | u in next.threads ensures PolicySampled(next, next.threads[u]) {
      if u != t {
        assert next.threads[u] == w.threads[u] && PolicySampled(w, w.threads[u]);
        assert HoldsUpdate(w.threads[t]) ==> !HoldsUpdate(w.threads[u]);
      }
    }
  }

  lemma {:induction false} BillKept(w: System, a: Account)
    requires Safe(w)
    ensures Safe(Bill(w, a))
  {
    var next := Bill(w, a);
    if w.ledgerMu.None? {
      forall b, n | n in Counted(next.usage, b) ensures ClearedAt(w.cleared, b) <= n {
        assert n in Counted(w.usage, b) || (n == w.next && b == a);
      }
      forall t | t in next.threads ensures ThreadClean(next, next.threads[t]) {
        assert ThreadClean(w, w.threads[t]);
      }
      forall t | t in next.threads ensures PolicySampled(next, next.threads[t]) {
        assert PolicySampled(w, w.threads[t]);
      }
    }
  }

  lemma {:induction false} ApplySafe(w: System, move: Move)
    requires Safe(w)
    ensures Safe(Apply(w, move))
  {
    match move
    case Record(a) => BillKept(w, a);
    case Step(t, c) =>
      if t in w.threads && Advance(w, t, c).Some? {
        assert PolicySampled(w, w.threads[t]);
        var next := Advance(w, t, c).value;
        AdvanceEffect(w, t, c, next);
        LocksKept(w, t, next);
        ConsistentKept(w, t, next);
        if WroteReset(w.threads[t]) { ResetKept(w, t, c); } else { CleanKept(w, t, next); }
      }
  }

  lemma {:induction false} RunSafe(w: System, moves: seq<Move>)
    requires Safe(w)
    ensures Safe(Run(w, moves))
  {
    if moves != [] {
      RunSafe(w, moves[..|moves| - 1]);
      ApplySafe(Run(w, moves[..|moves| - 1]), moves[|moves| - 1]);
    }
  }
}
