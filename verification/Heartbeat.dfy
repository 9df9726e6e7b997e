/** The heartbeat supervisor, its forked lock guard and the wake target.

    The durable state is the pending admission of the state file and the
    registry of HeartbeatAdmission.  The lock is held while the supervisor or its
    guard lives.  Supervisors, guards and the whole machine die at any point, and
    every save may fail before or after it became durable. */
module Heartbeat {
  import opened HeartbeatAdmission

  datatype Phase = ReservedPreExecution | SpawnUncertain

  datatype Pending = Pending(supervisor: nat, host: nat, boot: nat, phase: Phase, generation: Option<nat>, receiptId: Option<nat>)

  // ---------------------------------------------------------------------------
  // Reconciliation of a durable intent after a restart

  predicate OwnerIsProvenDead(p: Pending, boot: nat, ownerGone: bool) {
    p.boot != boot || (p.phase.ReservedPreExecution? && ownerGone)
  }

  predicate DeadUnboundIntent(p: Pending, boot: nat, ownerGone: bool) {
    p.generation.None? && p.receiptId.None? && p.phase.ReservedPreExecution? && OwnerIsProvenDead(p, boot, ownerGone)
  }

  datatype Decision =
    | Raise
    | Fenced
    | Clear
    | SettleThenClear(generation: nat, receiptId: nat)
    | DiscardThenClear(generation: nat, receiptId: nat)
    | BindThenSettle(generation: nat, receiptId: nat)

  function Reconcile(p: Pending, answer: Recovery, host: nat, boot: nat, ownerGone: bool): Decision {
    if p.host != host then Raise
    else match answer
      case SettlementPending(g, r) =>
        if p.generation == Some(g) && p.receiptId == Some(r) then SettleThenClear(g, r) else Raise
      case AlreadySettled(g, r) =>
        if p.generation == Some(g) && p.receiptId == Some(r) then Clear else Raise
      case CapacityWait => if DeadUnboundIntent(p, boot, ownerGone) then Clear else Raise
      case ReleasedPredecessor(g, released) =>
        if DeadUnboundIntent(p, boot, ownerGone) && g > 0 && released == g + 1 then Clear else Raise
      case DiscardedPredecessor(g) => if DeadUnboundIntent(p, boot, ownerGone) && g > 0 then Clear else Raise
      case UncommittedReceipt(g, r, owner) =>
        if DeadUnboundIntent(p, boot, ownerGone) && g > 0 && owner == p.supervisor then DiscardThenClear(g, r) else Raise
      case Absent => if DeadUnboundIntent(p, boot, ownerGone) then Clear else Raise
      case NotOwned => Raise
      case Recoverable(g, r) =>
        if p.generation.None? != p.receiptId.None? then Raise
        else if p.generation.Some? && (p.generation.value != g || p.receiptId.value != r) then Raise
        else if p.generation.None? && !p.phase.ReservedPreExecution? then Raise
        else if !OwnerIsProvenDead(p, boot, ownerGone) then Fenced
        else if p.generation.None? then BindThenSettle(g, r)
        else SettleThenClear(g, r)
  }

  // ---------------------------------------------------------------------------
  // The system

  datatype Pc =
    | Starting
    | Recovering(pending: Pending)
    | Binding(pending: Pending, generation: nat, receiptId: nat)
    | Settling(owner: nat, generation: nat, receiptId: nat)
    | Discarding(owner: nat, generation: nat, receiptId: nat)
    | Clearing(thenPoll: bool)
    | Polling
    | Reserving
    | Admitted(generation: nat, receiptId: nat)
    | Bound(generation: nat, receiptId: nat)
    | GuardUp(generation: nat, receiptId: nat)
    | Marked(generation: nat, receiptId: nat)
    | Undoing(generation: nat, receiptId: nat)
    | Waiting(generation: nat, receiptId: nat)

  datatype Supervisor = Supervisor(id: nat, pc: Pc)

  /** What the guard's pipe carries. */
  datatype Frame = NoFrame | CancelFrame | PidFrame | EndOfFile

  datatype GuardPc = Reading(frame: Frame) | Cancelling | Watching | GroupEmpty | Stuck

  datatype Guard = Guard(supervisor: nat, generation: nat, receiptId: nat, pc: GuardPc)

  /** `targets` are the generations whose process group may have a live member,
      `spawned` maps every generation ever spawned to its supervisor. */
  datatype State = State(
    host: nat, boot: nat, nextId: nat,
    durable: Option<Pending>, registry: Registry,
    sup: Option<Supervisor>, guard: Option<Guard>, acknowledged: Option<nat>,
    targets: set<nat>, spawned: map<nat, nat>)
  {
    predicate AtPc(pc: Pc) { sup.Some? && sup.value.pc == pc }
    function To(pc: Pc): State
      requires sup.Some?
    {
      this.(sup := Some(sup.value.(pc := pc)))
    }
    /** The supervisor returns, raises or is killed; its ends of the pipes close. */
    function Stop(): State {
      this.(sup := None,
            guard := if guard.Some? && guard.value.pc == Reading(NoFrame) then Some(guard.value.(pc := Reading(EndOfFile))) else guard)
    }
    function Send(frame: Frame): State {
      this.(guard := if guard.Some? && guard.value.pc == Reading(NoFrame) then Some(guard.value.(pc := Reading(frame))) else guard)
    }
    function Own(phase: Phase, generation: Option<nat>, receiptId: Option<nat>): Option<Pending>
      requires sup.Some?
    {
      Some(Pending(sup.value.id, host, boot, phase, generation, receiptId))
    }
  }

  datatype SaveResult = Saved | SavedButRaised | NotSaved

  function Save(s: State, p: Option<Pending>, r: SaveResult): State {
    if r.NotSaved? then s else s.(durable := p)
  }

  datatype Step =
    | Acquire
    | Prime(save: SaveResult)
    | Load
    | Decide(ownerGone: bool)
    | BindOld(save: SaveResult)
    | SettleOld(k: nat)
    | DiscardOld(applied: bool, returned: bool)
    | SaveCleared(save: SaveResult)
    | SaveIntent(save: SaveResult)
    | ReserveGranted(receiptId: nat, k: nat)
    | ReserveDenied(park: bool)
    | SaveBound(save: SaveResult)
    | FailBeforeGuard
    | ForkGuard
    | MarkUncertain(save: SaveResult, cancelSent: bool)
    | UndoOwn(k: nat)
    | Spawn(execFails: bool)
    | SpawnFails
    | Finish(save: SaveResult)
    | SupervisorStops
    | GuardReads
    | GuardSeesEmptyGroup
    | GuardSettles(k: nat, clean: bool)
    | GuardDies
    | GroupDies(generation: nat)
    | Reboot

  /** The settle call of the supervisor or the guard, killed after `k` writes;
      it succeeds only when every write was made. */
  ghost predicate SettleCall(s: State, owner: nat, generation: nat, receiptId: nat, k: nat, done: State, failed: State, t: State) {
    match Settle(s.registry, owner, generation, receiptId)
    case None => k == 0 && t == failed
    case Some(writes) =>
      && k <= |writes|
      && t == (if k == |writes| then done else failed).(registry := CutAt(s.registry, writes, k))
  }

  ghost predicate SupervisorStep(s: State, step: Step, t: State)
    requires s.sup.Some?
  {
    var id, pc := s.sup.value.id, s.sup.value.pc;
    match step
    case Prime(r) => pc.Starting? && t == Save(s, None, r).Stop()
    case Load => pc.Starting? && t == s.To(if s.durable.None? then Polling else Recovering(s.durable.value))
    case Decide(ownerGone) =>
      && pc.Recovering?
      && var p := pc.pending;
         (match Reconcile(p, Recover(s.registry, p.supervisor, p.generation), s.host, s.boot, ownerGone)
          case Raise => t == s.Stop()
          case Fenced => t == s.Stop()
          case Clear => t == s.To(Clearing(true))
          case SettleThenClear(g, r) => t == s.To(Settling(p.supervisor, g, r))
          case DiscardThenClear(g, r) => t == s.To(Discarding(p.supervisor, g, r))
          case BindThenSettle(g, r) => t == s.To(Binding(p, g, r)))
    case BindOld(r) =>
      && pc.Binding?
      && var u := Save(s, Some(pc.pending.(generation := Some(pc.generation), receiptId := Some(pc.receiptId))), r);
         t == if r.Saved? then u.To(Settling(pc.pending.supervisor, pc.generation, pc.receiptId)) else u.Stop()
    case SettleOld(k) =>
      pc.Settling? && SettleCall(s, pc.owner, pc.generation, pc.receiptId, k, s.To(Clearing(true)), s.Stop(), t)
    case DiscardOld(applied, returned) =>
      && pc.Discarding?
      && var d := Discard(s.registry, pc.owner, pc.generation, pc.receiptId);
         var u := if applied && d.Some? then s.(registry := d.value) else s;
         t == if applied && returned && d.Some? then u.To(Clearing(true)) else u.Stop()
    case SaveCleared(r) =>
      pc.Clearing? && t == if r.Saved? && pc.thenPoll then Save(s, None, r).To(Polling) else Save(s, None, r).Stop()
    case SaveIntent(r) =>
      && pc.Polling?
      && var u := Save(s, s.Own(ReservedPreExecution, None, None), r);
         t == if r.Saved? then u.To(Reserving) else u.Stop()
    case ReserveGranted(rid, k) =>
      && pc.Reserving?
      && var writes := Reserve(s.registry, id, rid);
         && k <= |writes|
         && var u := s.(registry := CutAt(s.registry, writes, k));
            t == if k == 2 then u.To(Admitted(s.registry.Generation() + 1, rid)) else u.Stop()
    case ReserveDenied(park) =>
      && pc.Reserving? && !s.registry.lane.Active?
      && t == s.(registry := if park then Deny(s.registry) else s.registry).To(Clearing(false))
    case SaveBound(r) =>
      && pc.Admitted?
      && var u := Save(s, s.Own(ReservedPreExecution, Some(pc.generation), Some(pc.receiptId)), r);
         t == if r.Saved? then u.To(Bound(pc.generation, pc.receiptId)) else u.Stop()
    case FailBeforeGuard => pc.Bound? && t == s.To(Undoing(pc.generation, pc.receiptId))
    case ForkGuard =>
      && pc.Bound?
      && t == s.(guard := Some(Guard(id, pc.generation, pc.receiptId, Reading(NoFrame)))).To(GuardUp(pc.generation, pc.receiptId))
    case MarkUncertain(r, cancelSent) =>
      && pc.GuardUp?
      && var u := Save(s, s.Own(SpawnUncertain, Some(pc.generation), Some(pc.receiptId)), r);
         t == if r.Saved? then u.To(Marked(pc.generation, pc.receiptId))
              else (if cancelSent then u.Send(CancelFrame) else u).To(Undoing(pc.generation, pc.receiptId))
    case UndoOwn(k) =>
      pc.Undoing? && SettleCall(s, id, pc.generation, pc.receiptId, k, s.To(Clearing(false)), s.Stop(), t)
    case Spawn(execFails) =>
      && pc.Marked?
      && var u := s.(targets := s.targets + {pc.generation}, spawned := s.spawned[pc.generation := id]).Send(PidFrame);
         t == if execFails then u.Stop() else u.To(Waiting(pc.generation, pc.receiptId))
    case SpawnFails => pc.Marked? && t == s.Stop()
    case Finish(r) =>
      pc.Waiting? && t == (if s.acknowledged == Some(pc.generation) then Save(s, None, r) else s).Stop()
    case SupervisorStops => t == s.Stop()
    case _ => false
  }

  ghost predicate GuardStep(s: State, step: Step, t: State)
    requires s.guard.Some?
  {
    var g := s.guard.value;
    match step
    case GuardReads =>
      && g.pc.Reading? && !g.pc.frame.NoFrame?
      && t == s.(guard := Some(g.(pc := if g.pc.frame.CancelFrame? then Cancelling else if g.pc.frame.PidFrame? then Watching else Stuck)))
    case GuardSeesEmptyGroup => g.pc.Watching? && g.generation !in s.targets && t == s.(guard := Some(g.(pc := GroupEmpty)))
    case GuardSettles(k, clean) =>
      && (g.pc.Cancelling? || g.pc.GroupEmpty?)
      && SettleCall(s, g.supervisor, g.generation, g.receiptId, k,
                    s.(guard := None, acknowledged := if clean then Some(g.generation) else s.acknowledged), s, t)
    case GuardDies => t == s.(guard := None)
    case _ => false
  }

  ghost predicate StepOk(s: State, step: Step, t: State) {
    match step
    case Acquire =>
      && s.sup.None? && s.guard.None?
      && t == s.(sup := Some(Supervisor(s.nextId, Starting)), nextId := s.nextId + 1, acknowledged := None)
    case GroupDies(g) => t == s.(targets := s.targets - {g})
    case Reboot => t == s.(boot := s.boot + 1, sup := None, guard := None, targets := {})
    case _ =>
      || (s.sup.Some? && SupervisorStep(s, step, t))
      || (s.guard.Some? && GuardStep(s, step, t))
  }

  ghost predicate Next(s: State, t: State) { exists step :: StepOk(s, step, t) }

  /** A fresh machine, or one whose state file names another host's intent. */
  ghost predicate Init(s: State) {
    && s.registry == Registry(NoLane, NoReceipt) && s.sup.None? && s.guard.None?
    && s.acknowledged.None? && s.targets == {} && s.spawned == map[]
    && (s.durable.Some? ==> s.durable.value.host != s.host)
  }

  ghost predicate Run(states: seq<State>) {
    && |states| > 0 && Init(states[0])
    && forall i | 0 <= i < |states| - 1 :: Next(states[i], states[i + 1])
  }
}
