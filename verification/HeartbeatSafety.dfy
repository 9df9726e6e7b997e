/** Non-overlap of heartbeat wake targets, over every run of module Heartbeat. */
module HeartbeatSafety {
  import opened HeartbeatAdmission
  import opened Heartbeat

  // ---------------------------------------------------------------------------
  // The inductive invariant

  ghost predicate RegistryInv(s: State) {
    s.registry.lane.Active? ==> s.registry.receipt.Live? && s.registry.receipt.generation == s.registry.lane.generation
  }

  /** A group that may live owns the open generation. */
  ghost predicate TargetsInv(s: State) {
    forall g <- s.targets :: g in s.spawned && s.registry.Open(g)
  }

  ghost predicate SpawnedInv(s: State) {
    forall g <- s.spawned ::
      && g <= s.registry.Generation()
      && (g == s.registry.Generation() ==> s.registry.lane == Active(g))
      && s.spawned[g] < s.nextId
      && (s.registry.Open(g) ==> s.registry.receipt.supervisor == s.spawned[g])
  }

  /** An intent of the supervisor that spawned the open generation says so. */
  ghost predicate SpeaksFor(s: State, p: Pending, g: nat) {
    p.host == s.host && p.generation == Some(g) && p.phase.SpawnUncertain? && (g in s.targets ==> p.boot == s.boot)
  }

  ghost predicate DurableInv(s: State) {
    s.durable.Some? ==>
      var p := s.durable.value;
      && (p.host != s.host ==> s.spawned == map[])
      && (p.host == s.host ==> p.supervisor < s.nextId)
      && (forall g <- s.spawned | s.registry.Open(g) && s.spawned[g] == p.supervisor :: SpeaksFor(s, p, g))
  }

  /** Nothing that the intent's supervisor spawned is still open. */
  ghost predicate NothingOpen(s: State, supervisor: nat) {
    forall g <- s.spawned | s.spawned[g] == supervisor :: !s.registry.Open(g)
  }

  ghost predicate OwnsOpen(s: State, id: nat, g: nat) {
    s.registry.Open(g) && s.registry.receipt.supervisor == id && g !in s.spawned
  }

  ghost predicate PcInv(s: State, id: nat, pc: Pc)
    requires s.sup.Some?
  {
    match pc
    case Starting => true
    case Recovering(p) => s.durable == Some(p)
    case Binding(p, g, r) => s.durable == Some(p) && p.host == s.host && p.phase.ReservedPreExecution? && NothingOpen(s, p.supervisor)
    case Settling(q, g, r) =>
      && s.durable.Some? && s.durable.value.supervisor == q && s.durable.value.host == s.host
      && (s.registry.receipt.Live? && s.registry.receipt.supervisor == q ==> g !in s.targets)
      && (forall o <- s.spawned | s.spawned[o] == q && s.registry.Open(o) :: o == g)
    case Discarding(q, g, r) => s.durable.Some? && s.durable.value.supervisor == q && !s.registry.lane.Active?
    case Clearing(_) => s.durable.Some? ==> NothingOpen(s, s.durable.value.supervisor)
    case Polling => s.durable.None?
    case Reserving => s.durable == s.Own(ReservedPreExecution, None, None)
    case Admitted(g, r) => s.durable == s.Own(ReservedPreExecution, None, None) && OwnsOpen(s, id, g)
    case Bound(g, r) => s.durable == s.Own(ReservedPreExecution, Some(g), Some(r)) && OwnsOpen(s, id, g)
    case GuardUp(g, r) => s.durable == s.Own(ReservedPreExecution, Some(g), Some(r)) && OwnsOpen(s, id, g)
    case Marked(g, r) => s.durable == s.Own(SpawnUncertain, Some(g), Some(r)) && OwnsOpen(s, id, g)
    case Undoing(g, r) => s.durable.Some? && s.durable.value.supervisor == id && g !in s.spawned
    case Waiting(g, r) =>
      && g in s.spawned && s.durable == s.Own(SpawnUncertain, Some(g), Some(r))
      && forall o <- s.spawned | s.spawned[o] == id :: o == g
  }

  ghost predicate SupInv(s: State) {
    s.sup.Some? ==>
      var id, pc := s.sup.value.id, s.sup.value.pc;
      && id < s.nextId
      && (!pc.Waiting? ==> forall g <- s.spawned :: s.spawned[g] != id)
      && PcInv(s, id, pc)
  }

  /** The lock: while a guard lives no other supervisor runs, and a guard with no
      frame yet belongs to a supervisor that has not spawned. */
  ghost predicate GuardInv(s: State) {
    s.guard.Some? ==>
      var d := s.guard.value;
      && d.supervisor < s.nextId
      && ((d.pc.Cancelling? || d.pc == Reading(CancelFrame)) ==> d.generation !in s.spawned)
      && (d.pc.GroupEmpty? ==> d.generation !in s.targets)
      && (s.sup.Some? ==>
            && s.sup.value.id == d.supervisor
            && match s.sup.value.pc
               case GuardUp(g, _) => g == d.generation && d.pc == Reading(NoFrame)
               case Marked(g, _) => g == d.generation && d.pc == Reading(NoFrame)
               case Undoing(_, _) => true
               case Clearing(poll) => !poll
               case Waiting(_, _) => true
               case _ => false)
  }

  ghost predicate AckInv(s: State) {
    s.acknowledged.Some? ==> s.acknowledged.value < s.registry.Generation()
  }

  ghost predicate Inv(s: State) {
    RegistryInv(s) && TargetsInv(s) && SpawnedInv(s) && DurableInv(s) && SupInv(s) && GuardInv(s) && AckInv(s)
  }

  lemma StopKeeps(s: State)
    requires Inv(s)
    ensures Inv(s.Stop())
  {
  }

  lemma LoadKeeps(s: State, step: Step, t: State)
    requires Inv(s) && s.sup.Some? && SupervisorStep(s, step, t)
    requires step.Prime? || step.Load?
    ensures Inv(t)
  {
  }

  lemma BindKeeps(s: State, step: Step, t: State)
    requires Inv(s) && s.sup.Some? && SupervisorStep(s, step, t)
    requires step.BindOld?
    ensures Inv(t)
  {
  }

  /** Every verdict of reconciliation that goes on rests on the durable phase and
      the registry, never on the owner's observed death alone. */
  lemma DecisionJustified(s: State, p: Pending, ownerGone: bool)
    requires Inv(s) && s.sup.Some? && s.sup.value.pc == Recovering(p)
    ensures match Reconcile(p, Recover(s.registry, p.supervisor, p.generation), s.host, s.boot, ownerGone)
            case Raise => true
            case Fenced => true
            case Clear => PcInv(s, s.sup.value.id, Clearing(true))
            case SettleThenClear(g, r) => PcInv(s, s.sup.value.id, Settling(p.supervisor, g, r))
            case DiscardThenClear(g, r) => PcInv(s, s.sup.value.id, Discarding(p.supervisor, g, r))
            case BindThenSettle(g, r) => PcInv(s, s.sup.value.id, Binding(p, g, r))
  {
  }

  lemma MoveKeeps(s: State, pc: Pc)
    requires Inv(s) && s.sup.Some? && !s.sup.value.pc.Waiting? && s.guard.None?
    requires !pc.Waiting? && PcInv(s, s.sup.value.id, pc)
    ensures Inv(s.To(pc))
  {
  }

  lemma DecideKeeps(s: State, ownerGone: bool, t: State)
    requires Inv(s) && s.sup.Some? && SupervisorStep(s, Decide(ownerGone), t)
    ensures Inv(t)
  {
    var p := s.sup.value.pc.pending;
    DecisionJustified(s, p, ownerGone);
    match Reconcile(p, Recover(s.registry, p.supervisor, p.generation), s.host, s.boot, ownerGone) {
      case Raise => StopKeeps(s);
      case Fenced => StopKeeps(s);
      case Clear => MoveKeeps(s, Clearing(true));
      case SettleThenClear(g, r) => MoveKeeps(s, Settling(p.supervisor, g, r));
      case DiscardThenClear(g, r) => MoveKeeps(s, Discarding(p.supervisor, g, r));
      case BindThenSettle(g, r) => MoveKeeps(s, Binding(p, g, r));
    }
  }

  lemma DiscardKeeps(s: State, step: Step, t: State)
    requires Inv(s) && s.sup.Some? && SupervisorStep(s, step, t)
    requires step.DiscardOld?
    ensures Inv(t)
  {
  }

  lemma ClearKeeps(s: State, step: Step, t: State)
    requires Inv(s) && s.sup.Some? && SupervisorStep(s, step, t)
    requires step.SaveCleared?
    ensures Inv(t)
  {
  }

  lemma IntentKeeps(s: State, step: Step, t: State)
    requires Inv(s) && s.sup.Some? && SupervisorStep(s, step, t)
    requires step.SaveIntent?
    ensures Inv(t)
  {
  }

  lemma GrantKeeps(s: State, step: Step, t: State)
    requires Inv(s) && s.sup.Some? && SupervisorStep(s, step, t)
    requires step.ReserveGranted?
    ensures Inv(t)
  {
  }

  lemma ReserveKeeps(s: State, step: Step, t: State)
    requires Inv(s) && s.sup.Some? && SupervisorStep(s, step, t)
    requires step.ReserveDenied?
    ensures Inv(t)
  {
  }

  lemma BoundKeeps(s: State, step: Step, t: State)
    requires Inv(s) && s.sup.Some? && SupervisorStep(s, step, t)
    requires step.SaveBound?
    ensures Inv(t)
  {
  }

  /** A settle call for a generation without live targets keeps everything, however
      far it gets, and when it returns the generation is behind the lane. */
  lemma SettleWritesKeep(s: State, owner: nat, g: nat, rid: nat, k: nat)
    requires Inv(s) && Settle(s.registry, owner, g, rid).Some? && k <= |Settle(s.registry, owner, g, rid).value|
    requires g !in s.targets
    requires s.sup.Some? ==> var pc := s.sup.value.pc; pc.Settling? || pc.Undoing? || pc.Waiting? || pc.Clearing?
    ensures var w := Settle(s.registry, owner, g, rid).value;
            && Inv(s.(registry := CutAt(s.registry, w, k)))
            && (k == |w| ==> CutAt(s.registry, w, k).Generation() > g && !CutAt(s.registry, w, k).Open(g))
            && (forall o :: CutAt(s.registry, w, k).Open(o) ==> s.registry.Open(o))
  {
  }

  lemma SettleOldKeeps(s: State, k: nat, t: State)
    requires Inv(s) && s.sup.Some? && SupervisorStep(s, SettleOld(k), t)
    ensures Inv(t)
  {
    var Settling(q, g, r) := s.sup.value.pc;
    match Settle(s.registry, q, g, r) {
      case None => StopKeeps(s);
      case Some(w) =>
        SettleWritesKeep(s, q, g, r, k);
        var u := s.(registry := CutAt(s.registry, w, k));
        if k == |w| { MoveKeeps(u, Clearing(true)); } else { StopKeeps(u); }
    }
  }

  lemma UndoKeeps(s: State, k: nat, t: State)
    requires Inv(s) && s.sup.Some? && SupervisorStep(s, UndoOwn(k), t)
    ensures Inv(t)
  {
    var id := s.sup.value.id;
    var Undoing(g, r) := s.sup.value.pc;
    match Settle(s.registry, id, g, r) {
      case None => StopKeeps(s);
      case Some(w) =>
        SettleWritesKeep(s, id, g, r, k);
        var u := s.(registry := CutAt(s.registry, w, k));
        if k < |w| { StopKeeps(u); }
    }
  }

  lemma GuardSettleKeeps(s: State, k: nat, clean: bool, t: State)
    requires Inv(s) && s.guard.Some? && GuardStep(s, GuardSettles(k, clean), t)
    ensures Inv(t)
  {
    var d := s.guard.value;
    if Settle(s.registry, d.supervisor, d.generation, d.receiptId).Some? {
      SettleWritesKeep(s, d.supervisor, d.generation, d.receiptId, k);
    }
  }

  lemma ForkKeeps(s: State, step: Step, t: State)
    requires Inv(s) && s.sup.Some? && SupervisorStep(s, step, t)
    requires step.FailBeforeGuard? || step.ForkGuard?
    ensures Inv(t)
  {
  }

  lemma FinishKeeps(s: State, step: Step, t: State)
    requires Inv(s) && s.sup.Some? && SupervisorStep(s, step, t)
    requires step.Finish?
    ensures Inv(t)
  {
  }

  lemma MarkSaved(s: State, step: Step, t: State)
    requires Inv(s) && s.sup.Some? && SupervisorStep(s, step, t)
    requires step.MarkUncertain? && step.save.Saved?
    ensures Inv(t)
  {
  }

  lemma MarkUnsaved(s: State, step: Step, t: State)
    requires Inv(s) && s.sup.Some? && SupervisorStep(s, step, t)
    requires step.MarkUncertain? && step.save.NotSaved?
    ensures Inv(t)
  {
  }

  lemma MarkDoubtful(s: State, step: Step, t: State)
    requires Inv(s) && s.sup.Some? && SupervisorStep(s, step, t)
    requires step.MarkUncertain? && step.save.SavedButRaised?
    ensures Inv(t)
  {
  }

  lemma MarkKeeps(s: State, step: Step, t: State)
    requires Inv(s) && s.sup.Some? && SupervisorStep(s, step, t)
    requires step.MarkUncertain?
    ensures Inv(t)
  {
    match step.save {
      case Saved => MarkSaved(s, step, t);
      case SavedButRaised => MarkDoubtful(s, step, t);
      case NotSaved => MarkUnsaved(s, step, t);
    }
  }

  lemma SpawnKeeps(s: State, step: Step, t: State)
    requires Inv(s) && s.sup.Some? && SupervisorStep(s, step, t)
    requires step.Spawn?
    ensures Inv(t)
  {
  }

  lemma GuardKeeps(s: State, step: Step, t: State)
    requires Inv(s) && s.guard.Some? && GuardStep(s, step, t)
    requires !step.GuardSettles?
    ensures Inv(t)
  {
  }

  lemma MachineKeeps(s: State, step: Step, t: State)
    requires Inv(s) && StepOk(s, step, t) && (step.Acquire? || step.GroupDies? || step.Reboot?)
    ensures Inv(t)
  {
  }

  predicate Recovers(step: Step) {
    step.Prime? || step.Load? || step.Decide? || step.BindOld? || step.SettleOld? || step.DiscardOld? || step.SaveCleared?
  }

  lemma RecoveryKeeps(s: State, step: Step, t: State)
    requires Inv(s) && s.sup.Some? && SupervisorStep(s, step, t) && Recovers(step)
    ensures Inv(t)
  {
    match step {
      case Prime(_) => LoadKeeps(s, step, t);
      case Load => LoadKeeps(s, step, t);
      case BindOld(_) => BindKeeps(s, step, t);
      case Decide(ownerGone) => DecideKeeps(s, ownerGone, t);
      case DiscardOld(_, _) => DiscardKeeps(s, step, t);
      case SaveCleared(_) => ClearKeeps(s, step, t);
      case SettleOld(k) => SettleOldKeeps(s, k, t);
    }
  }

  lemma AdmissionKeeps(s: State, step: Step, t: State)
    requires Inv(s) && s.sup.Some? && SupervisorStep(s, step, t)
    requires step.SaveIntent? || step.ReserveGranted? || step.ReserveDenied? || step.SaveBound? || step.FailBeforeGuard? || step.UndoOwn?
    ensures Inv(t)
  {
    match step {
      case SaveIntent(_) => IntentKeeps(s, step, t);
      case ReserveGranted(_, _) => GrantKeeps(s, step, t);
      case ReserveDenied(_) => ReserveKeeps(s, step, t);
      case SaveBound(_) => BoundKeeps(s, step, t);
      case FailBeforeGuard => ForkKeeps(s, step, t);
      case UndoOwn(k) => UndoKeeps(s, k, t);
    }
  }

  lemma WakeKeeps(s: State, step: Step, t: State)
    requires Inv(s) && s.sup.Some? && SupervisorStep(s, step, t)
    requires step.ForkGuard? || step.MarkUncertain? || step.Spawn? || step.SpawnFails? || step.Finish? || step.SupervisorStops?
    ensures Inv(t)
  {
    match step {
      case ForkGuard => ForkKeeps(s, step, t);
      case MarkUncertain(_, _) => MarkKeeps(s, step, t);
      case Spawn(_) => SpawnKeeps(s, step, t);
      case SpawnFails => StopKeeps(s);
      case Finish(_) => FinishKeeps(s, step, t);
      case SupervisorStops => StopKeeps(s);
    }
  }

  lemma SupervisorKeeps(s: State, step: Step, t: State)
    requires Inv(s) && s.sup.Some? && SupervisorStep(s, step, t)
    ensures Inv(t)
  {
    if Recovers(step) {
      RecoveryKeeps(s, step, t);
    } else if step.SaveIntent? || step.ReserveGranted? || step.ReserveDenied? || step.SaveBound? || step.FailBeforeGuard? || step.UndoOwn? {
      AdmissionKeeps(s, step, t);
    } else {
      WakeKeeps(s, step, t);
    }
  }

  lemma StepKeepsInv(s: State, t: State)
    requires Inv(s) && Next(s, t)
    ensures Inv(t)
  {
    var step :| StepOk(s, step, t);
    if step.Acquire? || step.GroupDies? || step.Reboot? {
      MachineKeeps(s, step, t);
    } else if s.sup.Some? && SupervisorStep(s, step, t) {
      SupervisorKeeps(s, step, t);
    } else if step.GuardSettles? {
      GuardSettleKeeps(s, step.k, step.clean, t);
    } else {
      GuardKeeps(s, step, t);
    }
  }

  lemma {:induction false} RunInv(states: seq<State>)
    requires Run(states)
    ensures Inv(states[|states| - 1])
  {
    if |states| > 1 {
      var n := |states| - 1;
      assert Run(states[..n]);
      RunInv(states[..n]);
      StepKeepsInv(states[n - 1], states[n]);
    }
  }

  // ---------------------------------------------------------------------------
  // Main results

  /** A wake target is spawned only when no earlier target's process group can be
      alive, in every run with supervisor and guard deaths, failed or uncertain
      saves, interrupted admission calls, explicit re-priming and reboots. */
  lemma NoOverlap(states: seq<State>, execFails: bool, t: State)
    requires Run(states) && StepOk(states[|states| - 1], Spawn(execFails), t)
    ensures states[|states| - 1].targets == {}
  {
    RunInv(states);
  }

  lemma AtMostOneTarget(states: seq<State>, g: nat, o: nat)
    requires Run(states) && g in states[|states| - 1].targets && o in states[|states| - 1].targets
    ensures g == o && states[|states| - 1].registry.Open(g)
  {
    RunInv(states);
  }

  /** A spawn happens only behind a durable spawn-uncertain intent, bound to the
      open generation it is charged to. */
  lemma SpawnIsMarked(states: seq<State>, execFails: bool, t: State)
    requires Run(states) && StepOk(states[|states| - 1], Spawn(execFails), t)
    ensures var s := states[|states| - 1];
            && s.durable.Some? && s.durable.value.phase.SpawnUncertain? && s.durable.value.boot == s.boot
            && s.durable.value.generation.Some? && s.registry.Open(s.durable.value.generation.value)
            && s.durable.value.generation.value !in s.spawned
            && t.spawned == s.spawned[s.durable.value.generation.value := s.durable.value.supervisor]
  {
    RunInv(states);
  }

  lemma GuardLetsGo(s: State, step: Step, t: State)
    requires Inv(s) && s.guard.Some? && GuardStep(s, step, t) && t.guard.None? && !step.GuardDies?
    ensures s.guard.value.generation !in s.targets && !t.registry.Open(s.guard.value.generation)
  {
    var d := s.guard.value;
    if Settle(s.registry, d.supervisor, d.generation, d.receiptId).Some? {
      SettleWritesKeep(s, d.supervisor, d.generation, d.receiptId, step.k);
    }
  }

  lemma OthersKeepGuard(s: State, step: Step, t: State)
    requires s.guard.Some? && s.sup.Some? && SupervisorStep(s, step, t) && Inv(s)
    ensures t.guard.Some?
  {
  }

  /** The guard keeps the lock: while it lives no invocation runs but the one that
      forked it, and it lets go only of a generation that is no longer open. */
  lemma GuardKeepsLock(states: seq<State>, step: Step, t: State)
    requires Run(states) && StepOk(states[|states| - 1], step, t)
    requires states[|states| - 1].guard.Some?
    ensures var s := states[|states| - 1];
            && !step.Acquire?
            && (s.sup.Some? ==> s.sup.value.id == s.guard.value.supervisor)
            && (t.guard.None? && !step.GuardDies? && !step.Reboot? ==>
                  s.guard.value.generation !in s.targets && !t.registry.Open(s.guard.value.generation))
  {
    RunInv(states);
    var s := states[|states| - 1];
    if s.sup.Some? && SupervisorStep(s, step, t) {
      OthersKeepGuard(s, step, t);
    } else if GuardStep(s, step, t) && t.guard.None? && !step.GuardDies? {
      GuardLetsGo(s, step, t);
    }
  }

  /** Reconciliation never goes on over a target that may live. */
  lemma LiveTargetFences(states: seq<State>, g: nat, ownerGone: bool)
    requires Run(states) && g in states[|states| - 1].targets
    requires var s := states[|states| - 1]; g in s.spawned && s.durable.Some? && s.durable.value.supervisor == s.spawned[g]
    ensures var s, p := states[|states| - 1], states[|states| - 1].durable.value;
            var d := Reconcile(p, Recover(s.registry, p.supervisor, p.generation), s.host, s.boot, ownerGone);
            d.Fenced? || d.Raise?
  {
    RunInv(states);
  }

  /** Only the last save of a recovery or of an acknowledged wake, and priming,
      drop a durable intent. */
  lemma SupervisorClears(s: State, step: Step, t: State)
    requires s.sup.Some? && SupInv(s) && SupervisorStep(s, step, t) && s.durable.Some? && !step.Prime?
    requires t.durable.None? || t.durable.value.supervisor != s.durable.value.supervisor
    ensures s.sup.value.pc.Clearing? || (s.sup.value.pc.Waiting? && s.acknowledged == Some(s.sup.value.pc.generation))
  {
  }

  lemma WhoClears(s: State, step: Step, t: State)
    requires Inv(s) && StepOk(s, step, t) && s.durable.Some? && !step.Prime?
    requires t.durable.None? || t.durable.value.supervisor != s.durable.value.supervisor
    ensures s.sup.Some?
    ensures s.sup.value.pc.Clearing? || (s.sup.value.pc.Waiting? && s.acknowledged == Some(s.sup.value.pc.generation))
  {
    if s.sup.Some? && SupervisorStep(s, step, t) {
      SupervisorClears(s, step, t);
    }
  }

  /** The durable intent and the registry, as an operator reads them, leave it open
      whether a target lives: the intent is this host's, marked spawn-uncertain, and the
      generation it is bound to is its supervisor's and still open. */
  predicate MayForget(s: State) {
    && s.durable.Some?
    && var p := s.durable.value;
       && p.host == s.host && p.phase.SpawnUncertain? && p.generation.Some?
       && s.registry.Open(p.generation.value) && s.registry.receipt.supervisor == p.supervisor
  }

  /** Something that the intent's supervisor spawned is open. */
  lemma OpenExactly(s: State)
    requires Inv(s) && s.durable.Some?
    ensures !NothingOpen(s, s.durable.value.supervisor) <==> MayForget(s) && s.durable.value.generation.value in s.spawned
  {
    var p := s.durable.value;
    if MayForget(s) && p.generation.value in s.spawned {
      assert s.spawned[p.generation.value] == p.supervisor;
    }
  }

  /** Every step that drops a durable intent does so when nothing its supervisor
      spawned is open: it was settled, or never spawned. For explicit priming this
      rests on what the records say, for every other step on the protocol. */
  lemma ClearingIsProved(states: seq<State>, step: Step, t: State)
    requires Run(states) && StepOk(states[|states| - 1], step, t)
    requires states[|states| - 1].durable.Some?
    requires t.durable.None? || t.durable.value.supervisor != states[|states| - 1].durable.value.supervisor
    requires step.Prime? ==> !MayForget(states[|states| - 1])
    ensures var s := states[|states| - 1];
            && NothingOpen(s, s.durable.value.supervisor)
            && forall g <- s.targets :: g in s.spawned && s.spawned[g] != s.durable.value.supervisor
  {
    RunInv(states);
    var s := states[|states| - 1];
    if step.Prime? {
      OpenExactly(s);
    } else {
      WhoClears(s, step, t);
    }
  }

  lemma Extended(states: seq<State>, step: Step, t: State)
    requires Run(states) && StepOk(states[|states| - 1], step, t)
    ensures Run(states + [t])
  {
    var u := states + [t];
    forall i | 0 <= i < |u| - 1 ensures Next(u[i], u[i + 1]) {
      if i < |states| - 1 { assert Next(states[i], states[i + 1]); }
    }
  }

  /** A first supervisor with a durably bound reservation, and after its spawn. */
  function FirstBound(): State {
    State(0, 0, 1, Some(Pending(0, 0, 0, ReservedPreExecution, Some(1), Some(7))), Registry(Active(1), Live(0, 1, 7, false)),
          Some(Supervisor(0, Bound(1, 7))), None, None, {}, map[])
  }

  function FirstAwake(): State {
    State(0, 0, 1, Some(Pending(0, 0, 0, SpawnUncertain, Some(1), Some(7))), Registry(Active(1), Live(0, 1, 7, false)),
          Some(Supervisor(0, Waiting(1, 7))), Some(Guard(0, 1, 7, Reading(PidFrame))), None, {1}, map[1 := 0])
  }

  lemma FirstBoundReachable() returns (states: seq<State>)
    ensures Run(states) && states[|states| - 1] == FirstBound()
  {
    var s0 := State(0, 0, 0, None, Registry(NoLane, NoReceipt), None, None, None, {}, map[]);
    var s1 := s0.(sup := Some(Supervisor(0, Starting)), nextId := 1);
    var s2 := s1.To(Polling);
    var s3 := s2.(durable := s2.Own(ReservedPreExecution, None, None)).To(Reserving);
    var s4 := s3.(registry := Registry(Active(1), Live(0, 1, 7, false))).To(Admitted(1, 7));
    states := [s0];
    Extended(states, Acquire, s1); states := states + [s1];
    Extended(states, Load, s2); states := states + [s2];
    Extended(states, SaveIntent(Saved), s3); states := states + [s3];
    Extended(states, ReserveGranted(7, 2), s4); states := states + [s4];
    Extended(states, SaveBound(Saved), FirstBound()); states := states + [FirstBound()];
  }

  lemma FirstAwakeReachable() returns (states: seq<State>)
    ensures Run(states) && states[|states| - 1] == FirstAwake()
  {
    states := FirstBoundReachable();
    var s6 := FirstBound().(guard := Some(Guard(0, 1, 7, Reading(NoFrame)))).To(GuardUp(1, 7));
    var s7 := s6.(durable := s6.Own(SpawnUncertain, Some(1), Some(7))).To(Marked(1, 7));
    Extended(states, ForkGuard, s6); states := states + [s6];
    Extended(states, MarkUncertain(Saved, false), s7); states := states + [s7];
    assert s7.targets + {1} == {1} && s7.spawned[1 := 0] == map[1 := 0];
    Extended(states, Spawn(false), FirstAwake()); states := states + [FirstAwake()];
  }

  /** Its guard and itself killed, and the second supervisor about to look. */
  function SecondStarting(): State {
    FirstAwake().(guard := None, sup := Some(Supervisor(1, Starting)), nextId := 2)
  }

  lemma SecondStartingReachable() returns (states: seq<State>)
    ensures Run(states) && states[|states| - 1] == SecondStarting()
  {
    states := FirstAwakeReachable();
    var unguarded := FirstAwake().(guard := None);
    var orphaned := unguarded.(sup := None);
    Extended(states, GuardDies, unguarded); states := states + [unguarded];
    Extended(states, SupervisorStops, orphaned); states := states + [orphaned];
    Extended(states, Acquire, SecondStarting()); states := states + [SecondStarting()];
  }

  /** Explicit priming is the exception: it drops the intent of a live target.  The
      registry fence still keeps a second target away (NoOverlap). */
  lemma PrimingForgetsALiveTarget()
    ensures exists states: seq<State>, t: State ::
      && Run(states) && StepOk(states[|states| - 1], Prime(Saved), t)
      && states[|states| - 1].durable.Some? && t.durable.None? && 1 in t.targets && t.registry.Open(1)
  {
    var states := SecondStartingReachable();
    var t := SecondStarting().(durable := None, sup := None);
    assert StepOk(SecondStarting(), Prime(Saved), t);
  }
}
