/** Nothing is stranded: in runs whose explicit priming meets no intent, every intent
    that a crash leaves can be reconciled, exactly when its owner is proved dead or the
    stop of its generation was attested, and reconciliation then ends with intent and
    lane given up. */
module HeartbeatRecovery {
  import opened HeartbeatAdmission
  import opened Heartbeat
  import opened HeartbeatSafety
  import opened HeartbeatReconcile

  /** Nobody owns the lane, and the receipt is history. */
  predicate Clean(r: Registry) {
    && !r.lane.Active?
    && match r.receipt
       case NoReceipt => !r.lane.Released?
       case Live(_, g, _, settled) =>
         settled && g > 0 && (r.lane == Released(g + 1) || (r.lane.CapacityParked? && g + 1 < r.lane.generation))
       case Discarded(_, g, _, _) => g > 0 && DiscardStillMatches(r.receipt, r.lane)
  }

  predicate Unbound(p: Pending) { p.phase.ReservedPreExecution? && p.generation.None? && p.receiptId.None? }

  predicate BoundTo(p: Pending, supervisor: nat, g: nat, id: nat) {
    p.supervisor == supervisor && p.generation == Some(g) && p.receiptId == Some(id)
  }

  /** The receipt is this one. */
  predicate Holds(r: Registry, supervisor: nat, g: nat, id: nat) {
    r.receipt.Live? && r.receipt.supervisor == supervisor && r.receipt.generation == g && r.receipt.receiptId == id
  }

  /** The registry that an intent of this host may be outstanding over. */
  predicate Outstanding(p: Pending, r: Registry) {
    if Unbound(p) then
      || Clean(r)
      || (r.receipt.Live? && r.receipt.supervisor == p.supervisor && !r.receipt.settled && r.receipt.generation > 0
          && (r.Unpublished() || r.lane == Active(r.receipt.generation)))
    else
      && p.generation.Some? && p.receiptId.Some? && p.generation.value > 0
      && Holds(r, p.supervisor, p.generation.value, p.receiptId.value)
      && (r.lane == Active(p.generation.value) || (r.lane == Released(p.generation.value + 1) && r.receipt.settled))
  }

  predicate RecordsInv(s: State) {
    if s.durable.None? || s.durable.value.host != s.host then Clean(s.registry)
    else Outstanding(s.durable.value, s.registry) && s.durable.value.boot <= s.boot
  }

  predicate DurablyBound(s: State, supervisor: nat, g: nat, id: nat) {
    s.durable.Some? && s.durable.value.host == s.host && BoundTo(s.durable.value, supervisor, g, id)
  }

  predicate KnowsRecords(s: State, id: nat, pc: Pc) {
    match pc
    case Binding(p, g, r) => Unbound(p) && s.registry.lane == Active(g) && Holds(s.registry, p.supervisor, g, r) && !s.registry.receipt.settled
    case Settling(q, g, r) => DurablyBound(s, q, g, r)
    case Clearing(_) => Clean(s.registry)
    case Reserving => Clean(s.registry)
    case Admitted(g, r) => g > 0 && s.registry.lane == Active(g) && Holds(s.registry, id, g, r)
    case Bound(g, r) => DurablyBound(s, id, g, r)
    case GuardUp(g, r) => DurablyBound(s, id, g, r)
    case Marked(g, r) => DurablyBound(s, id, g, r)
    case Undoing(g, r) => DurablyBound(s, id, g, r)
    case Waiting(g, r) => DurablyBound(s, id, g, r)
    case Discarding(q, g, r) => s.durable.Some? && s.durable.value.host == s.host && Unbound(s.durable.value)
    case _ => true
  }

  /** A guard can still settle only what the durable intent is bound to. */
  predicate GuardKnows(s: State) {
    s.guard.Some? ==>
      var d := s.guard.value;
      DurablyBound(s, d.supervisor, d.generation, d.receiptId) || Clean(s.registry)
  }

  predicate RecoveryInv(s: State) {
    RecordsInv(s) && GuardKnows(s) && (s.sup.Some? ==> KnowsRecords(s, s.sup.value.id, s.sup.value.pc))
  }

  lemma MachineRecovers(s: State, step: Step, t: State)
    requires Inv(s) && RecoveryInv(s) && StepOk(s, step, t) && (step.Acquire? || step.GroupDies? || step.Reboot?)
    ensures RecoveryInv(t)
  {}

  lemma GuardRecovers(s: State, step: Step, t: State)
    requires Inv(s) && RecoveryInv(s) && s.guard.Some? && GuardStep(s, step, t)
    ensures RecoveryInv(t)
  {}

  lemma LoadRecovers(s: State, step: Step, t: State)
    requires Inv(s) && RecoveryInv(s) && s.sup.Some? && SupervisorStep(s, step, t)
    requires step.Load? || step.BindOld? || (step.Prime? && s.durable.None?)
    ensures RecoveryInv(t)
  {}

  lemma DecideRecovers(s: State, step: Step, t: State)
    requires Inv(s) && RecoveryInv(s) && s.sup.Some? && SupervisorStep(s, step, t) && step.Decide?
    ensures RecoveryInv(t)
  {}

  lemma SettleRecovers(s: State, step: Step, t: State)
    requires Inv(s) && RecoveryInv(s) && s.sup.Some? && SupervisorStep(s, step, t)
    requires step.SettleOld? || step.UndoOwn?
    ensures RecoveryInv(t)
  {}

  lemma DiscardRecovers(s: State, step: Step, t: State)
    requires Inv(s) && RecoveryInv(s) && s.sup.Some? && SupervisorStep(s, step, t)
    requires step.DiscardOld? || step.SaveCleared?
    ensures RecoveryInv(t)
  {}

  lemma ReserveRecovers(s: State, step: Step, t: State)
    requires Inv(s) && RecoveryInv(s) && s.sup.Some? && SupervisorStep(s, step, t)
    requires step.SaveIntent? || step.ReserveGranted? || step.ReserveDenied? || step.SaveBound?
    ensures RecoveryInv(t)
  {}

  lemma ForkRecovers(s: State, step: Step, t: State)
    requires Inv(s) && RecoveryInv(s) && s.sup.Some? && SupervisorStep(s, step, t)
    requires step.FailBeforeGuard? || step.ForkGuard? || step.SupervisorStops?
    ensures RecoveryInv(t)
  {}

  lemma MarkRecovers(s: State, step: Step, t: State)
    requires Inv(s) && RecoveryInv(s) && s.sup.Some? && SupervisorStep(s, step, t)
    requires step.MarkUncertain?
    ensures RecoveryInv(t)
  {}

  lemma SpawnRecovers(s: State, step: Step, t: State)
    requires Inv(s) && RecoveryInv(s) && s.sup.Some? && SupervisorStep(s, step, t)
    requires step.Spawn? || step.SpawnFails? || step.Finish?
    ensures RecoveryInv(t)
  {}

  lemma RecoveryStepRecovers(s: State, step: Step, t: State)
    requires Inv(s) && RecoveryInv(s) && s.sup.Some? && SupervisorStep(s, step, t) && Recovers(step)
    requires step.Prime? ==> s.durable.None?
    ensures RecoveryInv(t)
  {
    match step {
      case Prime(_) => LoadRecovers(s, step, t);
      case Load => LoadRecovers(s, step, t);
      case BindOld(_) => LoadRecovers(s, step, t);
      case Decide(_) => DecideRecovers(s, step, t);
      case SettleOld(_) => SettleRecovers(s, step, t);
      case DiscardOld(_, _) => DiscardRecovers(s, step, t);
      case SaveCleared(_) => DiscardRecovers(s, step, t);
    }
  }

  lemma AdmissionStepRecovers(s: State, step: Step, t: State)
    requires Inv(s) && RecoveryInv(s) && s.sup.Some? && SupervisorStep(s, step, t)
    requires step.SaveIntent? || step.ReserveGranted? || step.ReserveDenied? || step.SaveBound? || step.UndoOwn?
    ensures RecoveryInv(t)
  {
    if step.UndoOwn? {
      SettleRecovers(s, step, t);
    } else {
      ReserveRecovers(s, step, t);
    }
  }

  lemma WakeStepRecovers(s: State, step: Step, t: State)
    requires Inv(s) && RecoveryInv(s) && s.sup.Some? && SupervisorStep(s, step, t) && !Recovers(step)
    requires !(step.SaveIntent? || step.ReserveGranted? || step.ReserveDenied? || step.SaveBound? || step.UndoOwn?)
    ensures RecoveryInv(t)
  {
    match step {
      case MarkUncertain(_, _) => MarkRecovers(s, step, t);
      case Spawn(_) => SpawnRecovers(s, step, t);
      case SpawnFails => SpawnRecovers(s, step, t);
      case Finish(_) => SpawnRecovers(s, step, t);
      case FailBeforeGuard => ForkRecovers(s, step, t);
      case ForkGuard => ForkRecovers(s, step, t);
      case SupervisorStops => ForkRecovers(s, step, t);
    }
  }

  lemma SupervisorRecovers(s: State, step: Step, t: State)
    requires Inv(s) && RecoveryInv(s) && s.sup.Some? && SupervisorStep(s, step, t)
    requires step.Prime? ==> s.durable.None?
    ensures RecoveryInv(t)
  {
    if Recovers(step) {
      RecoveryStepRecovers(s, step, t);
    } else if step.SaveIntent? || step.ReserveGranted? || step.ReserveDenied? || step.SaveBound? || step.UndoOwn? {
      AdmissionStepRecovers(s, step, t);
    } else {
      WakeStepRecovers(s, step, t);
    }
  }

  lemma StepRecovers(s: State, step: Step, t: State)
    requires Inv(s) && RecoveryInv(s) && StepOk(s, step, t)
    requires step.Prime? ==> s.durable.None?
    ensures RecoveryInv(t)
  {
    if step.Acquire? || step.GroupDies? || step.Reboot? {
      MachineRecovers(s, step, t);
    } else if s.sup.Some? && SupervisorStep(s, step, t) {
      SupervisorRecovers(s, step, t);
    } else {
      GuardRecovers(s, step, t);
    }
  }

  /** A run whose explicit priming, if any, meets no intent. */
  ghost predicate Careful(s: State, t: State) { exists step :: StepOk(s, step, t) && (step.Prime? ==> s.durable.None?) }

  ghost predicate CarefulRun(states: seq<State>) {
    Run(states) && forall i | 0 < i < |states| :: Careful(states[i - 1], states[i])
  }

  lemma CarefulKeeps(s: State, t: State)
    requires Inv(s) && RecoveryInv(s) && Careful(s, t)
    ensures RecoveryInv(t)
  {
    var step :| StepOk(s, step, t) && (step.Prime? ==> s.durable.None?);
    StepRecovers(s, step, t);
  }

  lemma {:induction false} RunRecovers(states: seq<State>)
    requires CarefulRun(states)
    ensures RecoveryInv(states[|states| - 1])
  {
    var n := |states| - 1;
    if n > 0 {
      assert Run(states[..n]);
      RunRecovers(states[..n]);
      RunInv(states[..n]);
      assert Careful(states[n - 1], states[n]);
      CarefulKeeps(states[n - 1], states[n]);
    }
  }

  function Decided(s: State, p: Pending, ownerGone: bool): Decision {
    Reconcile(p, Recover(s.registry, p.supervisor, p.generation), s.host, s.boot, ownerGone)
  }

  /** The stop of the intent's own generation was attested. */
  predicate Attested(s: State, p: Pending) {
    p.generation.Some? && s.registry.receipt.Live? && s.registry.receipt.settled && s.registry.receipt.generation == p.generation.value
  }

  lemma DecidedExactly(s: State, p: Pending, ownerGone: bool)
    requires RecoveryInv(s) && s.durable == Some(p) && p.host == s.host
    ensures !Decided(s, p, ownerGone).Raise? && !Decided(s, p, ownerGone).Fenced? <==>
              OwnerIsProvenDead(p, s.boot, ownerGone) || Attested(s, p)
  {}

  // --- from the decision to the end of reconciliation, when every call succeeds

  lemma ClearEnds(start: State, s: State)
    requires Leads(Next, start, s) && s.sup.Some? && s.sup.value.pc == Clearing(true) && Clean(s.registry)
    ensures exists end :: Leads(Next, start, end) && end.AtPc(Polling) && end.durable.None? && Clean(end.registry)
  {
    var end := Save(s, None, Saved).To(Polling);
    Then(start, s, SaveCleared(Saved), end);
  }

  lemma SettleEnds(start: State, s: State, q: nat, g: nat, r: nat)
    requires Leads(Next, start, s) && s.sup.Some? && s.sup.value.pc == Settling(q, g, r) && g > 0
    requires Holds(s.registry, q, g, r) && s.registry.lane == Active(g)
    ensures exists end :: Leads(Next, start, end) && end.AtPc(Polling) && end.durable.None? && Clean(end.registry)
  {
    var w := Settle(s.registry, q, g, r).value;
    var t := s.To(Clearing(true)).(registry := CutAt(s.registry, w, 2));
    Then(start, s, SettleOld(2), t);
    ClearEnds(start, t);
  }

  lemma DiscardEnds(start: State, s: State, q: nat, g: nat, r: nat)
    requires Leads(Next, start, s) && s.sup.Some? && s.sup.value.pc == Discarding(q, g, r) && g > 0
    requires Discard(s.registry, q, g, r).Some? && Clean(Discard(s.registry, q, g, r).value)
    ensures exists end :: Leads(Next, start, end) && end.AtPc(Polling) && end.durable.None? && Clean(end.registry)
  {
    var t := s.(registry := Discard(s.registry, q, g, r).value).To(Clearing(true));
    Then(start, s, DiscardOld(true, true), t);
    ClearEnds(start, t);
  }

  lemma BindEnds(start: State, s: State, p: Pending, g: nat, r: nat)
    requires Leads(Next, start, s) && s.sup.Some? && s.sup.value.pc == Binding(p, g, r) && g > 0
    requires Holds(s.registry, p.supervisor, g, r) && s.registry.lane == Active(g)
    ensures exists end :: Leads(Next, start, end) && end.AtPc(Polling) && end.durable.None? && Clean(end.registry)
  {
    var t := Save(s, Some(p.(generation := Some(g), receiptId := Some(r))), Saved).To(Settling(p.supervisor, g, r));
    Then(start, s, BindOld(Saved), t);
    SettleEnds(start, t, p.supervisor, g, r);
  }

  lemma AfterDecision(s: State, p: Pending, ownerGone: bool, pc: Pc) returns (t: State)
    requires s.sup.Some? && s.sup.value.pc == Recovering(p) && pc == (match Decided(s, p, ownerGone)
                                                                       case Clear => Clearing(true)
                                                                       case SettleThenClear(g, r) => Settling(p.supervisor, g, r)
                                                                       case DiscardThenClear(g, r) => Discarding(p.supervisor, g, r)
                                                                       case BindThenSettle(g, r) => Binding(p, g, r)
                                                                       case _ => Starting) && pc != Starting
    ensures t == s.To(pc) && Leads(Next, s, t)
  {
    t := s.To(pc);
    LeadsToItself(Next, s);
    Then(s, s, Decide(ownerGone), t);
  }

  lemma DecisionEnds(s: State, p: Pending, ownerGone: bool)
    requires RecoveryInv(s) && s.durable == Some(p) && p.host == s.host && s.sup.Some? && s.sup.value.pc == Recovering(p)
    requires OwnerIsProvenDead(p, s.boot, ownerGone) || Attested(s, p)
    ensures exists end :: Leads(Next, s, end) && end.AtPc(Polling) && end.durable.None? && Clean(end.registry)
  {
    DecidedExactly(s, p, ownerGone);
    match Decided(s, p, ownerGone) {
      case Clear =>
        var t := AfterDecision(s, p, ownerGone, Clearing(true));
        ClearEnds(s, t);
      case SettleThenClear(g, r) =>
        var t := AfterDecision(s, p, ownerGone, Settling(p.supervisor, g, r));
        SettleEnds(s, t, p.supervisor, g, r);
      case DiscardThenClear(g, r) =>
        var t := AfterDecision(s, p, ownerGone, Discarding(p.supervisor, g, r));
        DiscardEnds(s, t, p.supervisor, g, r);
      case BindThenSettle(g, r) =>
        var t := AfterDecision(s, p, ownerGone, Binding(p, g, r));
        BindEnds(s, t, p, g, r);
    }
  }

  // ---------------------------------------------------------------------------
  // Main results

  /** Reconciliation goes on over an intent of this host, in every careful run, exactly
      when its owner is proved dead or the stop of its generation was attested. */
  lemma GoesOnExactly(states: seq<State>, ownerGone: bool)
    requires CarefulRun(states)
    requires var s := states[|states| - 1]; s.durable.Some? && s.durable.value.host == s.host
    ensures var s, p := states[|states| - 1], states[|states| - 1].durable.value;
            !Decided(s, p, ownerGone).Raise? && !Decided(s, p, ownerGone).Fenced? <==>
              OwnerIsProvenDead(p, s.boot, ownerGone) || Attested(s, p)
  {
    RunRecovers(states);
    DecidedExactly(states[|states| - 1], states[|states| - 1].durable.value, ownerGone);
  }

  /** And then it can end: with the intent durably gone and the lane free to be reserved. */
  lemma ReconciliationEnds(states: seq<State>, ownerGone: bool)
    requires CarefulRun(states)
    requires var s := states[|states| - 1];
             && s.durable.Some? && s.durable.value.host == s.host && s.AtPc(Recovering(s.durable.value))
             && (OwnerIsProvenDead(s.durable.value, s.boot, ownerGone) || Attested(s, s.durable.value))
    ensures exists end :: Leads(Next, states[|states| - 1], end) && end.AtPc(Polling) && end.durable.None? && Clean(end.registry)
  {
    RunRecovers(states);
    DecisionEnds(states[|states| - 1], states[|states| - 1].durable.value, ownerGone);
  }

  /** After a reboot nothing is stranded: from every state of a careful run the next
      supervisor can come to poll with no intent and with the lane free. */
  lemma RebootStrandsNothing(states: seq<State>)
    requires CarefulRun(states)
    requires var s := states[|states| - 1]; s.durable.Some? ==> s.durable.value.host == s.host
    ensures exists end :: Leads(Next, states[|states| - 1], end) && end.AtPc(Polling) && end.durable.None? && Clean(end.registry)
  {
    RunRecovers(states);
    RunInv(states);
    var s := states[|states| - 1];
    var rebooted := s.(boot := s.boot + 1, sup := None, guard := None, targets := {});
    var started := rebooted.(sup := Some(Supervisor(s.nextId, Starting)), nextId := s.nextId + 1, acknowledged := None);
    LeadsToItself(Next, s);
    Then(s, s, Reboot, rebooted);
    Then(s, rebooted, Acquire, started);
    if s.durable.None? {
      Then(s, started, Load, started.To(Polling));
    } else {
      var loaded := started.To(Recovering(s.durable.value));
      Then(s, started, Load, loaded);
      DecisionEnds(loaded, s.durable.value, false);
      var end :| Leads(Next, loaded, end) && end.AtPc(Polling) && end.durable.None? && Clean(end.registry);
      LeadsFarther(s, loaded, end);
    }
  }

  // ---------------------------------------------------------------------------
  // Why the priming has to be careful

  /** The lane is active for a supervisor that is gone and that no intent names. */
  predicate Lost(s: State, g: nat) {
    && s.guard.None? && s.registry.lane == Active(g) && s.registry.receipt.Live? && s.registry.receipt.generation == g
    && s.registry.receipt.supervisor < s.nextId
    && (s.durable.Some? && s.durable.value.host == s.host ==>
          Unbound(s.durable.value) && s.durable.value.supervisor != s.registry.receipt.supervisor)
    && (s.sup.Some? ==>
          && s.sup.value.id != s.registry.receipt.supervisor
          && match s.sup.value.pc
             case Starting => true
             case Polling => true
             case Reserving => true
             case Recovering(p) => s.durable == Some(p)
             case _ => false)
  }

  lemma SupervisorLeavesLost(s: State, step: Step, t: State, g: nat)
    requires Lost(s, g) && s.sup.Some? && SupervisorStep(s, step, t)
    ensures Lost(t, g) && t.registry == s.registry
  {}

  lemma StaysLost(s: State, step: Step, t: State, g: nat)
    requires Lost(s, g) && StepOk(s, step, t)
    ensures Lost(t, g) && t.registry == s.registry
  {
    if s.sup.Some? && SupervisorStep(s, step, t) {
      SupervisorLeavesLost(s, step, t, g);
    }
  }

  lemma NextStaysLost(s: State, t: State, g: nat)
    requires Lost(s, g) && Next(s, t)
    ensures Lost(t, g) && t.registry == s.registry
  {
    var step :| StepOk(s, step, t);
    StaysLost(s, step, t, g);
  }

  lemma {:induction false} PathStaysLost(path: seq<State>, g: nat)
    requires Path(Next, path) && Lost(path[0], g)
    ensures Lost(path[|path| - 1], g) && path[|path| - 1].registry == path[0].registry
  {
    var n := |path| - 1;
    if n > 0 {
      PathStaysLost(path[..n], g);
      assert Next(path[n - 1], path[n]);
      NextStaysLost(path[n - 1], path[n], g);
    }
  }

  predicate BeforeItsReserve(pc: Pc) {
    || pc.Starting? || pc.Recovering? || pc.Binding? || pc.Settling? || pc.Discarding? || pc == Clearing(true)
    || pc.Polling? || pc.Reserving?
  }

  /** Receipts are of known supervisors, and not of one that has yet to reserve. */
  predicate FreshInv(s: State) {
    && (s.sup.Some? ==> s.sup.value.id < s.nextId)
    && (s.registry.receipt.Live? ==>
          && s.registry.receipt.supervisor < s.nextId
          && (s.sup.Some? && BeforeItsReserve(s.sup.value.pc) ==> s.sup.value.id != s.registry.receipt.supervisor))
  }

  lemma RecoveryKeepsFresh(s: State, step: Step, t: State)
    requires FreshInv(s) && s.sup.Some? && SupervisorStep(s, step, t) && Recovers(step)
    ensures FreshInv(t)
  {}

  lemma WakeKeepsFresh(s: State, step: Step, t: State)
    requires FreshInv(s) && s.sup.Some? && SupervisorStep(s, step, t) && !Recovers(step)
    ensures FreshInv(t)
  {}

  lemma StepKeepsFresh(s: State, step: Step, t: State)
    requires FreshInv(s) && StepOk(s, step, t)
    ensures FreshInv(t)
  {
    if s.sup.Some? && SupervisorStep(s, step, t) {
      if Recovers(step) {
        RecoveryKeepsFresh(s, step, t);
      } else {
        WakeKeepsFresh(s, step, t);
      }
    }
  }

  lemma NextKeepsFresh(s: State, t: State)
    requires FreshInv(s) && Next(s, t)
    ensures FreshInv(t)
  {
    var step :| StepOk(s, step, t);
    StepKeepsFresh(s, step, t);
  }

  lemma {:induction false} RunFresh(states: seq<State>)
    requires Run(states)
    ensures FreshInv(states[|states| - 1])
  {
    var n := |states| - 1;
    if n > 0 {
      assert Run(states[..n]);
      RunFresh(states[..n]);
      assert Next(states[n - 1], states[n]);
      NextKeepsFresh(states[n - 1], states[n]);
    }
  }

  /** Explicit priming that drops the intent over a lane that is still active loses the
      lane: whatever happens afterwards, reboots and further priming included, the lane
      stays active and nothing is ever reserved again. */
  lemma PrimingLosesTheLane(states: seq<State>, t: State, u: State)
    requires Run(states) && StepOk(states[|states| - 1], Prime(Saved), t) && Leads(Next, t, u)
    requires states[|states| - 1].registry.lane.Active?
    ensures u.registry == states[|states| - 1].registry
  {
    RunInv(states);
    RunFresh(states);
    var s := states[|states| - 1];
    assert Lost(t, s.registry.lane.generation);
    var path :| Path(Next, path) && path[0] == t && path[|path| - 1] == u;
    PathStaysLost(path, s.registry.lane.generation);
  }
}
