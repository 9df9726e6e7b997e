/** Explicit priming drops the durable intent unproved. What an operator can read before
    doing it, the state file and the registry, decides exactly whether a live target may
    be forgotten by it. */
module HeartbeatPriming {
  import opened HeartbeatAdmission
  import opened Heartbeat
  import opened HeartbeatSafety

  /** The same records, as far as an operator can read them. */
  predicate SameRecords(s: State, t: State) {
    s.host == t.host && s.durable == t.durable && s.registry == t.registry
  }

  /** A target lives that the supervisor of the durable intent spawned. */
  ghost predicate HoldsLiveTarget(s: State) {
    s.durable.Some? && exists g :: g in s.targets && g in s.spawned && s.spawned[g] == s.durable.value.supervisor
  }

  /** Either the records stay as they were, or this step just marked the intent. */
  ghost predicate Marks(s: State, step: Step, t: State) {
    || (MayForget(s) && SameRecords(s, t))
    || (step.MarkUncertain? && !step.save.NotSaved? && s.sup.Some? && s.sup.value.pc.GuardUp?
        && t.registry == s.registry && t.host == s.host
        && t.durable == s.Own(SpawnUncertain, Some(s.sup.value.pc.generation), Some(s.sup.value.pc.receiptId)))
  }

  lemma MachineMarks(s: State, step: Step, t: State)
    requires Inv(s) && StepOk(s, step, t) && (step.Acquire? || step.GroupDies? || step.Reboot?)
    requires MayForget(t)
    ensures Marks(s, step, t)
  {}

  lemma GuardMarks(s: State, step: Step, t: State)
    requires Inv(s) && s.guard.Some? && GuardStep(s, step, t)
    requires MayForget(t)
    ensures Marks(s, step, t)
  {}

  lemma RecoveryMarks(s: State, step: Step, t: State)
    requires Inv(s) && s.sup.Some? && SupervisorStep(s, step, t)
    requires Recovers(step)
    requires MayForget(t)
    ensures Marks(s, step, t)
  {}

  lemma WakeMarks(s: State, step: Step, t: State)
    requires Inv(s) && s.sup.Some? && SupervisorStep(s, step, t)
    requires !Recovers(step)
    requires MayForget(t)
    ensures Marks(s, step, t)
  {}

  lemma StepMarks(s: State, step: Step, t: State)
    requires Inv(s) && StepOk(s, step, t)
    requires MayForget(t)
    ensures Marks(s, step, t)
  {
    if step.Acquire? || step.GroupDies? || step.Reboot? {
      MachineMarks(s, step, t);
    } else if s.guard.Some? && GuardStep(s, step, t) {
      GuardMarks(s, step, t);
    } else if Recovers(step) {
      RecoveryMarks(s, step, t);
    } else {
      WakeMarks(s, step, t);
    }
  }

  /** From the point where the intent is marked a run may go on to spawn, and leaves
      exactly the records that the mark leaves. */
  lemma MarkMayBecomeSpawn(states: seq<State>, s: State) returns (others: seq<State>)
    requires Run(states) && Inv(states[|states| - 1])
    requires var u := states[|states| - 1];
             && u.sup.Some? && u.sup.value.pc.GuardUp? && s.registry == u.registry && s.host == u.host
             && s.durable == u.Own(SpawnUncertain, Some(u.sup.value.pc.generation), Some(u.sup.value.pc.receiptId))
    ensures Run(others) && SameRecords(others[|others| - 1], s) && HoldsLiveTarget(others[|others| - 1])
  {
    var u := states[|states| - 1];
    var GuardUp(g, r) := u.sup.value.pc;
    var marked := Save(u, u.Own(SpawnUncertain, Some(g), Some(r)), Saved).To(Marked(g, r));
    Extended(states, MarkUncertain(Saved, false), marked);
    var spawned := marked.(targets := marked.targets + {g}, spawned := marked.spawned[g := u.sup.value.id]).Send(PidFrame).To(Waiting(g, r));
    Extended(states + [marked], Spawn(false), spawned);
    others := states + [marked] + [spawned];
    assert g in spawned.targets && spawned.spawned[g] == u.sup.value.id;
  }

  lemma {:induction false} RecordsOfALiveTarget(states: seq<State>) returns (others: seq<State>)
    requires Run(states) && MayForget(states[|states| - 1])
    ensures Run(others) && SameRecords(others[|others| - 1], states[|states| - 1]) && HoldsLiveTarget(others[|others| - 1])
  {
    var n := |states| - 1;
    var s := states[n];
    if n == 0 {
      assert false;
    } else {
      var before := states[..n];
      assert Run(before) && before[n - 1] == states[n - 1];
      RunInv(before);
      assert Next(states[n - 1], states[n]);
      var step :| StepOk(states[n - 1], step, s);
      StepMarks(states[n - 1], step, s);
      if MayForget(states[n - 1]) && SameRecords(states[n - 1], s) {
        others := RecordsOfALiveTarget(before);
      } else {
        others := MarkMayBecomeSpawn(before, s);
      }
    }
  }

  lemma LiveTargetShows(states: seq<State>)
    requires Run(states) && HoldsLiveTarget(states[|states| - 1])
    ensures MayForget(states[|states| - 1])
  {
    RunInv(states);
    var s := states[|states| - 1];
    var g :| g in s.targets && g in s.spawned && s.spawned[g] == s.durable.value.supervisor;
    assert s.registry.Open(g);
    OpenExactly(s);
  }

  /** Whether priming may forget a live target is decided by the records, and exactly:
      they show a spawn-uncertain intent of this host bound to its supervisor's open
      generation if and only if some run leaves these very records with such a target
      alive. With any other records priming is harmless (ClearingIsProved). */
  lemma RecordsDecidePriming(states: seq<State>)
    requires Run(states)
    ensures var s := states[|states| - 1];
            MayForget(s) <==>
              exists others :: Run(others) && SameRecords(others[|others| - 1], s) && HoldsLiveTarget(others[|others| - 1])
  {
    var s := states[|states| - 1];
    if MayForget(s) {
      var others := RecordsOfALiveTarget(states);
    }
    if others: seq<State> :| Run(others) && SameRecords(others[|others| - 1], s) && HoldsLiveTarget(others[|others| - 1]) {
      LiveTargetShows(others);
    }
  }
}
