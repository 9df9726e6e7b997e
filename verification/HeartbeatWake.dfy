/** A free lane is of use: a supervisor that polls can wake a target on it, the guard can
    settle the target once its group is empty, and after any careful run a wake is
    possible again. */
module HeartbeatWake {
  import opened HeartbeatAdmission
  import opened Heartbeat
  import opened HeartbeatSafety
  import opened HeartbeatReconcile
  import opened HeartbeatRecovery

  /** Supervisor `id` waits for its target of generation `g`; its guard has the pid. */
  predicate Awake(s: State, id: nat, g: nat, r: nat) {
    && s.sup == Some(Supervisor(id, Waiting(g, r))) && s.guard == Some(Guard(id, g, r, Reading(PidFrame)))
    && s.durable == Some(Pending(id, s.host, s.boot, SpawnUncertain, Some(g), Some(r)))
    && s.registry == Registry(Active(g), Live(id, g, r, false))
    && g in s.targets && g in s.spawned && s.spawned[g] == id
  }

  /** Its wake is over: the guard attested the stop and the intent was dropped for it. */
  predicate Over(s: State, id: nat, g: nat, r: nat) {
    s.sup.None? && s.guard.None? && s.durable.None? && s.registry == Registry(Released(g + 1), Live(id, g, r, true)) && g !in s.targets
  }

  lemma Reserves(start: State, s: State, r: nat) returns (t: State)
    requires Leads(Next, start, s) && s.sup.Some? && s.sup.value.pc == Polling && !s.registry.lane.Active?
    ensures Leads(Next, start, t)
    ensures var g, id := s.registry.Generation() + 1, s.sup.value.id;
            t == s.(durable := Some(Pending(id, s.host, s.boot, ReservedPreExecution, None, None)),
                    registry := Registry(Active(g), Live(id, g, r, false)),
                    sup := Some(Supervisor(id, Admitted(g, r))))
  {
    var u := Save(s, s.Own(ReservedPreExecution, None, None), Saved).To(Reserving);
    Then(start, s, SaveIntent(Saved), u);
    var g := s.registry.Generation() + 1;
    t := u.(registry := Registry(Active(g), Live(s.sup.value.id, g, r, false))).To(Admitted(g, r));
    Then(start, u, ReserveGranted(r, 2), t);
  }

  lemma Forks(start: State, s: State, g: nat, r: nat) returns (t: State)
    requires Leads(Next, start, s) && s.sup.Some? && s.sup.value.pc == Admitted(g, r) && s.guard.None?
    ensures Leads(Next, start, t)
    ensures var id := s.sup.value.id;
            t == s.(durable := Some(Pending(id, s.host, s.boot, ReservedPreExecution, Some(g), Some(r))),
                    guard := Some(Guard(id, g, r, Reading(NoFrame))),
                    sup := Some(Supervisor(id, GuardUp(g, r))))
  {
    var u := Save(s, s.Own(ReservedPreExecution, Some(g), Some(r)), Saved).To(Bound(g, r));
    Then(start, s, SaveBound(Saved), u);
    t := u.(guard := Some(Guard(s.sup.value.id, g, r, Reading(NoFrame)))).To(GuardUp(g, r));
    Then(start, u, ForkGuard, t);
  }

  lemma Spawns(start: State, s: State, g: nat, r: nat) returns (t: State)
    requires Leads(Next, start, s) && s.sup.Some? && s.sup.value.pc == GuardUp(g, r)
    requires s.guard == Some(Guard(s.sup.value.id, g, r, Reading(NoFrame)))
    ensures Leads(Next, start, t)
    ensures t.sup == Some(Supervisor(s.sup.value.id, Waiting(g, r))) && t.guard == Some(Guard(s.sup.value.id, g, r, Reading(PidFrame)))
    ensures t.durable == Some(Pending(s.sup.value.id, s.host, s.boot, SpawnUncertain, Some(g), Some(r)))
    ensures t.host == s.host && t.boot == s.boot && t.registry == s.registry
    ensures t.targets == s.targets + {g} && t.spawned == s.spawned[g := s.sup.value.id]
  {
    var u := Save(s, s.Own(SpawnUncertain, Some(g), Some(r)), Saved).To(Marked(g, r));
    Then(start, s, MarkUncertain(Saved, false), u);
    t := u.(targets := u.targets + {g}, spawned := u.spawned[g := s.sup.value.id]).Send(PidFrame).To(Waiting(g, r));
    Then(start, u, Spawn(false), t);
  }

  lemma Wakes(start: State, s: State, r: nat) returns (t: State)
    requires Leads(Next, start, s) && s.AtPc(Polling) && s.guard.None? && !s.registry.lane.Active?
    ensures Leads(Next, start, t) && Awake(t, s.sup.value.id, s.registry.Generation() + 1, r)
  {
    var g := s.registry.Generation() + 1;
    t := Reserves(start, s, r);
    t := Forks(start, t, g, r);
    t := Spawns(start, t, g, r);
  }

  lemma GroupEnds(start: State, s: State, id: nat, g: nat, r: nat) returns (t: State)
    requires Leads(Next, start, s) && Awake(s, id, g, r)
    ensures Leads(Next, start, t)
    ensures t == s.(guard := Some(Guard(id, g, r, GroupEmpty)), targets := s.targets - {g})
  {
    var u := s.(guard := Some(Guard(id, g, r, Watching)));
    Then(start, s, GuardReads, u);
    var v := u.(targets := u.targets - {g});
    Then(start, u, GroupDies(g), v);
    t := v.(guard := Some(Guard(id, g, r, GroupEmpty)));
    Then(start, v, GuardSeesEmptyGroup, t);
  }

  lemma Settles(start: State, s: State, id: nat, g: nat, r: nat) returns (t: State)
    requires Leads(Next, start, s) && s.sup == Some(Supervisor(id, Waiting(g, r))) && s.guard == Some(Guard(id, g, r, GroupEmpty))
    requires s.registry == Registry(Active(g), Live(id, g, r, false)) && g !in s.targets
    ensures Leads(Next, start, t) && Over(t, id, g, r)
  {
    var u := s.(guard := None, acknowledged := Some(g), registry := Registry(Released(g + 1), Live(id, g, r, true)));
    Then(start, s, GuardSettles(2, true), u);
    t := Save(u, None, Saved).Stop();
    Then(start, u, Finish(Saved), t);
  }

  lemma Ends(start: State, s: State, id: nat, g: nat, r: nat) returns (t: State)
    requires Leads(Next, start, s) && Awake(s, id, g, r)
    ensures Leads(Next, start, t) && Over(t, id, g, r)
  {
    t := GroupEnds(start, s, id, g, r);
    t := Settles(start, t, id, g, r);
  }

  // --- wakes that come to nothing

  /** Nothing was woken: the intent is gone and so are the supervisor and its guard. */
  predicate Abandoned(s: State) { s.sup.None? && s.guard.None? && s.durable.None? }

  lemma Clears(start: State, s: State) returns (t: State)
    requires Leads(Next, start, s) && s.sup.Some? && s.sup.value.pc == Clearing(false)
    ensures Leads(Next, start, t) && t == s.(durable := None).Stop()
  {
    t := Save(s, None, Saved).Stop();
    Then(start, s, SaveCleared(Saved), t);
  }

  lemma Denied(start: State, s: State, park: bool) returns (t: State)
    requires Leads(Next, start, s) && s.AtPc(Polling) && s.guard.None? && !s.registry.lane.Active?
    ensures Leads(Next, start, t) && Abandoned(t)
    ensures t.registry == (if park then Deny(s.registry) else s.registry)
  {
    var u := Save(s, s.Own(ReservedPreExecution, None, None), Saved).To(Reserving);
    Then(start, s, SaveIntent(Saved), u);
    var v := u.(registry := if park then Deny(u.registry) else u.registry).To(Clearing(false));
    Then(start, u, ReserveDenied(park), v);
    t := Clears(start, v);
  }

  lemma GivesUp(start: State, s: State, g: nat, r: nat) returns (t: State)
    requires Leads(Next, start, s) && s.sup.Some? && s.sup.value.pc == Bound(g, r) && s.guard.None?
    requires s.registry == Registry(Active(g), Live(s.sup.value.id, g, r, false))
    ensures Leads(Next, start, t) && Abandoned(t)
    ensures t.registry == Registry(Released(g + 1), Live(s.sup.value.id, g, r, true))
  {
    var u := s.To(Undoing(g, r));
    Then(start, s, FailBeforeGuard, u);
    var v := u.(registry := Registry(Released(g + 1), Live(s.sup.value.id, g, r, true))).To(Clearing(false));
    Then(start, u, UndoOwn(2), v);
    t := Clears(start, v);
  }

  lemma CancelIsRead(start: State, s: State, g: nat, r: nat, save: SaveResult) returns (t: State)
    requires Leads(Next, start, s) && s.sup.Some? && s.sup.value.pc == GuardUp(g, r) && !save.Saved?
    requires s.guard == Some(Guard(s.sup.value.id, g, r, Reading(NoFrame)))
    ensures Leads(Next, start, t) && t.registry == s.registry
    ensures t.sup == Some(Supervisor(s.sup.value.id, Undoing(g, r))) && t.guard == Some(Guard(s.sup.value.id, g, r, Cancelling))
  {
    var u := Save(s, s.Own(SpawnUncertain, Some(g), Some(r)), save).Send(CancelFrame).To(Undoing(g, r));
    Then(start, s, MarkUncertain(save, true), u);
    t := u.(guard := Some(Guard(s.sup.value.id, g, r, Cancelling)));
    Then(start, u, GuardReads, t);
  }

  lemma Cancels(start: State, s: State, g: nat, r: nat, save: SaveResult, clean: bool) returns (t: State)
    requires Leads(Next, start, s) && s.sup.Some? && s.sup.value.pc == GuardUp(g, r) && !save.Saved?
    requires s.guard == Some(Guard(s.sup.value.id, g, r, Reading(NoFrame)))
    requires s.registry == Registry(Active(g), Live(s.sup.value.id, g, r, false))
    ensures Leads(Next, start, t) && Abandoned(t)
    ensures t.registry == Registry(Released(g + 1), Live(s.sup.value.id, g, r, true))
  {
    var u := CancelIsRead(start, s, g, r, save);
    var v := u.(guard := None, acknowledged := if clean then Some(g) else u.acknowledged,
                registry := Registry(Released(g + 1), Live(s.sup.value.id, g, r, true)));
    Then(start, u, GuardSettles(2, clean), v);
    Then(start, v, UndoOwn(0), v.To(Clearing(false)));
    t := Clears(start, v.To(Clearing(false)));
  }

  /** In a careful run the open reservation is the one its supervisor and its guard know. */
  lemma Reserved(states: seq<State>, g: nat, r: nat)
    requires CarefulRun(states)
    requires var s := states[|states| - 1]; s.AtPc(Bound(g, r)) || s.AtPc(GuardUp(g, r))
    ensures var s := states[|states| - 1];
            && s.registry == Registry(Active(g), Live(s.sup.value.id, g, r, false))
            && (s.AtPc(Bound(g, r)) ==> s.guard.None?)
            && (s.guard.Some? ==> s.guard == Some(Guard(s.sup.value.id, g, r, Reading(NoFrame))))
  {
    RunInv(states);
    RunRecovers(states);
  }

  // --- main results

  /** A supervisor that polls over a free lane can wake a target of the next generation,
      and the wake can end with the lane released, the stop attested and no intent. */
  lemma FreeLaneWakes(states: seq<State>, r: nat)
    requires Run(states)
    requires var s := states[|states| - 1]; s.AtPc(Polling) && !s.registry.lane.Active?
    ensures var s := states[|states| - 1];
            var id, g := s.sup.value.id, s.registry.Generation() + 1;
            exists t, u :: Leads(Next, s, t) && Awake(t, id, g, r) && Leads(Next, t, u) && Over(u, id, g, r)
  {
    RunInv(states);
    var s := states[|states| - 1];
    LeadsToItself(Next, s);
    var t := Wakes(s, s, r);
    LeadsToItself(Next, t);
    var u := Ends(t, t, s.sup.value.id, s.registry.Generation() + 1, r);
  }

  /** A reservation that is denied leaves no intent, and the lane parked or as it was. */
  lemma DenialIsUndone(states: seq<State>, park: bool)
    requires Run(states)
    requires var s := states[|states| - 1]; s.AtPc(Polling) && !s.registry.lane.Active?
    ensures var s := states[|states| - 1];
            exists t :: Leads(Next, s, t) && Abandoned(t) && t.registry == if park then Deny(s.registry) else s.registry
  {
    RunInv(states);
    var s := states[|states| - 1];
    LeadsToItself(Next, s);
    var t := Denied(s, s, park);
  }

  /** A wake that fails before its guard, or whose intent cannot be marked, can be undone
      by the supervisor or by the guard that reads the cancellation: no intent is left,
      and the lane is released under an attested receipt. */
  lemma FailedWakeIsUndone(states: seq<State>, g: nat, r: nat, save: SaveResult, clean: bool)
    requires CarefulRun(states) && !save.Saved?
    requires var s := states[|states| - 1]; s.AtPc(Bound(g, r)) || (s.AtPc(GuardUp(g, r)) && s.guard.Some?)
    ensures var s := states[|states| - 1];
            exists t :: Leads(Next, s, t) && Abandoned(t) && t.registry == Registry(Released(g + 1), Live(s.sup.value.id, g, r, true))
  {
    Reserved(states, g, r);
    var s := states[|states| - 1];
    LeadsToItself(Next, s);
    if s.AtPc(Bound(g, r)) {
      var t := GivesUp(s, s, g, r);
    } else {
      var t := Cancels(s, s, g, r, save, clean);
    }
  }

  lemma LeadsIsRun(states: seq<State>, t: State) returns (longer: seq<State>)
    requires Run(states) && Leads(Next, states[|states| - 1], t)
    ensures Run(longer) && longer[|longer| - 1] == t
  {
    var path :| Path(Next, path) && path[0] == states[|states| - 1] && path[|path| - 1] == t;
    longer := states + path[1..];
    forall i | 0 <= i < |longer| - 1 ensures Next(longer[i], longer[i + 1]) {
      if i < |states| - 1 {
        assert Next(states[i], states[i + 1]);
      } else {
        assert Next(path[i - |states| + 1], path[i - |states| + 2]);
      }
    }
  }

  /** After every careful run, whatever died and whatever was left durable, a wake is
      possible again. */
  lemma AlwaysWakesAgain(states: seq<State>, r: nat)
    requires CarefulRun(states)
    requires var s := states[|states| - 1]; s.durable.Some? ==> s.durable.value.host == s.host
    ensures exists t, id, g :: Leads(Next, states[|states| - 1], t) && Awake(t, id, g, r)
  {
    var s := states[|states| - 1];
    RebootStrandsNothing(states);
    var polling :| Leads(Next, s, polling) && polling.AtPc(Polling) && polling.durable.None? && Clean(polling.registry);
    var longer := LeadsIsRun(states, polling);
    RunInv(longer);
    var t := Wakes(s, polling, r);
    assert Awake(t, polling.sup.value.id, polling.registry.Generation() + 1, r);
  }
}
