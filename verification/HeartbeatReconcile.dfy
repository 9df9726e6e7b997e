/** Reconciliation of a durable intent as the restarted supervisor performs it: it
    updates the state file and the registry in place and may fail or die after every
    write. Whatever it does is a path of module Heartbeat, so the results of
    HeartbeatSafety hold of it. */
module HeartbeatReconcile {
  import opened HeartbeatAdmission
  import opened Heartbeat
  import HeartbeatSafety

  datatype Verdict = Proceed | Refrain | Raised

  /** What happens to this reconciliation from outside. */
  datatype Fortune = Fortune(ownerGone: bool, bind: SaveResult, settleWrites: nat, discardApplied: bool, discardReturned: bool, clear: SaveResult)

  ghost predicate Path<S>(next: (S, S) -> bool, states: seq<S>) {
    states != [] && forall i | 0 < i < |states| :: next(states[i - 1], states[i])
  }

  lemma PathExtends<S>(next: (S, S) -> bool, states: seq<S>, t: S)
    requires Path(next, states) && next(states[|states| - 1], t)
    ensures Path(next, states + [t])
  {
    var u := states + [t];
    forall i | 0 < i < |u| ensures next(u[i - 1], u[i]) {
      if i < |states| {
        assert u[i] == states[i] && u[i - 1] == states[i - 1];
      }
    }
  }

  /** `t` comes after `s` in some run. */
  ghost predicate Leads<S(!new)>(next: (S, S) -> bool, s: S, t: S) {
    exists states :: Path(next, states) && states[0] == s && states[|states| - 1] == t
  }

  lemma LeadsToItself<S(!new)>(next: (S, S) -> bool, s: S)
    ensures Leads(next, s, s)
  {
    assert Path(next, [s]) && [s][0] == s;
  }

  lemma LeadsOn<S(!new)>(next: (S, S) -> bool, s: S, now: S, t: S)
    requires Leads(next, s, now) && next(now, t)
    ensures Leads(next, s, t)
  {
    var states :| Path(next, states) && states[0] == s && states[|states| - 1] == now;
    PathExtends(next, states, t);
    assert (states + [t])[0] == s && (states + [t])[|states + [t]| - 1] == t;
  }

  lemma {:induction false} LeadsAlong<S(!new)>(next: (S, S) -> bool, s: S, path: seq<S>)
    requires path != [] && Path(next, path) && Leads(next, s, path[0])
    ensures Leads(next, s, path[|path| - 1])
  {
    var n := |path| - 1;
    if n > 0 {
      LeadsAlong(next, s, path[..n]);
      LeadsOn(next, s, path[n - 1], path[n]);
    }
  }

  lemma LeadsFarther(s: State, t: State, u: State)
    requires Leads(Next, s, t) && Leads(Next, t, u)
    ensures Leads(Next, s, u)
  {
    var path :| Path(Next, path) && path[0] == t && path[|path| - 1] == u;
    LeadsAlong(Next, s, path);
  }

  lemma Then(s: State, now: State, step: Step, t: State)
    requires Leads(Next, s, now) && StepOk(now, step, t)
    ensures Leads(Next, s, t)
  {
    LeadsOn(Next, s, now, t);
  }

  lemma {:induction false} PathKeepsInv(states: seq<State>)
    requires Path(Next, states) && HeartbeatSafety.Inv(states[0])
    ensures HeartbeatSafety.Inv(states[|states| - 1])
  {
    var n := |states| - 1;
    if n > 0 {
      assert Next(states[n - 1], states[n]);
      assert Path(Next, states[..n]);
      PathKeepsInv(states[..n]);
      HeartbeatSafety.StepKeepsInv(states[n - 1], states[n]);
    }
  }

  /** What reconciliation leaves of a reachable state is again as safe as every
      reachable state: at most one group lives, and only behind its open generation. */
  lemma LeadsIsSafe(states: seq<State>, end: State)
    requires Run(states) && Leads(Next, states[|states| - 1], end)
    ensures HeartbeatSafety.Inv(end)
    ensures forall g, o | g in end.targets && o in end.targets :: g == o && end.registry.Open(g)
  {
    HeartbeatSafety.RunInv(states);
    var path :| Path(Next, path) && path[0] == states[|states| - 1] && path[|path| - 1] == end;
    PathKeepsInv(path);
  }

  class RestartedSupervisor {
    const id: nat
    const host: nat
    const boot: nat
    var durable: Option<Pending>
    var registry: Registry

    constructor (s: State)
      requires s.sup.Some?
      ensures id == s.sup.value.id && host == s.host && boot == s.boot && durable == s.durable && registry == s.registry
    {
      id, host, boot, durable, registry := s.sup.value.id, s.host, s.boot, s.durable, s.registry;
    }

    /** The system around this supervisor, which is at `pc`. */
    ghost predicate Shows(s: State, pc: Pc)
      reads this
    {
      && s.host == host && s.boot == boot && s.durable == durable && s.registry == registry
      && s.sup == Some(Supervisor(id, pc))
    }

    ghost predicate Stopped(s: State)
      reads this
    {
      s.durable == durable && s.registry == registry && s.sup.None?
    }

    method SaveState(p: Option<Pending>, r: SaveResult) returns (raised: bool)
      modifies this
      ensures durable == if r.NotSaved? then old(durable) else p
      ensures raised == !r.Saved? && registry == old(registry)
    {
      if !r.NotSaved? { durable := p; }
      raised := !r.Saved?;
    }

    /** The settle call, killed after so many of its writes. */
    method SettleHeartbeat(owner: nat, generation: nat, receiptId: nat, writes: nat, ghost start: State, ghost now: State)
      returns (settled: bool, ghost end: State)
      requires Leads(Next, start, now) && Shows(now, Settling(owner, generation, receiptId))
      modifies this`registry
      ensures Leads(Next, start, end)
      ensures if settled then Shows(end, Clearing(true)) else Stopped(end)
      ensures settled ==> !registry.lane.Active?
    {
      var all := Settle(registry, owner, generation, receiptId);
      if all.None? {
        end := now.Stop();
        Then(start, now, SettleOld(0), end);
        return false, end;
      }
      var k := if writes <= |all.value| then writes else |all.value|;
      settled := k == |all.value|;
      registry := CutAt(registry, all.value, k);
      end := (if settled then now.To(Clearing(true)) else now.Stop()).(registry := registry);
      Then(start, now, SettleOld(k), end);
    }

    method ClearPending(r: SaveResult, ghost start: State, ghost now: State) returns (verdict: Verdict, ghost end: State)
      requires Leads(Next, start, now) && Shows(now, Clearing(true))
      modifies this
      ensures Leads(Next, start, end) && !verdict.Refrain? && registry == old(registry)
      ensures if verdict.Proceed? then Shows(end, Polling) && durable.None? else Stopped(end)
    {
      var raised := SaveState(None, r);
      verdict := if raised then Raised else Proceed;
      end := if raised then Save(now, None, r).Stop() else Save(now, None, r).To(Polling);
      Then(start, now, SaveCleared(r), end);
    }

    method SettleAndClear(owner: nat, g: nat, r: nat, f: Fortune, ghost start: State, ghost now: State) returns (verdict: Verdict, ghost end: State)
      requires Leads(Next, start, now) && Shows(now, Settling(owner, g, r))
      modifies this
      ensures Leads(Next, start, end) && !verdict.Refrain?
      ensures if verdict.Proceed? then Shows(end, Polling) && durable.None? else Stopped(end)
      ensures verdict.Proceed? ==> !registry.lane.Active?
    {
      var settled: bool;
      settled, end := SettleHeartbeat(owner, g, r, f.settleWrites, start, now);
      if !settled { return Raised, end; }
      verdict, end := ClearPending(f.clear, start, end);
    }

    method DiscardAndClear(owner: nat, g: nat, r: nat, f: Fortune, ghost start: State, ghost now: State) returns (verdict: Verdict, ghost end: State)
      requires Leads(Next, start, now) && Shows(now, Discarding(owner, g, r))
      modifies this
      ensures Leads(Next, start, end) && !verdict.Refrain?
      ensures if verdict.Proceed? then Shows(end, Polling) && durable.None? else Stopped(end)
      ensures verdict.Proceed? ==> !registry.lane.Active?
    {
      var discarded := Discard(registry, owner, g, r);
      var done := f.discardApplied && f.discardReturned && discarded.Some?;
      if f.discardApplied && discarded.Some? { registry := discarded.value; }
      end := (if done then now.To(Clearing(true)) else now.Stop()).(registry := registry);
      Then(start, now, DiscardOld(f.discardApplied, f.discardReturned), end);
      if !done { return Raised, end; }
      verdict, end := ClearPending(f.clear, start, end);
    }

    method BindAndSettle(pending: Pending, g: nat, r: nat, f: Fortune, ghost start: State, ghost now: State) returns (verdict: Verdict, ghost end: State)
      requires Leads(Next, start, now) && Shows(now, Binding(pending, g, r))
      modifies this
      ensures Leads(Next, start, end) && !verdict.Refrain?
      ensures if verdict.Proceed? then Shows(end, Polling) && durable.None? else Stopped(end)
      ensures verdict.Proceed? ==> !registry.lane.Active?
    {
      var bound := Some(pending.(generation := Some(g), receiptId := Some(r)));
      var raised := SaveState(bound, f.bind);
      end := if raised then Save(now, bound, f.bind).Stop() else Save(now, bound, f.bind).To(Settling(pending.supervisor, g, r));
      Then(start, now, BindOld(f.bind), end);
      if raised { return Raised, end; }
      verdict, end := SettleAndClear(pending.supervisor, g, r, f, start, end);
    }

    /** Settles only a generation whose owner and phase prove that no target could
        remain; goes on to poll only with the intent durably gone and the lane given
        up, and when it is fenced off, by an owner that may live, it has changed nothing. */
    method ReconcilePendingAdmission(f: Fortune, ghost start: State) returns (verdict: Verdict, ghost end: State)
      requires durable.Some? && Shows(start, Recovering(durable.value))
      modifies this
      ensures Leads(Next, start, end)
      ensures if verdict.Proceed? then Shows(end, Polling) && durable.None? else Stopped(end)
      ensures verdict.Proceed? ==> !registry.lane.Active?
      ensures verdict.Refrain? ==> durable == old(durable) && registry == old(registry)
      ensures verdict.Refrain? ==> old(durable).value.host == host && !OwnerIsProvenDead(old(durable).value, boot, f.ownerGone)
    {
      var pending := durable.value;
      var decision := Reconcile(pending, Recover(registry, pending.supervisor, pending.generation), host, boot, f.ownerGone);
      LeadsToItself(Next, start);
      end := match decision
             case Raise => start.Stop()
             case Fenced => start.Stop()
             case Clear => start.To(Clearing(true))
             case SettleThenClear(g, r) => start.To(Settling(pending.supervisor, g, r))
             case DiscardThenClear(g, r) => start.To(Discarding(pending.supervisor, g, r))
             case BindThenSettle(g, r) => start.To(Binding(pending, g, r));
      Then(start, start, Decide(f.ownerGone), end);
      match decision {
        case Raise => verdict := Raised;
        case Fenced => verdict := Refrain;
        case Clear => verdict, end := ClearPending(f.clear, start, end);
        case SettleThenClear(g, r) => verdict, end := SettleAndClear(pending.supervisor, g, r, f, start, end);
        case DiscardThenClear(g, r) => verdict, end := DiscardAndClear(pending.supervisor, g, r, f, start, end);
        case BindThenSettle(g, r) => verdict, end := BindAndSettle(pending, g, r, f, start, end);
      }
    }
  }
}
