/** Where the failures of one native invocation come from, and which event ends each of
    its waiters. */
module NativeOutcome {
  import opened NativeBoundary
  import opened NativeSafety

  /** A run with the steps it took. */
  ghost predicate RunBy(states: seq<State>, steps: seq<Step>) {
    && |states| == |steps| + 1 && states[0] == INIT
    && forall i | 0 <= i < |steps| :: Enabled(states[i], steps[i]) && states[i + 1] == Effect(states[i], steps[i])
  }

  lemma RunByIsRun(states: seq<State>, steps: seq<Step>)
    requires RunBy(states, steps)
    ensures Run(states)
  {
    forall i | 0 < i < |states| ensures Next(states[i - 1], states[i]) {
      assert Enabled(states[i - 1], steps[i - 1]) && states[i] == Effect(states[i - 1], steps[i - 1]);
    }
  }

  /** The step looks at the clock and the abort signal at this moment. */
  predicate LooksAt(step: Step, at: Moment) {
    match step
    case Assert(a) => a == at
    case EnterGuard(a) => a == at
    case LeaveGuard(_, a) => a == at
    case Begin(_, a, _) => a == at
    case _ => false
  }

  /** The step is handed this error from outside. */
  predicate Brings(step: Step, f: Failure) { step == CloseWith(Some(f)) || (step.LeaveGuard? && step.hook == Some(f)) }

  /** What may make this step the origin of a failure: timeouts come from passed
      deadlines alone, cancellations from aborts alone, and every other failure from
      outside. */
  predicate Causes(step: Step, f: Failure) {
    || Brings(step, f)
    || match f
       case Timeout(id) =>
         || (step.Expire? && step.id == id)
         || (step.Begin? && step.expired && !step.at.aborted && step.at.id == id)
         || LooksAt(step, Moment(false, true, id))
       case Cancelled(id) =>
         || (step.Abort? && step.id == id)
         || (step.Begun? && step.at.aborted && step.at.id == id)
         || LooksAt(step, Moment(true, true, id)) || LooksAt(step, Moment(true, false, id))
       case _ => false
  }

  ghost predicate Caused(steps: seq<Step>, f: Option<Failure>) {
    f.Some? ==> exists step :: step in steps && Causes(step, f.value)
  }

  ghost predicate AllCaused(steps: seq<Step>, b: Boundary) {
    Caused(steps, b.closedWith) && Caused(steps, b.captured) && Caused(steps, b.selection) && Caused(steps, b.selected)
  }

  /** Every failure of the later boundary is one of the earlier or caused by the step. */
  predicate Explained(b: Boundary, step: Step, f: Option<Failure>) {
    f.Some? ==> f == b.closedWith || f == b.captured || f == b.selection || f == b.selected || Causes(step, f.value)
  }

  predicate StepExplained(b: Boundary, step: Step, c: Boundary) {
    Explained(b, step, c.closedWith) && Explained(b, step, c.captured) && Explained(b, step, c.selection) && Explained(b, step, c.selected)
  }

  lemma LookExplains(s: State, step: Step)
    requires Enabled(s, step) && (step.Assert? || step.EnterGuard? || step.Begin?)
    ensures StepExplained(s.boundary, step, Effect(s, step).boundary)
  {}

  lemma LeaveExplains(s: State, step: Step)
    requires Enabled(s, step) && step.LeaveGuard?
    ensures StepExplained(s.boundary, step, Effect(s, step).boundary)
  {}

  lemma WaiterExplains(s: State, step: Step)
    requires Enabled(s, step) && (step.Begun? || step.Fulfil? || step.Fail? || step.Expire? || step.Abort?)
    ensures StepExplained(s.boundary, step, Effect(s, step).boundary)
  {}

  lemma StepExplains(s: State, step: Step)
    requires Enabled(s, step)
    ensures StepExplained(s.boundary, step, Effect(s, step).boundary)
  {
    match step {
      case Assert(_) => LookExplains(s, step);
      case EnterGuard(_) => LookExplains(s, step);
      case Begin(_, _, _) => LookExplains(s, step);
      case LeaveGuard(_, _) => LeaveExplains(s, step);
      case CloseWith(_) =>
      case Select =>
      case Deliver(_) =>
      case _ => WaiterExplains(s, step);
    }
  }

  lemma CausedOn(steps: seq<Step>, b: Boundary, step: Step, f: Option<Failure>)
    requires AllCaused(steps, b) && Explained(b, step, f)
    ensures Caused(steps + [step], f)
  {
    if f.Some? {
      if Causes(step, f.value) {
        assert step in steps + [step];
      } else {
        var earlier :| earlier in steps && Causes(earlier, f.value);
        assert earlier in steps + [step];
      }
    }
  }

  lemma AllCausedOn(steps: seq<Step>, b: Boundary, step: Step, c: Boundary)
    requires AllCaused(steps, b) && StepExplained(b, step, c)
    ensures AllCaused(steps + [step], c)
  {
    CausedOn(steps, b, step, c.closedWith);
    CausedOn(steps, b, step, c.captured);
    CausedOn(steps, b, step, c.selection);
    CausedOn(steps, b, step, c.selected);
  }

  lemma {:induction false} RunCaused(states: seq<State>, steps: seq<Step>)
    requires RunBy(states, steps)
    ensures AllCaused(steps, states[|steps|].boundary)
  {
    if steps != [] {
      var n := |steps| - 1;
      assert RunBy(states[..n + 1], steps[..n]);
      RunCaused(states[..n + 1], steps[..n]);
      StepExplains(states[n], steps[n]);
      AllCausedOn(steps[..n], states[n].boundary, steps[n], states[n + 1].boundary);
      assert steps[..n] + [steps[n]] == steps;
    }
  }

  // ---------------------------------------------------------------------------
  // Main results

  /** The selected failure has its cause in the run. A timeout is selected only where a
      deadline passed or was seen to have passed, and never on account of an abort; a
      cancellation only after an abort; both unless handed in as such from outside. */
  lemma SelectedHasCause(states: seq<State>, steps: seq<Step>)
    requires RunBy(states, steps) && states[|steps|].boundary.selected.Some?
    ensures exists step :: step in steps && Causes(step, states[|steps|].boundary.selected.value)
  {
    RunCaused(states, steps);
  }

  predicate InTime(step: Step) {
    match step
    case Assert(at) => !at.late
    case EnterGuard(at) => !at.late
    case LeaveGuard(hook, at) => !at.late && !(hook.Some? && hook.value.Timeout?)
    case Begin(_, at, expired) => !at.late && !expired
    case CloseWith(reason) => !(reason.Some? && reason.value.Timeout?)
    case Expire(_, _) => false
    case _ => true
  }

  predicate Unaborted(step: Step) {
    match step
    case Assert(at) => !at.aborted
    case EnterGuard(at) => !at.aborted
    case LeaveGuard(hook, at) => !at.aborted && !(hook.Some? && hook.value.Cancelled?)
    case Begin(_, at, _) => !at.aborted
    case Begun(_, _, at) => !at.aborted
    case CloseWith(reason) => !(reason.Some? && reason.value.Cancelled?)
    case Abort(_, _) => false
    case _ => true
  }

  /** A run in which every step is in time never selects a timeout, and one without an
      abort never a cancellation. */
  lemma NoneWithoutCause(states: seq<State>, steps: seq<Step>)
    requires RunBy(states, steps) && states[|steps|].boundary.selected.Some?
    ensures (forall step <- steps :: InTime(step)) ==> !states[|steps|].boundary.selected.value.Timeout?
    ensures (forall step <- steps :: Unaborted(step)) ==> !states[|steps|].boundary.selected.value.Cancelled?
  {
    SelectedHasCause(states, steps);
  }

  /** A look at the boundary lets through exactly what is open, not aborted and in time;
      whatever it stops is closed, an open one for the abort before the deadline. */
  lemma LookIsExact(s: State, at: Moment, w: nat)
    requires w !in s.waiters
    ensures var open := !s.boundary.closed && !at.aborted && !at.late;
            var reason := if at.aborted then Cancelled(at.id) else Timeout(at.id);
            var guarded := Effect(s, EnterGuard(at));
            var begun := Effect(s, Begin(w, at, false));
            && guarded.entered == (if open then s.entered + 1 else s.entered)
            && begun.starts == (if open then s.starts + 1 else s.starts)
            && (open ==> guarded.boundary == s.boundary && begun.boundary == s.boundary && begun.waiters == s.waiters)
            && (!open ==> guarded.boundary.closed && begun.boundary.closed && w in begun.waiters && begun.waiters[w].Rejected?)
            && (!open && !s.boundary.closed ==>
                  guarded.boundary.closedWith == Some(reason) && begun.boundary.closedWith == Some(reason)
                  && begun.waiters[w] == Rejected(reason) && guarded.raised == begun.raised == s.raised + [reason])
  {}

  /** A guarded callback returns exactly when its hook does and the boundary is then
      open, not aborted and in time; else its failure is thrown and closes the boundary. */
  lemma ReturnIsExact(s: State, hook: Option<Failure>, at: Moment)
    requires s.guards > 0
    ensures var t := Effect(s, LeaveGuard(hook, at));
            var passes := hook.None? && !s.boundary.closed && !at.aborted && !at.late;
            && t.admitted == (if passes then s.admitted + 1 else s.admitted)
            && (passes ==> t.thrown == s.thrown && t.boundary == s.boundary)
            && (!passes ==> t.boundary.closed && |t.thrown| == |s.thrown| + 1)
            && (hook.Some? ==> t.thrown == s.thrown + [hook.value])
            && (hook.Some? && !s.boundary.closed ==> t.boundary.closedWith == hook)
  {}

  /** An operation waits once its call returned, unless the call threw, which it then
      ends with, or the abort came first, which sends it to the selection; so does a
      deadline that passes between the look and the call. */
  lemma RegistrationIsExact(s: State, w: nat, threw: Option<Failure>, at: Moment)
    requires s.starts > 0 && w !in s.waiters
    ensures var t := Effect(s, Begun(w, threw, at));
            && t.starts == s.starts - 1
            && (threw.Some? ==> Is(t, w, Rejected(threw.value)) && t.boundary == s.boundary)
            && (threw.None? && !at.aborted ==> Is(t, w, Waiting) && t.boundary == s.boundary)
            && (threw.None? && at.aborted ==> Is(t, w, Selecting) && t.boundary.closed && t.raised == s.raised + [Cancelled(at.id)])
    ensures var t := Effect(s, Begin(w, at, true));
            !s.boundary.closed && !at.aborted && !at.late ==>
              Is(t, w, Selecting) && t.boundary.closed && t.raised == s.raised + [Timeout(at.id)] && t.starts == s.starts
  {}

  /** The event that ends a waiter. */
  predicate Concerns(step: Step, w: nat) {
    match step
    case Fulfil(v, _) => v == w
    case Fail(v, _) => v == w
    case Expire(v, _) => v == w
    case Abort(v, _) => v == w
    case _ => false
  }

  predicate Awaits(w: Waiter, verdict: Option<Failure>) { w == Selecting || (w.Rejected? && Some(w.error) == verdict) }

  lemma WaitsOn(s: State, step: Step, w: nat)
    requires Enabled(s, step) && Is(s, w, Waiting) && !Concerns(step, w)
    ensures Is(Effect(s, step), w, Waiting)
  {}

  lemma {:induction false} StillWaits(states: seq<State>, steps: seq<Step>, i: nat, j: nat, w: nat)
    requires RunBy(states, steps) && i <= j < |states| && Is(states[i], w, Waiting)
    requires forall k | i <= k < j :: !Concerns(steps[k], w)
    ensures Is(states[j], w, Waiting)
    decreases j
  {
    if i < j {
      StillWaits(states, steps, i, j - 1, w);
      WaitsOn(states[j - 1], steps[j - 1], w);
    }
  }

  /** The first event that concerns a waiter decides how it ends, whatever comes later:
      a value and the operation's own error reach it as they are, unless that error
      comes under a boundary closed by a timeout or a cancellation; then, and with its
      own timer or abort, it can end with the verdict alone. */
  lemma FirstEventDecides(states: seq<State>, steps: seq<Step>, i: nat, k: nat, j: nat, w: nat)
    requires RunBy(states, steps) && i <= k < j < |states| && Is(states[i], w, Waiting)
    requires Concerns(steps[k], w) && forall o | i <= o < k :: !Concerns(steps[o], w)
    ensures w in states[j].waiters
    ensures match steps[k]
            case Fulfil(_, value) => states[j].waiters[w] == Resolved(value)
            case Fail(_, error) =>
              if ByBoundary(states[k].boundary) then Awaits(states[j].waiters[w], Verdict(states[|steps|]))
              else states[j].waiters[w] == Rejected(error)
            case _ => Awaits(states[j].waiters[w], Verdict(states[|steps|]))
  {
    StillWaits(states, steps, i, k, w);
    RunByIsRun(states, steps);
    SettlesOnce(states, w, k + 1, j);
  }

  /** A waiter of the selection is always one or two steps from its end: with an empty
      stack the selection runs, unless it has, and the waiter is rejected with it. */
  lemma SelectionReaches(states: seq<State>, w: nat)
    requires Run(states) && Is(states[|states| - 1], w, Selecting)
    requires states[|states| - 1].guards == 0 && states[|states| - 1].starts == 0
    ensures var s := states[|states| - 1];
            && (s.boundary.selected.None? ==> Enabled(s, Select))
            && var t := if s.boundary.selected.None? then Effect(s, Select) else s;
               && Enabled(t, Deliver(w))
               && var e := Verdict(s);
                  e.Some? && Is(Effect(t, Deliver(w)), w, Rejected(e.value))
  {
    RunInv(states);
  }
}
