/** Runs of one native invocation: guarded callbacks, aborts, deadlines, operation
    outcomes and the selection microtask, in every order the runtime allows. */
module NativeSafety {
  import opened NativeBoundary

  /** `guards` and `starts` count the guarded callbacks and operation starts that are
      on the stack; `thrown` and `raised` record the failures that guarded callbacks
      threw after their entry check, and the timeouts and cancellations the boundary was
      given, in order;
      `entered` and `admitted` count guarded hooks called and callbacks that returned. */
  datatype State = State(
    boundary: Boundary,
    guards: nat,
    starts: nat,
    entered: nat,
    admitted: nat,
    thrown: seq<Failure>,
    raised: seq<Failure>,
    waiters: map<nat, Waiter>)

  const INIT := State(OPEN, 0, 0, 0, 0, [], [], map[])

  datatype Step =
    | Assert(at: Moment)
    | CloseWith(reason: Option<Failure>)
    | EnterGuard(at: Moment)
    | LeaveGuard(hook: Option<Failure>, at: Moment)
    | Begin(w: nat, at: Moment, expired: bool)
    | Begun(w: nat, threw: Option<Failure>, at: Moment)
    | Fulfil(w: nat, value: nat)
    | Fail(w: nat, error: Failure)
    | Expire(w: nat, id: nat)
    | Abort(w: nat, id: nat)
    | Select
    | Deliver(w: nat)

  function Raise(log: seq<Failure>, b: Boundary, reason: Option<Failure>): seq<Failure> {
    if !b.closed && reason.Some? && OfBoundary(reason.value) then log + [reason.value] else log
  }

  function Note(log: seq<Failure>, f: Option<Failure>): seq<Failure> { if f.Some? then log + [f.value] else log }

  function Objected(s: State, at: Moment): State {
    s.(boundary := Asserted(s.boundary, at), raised := Raise(s.raised, s.boundary, Objection(s.boundary, at)))
  }

  function Refused(s: State, f: Failure): State {
    s.(boundary := Rejecting(s.boundary, f), raised := s.raised + [f])
  }

  function Entered(s: State, at: Moment): State {
    var t := Objected(s, at);
    if Objection(s.boundary, at).Some? then t else t.(guards := t.guards + 1, entered := t.entered + 1)
  }

  function Left(s: State, hook: Option<Failure>, at: Moment): State
    requires s.guards > 0
  {
    var thrown := Thrown(s.boundary, hook, at);
    s.(boundary := Guarded(s.boundary, hook, at),
       guards := s.guards - 1,
       admitted := if thrown.None? then s.admitted + 1 else s.admitted,
       thrown := Note(s.thrown, thrown),
       raised := Raise(s.raised, s.boundary, thrown))
  }

  /** `runWithinDeadline` up to the call of its operation. An invocation found closed,
      aborted or late is refused outright; a deadline that passes right after that
      look goes through the selection. */
  function Began(s: State, w: nat, at: Moment, expired: bool): State {
    var t := Objected(s, at);
    var objection := Objection(s.boundary, at);
    if objection.Some? then t.(waiters := t.waiters[w := Rejected(objection.value)])
    else if expired then Refused(t, Timeout(at.id)).(waiters := t.waiters[w := Selecting])
    else t.(starts := t.starts + 1)
  }

  /** And once that call returned or threw. */
  function Registered(s: State, w: nat, threw: Option<Failure>, at: Moment): State
    requires s.starts > 0
  {
    var t := s.(starts := s.starts - 1);
    if threw.Some? then t.(waiters := t.waiters[w := Rejected(threw.value)])
    else if at.aborted then Refused(t, Cancelled(at.id)).(waiters := t.waiters[w := Selecting])
    else t.(waiters := t.waiters[w := Waiting])
  }

  predicate Is(s: State, w: nat, kind: Waiter) { w in s.waiters && s.waiters[w] == kind }

  predicate Enabled(s: State, step: Step) {
    match step
    case LeaveGuard(_, _) => s.guards > 0
    case Begin(w, _, _) => w !in s.waiters
    case Begun(w, _, _) => s.starts > 0 && w !in s.waiters
    case Fulfil(w, _) => w in s.waiters
    case Fail(w, _) => w in s.waiters
    case Expire(w, _) => Is(s, w, Waiting)
    case Abort(w, _) => Is(s, w, Waiting)
    // a microtask runs only when the stack is empty
    case Select => s.guards == 0 && s.starts == 0 && s.boundary.selection.Some? && s.boundary.selected.None?
    case Deliver(w) => Is(s, w, Selecting) && s.boundary.selected.Some?
    case _ => true
  }

  function Effect(s: State, step: Step): State
    requires Enabled(s, step)
  {
    match step
    case Assert(at) => Objected(s, at)
    case CloseWith(reason) => s.(boundary := Closed(s.boundary, reason), raised := Raise(s.raised, s.boundary, reason))
    case EnterGuard(at) => Entered(s, at)
    case LeaveGuard(hook, at) => Left(s, hook, at)
    case Begin(w, at, expired) => Began(s, w, at, expired)
    case Begun(w, threw, at) => Registered(s, w, threw, at)
    case Fulfil(w, value) => s.(waiters := s.waiters[w := Fulfilled(s.waiters[w], value)])
    case Fail(w, e) =>
      s.(waiters := s.waiters[w := Failed(s.waiters[w], s.boundary, e)],
         boundary := if s.waiters[w].Waiting? then OperationRejected(s.boundary) else s.boundary)
    case Expire(w, id) => Refused(s, Timeout(id)).(waiters := s.waiters[w := Interrupted(s.waiters[w])])
    case Abort(w, id) => Refused(s, Cancelled(id)).(waiters := s.waiters[w := Interrupted(s.waiters[w])])
    case Select => s.(boundary := Selected(s.boundary))
    case Deliver(w) => s.(waiters := s.waiters[w := Delivered(s.waiters[w], s.boundary)])
  }

  ghost predicate Next(s: State, t: State) { exists step :: Enabled(s, step) && t == Effect(s, step) }

  ghost predicate Run(states: seq<State>) {
    states != [] && states[0] == INIT && forall i | 0 < i < |states| :: Next(states[i - 1], states[i])
  }

  // --- the failure an invocation agrees on, read off what happened

  function FirstRefusal(thrown: seq<Failure>): Option<Failure> {
    if thrown == [] then None else if thrown[0].Refusal? then Some(thrown[0]) else FirstRefusal(thrown[1..])
  }

  function First(log: seq<Failure>): Option<Failure> { if log == [] then None else Some(log[0]) }

  /** The first admission refusal thrown by a guarded callback, and failing one the
      first timeout or cancellation. */
  function Verdict(s: State): Option<Failure> { Or(FirstRefusal(s.thrown), First(s.raised)) }

  // --- invariant

  predicate BoundaryInv(s: State) {
    var b := s.boundary;
    && b.captured == FirstRefusal(s.thrown)
    && b.selection == First(s.raised)
    && (b.captured.Some? || b.selection.Some? ==> b.closed)
    && (ByBoundary(b) ==> b.closed && b.selection.Some?)
    && (b.closedWith.Some? ==> b.closed)
    && (b.selected.Some? ==> b.selection.Some? && s.guards == 0 && b.selected == Or(b.captured, b.selection))
  }

  predicate WaitersInv(s: State) {
    forall w <- s.waiters :: s.waiters[w].Selecting? ==> s.boundary.selection.Some?
  }

  predicate Inv(s: State) { BoundaryInv(s) && WaitersInv(s) }

  lemma {:induction false} FirstRefusalNoted(thrown: seq<Failure>, f: Failure)
    ensures FirstRefusal(thrown + [f]) == Or(FirstRefusal(thrown), if f.Refusal? then Some(f) else None)
  {
    if thrown != [] {
      FirstRefusalNoted(thrown[1..], f);
      assert (thrown + [f])[1..] == thrown[1..] + [f];
    }
  }

  lemma LeaveKeepsBoundary(s: State, step: Step)
    requires Inv(s) && Enabled(s, step) && step.LeaveGuard?
    ensures BoundaryInv(Effect(s, step))
  {
    var thrown := Thrown(s.boundary, step.hook, step.at);
    if thrown.Some? {
      FirstRefusalNoted(s.thrown, thrown.value);
    }
  }

  lemma ObjectedKeeps(s: State, at: Moment)
    requires BoundaryInv(s)
    ensures BoundaryInv(Objected(s, at))
  {}

  lemma RefusedKeeps(s: State, f: Failure)
    requires BoundaryInv(s) && OfBoundary(f)
    ensures BoundaryInv(Refused(s, f))
  {}

  lemma BeginKeepsBoundary(s: State, w: nat, at: Moment, expired: bool)
    requires BoundaryInv(s)
    ensures BoundaryInv(Began(s, w, at, expired))
  {
    ObjectedKeeps(s, at);
    RefusedKeeps(Objected(s, at), Timeout(at.id));
  }

  lemma BegunKeepsBoundary(s: State, w: nat, threw: Option<Failure>, at: Moment)
    requires BoundaryInv(s) && s.starts > 0
    ensures BoundaryInv(Registered(s, w, threw, at))
  {
    RefusedKeeps(s.(starts := s.starts - 1), Cancelled(at.id));
  }

  lemma WaiterStepKeepsBoundary(s: State, step: Step)
    requires Inv(s) && Enabled(s, step)
    requires step.Fulfil? || step.Fail? || step.Expire? || step.Abort? || step.Deliver?
    ensures BoundaryInv(Effect(s, step))
  {}

  lemma OtherStepKeepsBoundary(s: State, step: Step)
    requires Inv(s) && Enabled(s, step)
    requires step.Assert? || step.CloseWith? || step.EnterGuard? || step.Select?
    ensures BoundaryInv(Effect(s, step))
  {}

  lemma StepKeepsWaiters(s: State, step: Step)
    requires Inv(s) && Enabled(s, step)
    ensures WaitersInv(Effect(s, step))
  {}

  lemma StepKeepsInv(s: State, step: Step)
    requires Inv(s) && Enabled(s, step)
    ensures Inv(Effect(s, step))
  {
    StepKeepsWaiters(s, step);
    match step {
      case LeaveGuard(_, _) => LeaveKeepsBoundary(s, step);
      case Assert(_) => OtherStepKeepsBoundary(s, step);
      case CloseWith(_) => OtherStepKeepsBoundary(s, step);
      case EnterGuard(_) => OtherStepKeepsBoundary(s, step);
      case Select => OtherStepKeepsBoundary(s, step);
      case Begin(w, at, expired) => BeginKeepsBoundary(s, w, at, expired);
      case Begun(w, threw, at) => BegunKeepsBoundary(s, w, threw, at);
      case _ => WaiterStepKeepsBoundary(s, step);
    }
  }

  lemma {:induction false} RunInv(states: seq<State>)
    requires Run(states)
    ensures Inv(states[|states| - 1])
  {
    var n := |states| - 1;
    if n > 0 {
      assert Run(states[..n]);
      RunInv(states[..n]);
      assert Next(states[n - 1], states[n]);
      var step :| Enabled(states[n - 1], step) && states[n] == Effect(states[n - 1], step);
      StepKeepsInv(states[n - 1], step);
    }
  }

  // --- what no step undoes

  predicate StaysClosed(s: State, t: State) {
    s.boundary.closed ==> t.boundary.closed && t.entered == s.entered && t.admitted == s.admitted
  }

  predicate StaysSelected(s: State, t: State) {
    s.boundary.selected.Some? ==> t.boundary.selected == s.boundary.selected
  }

  predicate Settles(before: Waiter, after: Waiter, b: Boundary) {
    match before
    case Waiting => true
    case Selecting => after == Selecting || (b.selected.Some? && after == Rejected(b.selected.value))
    case _ => after == before
  }

  predicate StaysSettled(s: State, t: State) {
    forall w <- s.waiters :: w in t.waiters && Settles(s.waiters[w], t.waiters[w], s.boundary)
  }

  /** Under a boundary that a timeout or cancellation closed, a waiter leaves the
      open state only for the selection or with a value. */
  predicate Yields(s: State, t: State) {
    ByBoundary(s.boundary) ==>
      ByBoundary(t.boundary) &&
      forall w <- s.waiters :: s.waiters[w].Waiting? ==> w in t.waiters && !t.waiters[w].Rejected?
  }

  predicate Kept(s: State, t: State) {
    Inv(s) && StaysClosed(s, t) && StaysSelected(s, t) && StaysSettled(s, t) && Yields(s, t) && s.thrown <= t.thrown
  }

  lemma StepYields(s: State, step: Step)
    requires Inv(s) && Enabled(s, step)
    ensures Yields(s, Effect(s, step))
  {}

  lemma StepStaysClosed(s: State, step: Step)
    requires Inv(s) && Enabled(s, step)
    ensures StaysClosed(s, Effect(s, step)) && StaysSelected(s, Effect(s, step))
  {}

  lemma StepStaysSettled(s: State, step: Step)
    requires Enabled(s, step)
    ensures StaysSettled(s, Effect(s, step)) && s.thrown <= Effect(s, step).thrown
  {}

  predicate KeptAt(states: seq<State>, i: nat)
    requires 0 < i < |states|
  {
    Kept(states[i - 1], states[i])
  }

  ghost predicate Trail(states: seq<State>) {
    && states != []
    && Inv(states[|states| - 1])
    && forall i | 0 < i < |states| :: KeptAt(states, i)
  }

  lemma SelectedInv(s: State)
    requires Inv(s) && s.boundary.selected.Some?
    ensures s.boundary.selected == Verdict(s)
  {}

  lemma RunTrail(states: seq<State>)
    requires Run(states)
    ensures Trail(states)
  {
    RunInv(states);
    forall i | 0 < i < |states| ensures KeptAt(states, i) {
      assert Run(states[..i]);
      RunInv(states[..i]);
      assert Next(states[i - 1], states[i]);
      var step :| Enabled(states[i - 1], step) && states[i] == Effect(states[i - 1], step);
      StepStaysClosed(states[i - 1], step);
      StepStaysSettled(states[i - 1], step);
      StepYields(states[i - 1], step);
    }
  }

  lemma {:induction false} TrailClosed(states: seq<State>, i: nat, j: nat)
    requires Trail(states) && i <= j < |states|
    ensures StaysClosed(states[i], states[j]) && StaysSelected(states[i], states[j])
    ensures states[i].thrown <= states[j].thrown
    decreases j
  {
    if i < j {
      TrailClosed(states, i, j - 1);
      assert KeptAt(states, j);
    }
  }

  lemma TrailSelected(states: seq<State>, i: nat)
    requires Trail(states) && i < |states| && states[i].boundary.selected.Some?
    ensures states[i].boundary.selected == Verdict(states[|states| - 1])
  {
    TrailClosed(states, i, |states| - 1);
    SelectedInv(states[|states| - 1]);
  }

  predicate SettledAs(before: Waiter, after: Waiter, verdict: Option<Failure>) {
    match before
    case Waiting => true
    case Selecting => after == Selecting || (after.Rejected? && Some(after.error) == verdict)
    case _ => after == before
  }

  lemma {:induction false} TrailSettled(states: seq<State>, w: nat, i: nat, j: nat)
    requires Trail(states) && i <= j < |states| && w in states[i].waiters
    ensures w in states[j].waiters
    ensures SettledAs(states[i].waiters[w], states[j].waiters[w], Verdict(states[|states| - 1]))
    decreases j
  {
    if i < j {
      TrailSettled(states, w, i, j - 1);
      assert KeptAt(states, j);
      if states[j - 1].boundary.selected.Some? {
        TrailSelected(states, j - 1);
      }
    }
  }

  predicate Yielded(w: Waiter, verdict: Option<Failure>) {
    w.Waiting? || w.Selecting? || w.Resolved? || Some(w.error) == verdict
  }

  lemma {:induction false} TrailYields(states: seq<State>, w: nat, i: nat, j: nat)
    requires Trail(states) && i <= j < |states| && Is(states[i], w, Waiting) && ByBoundary(states[i].boundary)
    ensures ByBoundary(states[j].boundary) && w in states[j].waiters
    ensures Yielded(states[j].waiters[w], Verdict(states[|states| - 1]))
    decreases j
  {
    if i < j {
      TrailYields(states, w, i, j - 1);
      assert KeptAt(states, j);
      if states[j - 1].boundary.selected.Some? {
        TrailSelected(states, j - 1);
      }
    }
  }

  lemma {:induction false} RefusalFound(thrown: seq<Failure>, k: nat)
    requires k < |thrown| && thrown[k].Refusal?
    ensures FirstRefusal(thrown).Some? && FirstRefusal(thrown).value.Refusal?
  {
    if !thrown[0].Refusal? {
      RefusalFound(thrown[1..], k - 1);
    }
  }

  lemma TrailRefusal(states: seq<State>, i: nat, k: nat)
    requires Trail(states) && i < |states|
    requires k < |states[i].thrown| && states[i].thrown[k].Refusal?
    requires states[|states| - 1].boundary.selected.Some?
    ensures states[|states| - 1].boundary.selected.value.Refusal?
  {
    TrailClosed(states, i, |states| - 1);
    TrailSelected(states, |states| - 1);
    RefusalFound(states[|states| - 1].thrown, k);
  }

  lemma TrailAgreed(states: seq<State>, v: nat, w: nat, i: nat, j: nat)
    requires Trail(states) && i < |states| && j < |states|
    requires Is(states[i], v, Selecting) && Is(states[j], w, Selecting)
    ensures var last := states[|states| - 1];
            v in last.waiters && w in last.waiters &&
            (last.waiters[v].Rejected? && last.waiters[w].Rejected? ==> last.waiters[v] == last.waiters[w])
  {
    TrailSettled(states, v, i, |states| - 1);
    TrailSettled(states, w, j, |states| - 1);
  }

  // ---------------------------------------------------------------------------
  // Main results

  /** Once the boundary is closed it stays closed: no guarded hook is called any more
      and no guarded callback already in progress returns without throwing. */
  lemma NoEffectOnceClosed(states: seq<State>, i: nat, j: nat)
    requires Run(states) && i <= j < |states| && states[i].boundary.closed
    ensures states[j].boundary.closed
    ensures states[j].entered == states[i].entered && states[j].admitted == states[i].admitted
  {
    RunTrail(states);
    TrailClosed(states, i, j);
  }

  /** The failure that is ever selected is the verdict of the whole run, whenever it is
      looked at: the first admission refusal any guarded callback throws, before or
      after the timeout or cancellation, and only without one the first of those. */
  lemma SelectedIsVerdict(states: seq<State>, i: nat)
    requires Run(states) && i < |states| && states[i].boundary.selected.Some?
    ensures states[i].boundary.selected == Verdict(states[|states| - 1])
  {
    RunTrail(states);
    TrailSelected(states, i);
  }

  /** An admission refusal that a guarded callback throws, once its entry check let it
      in, is what gets selected, wherever in the run and whatever aborts and deadlines
      came before it. */
  lemma RefusalBeatsBoundary(states: seq<State>, i: nat, k: nat)
    requires Run(states) && i < |states|
    requires k < |states[i].thrown| && states[i].thrown[k].Refusal?
    requires states[|states| - 1].boundary.selected.Some?
    ensures states[|states| - 1].boundary.selected.value.Refusal?
  {
    RunTrail(states);
    TrailRefusal(states, i, k);
  }

  /** A waiter settles once and for all; one that waits for the selection can only
      end with the verdict. */
  lemma SettlesOnce(states: seq<State>, w: nat, i: nat, j: nat)
    requires Run(states) && i <= j < |states| && w in states[i].waiters
    ensures w in states[j].waiters
    ensures SettledAs(states[i].waiters[w], states[j].waiters[w], Verdict(states[|states| - 1]))
  {
    RunTrail(states);
    TrailSettled(states, w, i, j);
  }

  /** One agreed failure: two waiters that went to the selection, whatever sent them
      there, are rejected with the same error. */
  lemma OneAgreedFailure(states: seq<State>, v: nat, w: nat, i: nat, j: nat)
    requires Run(states) && i < |states| && j < |states|
    requires Is(states[i], v, Selecting) && Is(states[j], w, Selecting)
    ensures var last := states[|states| - 1];
            v in last.waiters && w in last.waiters &&
            (last.waiters[v].Rejected? && last.waiters[w].Rejected? ==> last.waiters[v] == last.waiters[w])
  {
    RunTrail(states);
    TrailAgreed(states, v, w, i, j);
  }

  /** A waiter that is open when a timeout or cancellation has closed the boundary
      never ends with its operation's own error, whenever and however that fails: it
      ends with a value that arrives in time, or with the verdict of the run. */
  lemma OperationYieldsToBoundary(states: seq<State>, w: nat, i: nat, j: nat)
    requires Run(states) && i <= j < |states|
    requires Is(states[i], w, Waiting) && ByBoundary(states[i].boundary)
    ensures w in states[j].waiters && Yielded(states[j].waiters[w], Verdict(states[|states| - 1]))
  {
    RunTrail(states);
    TrailYields(states, w, i, j);
  }

  /** Once a failure is selected, every later operation is refused before it starts,
      with that same failure. */
  lemma RefusedAfterSelection(states: seq<State>, w: nat, at: Moment, expired: bool)
    requires Run(states) && w !in states[|states| - 1].waiters
    requires states[|states| - 1].boundary.selected.Some?
    ensures var t := Effect(states[|states| - 1], Begin(w, at, expired));
            t.starts == states[|states| - 1].starts && w in t.waiters && t.waiters[w].Rejected? &&
            Some(t.waiters[w].error) == Verdict(states[|states| - 1])
  {
    RunInv(states);
  }
}
