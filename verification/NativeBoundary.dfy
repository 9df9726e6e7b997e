/** The sticky boundary of one native invocation and the waiters that race native
    operations against it: what every call does to their state. */
module NativeBoundary {

  datatype Option<T> = None | Some(value: T)

  /** Error objects; the number is their identity. */
  datatype Failure = Timeout(id: nat) | Cancelled(id: nat) | Refusal(id: nat) | Other(id: nat)

  predicate OfBoundary(f: Failure) { f.Timeout? || f.Cancelled? }

  function Or<T>(a: Option<T>, b: Option<T>): Option<T> { if a.Some? then a else b }

  /** `selection` is the reason the selection microtask was queued with; the
      selection promise resolves when `selected` is set. */
  datatype Boundary = Boundary(
    closed: bool,
    closedWith: Option<Failure>,
    captured: Option<Failure>,
    selected: Option<Failure>,
    selection: Option<Failure>)

  const OPEN := Boundary(false, None, None, None, None)

  /** What the clock and the abort signal say when a call looks at them, and the
      identity of the error it would create. */
  datatype Moment = Moment(aborted: bool, late: bool, id: nat)

  function Deferred(b: Boundary, reason: Failure): Boundary {
    if b.selection.Some? then b else b.(selection := Some(reason))
  }

  function Closed(b: Boundary, reason: Option<Failure>): Boundary {
    if b.closed then b
    else if reason.Some? && OfBoundary(reason.value) then Deferred(b.(closed := true, closedWith := reason), reason.value)
    else b.(closed := true, closedWith := reason)
  }

  /** What `assertOpen` throws. */
  function Objection(b: Boundary, at: Moment): Option<Failure> {
    if b.closed then Or(b.selected, Or(b.closedWith, Some(Timeout(at.id))))
    else if at.aborted then Some(Cancelled(at.id))
    else if at.late then Some(Timeout(at.id))
    else None
  }

  function Asserted(b: Boundary, at: Moment): Boundary {
    if Objection(b, at).Some? then Closed(b, Objection(b, at)) else b
  }

  function Selected(b: Boundary): Boundary {
    if b.selected.None? then b.(selected := Or(b.captured, b.selection)) else b
  }

  /** What a guarded callback throws, given what the host hook inside it threw. */
  function Thrown(b: Boundary, hook: Option<Failure>, at: Moment): Option<Failure> { Or(hook, Objection(b, at)) }

  function Captured(b: Boundary, f: Failure): Boundary {
    if f.Refusal? && b.selected.None? then b.(captured := Or(b.captured, Some(f))) else b
  }

  /** A guarded callback after its host hook. */
  function Guarded(b: Boundary, hook: Option<Failure>, at: Moment): Boundary {
    var c := if hook.Some? then b else Asserted(b, at);
    if Thrown(b, hook, at).Some? then Closed(Captured(c, Thrown(b, hook, at).value), Thrown(b, hook, at)) else c
  }

  predicate ByBoundary(b: Boundary) { b.closedWith.Some? && OfBoundary(b.closedWith.value) }

  function OperationRejected(b: Boundary): Boundary {
    if ByBoundary(b) then Deferred(b, b.closedWith.value) else b
  }

  function Rejecting(b: Boundary, f: Failure): Boundary { Deferred(Closed(b, Some(f)), f) }

  class NativeExecutionBoundary {
    var closed: bool
    var closedWith: Option<Failure>
    var capturedAdmissionRefusal: Option<Failure>
    var selectedFailure: Option<Failure>
    var selectionPromise: Option<Failure>

    function View(): Boundary
      reads this
    {
      Boundary(closed, closedWith, capturedAdmissionRefusal, selectedFailure, selectionPromise)
    }

    constructor ()
      ensures View() == OPEN
    {
      closed, closedWith, capturedAdmissionRefusal, selectedFailure, selectionPromise := false, None, None, None, None;
    }

    method AssertOpen(at: Moment) returns (thrown: Option<Failure>)
      modifies this
      ensures View() == Asserted(old(View()), at)
      ensures thrown == Objection(old(View()), at)
    {
      if closed {
        return if selectedFailure.Some? then selectedFailure else if closedWith.Some? then closedWith else Some(Timeout(at.id));
      }
      if at.aborted {
        Close(Some(Cancelled(at.id)));
        return Some(Cancelled(at.id));
      }
      if at.late {
        Close(Some(Timeout(at.id)));
        return Some(Timeout(at.id));
      }
      thrown := None;
    }

    method Close(reason: Option<Failure>)
      modifies this
      ensures View() == Closed(old(View()), reason)
    {
      if closed { return; }
      closed, closedWith := true, reason;
      if reason.Some? && OfBoundary(reason.value) {
        DeferSelection(reason.value);
      }
    }

    method DeferSelection(reason: Failure)
      modifies this
      ensures View() == Deferred(old(View()), reason)
    {
      if selectionPromise.Some? { return; }
      selectionPromise := Some(reason);
    }

    /** The caller's promise is the selection promise. */
    method RejectForBoundary(error: Failure)
      requires OfBoundary(error)
      modifies this
      ensures View() == Rejecting(old(View()), error)
      ensures selectionPromise.Some?
    {
      Close(Some(error));
      DeferSelection(error);
    }

    /** None is the selection promise; otherwise a promise of the error itself. */
    method RejectOperation(error: Failure) returns (own: Option<Failure>)
      modifies this
      ensures View() == OperationRejected(old(View()))
      ensures own == if ByBoundary(old(View())) then None else Some(error)
      ensures own.None? ==> selectionPromise.Some?
    {
      if closedWith.Some? && OfBoundary(closedWith.value) {
        DeferSelection(closedWith.value);
        return None;
      }
      own := Some(error);
    }

    /** The queued microtask. */
    method SelectFailure()
      requires selectionPromise.Some?
      modifies this
      ensures View() == Selected(old(View()))
      ensures selectedFailure.Some?
    {
      if selectedFailure.None? {
        selectedFailure := if capturedAdmissionRefusal.Some? then capturedAdmissionRefusal else selectionPromise;
      }
    }

    /** The rest of a guarded callback once its host hook returned or threw. */
    method AfterHook(hook: Option<Failure>, at: Moment) returns (thrown: Option<Failure>)
      modifies this
      ensures View() == Guarded(old(View()), hook, at)
      ensures thrown == Thrown(old(View()), hook, at)
    {
      thrown := hook;
      if thrown.None? {
        thrown := AssertOpen(at);
      }
      if thrown.Some? {
        if thrown.value.Refusal? && selectedFailure.None? && capturedAdmissionRefusal.None? {
          capturedAdmissionRefusal := thrown;
        }
        Close(thrown);
      }
    }
  }

  // ---------------------------------------------------------------------------
  // One awaited native operation

  /** `Selecting` waits for the selection promise. */
  datatype Waiter = Waiting | Selecting | Resolved(value: nat) | Rejected(error: Failure)

  /** The waiter when its timer or abort listener is called. */
  function Interrupted(w: Waiter): Waiter { if w.Waiting? then Selecting else w }

  function Fulfilled(w: Waiter, value: nat): Waiter { if w.Waiting? then Resolved(value) else w }

  function Failed(w: Waiter, b: Boundary, e: Failure): Waiter {
    if !w.Waiting? then w else if ByBoundary(b) then Selecting else Rejected(e)
  }

  function Delivered(w: Waiter, b: Boundary): Waiter {
    if w.Selecting? && b.selected.Some? then Rejected(b.selected.value) else w
  }

  class NativeOperation {
    const boundary: NativeExecutionBoundary
    var settled: bool
    var timerArmed: bool
    var listening: bool
    var state: Waiter

    predicate Valid()
      reads this
    {
      settled == !state.Waiting? && timerArmed == listening == !settled
    }

    constructor (b: NativeExecutionBoundary)
      ensures Valid() && boundary == b && state == Waiting
    {
      boundary, settled, timerArmed, listening, state := b, false, true, true, Waiting;
    }

    method BeginFinish() returns (first: bool)
      modifies this
      ensures first == !old(settled) && settled && state == old(state)
      ensures if first then !timerArmed && !listening else timerArmed == old(timerArmed) && listening == old(listening)
    {
      if settled { return false; }
      settled, timerArmed, listening := true, false, false;
      first := true;
    }

    method OnTimeout(id: nat)
      requires Valid() && timerArmed
      modifies this, boundary
      ensures Valid() && state == Interrupted(old(state))
      ensures boundary.View() == Rejecting(old(boundary.View()), Timeout(id))
    {
      boundary.RejectForBoundary(Timeout(id));
      var first := BeginFinish();
      if first { state := Selecting; }
    }

    method OnAbort(id: nat)
      requires Valid() && listening
      modifies this, boundary
      ensures Valid() && state == Interrupted(old(state))
      ensures boundary.View() == Rejecting(old(boundary.View()), Cancelled(id))
    {
      boundary.RejectForBoundary(Cancelled(id));
      var first := BeginFinish();
      if first { state := Selecting; }
    }

    method OnResolve(value: nat)
      requires Valid()
      modifies this
      ensures Valid() && state == Fulfilled(old(state), value)
    {
      var first := BeginFinish();
      if first { state := Resolved(value); }
    }

    method OnReject(error: Failure)
      requires Valid()
      modifies this, boundary
      ensures Valid() && state == Failed(old(state), old(boundary.View()), error)
      ensures boundary.View() == if old(settled) then old(boundary.View()) else OperationRejected(old(boundary.View()))
    {
      if settled { return; }
      var own := boundary.RejectOperation(error);
      var first := BeginFinish();
      if first { state := if own.None? then Selecting else Rejected(error); }
    }

    /** The reaction to the selection promise. */
    method OnSelected()
      requires Valid() && state.Selecting? && boundary.selectedFailure.Some?
      modifies this
      ensures Valid() && state == Delivered(old(state), boundary.View())
    {
      state := Rejected(boundary.selectedFailure.value);
    }
  }
}
