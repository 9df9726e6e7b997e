/** The coalescing wake file, its waiter and the serial driver: signals write a fresh
    token, the waiter compares it with the one it observed, the driver reconciles. */
module Wake {

  datatype Option<T> = None | Some(value: T)

  /** A signal truncates the file and then writes its token. */
  datatype File = Missing | Empty | Holds(token: nat)

  /** `Resting` waits for a change notice or the poll timer; `Woken` is about to start
      the next reconciliation. */
  datatype Phase = Woken | Reconciling | Entering | Resting | Finishing

  /** Times are step numbers. `noticed` is false while a change of the file has not yet
      been answered by a check; `blind` says that the latest check could not see a token
      although one may have been written. */
  datatype State = State(
    now: nat,
    file: File,
    writing: set<nat>,
    used: set<nat>,
    lastSignal: nat,
    observed: Option<nat>,
    observedAt: nat,
    lastStart: nat,
    phase: Phase,
    noticed: bool,
    blind: bool)

  datatype Step =
    | BeginWrite(token: nat)
    | EndWrite(token: nat)
    | Check(readable: bool)
    | Timer
    | Finish(readable: bool)
    | Start
    | End(terminal: bool)

  /** A failed read and an empty file both look like no token. */
  function Read(f: File, readable: bool): Option<nat> { if readable && f.Holds? then Some(f.token) else None }

  ghost predicate Init(s: State) {
    && s.now == 0 && s.writing == {} && s.lastSignal == 0 && s.observedAt == 0 && s.lastStart == 0
    && s.phase.Woken? && s.noticed && !s.blind
    && (s.file.Holds? ==> s.file.token in s.used)
    && (s.observed == Read(s.file, true) || s.observed == None)
  }

  predicate Enabled(s: State, step: Step) {
    match step
    case BeginWrite(t) => t !in s.used
    case EndWrite(t) => t in s.writing
    case Check(_) => s.phase.Entering? || s.phase.Resting?
    case Timer => s.phase.Resting?
    case Finish(_) => s.phase.Finishing?
    case Start => s.phase.Woken?
    case End(_) => s.phase.Reconciling?
  }

  function Effect(s: State, step: Step): State {
    var t := s.(now := s.now + 1);
    match step
    case BeginWrite(token) => t.(file := Empty, writing := s.writing + {token}, used := s.used + {token}, noticed := false)
    case EndWrite(token) => t.(file := Holds(token), writing := s.writing - {token}, lastSignal := t.now, noticed := false)
    case Check(readable) =>
      if Read(s.file, readable) != s.observed then t.(phase := Finishing)
      else t.(phase := Resting, noticed := true, blind := !readable || s.file.Empty?)
    case Timer => t.(phase := Finishing)
    case Finish(readable) => t.(observed := Read(s.file, readable), observedAt := t.now, phase := Woken)
    case Start => t.(phase := Reconciling, lastStart := t.now)
    case End(terminal) => t.(phase := if terminal then Woken else Entering)
  }

  ghost predicate Next(s: State, t: State) { exists step :: Enabled(s, step) && t == Effect(s, step) }

  ghost predicate Run(states: seq<State>) {
    states != [] && Init(states[0]) && forall i | 0 < i < |states| :: Next(states[i - 1], states[i])
  }

  /** The last signal in the run precedes the latest reconciliation. */
  predicate Reconciled(s: State) { s.lastSignal == 0 || s.lastSignal < s.lastStart }

  /** Or the next one is already due. */
  predicate Covered(s: State) { s.phase.Woken? || s.phase.Finishing? || Reconciled(s) }

  predicate Inv(s: State) {
    && s.writing <= s.used
    && (s.file.Holds? ==> s.file.token in s.used && s.file.token !in s.writing)
    && (s.observed.Some? ==> s.observed.value in s.used && s.observed.value !in s.writing)
    && s.lastSignal <= s.now && s.lastStart <= s.now
    && (s.file.Missing? ==> s.lastSignal == 0)
    // a token still there was there when it was observed
    && (s.file.Holds? && s.observed == Some(s.file.token) ==> s.lastSignal == 0 || s.lastSignal < s.observedAt)
    && (!s.phase.Woken? ==> s.observedAt < s.lastStart)
    && s.observedAt <= s.now
    && (s.phase.Resting? && s.noticed && !s.blind ==> Reconciled(s))
  }

  lemma InitInv(s: State)
    requires Init(s)
    ensures Inv(s)
  {}

  lemma StepKeepsInv(s: State, step: Step)
    requires Inv(s) && Enabled(s, step)
    ensures Inv(Effect(s, step))
  {}

  lemma {:induction false} RunInv(states: seq<State>)
    requires Run(states)
    ensures Inv(states[|states| - 1])
  {
    var n := |states| - 1;
    if n == 0 {
      InitInv(states[0]);
    } else {
      assert Run(states[..n]);
      RunInv(states[..n]);
      assert Next(states[n - 1], states[n]);
      var step :| Enabled(states[n - 1], step) && states[n] == Effect(states[n - 1], step);
      StepKeepsInv(states[n - 1], step);
    }
  }

  /** No lost wake: whenever the waiter rests, every change of the file is answered and
      the latest check could see the file's token, the last signal was followed by a
      reconciliation that started after it. */
  lemma NoLostWake(states: seq<State>)
    requires Run(states)
    ensures var s := states[|states| - 1];
            s.phase.Resting? && s.noticed && !s.blind ==> Reconciled(s)
  {
    RunInv(states);
  }

  /** A check goes to rest over an uncovered signal exactly when it sees no token and
      none was observed before; over an observed token it never does. */
  lemma OverlooksExactly(states: seq<State>, readable: bool)
    requires Run(states) && Enabled(states[|states| - 1], Check(readable))
    ensures var s := states[|states| - 1];
            var t := Effect(s, Check(readable));
            t.phase.Resting? && !Reconciled(t) <==>
              s.observed.None? && Read(s.file, readable).None? && !Reconciled(s)
  {
    RunInv(states);
  }

  // --- what was overlooked waits no longer than the poll timer

  predicate Signals(step: Step) { step.BeginWrite? || step.EndWrite? }

  /** A run together with the steps it takes. */
  ghost predicate Trace(states: seq<State>, steps: seq<Step>) {
    && |states| == |steps| + 1 && Init(states[0])
    && forall k | 0 <= k < |steps| :: StepAt(states, steps, k)
  }

  predicate StepAt(states: seq<State>, steps: seq<Step>, k: nat)
    requires |states| == |steps| + 1 && k < |steps|
  {
    Enabled(states[k], steps[k]) && states[k + 1] == Effect(states[k], steps[k])
  }

  lemma {:induction false} TraceInv(states: seq<State>, steps: seq<Step>, k: nat)
    requires Trace(states, steps) && k <= |steps|
    ensures Inv(states[k])
  {
    if k == 0 {
      InitInv(states[0]);
    } else {
      TraceInv(states, steps, k - 1);
      assert StepAt(states, steps, k - 1);
      StepKeepsInv(states[k - 1], steps[k - 1]);
    }
  }

  /** Signals alone move neither the waiter nor the driver. */
  lemma {:induction false} SignalsWait(states: seq<State>, steps: seq<Step>, a: nat, b: nat)
    requires Trace(states, steps) && a <= b <= |steps|
    requires forall k | a <= k < b :: Signals(steps[k])
    ensures states[b].phase == states[a].phase
    decreases b - a
  {
    if a < b {
      SignalsWait(states, steps, a, b - 1);
      assert StepAt(states, steps, b - 1) && Signals(steps[b - 1]);
    }
  }

  /** What the waiter and the driver do next, whatever is signalled in between: a
      reconciliation ends before another starts, a settled result is reconciled again at
      once, any other is waited on, and a wait ends with a change or with the timer. */
  lemma NextMove(states: seq<State>, steps: seq<Step>, i: nat, j: nat)
    requires Trace(states, steps) && i < j < |steps|
    requires !Signals(steps[i]) && !Signals(steps[j]) && forall k | i < k < j :: Signals(steps[k])
    ensures match steps[i]
            case Start => steps[j].End?
            case End(terminal) => if terminal then steps[j].Start? else steps[j].Check?
            case Check(_) => if states[i + 1].phase.Resting? then steps[j].Check? || steps[j].Timer? else steps[j].Finish?
            case Timer => steps[j].Finish?
            case Finish(_) => steps[j].Start?
            case _ => true
  {
    assert StepAt(states, steps, i);
    SignalsWait(states, steps, i + 1, j);
    assert StepAt(states, steps, j);
  }

  /** However many signals come in between, the two steps that waiter and driver take
      next after the poll timer are the end of the wait and a reconciliation, which
      covers every signal up to its start, those that were overlooked included. */
  lemma PollCovers(states: seq<State>, steps: seq<Step>, i: nat, m: nat, j: nat)
    requires Trace(states, steps) && i < m < j < |steps|
    requires steps[i].Timer? && !Signals(steps[m]) && !Signals(steps[j])
    requires forall k | i < k < j && k != m :: Signals(steps[k])
    ensures steps[m].Finish? && steps[j].Start?
    ensures var t := states[j + 1]; t.phase.Reconciling? && Reconciled(t) && t.lastStart > states[i].now
  {
    assert StepAt(states, steps, i);
    SignalsWait(states, steps, i + 1, m);
    assert StepAt(states, steps, m);
    SignalsWait(states, steps, m + 1, j);
    assert StepAt(states, steps, j);
    TraceInv(states, steps, j);
    LaterNow(states, steps, i, j);
  }

  lemma {:induction false} LaterNow(states: seq<State>, steps: seq<Step>, a: nat, b: nat)
    requires Trace(states, steps) && a <= b <= |steps|
    ensures states[a].now <= states[b].now
    decreases b - a
  {
    if a < b {
      LaterNow(states, steps, a, b - 1);
      assert StepAt(states, steps, b - 1);
    }
  }

  // --- and nothing is reconciled over and over for a signal that was seen

  /** The waiter has observed what the file holds. */
  predicate UpToDate(s: State) { s.observed == Read(s.file, true) }

  predicate Quiet(step: Step) { !Signals(step) && (step.Check? ==> step.readable) && (step.Finish? ==> step.readable) }

  lemma {:induction false} StaysUpToDate(states: seq<State>, steps: seq<Step>, a: nat, b: nat)
    requires Trace(states, steps) && a <= b <= |steps| && UpToDate(states[a])
    requires forall k | a <= k < b :: Quiet(steps[k])
    ensures UpToDate(states[b]) && states[b].lastSignal == states[a].lastSignal
    ensures states[a].observedAt <= states[b].observedAt
    decreases b - a
  {
    if a < b {
      StaysUpToDate(states, steps, a, b - 1);
      TraceInv(states, steps, b - 1);
      assert StepAt(states, steps, b - 1) && Quiet(steps[b - 1]);
    }
  }

  /** A wake takes up the token it came for: from then on, while nothing is signalled
      and the file can be read, every check goes to rest with everything reconciled. */
  lemma NoSpuriousWake(states: seq<State>, steps: seq<Step>, i: nat, j: nat)
    requires Trace(states, steps) && i < j < |steps|
    requires steps[i] == Finish(true) && steps[j] == Check(true)
    requires forall k | i < k < j :: Quiet(steps[k])
    ensures states[j + 1].phase.Resting? && Reconciled(states[j + 1])
  {
    assert StepAt(states, steps, i) && StepAt(states, steps, j);
    StaysUpToDate(states, steps, i + 1, j);
    TraceInv(states, steps, i);
    TraceInv(states, steps, j);
  }

  function Extended(states: seq<State>, step: Step): seq<State>
    requires states != []
  {
    states + [Effect(states[|states| - 1], step)]
  }

  lemma ExtendRun(states: seq<State>, step: Step)
    requires Run(states) && Enabled(states[|states| - 1], step)
    ensures Run(Extended(states, step))
  {
    var t := Effect(states[|states| - 1], step);
    assert Next(states[|states| - 1], t);
    var all := Extended(states, step);
    forall i | 0 < i < |all| ensures Next(all[i - 1], all[i]) {}
  }

  /** And it can be overlooked: a second signal that has only truncated the file hides
      a first one from a waiter that never saw a token. */
  lemma TruncationHidesSignal() returns (states: seq<State>)
    ensures Run(states)
    ensures var s := states[|states| - 1]; s.phase.Resting? && s.noticed && s.blind && !Reconciled(s)
  {
    states := [State(0, Missing, {}, {}, 0, None, 0, 0, Woken, true, false)];
    ExtendRun(states, Start);
    states := Extended(states, Start);
    ExtendRun(states, BeginWrite(1));
    states := Extended(states, BeginWrite(1));
    ExtendRun(states, EndWrite(1));
    states := Extended(states, EndWrite(1));
    ExtendRun(states, BeginWrite(2));
    states := Extended(states, BeginWrite(2));
    ExtendRun(states, End(false));
    states := Extended(states, End(false));
    ExtendRun(states, Check(true));
    states := Extended(states, Check(true));
  }

  // --- the waiter's closure

  class Waiter {
    var observed: Option<nat>
    var settled: bool

    constructor (current: Option<nat>)
      ensures observed == current && settled
    {
      observed, settled := current, true;
    }

    /** One wait begins; the check closes the gap before the watch was set. */
    method Enter(current: Option<nat>, reread: Option<nat>)
      modifies this
      ensures settled == (current != old(observed))
      ensures observed == if settled then reread else old(observed)
    {
      settled := false;
      OnChange(current, reread);
    }

    method OnChange(current: Option<nat>, reread: Option<nat>)
      modifies this
      ensures settled == (old(settled) || current != old(observed))
      ensures observed == if settled && !old(settled) then reread else old(observed)
    {
      if current != observed { FinishWait(reread); }
    }

    /** Settles once; later notices and the timer leave the observed token alone. */
    method FinishWait(reread: Option<nat>)
      modifies this
      ensures settled
      ensures observed == if old(settled) then old(observed) else reread
    {
      if settled { return; }
      settled := true;
      observed := reread;
    }
  }

  // --- the serial driver

  datatype Dispatch = Dispatched(state: string, waitForPoll: bool) | Undispatched

  predicate Terminal(d: Dispatch) {
    d.Dispatched? && !d.waitForPoll && d.state in ["MERGED", "MERGE_READY", "NEEDS_HUMAN", "FAILED"]
  }

  /** Which results are reconciled again at once. */
  lemma TerminalExactly(d: Dispatch)
    ensures Terminal(d) <==>
              exists state :: d == Dispatched(state, false) &&
                              (state == "MERGED" || state == "MERGE_READY" || state == "NEEDS_HUMAN" || state == "FAILED")
  {}

  function Nonterminal(results: seq<Dispatch>): nat {
    if results == [] then 0 else Nonterminal(results[..|results| - 1]) + if Terminal(results[|results| - 1]) then 0 else 1
  }

  datatype Driven = BadPoll | BadBound | Ended(cycles: nat, idleWaits: nat, last: Option<Dispatch>) | Threw(cycles: nat, idleWaits: nat)

  const MAX_SAFE: int := 0x1F_FFFF_FFFF_FFFF

  /** `results` are what the reconciliations yield, the one after them throws. With a
      bound the driver ends after so many cycles; it waits once after every result that
      is not settled, except after the last one it is bounded to. */
  method DispatchContinuously(results: seq<Dispatch>, idlePollMs: int, maxCycles: Option<int>) returns (r: Driven)
    ensures r.BadPoll? <==> !(1 <= idlePollMs <= MAX_SAFE)
    ensures r.BadBound? <==> 1 <= idlePollMs <= MAX_SAFE && maxCycles.Some? && !(1 <= maxCycles.value <= MAX_SAFE)
    ensures r.Ended? ==>
              maxCycles == Some(r.cycles) && 0 < r.cycles <= |results| && r.last == Some(results[r.cycles - 1]) &&
              r.idleWaits == Nonterminal(results[..r.cycles - 1])
    ensures r.Threw? ==>
              r.cycles == |results| && r.idleWaits == Nonterminal(results) && (maxCycles.Some? ==> |results| < maxCycles.value)
  {
    if !(1 <= idlePollMs <= MAX_SAFE) { return BadPoll; }
    if maxCycles.Some? && !(1 <= maxCycles.value <= MAX_SAFE) { return BadBound; }
    var cycles := 0;
    var idleWaits := 0;
    var last: Option<Dispatch> := None;
    while maxCycles.None? || cycles < maxCycles.value
      invariant cycles <= |results|
      invariant maxCycles.Some? ==> cycles <= maxCycles.value
      invariant cycles > 0 ==> last == Some(results[cycles - 1])
      invariant if maxCycles.Some? && cycles == maxCycles.value then cycles > 0 && idleWaits == Nonterminal(results[..cycles - 1])
                else idleWaits == Nonterminal(results[..cycles])
      decreases |results| - cycles
    {
      assert results[..|results|] == results;
      if cycles == |results| { return Threw(cycles, idleWaits); }
      last := Some(results[cycles]);
      cycles := cycles + 1;
      assert results[..cycles][..cycles - 1] == results[..cycles - 1];
      if Terminal(last.value) { continue; }
      if maxCycles.Some? && cycles >= maxCycles.value { break; }
      idleWaits := idleWaits + 1;
    }
    r := Ended(cycles, idleWaits, last);
  }
}
