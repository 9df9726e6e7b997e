/** One worker container from its creation to a proof that it runs no more, against a
    daemon that may fail any call before or after acting on it. */
module ContainerBoundary {

  datatype Status = Created | Running | Paused | Restarting | Removing | Exited | Dead | Absent

  predicate Terminal(s: Status) { s.Exited? || s.Dead? }

  /** The container's processes exist. */
  predicate Runs(s: Status) { s.Running? || s.Paused? || s.Restarting? }

  datatype Op = Start | Wait | Inspect | Logs | Stop | Kill | Remove

  datatype Error = Refusal(id: nat) | Fault(id: nat) | TerminalUnproven | Cancelled

  /** The two kinds of daemon complaint that lifecycle calls take for success. */
  datatype Complaint = NoSuchContainer | NotRunning

  datatype Reply = Ok(code: int) | Seen(status: Status) | Complains(what: Complaint) | Fails(error: Error)

  datatype Answer = Answer(reply: Reply, status: Status)

  /** What the daemon does with the n-th call on a container in a given state. */
  type Daemon = (nat, Op, Status) -> Answer

  // --- a truthful daemon without restarts

  /** What may become of a container without a call: one that runs may be paused and
      go on, stop and disappear; one that does not run never starts. A removal that
      began ends. */
  predicate Drifts(s: Status, t: Status) {
    t == s || t.Absent? || (Runs(s) && !t.Created? && !t.Removing?) || ((s.Exited? || s.Removing?) && t.Dead?)
  }

  predicate Truthful1(op: Op, s: Status, a: Answer) {
    // only a start may make it run, and only a failed removal is left half done
    && (Drifts(s, a.status) || (op.Start? && !s.Absent? && !a.status.Removing?) || (op.Remove? && !s.Absent? && a.status.Removing? && a.reply.Fails?))
    && (a.reply.Complains? ==>
          (op.Stop? || op.Kill? || op.Remove?) &&
          if a.reply.what.NoSuchContainer? then a.status.Absent? else !Runs(a.status) && !a.status.Absent?)
    && (a.reply.Seen? ==> op.Inspect? && !a.reply.status.Absent? && Drifts(s, a.reply.status) && Drifts(a.reply.status, a.status))
    && (a.reply.Ok? ==>
          match op
          case Inspect => false
          case Wait => !Runs(a.status)
          case Stop => !Runs(a.status)
          case Kill => !Runs(a.status)
          case Remove => a.status.Absent?
          case _ => true)
  }

  ghost predicate Truthful(d: Daemon) {
    forall n, op, s :: Truthful1(op, s, d(n, op, s))
  }

  // --- the lifecycle as it is orchestrated

  datatype State = State(status: Status, calls: nat)

  function After(d: Daemon, s: State, op: Op): State { State(d(s.calls, op, s.status).status, s.calls + 1) }

  function Said(d: Daemon, s: State, op: Op): Reply { d(s.calls, op, s.status).reply }

  /** Benign complaints count as success. */
  predicate Succeeds(r: Reply) { r.Ok? || r.Seen? || r.Complains? }

  function ErrorOf(r: Reply): Error { if r.Fails? then r.error else TerminalUnproven }

  datatype Detail = StillThere(status: Status) | Unproven(failures: seq<Op>, error: Error)

  datatype Proof = Quiescent | Uncertain(detail: Detail)

  function Noted(d: Daemon, s: State, op: Op, failures: seq<Op>): seq<Op> {
    if Succeeds(Said(d, s, op)) then failures else failures + [op]
  }

  /** The container after stop, wait, kill and wait, and which of them failed. */
  function Stopped(d: Daemon, s: State): (State, seq<Op>) {
    var s1 := After(d, s, Stop);
    var s2 := After(d, s1, Wait);
    var s3 := After(d, s2, Kill);
    var f1 := Noted(d, s, Stop, []);
    var f2 := Noted(d, s1, Wait, f1);
    var f3 := Noted(d, s2, Kill, f2);
    (After(d, s3, Wait), Noted(d, s3, Wait, f3))
  }

  function Proven(d: Daemon, s: State): (State, Proof) {
    var (t, failures) := Stopped(d, s);
    var u := After(d, t, Remove);
    if Succeeds(Said(d, t, Remove)) then (u, Quiescent)
    else
      var v := After(d, u, Inspect);
      match Said(d, u, Inspect)
      case Seen(status) => (v, if Terminal(status) then Quiescent else Uncertain(StillThere(status)))
      case r => (v, Uncertain(Unproven(failures + [Remove], ErrorOf(r))))
  }

  datatype Outcome =
    | Completed(exitCode: int, terminalState: Status)
    | Ordinary(error: Error)
    | EnrichedRefusal(id: nat, detail: Detail)
    | Uncontained(error: Error, detail: Detail)

  /** The main flow up to the terminal state, or the error that interrupts it. */
  datatype Flow = Reached(exitCode: int, seen: Status) | Threw(error: Error)

  function Worked(d: Daemon, s: State): (State, Flow) {
    var s1 := After(d, s, Start);
    if !Succeeds(Said(d, s, Start)) then (s1, Threw(ErrorOf(Said(d, s, Start))))
    else
      var s2 := After(d, s1, Wait);
      if !Said(d, s1, Wait).Ok? then (s2, Threw(ErrorOf(Said(d, s1, Wait))))
      else
        var s3 := After(d, s2, Inspect);
        match Said(d, s2, Inspect)
        case Seen(status) => (s3, if Terminal(status) then Reached(Said(d, s1, Wait).code, status) else Threw(TerminalUnproven))
        case r => (s3, Threw(ErrorOf(r)))
  }

  function Recovered(d: Daemon, s: State, error: Error, aborted: bool): (State, Outcome) {
    var (t, proof) := Proven(d, s);
    match proof
    case Uncertain(detail) => (t, if error.Refusal? then EnrichedRefusal(error.id, detail) else Uncontained(error, detail))
    case Quiescent => (t, Ordinary(if error.Refusal? then error else if aborted then Cancelled else error))
  }

  function Ran(d: Daemon, s: State, aborted: bool): (State, Outcome) {
    var (t, flow) := Worked(d, s);
    match flow
    case Threw(error) => Recovered(d, t, error, aborted)
    case Reached(code, seen) => (After(d, After(d, t, Logs), Remove), Completed(code, seen))
  }

  // --- the orchestrator, call by call

  class Runtime {
    const daemon: Daemon
    var status: Status
    var calls: nat

    function View(): State
      reads this
    {
      State(status, calls)
    }

    constructor (d: Daemon)
      ensures daemon == d && View() == State(Created, 0)
    {
      daemon, status, calls := d, Created, 0;
    }

    method Call(op: Op) returns (r: Reply)
      modifies this
      ensures View() == After(daemon, old(View()), op) && r == Said(daemon, old(View()), op)
    {
      var a := daemon(calls, op, status);
      status, calls := a.status, calls + 1;
      r := a.reply;
    }

    method Attempt(op: Op, failures: seq<Op>) returns (ok: bool, noted: seq<Op>)
      modifies this
      ensures View() == After(daemon, old(View()), op)
      ensures ok == Succeeds(Said(daemon, old(View()), op)) && noted == Noted(daemon, old(View()), op, failures)
    {
      var r := Call(op);
      ok := Succeeds(r);
      noted := if ok then failures else failures + [op];
    }

    method ProveQuiescent() returns (proof: Proof)
      modifies this
      ensures (View(), proof) == Proven(daemon, old(View()))
    {
      var failures: seq<Op> := [];
      var ok: bool;
      ok, failures := Attempt(Stop, failures);
      ok, failures := Attempt(Wait, failures);
      ok, failures := Attempt(Kill, failures);
      ok, failures := Attempt(Wait, failures);
      ok, failures := Attempt(Remove, failures);
      if ok { return Quiescent; }
      var r := Call(Inspect);
      match r {
        case Seen(seen) => proof := if Terminal(seen) then Quiescent else Uncertain(StillThere(seen));
        case _ => proof := Uncertain(Unproven(failures, ErrorOf(r)));
      }
    }

    method Work() returns (flow: Flow)
      modifies this
      ensures (View(), flow) == Worked(daemon, old(View()))
    {
      var r := Call(Start);
      if !Succeeds(r) { return Threw(ErrorOf(r)); }
      r := Call(Wait);
      if !r.Ok? { return Threw(ErrorOf(r)); }
      var exitCode := r.code;
      r := Call(Inspect);
      match r {
        case Seen(seen) => flow := if Terminal(seen) then Reached(exitCode, seen) else Threw(TerminalUnproven);
        case _ => flow := Threw(ErrorOf(r));
      }
    }

    method Run(aborted: bool) returns (outcome: Outcome)
      modifies this
      ensures (View(), outcome) == Ran(daemon, old(View()), aborted)
    {
      var flow := Work();
      match flow {
        case Reached(exitCode, seen) =>
          var _ := Call(Logs);
          var _ := Call(Remove);
          outcome := Completed(exitCode, seen);
        case Threw(error) =>
          var proof := ProveQuiescent();
          if proof.Uncertain? {
            outcome := if error.Refusal? then EnrichedRefusal(error.id, proof.detail) else Uncontained(error, proof.detail);
            return;
          }
          outcome := Ordinary(if error.Refusal? then error else if aborted then Cancelled else error);
      }
    }
  }

  const NEW := State(Created, 0)

  // ---------------------------------------------------------------------------
  // What is reported, call by call, of any daemon

  /** A result is reported exactly when the container was started, waited for and seen
      in a terminal state; it carries the awaited exit code and the state seen after it.
      The logs are read before the removal. */
  lemma ResultIsReported(d: Daemon, aborted: bool)
    ensures var started := d(0, Start, Created);
            var waited := d(1, Wait, started.status);
            var inspected := d(2, Inspect, waited.status);
            var seen := inspected.reply;
            var (t, outcome) := Ran(d, NEW, aborted);
            && (outcome.Completed? <==> !started.reply.Fails? && waited.reply.Ok? && (seen == Seen(Exited) || seen == Seen(Dead)))
            && (outcome.Completed? ==> waited.reply == Ok(outcome.exitCode) && seen == Seen(outcome.terminalState))
            && (outcome.Completed? ==> t.status == d(4, Remove, d(3, Logs, inspected.status).status).status)
  {}

  /** Every other end reports the first failure; a cancellation replaces it only when it
      is no refusal and the container was proved quiescent. */
  lemma FailureIsReported(d: Daemon, aborted: bool)
    ensures var started := d(0, Start, Created);
            var waited := d(1, Wait, started.status);
            var seen := d(2, Inspect, waited.status).reply;
            var first := if started.reply.Fails? then started.reply.error
                         else if waited.reply.Fails? then waited.reply.error
                         else if !waited.reply.Ok? || !seen.Fails? then TerminalUnproven
                         else seen.error;
            match Ran(d, NEW, aborted).1
            case Completed(_, _) => true
            case Ordinary(error) => error == if aborted && !first.Refusal? then Cancelled else first
            case EnrichedRefusal(id, _) => first == Refusal(id)
            case Uncontained(error, _) => error == first && !first.Refusal?
  {}

  function IfFailed(op: Op, r: Reply): seq<Op> { if r.Fails? then [op] else [] }

  /** Quiescence is what a removal or a look at a terminal container gives, and nothing
      else; what is left unproven names exactly the calls that failed, in their order. */
  lemma ProofIsReported(d: Daemon, s: State)
    ensures var stop := d(s.calls, Stop, s.status);
            var wait := d(s.calls + 1, Wait, stop.status);
            var kill := d(s.calls + 2, Kill, wait.status);
            var waitAgain := d(s.calls + 3, Wait, kill.status);
            var remove := d(s.calls + 4, Remove, waitAgain.status);
            var look := d(s.calls + 5, Inspect, remove.status).reply;
            match Proven(d, s).1
            case Quiescent => !remove.reply.Fails? || look == Seen(Exited) || look == Seen(Dead)
            case Uncertain(StillThere(status)) => remove.reply.Fails? && look == Seen(status) && !status.Exited? && !status.Dead?
            case Uncertain(Unproven(failures, _)) =>
              && remove.reply.Fails? && !look.Seen?
              && failures == IfFailed(Stop, stop.reply) + IfFailed(Wait, wait.reply) + IfFailed(Kill, kill.reply)
                             + IfFailed(Wait, waitAgain.reply) + [Remove]
  {}

  // ---------------------------------------------------------------------------
  // Main results, for every truthful daemon

  /** Terminal or absent; a removal under way leads to one of the two. */
  predicate Contained(s: Status) { Terminal(s) || s.Removing? || s.Absent? }

  /** The state in which the clean-up asks for removal. */
  function Removing(d: Daemon): State { Stopped(d, Worked(d, NEW).0).0 }

  /** The one gap: the start never took effect, and the removal is answered with "not
      running", which counts as success. */
  predicate LeftUnstarted(d: Daemon) {
    After(d, NEW, Start).status.Created? && Said(d, Removing(d), Remove) == Complains(NotRunning)
  }

  lemma ProofIsSound(d: Daemon, s: State)
    requires Truthful(d)
    ensures var (t, proof) := Proven(d, s);
            var asked := Stopped(d, s).0;
            proof.Quiescent? ==>
              !Runs(t.status) &&
              (Contained(t.status) <==> !(Said(d, asked, Remove) == Complains(NotRunning) && asked.status.Created?))
  {
  }

  /** A container that is asked about as "not running" is there. */
  lemma ComplaintMeansPresent(d: Daemon)
    requires Truthful(d)
    ensures Said(d, Removing(d), Remove) == Complains(NotRunning) ==>
              (Removing(d).status.Created? <==> After(d, NEW, Start).status.Created?)
  {}

  lemma ReachedIsTerminal(d: Daemon)
    requires Truthful(d)
    ensures var (t, flow) := Worked(d, NEW);
            flow.Reached? ==> Terminal(flow.seen) && Contained(t.status) && Contained(After(d, After(d, t, Logs), Remove).status)
  {}

  /** After a result or an ordinary error the container does not run and cannot come to
      run by itself. It is terminal or absent after every result, and after an ordinary
      error exactly unless it was left unstarted. */
  lemma EndsContained(d: Daemon, aborted: bool)
    requires Truthful(d)
    ensures var (t, outcome) := Ran(d, NEW, aborted);
            && (outcome.Completed? ==> Terminal(outcome.terminalState) && Contained(t.status))
            && (outcome.Ordinary? ==> !Runs(t.status) && (Contained(t.status) <==> !LeftUnstarted(d)))
            && (outcome.Completed? || outcome.Ordinary? ==> forall u | Drifts(t.status, u) :: !Runs(u))
  {
    var (t, flow) := Worked(d, NEW);
    if flow.Reached? {
      ReachedIsTerminal(d);
    } else {
      ProofIsSound(d, t);
      ComplaintMeansPresent(d);
    }
  }

  /** A container that may still run is never reported as anything but uncontained. */
  lemma RunningIsReported(d: Daemon, aborted: bool)
    requires Truthful(d) && Runs(Ran(d, NEW, aborted).0.status)
    ensures var outcome := Ran(d, NEW, aborted).1;
            outcome.Uncontained? || (outcome.EnrichedRefusal? && Worked(d, NEW).1 == Threw(Refusal(outcome.id)))
  {
    EndsContained(d, aborted);
  }

  /** An admission refusal is never replaced by a cancellation or by the containment
      error. */
  lemma RefusalSurvives(d: Daemon, aborted: bool, id: nat)
    requires Worked(d, NEW).1 == Threw(Refusal(id))
    ensures var outcome := Ran(d, NEW, aborted).1;
            outcome == Ordinary(Refusal(id)) || (outcome.EnrichedRefusal? && outcome.id == id)
  {}

  function Unhelpful(n: nat, op: Op, s: Status): Answer {
    if op.Stop? || op.Kill? || op.Remove? then
      Answer(if s.Absent? then Complains(NoSuchContainer) else if Runs(s) then Fails(Fault(0)) else Complains(NotRunning), s)
    else Answer(Fails(if op.Start? then Refusal(7) else Fault(0)), s)
  }

  /** The gap is real: a start refused before it is spawned, and a daemon that answers
      every clean-up call truthfully, end in an ordinary error with the container
      still created. */
  lemma UnstartedMayRemain()
    ensures Truthful(Unhelpful)
    ensures var (t, outcome) := Ran(Unhelpful, NEW, false);
            outcome == Ordinary(Refusal(7)) && t.status.Created? && LeftUnstarted(Unhelpful)
  {
    var s := Worked(Unhelpful, NEW).0;
    assert s == State(Created, 1);
    assert Stopped(Unhelpful, s).0 == State(Created, 5);
  }
}
