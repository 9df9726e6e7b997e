/** Cleanup of the one turn an invocation started: its start response may come before,
    during or after the cleanup, or never, and only that response gives the authority to
    interrupt a turn. */
module TurnCleanup {

  datatype Option<T> = None | Some(value: T)

  type Turn = string

  datatype Owned = Owned(threadId: string, turn: Turn)

  /** The promise of the invocation's own turn start. */
  datatype Start = NotStarted | InFlight | Started(turn: Turn) | StartFailed

  datatype Cleanup = NothingStarted | Unknown | Interrupted | InterruptUnconfirmed

  /** Where the invocation is: at work, waiting a bounded time for the start response,
      waiting a bounded time for the answer to its interrupt, or done with cleanup. */
  datatype Pc = Working | AwaitingStart | Interrupting | Finished(outcome: Cleanup)

  /** `reaction` is the callback on the start promise that has yet to run; `sent` are
      the interrupts sent. */
  datatype State = State(
    threadId: Option<string>,
    start: Start,
    reaction: bool,
    current: Option<Owned>,
    cleanupClosed: bool,
    pc: Pc,
    sent: seq<Owned>)

  const INITIAL := State(None, NotStarted, false, None, false, Working, [])

  datatype Step =
    | ThreadKnown(threadId: string)
    | StartTurn
    | Respond(turn: Turn)
    | RejectStart
    | React
    | Adopt(completed: bool)
    | BeginCleanup
    | WaitEnds(won: bool)
    | InterruptEnds(confirmed: bool)

  predicate Enabled(s: State, step: Step) {
    match step
    case ThreadKnown(_) => s.pc.Working? && s.threadId.None?
    case StartTurn => s.pc.Working? && s.threadId.Some? && s.start.NotStarted?
    // the response to the own start request, whenever it comes
    case Respond(_) => s.start.InFlight?
    case RejectStart => s.start.InFlight?
    case React => s.reaction && s.start.Started? && s.threadId.Some?
    case Adopt(_) => s.pc.Working? && s.start.Started? && s.threadId.Some?
    case BeginCleanup => s.pc.Working?
    case WaitEnds(won) => s.pc.AwaitingStart? && (won ==> s.start.Started?)
    case InterruptEnds(_) => s.pc.Interrupting?
  }

  function Mine(s: State): Option<Owned>
    requires s.start.Started? && s.threadId.Some?
  {
    Some(Owned(s.threadId.value, s.start.turn))
  }

  function Done(s: State, outcome: Cleanup): State { s.(cleanupClosed := true, pc := Finished(outcome)) }

  /** The interrupt goes to what is owned by now, if anything is. */
  function Interrupt(s: State): State {
    if s.current.None? then Done(s, Unknown) else s.(pc := Interrupting, sent := s.sent + [s.current.value])
  }

  function Effect(s: State, step: Step): State
    requires Enabled(s, step)
  {
    match step
    case ThreadKnown(t) => s.(threadId := Some(t))
    case StartTurn => s.(start := InFlight)
    case Respond(t) => s.(start := Started(t), reaction := true)
    case RejectStart => s.(start := StartFailed)
    case React => s.(reaction := false, current := if s.cleanupClosed then s.current else Mine(s))
    case Adopt(completed) => if completed then s else s.(current := Mine(s))
    case BeginCleanup =>
      if s.threadId.None? || s.start.NotStarted? then Done(s, NothingStarted)
      else if s.current.None? then s.(pc := AwaitingStart)
      else Interrupt(s)
    case WaitEnds(won) => Interrupt(if won && s.threadId.Some? && !s.cleanupClosed then s.(current := Mine(s)) else s)
    case InterruptEnds(confirmed) => Done(s, if confirmed then Interrupted else InterruptUnconfirmed)
  }

  ghost predicate Next(s: State, t: State) { exists step :: Enabled(s, step) && t == Effect(s, step) }

  ghost predicate Run(states: seq<State>) {
    states != [] && states[0] == INITIAL && forall i | 0 < i < |states| :: Next(states[i - 1], states[i])
  }

  // --- invariant

  predicate OwnedBy(s: State, o: Owned) { s.start == Started(o.turn) && s.threadId == Some(o.threadId) }

  predicate Inv(s: State) {
    && (s.current.Some? ==> OwnedBy(s, s.current.value))
    && (!s.start.NotStarted? ==> s.threadId.Some?)
    && (s.cleanupClosed <==> s.pc.Finished?)
    && (s.reaction ==> s.start.Started?)
    && (s.pc.AwaitingStart? ==> !s.start.NotStarted? && (s.reaction ==> s.current.None?))
    && ((s.pc.Working? || s.pc.AwaitingStart?) && s.start.Started? && !s.reaction ==> s.current.Some?)
    && match s.pc
       case Working => s.sent == []
       case AwaitingStart => s.sent == []
       case Interrupting => |s.sent| == 1 && OwnedBy(s, s.sent[0])
       case Finished(outcome) =>
         (outcome.NothingStarted? <==> s.start.NotStarted?) &&
         if outcome.NothingStarted? || outcome.Unknown? then s.sent == [] && (outcome.Unknown? ==> s.current.None?)
         else |s.sent| == 1 && OwnedBy(s, s.sent[0])
  }

  lemma StepKeepsInv(s: State, step: Step)
    requires Inv(s) && Enabled(s, step)
    ensures Inv(Effect(s, step))
  {}

  /** What is over stays as it is, and a start response is never replaced. */
  predicate Kept(s: State, t: State) {
    && (s.start.Started? ==> t.start == s.start)
    && (s.threadId.Some? ==> t.threadId == s.threadId)
    && s.sent <= t.sent
    && (s.pc.Finished? ==> t.pc == s.pc && t.sent == s.sent && t.current == s.current)
  }

  lemma StepKeeps(s: State, step: Step)
    requires Inv(s) && Enabled(s, step)
    ensures Kept(s, Effect(s, step))
  {}

  lemma {:induction false} RunInv(states: seq<State>)
    requires Run(states)
    ensures Inv(states[|states| - 1])
  {
    var n := |states| - 1;
    if n > 0 {
      assert Run(states[..n]);
      RunInv(states[..n]);
      assert Next(states[n - 1], states[n]);
      var step :| Enabled(states[n - 1], step) && states[n] == Effect(states[n - 1], step);
      StepKeepsInv(states[n - 1], step);
    }
  }

  lemma RunAt(states: seq<State>, i: nat)
    requires Run(states) && i < |states|
    ensures Inv(states[i])
  {
    assert Run(states[..i + 1]);
    RunInv(states[..i + 1]);
  }

  lemma {:induction false} RunKeeps(states: seq<State>, i: nat, j: nat)
    requires Run(states) && i <= j < |states|
    ensures Kept(states[i], states[j])
    decreases j
  {
    if i < j {
      RunKeeps(states, i, j - 1);
      RunAt(states, j - 1);
      assert Next(states[j - 1], states[j]);
      var step :| Enabled(states[j - 1], step) && states[j] == Effect(states[j - 1], step);
      StepKeeps(states[j - 1], step);
    }
  }

  // --- main results, for every interleaving of response, reaction, timers and cleanup

  /** Whatever is interrupted, at any time of any run, is the thread and turn of the
      invocation's own start response, as it stands at the end of the run; and it is
      interrupted once. */
  lemma OnlyOwnTurnInterrupted(states: seq<State>, i: nat)
    requires Run(states) && i < |states| && states[i].sent != []
    ensures var last := states[|states| - 1];
            |states[i].sent| == 1 && last.sent == states[i].sent && OwnedBy(last, states[i].sent[0])
  {
    RunAt(states, i);
    RunInv(states);
    RunKeeps(states, i, |states| - 1);
  }

  /** A start response that comes after cleanup is over changes nothing: no interrupt is
      sent for it, the outcome stands, and the invocation does not come to own its turn. */
  lemma LateResponseIsPowerless(states: seq<State>, i: nat, j: nat)
    requires Run(states) && i <= j < |states| && states[i].pc.Finished? && !states[i].start.Started?
    ensures states[j].sent == [] && states[j].current.None? && states[j].pc == states[i].pc
    ensures states[j].pc.outcome.NothingStarted? || states[j].pc.outcome.Unknown?
  {
    RunAt(states, i);
    RunAt(states, j);
    RunKeeps(states, i, j);
  }

  /** The reported outcome says exactly whether an interrupt was sent. */
  lemma OutcomeIsExact(states: seq<State>)
    requires Run(states) && states[|states| - 1].pc.Finished?
    ensures var s := states[|states| - 1];
            s.sent != [] <==> s.pc.outcome.Interrupted? || s.pc.outcome.InterruptUnconfirmed?
  {
    RunInv(states);
  }

  /** The invocation comes to own the turn of its own start response, by the reaction to
      it or by adopting it, exactly while cleanup is open and the turn unfinished. */
  lemma OwnershipIsExact(states: seq<State>, completed: bool)
    requires Run(states) && states[|states| - 1].start.Started?
    ensures var s := states[|states| - 1];
            && s.threadId.Some?
            && var own := Owned(s.threadId.value, s.start.turn);
               && (s.reaction ==> Effect(s, React).current == if s.pc.Finished? then s.current else Some(own))
               && (s.pc.Working? ==> Effect(s, Adopt(completed)).current == if completed then s.current else Some(own))
               && (s.current == Some(own) || s.current == None)
  {
    RunInv(states);
  }

  /** What cleanup does when, and what it reports: nothing to interrupt without a start;
      an interrupt of the own turn if its start response is known by the end of the
      wait, through the wait itself or through the reaction; and the answer to it. */
  lemma CleanupIsExact(states: seq<State>, step: Step)
    requires Run(states) && Enabled(states[|states| - 1], step)
    ensures var s := states[|states| - 1];
            var t := Effect(s, step);
            match step
            case BeginCleanup =>
              if s.start.NotStarted? then t.pc == Finished(NothingStarted) && t.sent == []
              else if s.current.Some? then t.pc == Interrupting && t.sent == [s.current.value]
              else t.pc == AwaitingStart && t.sent == []
            case WaitEnds(won) =>
              if s.start.Started? && (won || !s.reaction) then
                s.threadId.Some? && t.pc == Interrupting && t.sent == [Owned(s.threadId.value, s.start.turn)]
              else t.pc == Finished(Unknown) && t.sent == []
            case InterruptEnds(confirmed) => t.pc == Finished(if confirmed then Interrupted else InterruptUnconfirmed)
            case _ => t.pc == s.pc && t.sent == s.sent
  {
    RunInv(states);
  }

  // --- the object and the function that awaits twice

  class OwnedTurn {
    var threadId: Option<string>
    var start: Start
    var reaction: bool
    var current: Option<Owned>
    var cleanupClosed: bool
    var pc: Pc
    var sent: seq<Owned>

    function View(): State
      reads this
    {
      State(threadId, start, reaction, current, cleanupClosed, pc, sent)
    }

    constructor ()
      ensures View() == INITIAL
    {
      threadId, start, reaction, current, cleanupClosed, pc, sent := None, NotStarted, false, None, false, Working, [];
    }

    method OnStarted()
      requires Enabled(View(), React)
      modifies this
      ensures View() == Effect(old(View()), React)
    {
      reaction := false;
      if !cleanupClosed {
        current := Some(Owned(threadId.value, start.turn));
      }
    }

    method AdoptTurn(completed: bool)
      requires Enabled(View(), Adopt(completed))
      modifies this
      ensures View() == Effect(old(View()), Adopt(completed))
    {
      if !completed {
        current := Some(Owned(threadId.value, start.turn));
      }
    }

    /** Up to the first await, or to the second if the turn is owned already. */
    method InterruptExactTurn()
      requires Enabled(View(), BeginCleanup)
      modifies this
      ensures View() == Effect(old(View()), BeginCleanup)
    {
      if threadId.None? || start.NotStarted? {
        cleanupClosed, pc := true, Finished(NothingStarted);
        return;
      }
      if current.None? {
        pc := AwaitingStart;
        return;
      }
      SendInterrupt();
    }

    method AfterWait(won: bool)
      requires Enabled(View(), WaitEnds(won)) && Inv(View())
      modifies this
      ensures View() == Effect(old(View()), WaitEnds(won))
    {
      if won && !cleanupClosed {
        current := Some(Owned(threadId.value, start.turn));
      }
      SendInterrupt();
    }

    method SendInterrupt()
      modifies this
      ensures View() == Interrupt(old(View()))
    {
      if current.None? {
        cleanupClosed, pc := true, Finished(Unknown);
        return;
      }
      pc, sent := Interrupting, sent + [current.value];
    }

    method AfterInterrupt(confirmed: bool)
      requires Enabled(View(), InterruptEnds(confirmed))
      modifies this
      ensures View() == Effect(old(View()), InterruptEnds(confirmed))
    {
      cleanupClosed, pc := true, Finished(if confirmed then Interrupted else InterruptUnconfirmed);
    }
  }
}
