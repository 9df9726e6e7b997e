/** The line-oriented RPC client: requests in flight, completed turns and the waiters
    for turns still running. */
module RpcClient {

  datatype Option<T> = None | Some(value: T)

  type Turn = string

  datatype Completion = Completion(status: string, summary: Option<string>)

  datatype Body = Result(value: nat) | RpcError(error: nat)

  /** The promise of one request. */
  datatype Reply = Unanswered | Answered(body: Body) | Failed(reason: nat)

  /** The promise of one wait for a turn. */
  datatype Wait = Unsettled | Completed(completion: Completion) | Rejected(reason: nat)

  datatype Client = Client(
    nextId: nat,
    pending: set<nat>,
    completedTurns: map<Turn, Completion>,
    turnWaiters: map<Turn, nat>,
    closed: bool,
    replies: map<nat, Reply>,
    waits: seq<Wait>)

  const CLOSED: nat := 0

  datatype Step =
    // the host callback or the write fails with `failure`
    | Request(failure: Option<nat>)
    | Abort(id: nat, reason: nat)
    | Response(id: nat, body: Body)
    | TurnCompleted(turn: Turn, completion: Completion)
    | WaitForTurn(turn: Turn)
    | ChildFailed(reason: nat)
    | ChildExited(reason: nat)
    | Close

  function Requested(c: Client, failure: Option<nat>): Client {
    if c.closed then c
    else if failure.Some? then c.(nextId := c.nextId + 1, replies := c.replies[c.nextId := Failed(failure.value)])
    else c.(nextId := c.nextId + 1, pending := c.pending + {c.nextId}, replies := c.replies[c.nextId := Unanswered])
  }

  function SettleRequest(c: Client, id: nat, reply: Reply): Client {
    if id in c.pending then c.(pending := c.pending - {id}, replies := c.replies[id := reply]) else c
  }

  function TurnDone(c: Client, turn: Turn, completion: Completion): Client {
    var d := c.(completedTurns := c.completedTurns[turn := completion]);
    if turn in c.turnWaiters && c.turnWaiters[turn] < |c.waits| then
      d.(waits := d.waits[c.turnWaiters[turn] := Completed(completion)], turnWaiters := d.turnWaiters - {turn})
    else d
  }

  function Waited(c: Client, turn: Turn): Client {
    if turn in c.completedTurns then c.(waits := c.waits + [Completed(c.completedTurns[turn])])
    else c.(waits := c.waits + [Unsettled], turnWaiters := c.turnWaiters[turn := |c.waits|])
  }

  predicate Registered(c: Client, w: nat) { exists t | t in c.turnWaiters :: c.turnWaiters[t] == w }

  function RejectedAll(c: Client, reason: nat): Client {
    c.(pending := {},
       replies := map id | id in c.replies :: if id in c.pending then Failed(reason) else c.replies[id],
       turnWaiters := map[],
       waits := seq(|c.waits|, w requires 0 <= w < |c.waits| => if Registered(c, w) then Rejected(reason) else c.waits[w]))
  }

  function Effect(c: Client, step: Step): Client {
    match step
    case Request(failure) => Requested(c, failure)
    case Abort(id, reason) => SettleRequest(c, id, Failed(reason))
    case Response(id, body) => SettleRequest(c, id, Answered(body))
    case TurnCompleted(turn, completion) => TurnDone(c, turn, completion)
    case WaitForTurn(turn) => Waited(c, turn)
    case ChildFailed(reason) => RejectedAll(c, reason)
    case ChildExited(reason) => if c.closed then c else RejectedAll(c, reason)
    case Close => if c.closed then c else RejectedAll(c, CLOSED).(closed := true)
  }

  function After(c: Client, steps: seq<Step>): Client
    decreases |steps|
  {
    if steps == [] then c else After(Effect(c, steps[0]), steps[1..])
  }

  const INITIAL := Client(1, {}, map[], map[], false, map[], [])

  // --- what a promise is due, read off the steps alone

  /** Whether this step rejects whatever is outstanding, given whether the client was
      closed before it. */
  function Rejection(step: Step, closed: bool): Option<nat> {
    match step
    case ChildFailed(reason) => Some(reason)
    case ChildExited(reason) => if closed then None else Some(reason)
    case Close => if closed then None else Some(CLOSED)
    case _ => None
  }

  /** A request in flight is due the first response to its own id, unless it is
      aborted or everything is rejected first. */
  function ReplyDue(steps: seq<Step>, id: nat, closed: bool): Reply
    decreases |steps|
  {
    if steps == [] then Unanswered
    else if Rejection(steps[0], closed).Some? then Failed(Rejection(steps[0], closed).value)
    else if steps[0].Response? && steps[0].id == id then Answered(steps[0].body)
    else if steps[0].Abort? && steps[0].id == id then Failed(steps[0].reason)
    else ReplyDue(steps[1..], id, closed || steps[0].Close?)
  }

  /** A waiter is due the first completion of its turn, unless everything is rejected
      first; a later wait for the same turn takes its place for good. */
  function WaitDue(steps: seq<Step>, turn: Turn, closed: bool): Wait
    decreases |steps|
  {
    if steps == [] then Unsettled
    else if Rejection(steps[0], closed).Some? then Rejected(Rejection(steps[0], closed).value)
    else if steps[0].TurnCompleted? && steps[0].turn == turn then Completed(steps[0].completion)
    else if steps[0].WaitForTurn? && steps[0].turn == turn then Unsettled
    else WaitDue(steps[1..], turn, closed || steps[0].Close?)
  }

  function LastCompletion(steps: seq<Step>, turn: Turn): Option<Completion> {
    if steps == [] then None
    else
      var last := steps[|steps| - 1];
      if last.TurnCompleted? && last.turn == turn then Some(last.completion) else LastCompletion(steps[..|steps| - 1], turn)
  }

  // --- invariant

  predicate RequestsInv(c: Client) {
    && (forall id <- c.replies :: id < c.nextId)
    && (forall id <- c.pending :: id in c.replies && c.replies[id] == Unanswered)
    && (forall id <- c.replies :: c.replies[id] == Unanswered ==> id in c.pending)
  }

  predicate TurnsInv(c: Client) {
    && (forall t <- c.turnWaiters :: c.turnWaiters[t] < |c.waits| && c.waits[c.turnWaiters[t]] == Unsettled && t !in c.completedTurns)
    && (forall t, u | t in c.turnWaiters && u in c.turnWaiters && c.turnWaiters[t] == c.turnWaiters[u] :: t == u)
  }

  predicate Inv(c: Client) { RequestsInv(c) && TurnsInv(c) }

  lemma RequestKeepsInv(c: Client, step: Step)
    requires Inv(c) && (step.Request? || step.Abort? || step.Response?)
    ensures Inv(Effect(c, step))
  {}

  lemma DoneKeepsInv(c: Client, turn: Turn, completion: Completion)
    requires TurnsInv(c)
    ensures TurnsInv(TurnDone(c, turn, completion))
  {
    var d := TurnDone(c, turn, completion);
    forall t | t in d.turnWaiters ensures t in c.turnWaiters && t != turn && d.turnWaiters[t] == c.turnWaiters[t] {}
  }

  lemma WaitedKeepsInv(c: Client, turn: Turn)
    requires TurnsInv(c)
    ensures TurnsInv(Waited(c, turn))
  {}

  lemma RejectingKeepsInv(c: Client, reason: nat)
    requires Inv(c)
    ensures Inv(RejectedAll(c, reason))
  {}

  lemma StepKeepsInv(c: Client, step: Step)
    requires Inv(c)
    ensures Inv(Effect(c, step))
    ensures Effect(c, step).closed == (c.closed || step.Close?)
  {
    match step {
      case ChildFailed(reason) => RejectingKeepsInv(c, reason);
      case ChildExited(reason) => RejectingKeepsInv(c, reason);
      case Close => RejectingKeepsInv(c, CLOSED);
      case TurnCompleted(turn, completion) => DoneKeepsInv(c, turn, completion);
      case WaitForTurn(turn) => WaitedKeepsInv(c, turn);
      case _ => RequestKeepsInv(c, step);
    }
  }

  // --- one step of one promise

  function ReplyAfter(step: Step, id: nat, closed: bool, reply: Reply): Reply {
    if reply != Unanswered then reply
    else if Rejection(step, closed).Some? then Failed(Rejection(step, closed).value)
    else if step.Response? && step.id == id then Answered(step.body)
    else if step.Abort? && step.id == id then Failed(step.reason)
    else Unanswered
  }

  lemma StepReply(c: Client, step: Step, id: nat)
    requires RequestsInv(c) && id in c.replies
    ensures id in Effect(c, step).replies
    ensures Effect(c, step).replies[id] == ReplyAfter(step, id, c.closed, c.replies[id])
  {}

  lemma RejectingSettles(c: Client, reason: nat, w: nat)
    requires TurnsInv(c) && w < |c.waits|
    ensures var d := RejectedAll(c, reason);
            w < |d.waits| && !Registered(d, w) && d.waits[w] == if Registered(c, w) then Rejected(reason) else c.waits[w]
  {}

  lemma CompletionSettles(c: Client, turn: Turn, completion: Completion, w: nat)
    requires TurnsInv(c) && w < |c.waits|
    ensures var d := TurnDone(c, turn, completion);
            && w < |d.waits|
            && (if Waits(c, w, turn) then d.waits[w] == Completed(completion) && !Registered(d, w) else d.waits[w] == c.waits[w])
            && (forall t | t != turn :: (Waits(d, w, t) <==> Waits(c, w, t)))
            && !Waits(d, w, turn)
  {}

  lemma NewWaitReplaces(c: Client, turn: Turn, w: nat)
    requires TurnsInv(c) && w < |c.waits|
    ensures var d := Waited(c, turn);
            && w < |d.waits| && d.waits[w] == c.waits[w]
            && (forall t | t != turn :: (Waits(d, w, t) <==> Waits(c, w, t)))
            && (Waits(d, w, turn) <==> Waits(c, w, turn) && turn in c.completedTurns)
  {}

  predicate Waits(c: Client, w: nat, turn: Turn) { turn in c.turnWaiters && c.turnWaiters[turn] == w }

  lemma RegisteredWaits(c: Client, w: nat)
    ensures Registered(c, w) <==> exists t :: Waits(c, w, t)
  {
    if Registered(c, w) {
      var t :| t in c.turnWaiters && c.turnWaiters[t] == w;
      assert Waits(c, w, t);
    }
  }

  lemma StepWait(c: Client, step: Step, w: nat, turn: Turn)
    requires TurnsInv(c) && w < |c.waits| && Waits(c, w, turn)
    ensures var d := Effect(c, step);
            && w < |d.waits|
            && if Rejection(step, c.closed).Some? then d.waits[w] == Rejected(Rejection(step, c.closed).value)
               else if step.TurnCompleted? && step.turn == turn then d.waits[w] == Completed(step.completion)
               else if step.WaitForTurn? && step.turn == turn then d.waits[w] == Unsettled && !Registered(d, w)
               else Waits(d, w, turn)
  {
    assert Registered(c, w);
    match step {
      case ChildFailed(reason) => RejectingSettles(c, reason, w);
      case ChildExited(reason) => RejectingSettles(c, reason, w);
      case Close => RejectingSettles(c, CLOSED, w);
      case TurnCompleted(t, completion) => CompletionSettles(c, t, completion, w);
      case WaitForTurn(t) =>
        NewWaitReplaces(c, t, w);
        RegisteredWaits(Waited(c, t), w);
      case _ =>
    }
  }

  lemma StepLeaves(c: Client, step: Step, w: nat)
    requires TurnsInv(c) && w < |c.waits| && !Registered(c, w)
    ensures var d := Effect(c, step); w < |d.waits| && d.waits[w] == c.waits[w] && !Registered(d, w)
  {
    RegisteredWaits(c, w);
    match step {
      case ChildFailed(reason) => RejectingSettles(c, reason, w);
      case ChildExited(reason) => RejectingSettles(c, reason, w);
      case Close => RejectingSettles(c, CLOSED, w);
      case TurnCompleted(t, completion) =>
        CompletionSettles(c, t, completion, w);
        RegisteredWaits(TurnDone(c, t, completion), w);
      case WaitForTurn(t) =>
        NewWaitReplaces(c, t, w);
        RegisteredWaits(Waited(c, t), w);
      case _ =>
    }
  }

  // --- whole runs

  lemma {:induction false} AfterStepwise(c: Client, steps: seq<Step>, step: Step)
    ensures After(c, steps + [step]) == Effect(After(c, steps), step)
    decreases |steps|
  {
    if steps == [] {
      assert (steps + [step])[1..] == [];
    } else {
      assert (steps + [step])[1..] == steps[1..] + [step];
      AfterStepwise(Effect(c, steps[0]), steps[1..], step);
    }
  }

  lemma {:induction false} RunInv(c: Client, steps: seq<Step>)
    requires Inv(c)
    ensures Inv(After(c, steps))
    decreases |steps|
  {
    if steps != [] {
      StepKeepsInv(c, steps[0]);
      RunInv(Effect(c, steps[0]), steps[1..]);
    }
  }

  /** In every run from any reachable state a request's promise ends as what it is due:
      once settled it never changes, and before that it settles with the first of its
      own response, its own abort or the rejection of everything. */
  lemma {:induction false} ReplyIsDue(c: Client, steps: seq<Step>, id: nat)
    requires Inv(c) && id in c.replies
    ensures id in After(c, steps).replies
    ensures After(c, steps).replies[id] ==
            if c.replies[id] == Unanswered then ReplyDue(steps, id, c.closed) else c.replies[id]
    decreases |steps|
  {
    if steps != [] {
      StepKeepsInv(c, steps[0]);
      StepReply(c, steps[0], id);
      ReplyIsDue(Effect(c, steps[0]), steps[1..], id);
    }
  }

  /** A waiter that no turn leads to any more keeps what it has. */
  lemma {:induction false} WaitIsFinal(c: Client, steps: seq<Step>, w: nat)
    requires Inv(c) && w < |c.waits| && !Registered(c, w)
    ensures w < |After(c, steps).waits| && After(c, steps).waits[w] == c.waits[w]
    decreases |steps|
  {
    if steps != [] {
      StepKeepsInv(c, steps[0]);
      StepLeaves(c, steps[0], w);
      WaitIsFinal(Effect(c, steps[0]), steps[1..], w);
    }
  }

  lemma {:induction false} WaitIsDue(c: Client, steps: seq<Step>, w: nat, turn: Turn)
    requires Inv(c) && w < |c.waits| && Waits(c, w, turn)
    ensures w < |After(c, steps).waits| && After(c, steps).waits[w] == WaitDue(steps, turn, c.closed)
    decreases |steps|
  {
    if steps != [] {
      var d := Effect(c, steps[0]);
      StepKeepsInv(c, steps[0]);
      StepWait(c, steps[0], w, turn);
      if Waits(d, w, turn) {
        WaitIsDue(d, steps[1..], w, turn);
      } else {
        WaitIsFinal(d, steps[1..], w);
      }
    }
  }

  lemma {:induction false} AfterSplit(c: Client, a: seq<Step>, b: seq<Step>)
    ensures After(c, a + b) == After(After(c, a), b)
    decreases |a|
  {
    if a == [] {
      assert a + b == b;
    } else {
      assert (a + b)[1..] == a[1..] + b;
      AfterSplit(Effect(c, a[0]), a[1..], b);
    }
  }

  lemma StepCompletes(c: Client, step: Step, turn: Turn)
    ensures var d := Effect(c, step);
            if step.TurnCompleted? && step.turn == turn then turn in d.completedTurns && d.completedTurns[turn] == step.completion
            else (turn in d.completedTurns <==> turn in c.completedTurns) &&
                 (turn in c.completedTurns ==> d.completedTurns[turn] == c.completedTurns[turn])
  {}

  lemma {:induction false} CompletedIsLast(steps: seq<Step>, turn: Turn)
    ensures var c := After(INITIAL, steps);
            if turn in c.completedTurns then LastCompletion(steps, turn) == Some(c.completedTurns[turn])
            else LastCompletion(steps, turn).None?
  {
    if steps != [] {
      var n := |steps| - 1;
      CompletedIsLast(steps[..n], turn);
      AfterStepwise(INITIAL, steps[..n], steps[n]);
      assert steps[..n] + [steps[n]] == steps;
      StepCompletes(After(INITIAL, steps[..n]), steps[n], turn);
    }
  }

  // ---------------------------------------------------------------------------
  // Main results, for every sequence of steps before and after a call

  /** A request gets an id that no request had, and its promise ends as that id alone
      is due: correlated, and settled at most once. */
  lemma RequestIsCorrelated(before: seq<Step>, after: seq<Step>)
    requires !After(INITIAL, before).closed
    ensures var id := After(INITIAL, before).nextId;
            var end := After(INITIAL, before + [Request(None)] + after);
            && id !in After(INITIAL, before).replies
            && id in end.replies
            && end.replies[id] == ReplyDue(after, id, false)
  {
    var c := After(INITIAL, before);
    RunInv(INITIAL, before);
    AfterStepwise(INITIAL, before, Request(None));
    AfterSplit(INITIAL, before + [Request(None)], after);
    StepKeepsInv(c, Request(None));
    ReplyIsDue(Effect(c, Request(None)), after, c.nextId);
  }

  /** A request whose host callback or write fails takes an id of its own too, and its
      promise ends with that failure, whatever is answered to the id later. */
  lemma RequestFails(before: seq<Step>, failure: nat, after: seq<Step>)
    requires !After(INITIAL, before).closed
    ensures var id := After(INITIAL, before).nextId;
            var end := After(INITIAL, before + [Request(Some(failure))] + after);
            id !in After(INITIAL, before).replies && id in end.replies && end.replies[id] == Failed(failure)
  {
    var c := After(INITIAL, before);
    RunInv(INITIAL, before);
    AfterStepwise(INITIAL, before, Request(Some(failure)));
    AfterSplit(INITIAL, before + [Request(Some(failure))], after);
    StepKeepsInv(c, Request(Some(failure)));
    ReplyIsDue(Effect(c, Request(Some(failure))), after, c.nextId);
  }

  predicate Quiet(c: Client) { c.closed && c.pending == {} }

  lemma {:induction false} QuietStays(c: Client, steps: seq<Step>)
    requires Inv(c) && Quiet(c)
    ensures var d := After(c, steps); Quiet(d) && d.replies == c.replies && d.nextId == c.nextId
    decreases |steps|
  {
    if steps != [] {
      StepKeepsInv(c, steps[0]);
      QuietStays(Effect(c, steps[0]), steps[1..]);
    }
  }

  lemma {:induction false} ClosedIsQuiet(steps: seq<Step>)
    requires After(INITIAL, steps).closed
    ensures Quiet(After(INITIAL, steps))
  {
    var n := |steps| - 1;
    var c := After(INITIAL, steps[..n]);
    RunInv(INITIAL, steps[..n]);
    AfterStepwise(INITIAL, steps[..n], steps[n]);
    assert steps[..n] + [steps[n]] == steps;
    StepKeepsInv(c, steps[n]);
    if c.closed {
      ClosedIsQuiet(steps[..n]);
      QuietStays(c, [steps[n]]);
    }
  }

  /** A closed client leaves no request open and issues no further one, for good. */
  lemma ClosedForGood(before: seq<Step>, after: seq<Step>)
    requires After(INITIAL, before).closed
    ensures var c, d := After(INITIAL, before), After(INITIAL, before + after);
            d.closed && d.replies == c.replies && forall id <- d.replies :: d.replies[id] != Unanswered
  {
    RunInv(INITIAL, before);
    ClosedIsQuiet(before);
    AfterSplit(INITIAL, before, after);
    QuietStays(After(INITIAL, before), after);
  }

  /** An answer was a response to that very id, the first one there was. */
  lemma {:induction false} AnswerIsOwnResponse(steps: seq<Step>, id: nat, closed: bool) returns (k: nat)
    requires ReplyDue(steps, id, closed).Answered?
    ensures k < |steps| && steps[k] == Response(id, ReplyDue(steps, id, closed).body)
    ensures forall j | 0 <= j < k :: !(steps[j].Response? && steps[j].id == id)
    decreases |steps|
  {
    if steps[0].Response? && steps[0].id == id {
      k := 0;
    } else {
      var i := AnswerIsOwnResponse(steps[1..], id, closed || steps[0].Close?);
      k := i + 1;
      forall j | 0 <= j < k ensures !(steps[j].Response? && steps[j].id == id) {
        if j > 0 {
          assert steps[j] == steps[1..][j - 1];
        }
      }
    }
  }

  /** A wait for a turn gets the latest completion if the turn completed before it, and
      otherwise what it is due from the steps that follow. */
  lemma TurnReachesWaiter(before: seq<Step>, turn: Turn, after: seq<Step>)
    ensures var w := |After(INITIAL, before).waits|;
            var end := After(INITIAL, before + [WaitForTurn(turn)] + after);
            && w < |end.waits|
            && end.waits[w] ==
               match LastCompletion(before, turn)
               case Some(completion) => Completed(completion)
               case None => WaitDue(after, turn, After(INITIAL, before).closed)
  {
    var c := After(INITIAL, before);
    var d := Effect(c, WaitForTurn(turn));
    RunInv(INITIAL, before);
    StepKeepsInv(c, WaitForTurn(turn));
    AfterStepwise(INITIAL, before, WaitForTurn(turn));
    AfterSplit(INITIAL, before + [WaitForTurn(turn)], after);
    CompletedIsLast(before, turn);
    if turn in c.completedTurns {
      WaitIsFinal(d, after, |c.waits|);
    } else {
      WaitIsDue(d, after, |c.waits|, turn);
    }
  }

  predicate Ends(step: Step, turn: Turn, closed: bool) {
    Rejection(step, closed).Some? || (step.TurnCompleted? && step.turn == turn)
  }

  function ClosedAfter(steps: seq<Step>, closed: bool): bool
    decreases |steps|
  {
    if steps == [] then closed else ClosedAfter(steps[1..], closed || steps[0].Close?)
  }

  /** A waiter settles if and only if something ends it before anyone else waits for
      the same turn. */
  lemma {:induction false} SettlesUnlessReplaced(steps: seq<Step>, turn: Turn, closed: bool)
    ensures WaitDue(steps, turn, closed) != Unsettled <==>
            exists k | 0 <= k < |steps| ::
              Ends(steps[k], turn, ClosedAfter(steps[..k], closed)) && forall j | 0 <= j < k :: steps[j] != WaitForTurn(turn)
    decreases |steps|
  {
    if steps != [] {
      var rest := steps[1..];
      var now := closed || steps[0].Close?;
      SettlesUnlessReplaced(rest, turn, now);
      forall k | 0 <= k < |rest| ensures ClosedAfter(steps[..k + 1], closed) == ClosedAfter(rest[..k], now) {
        assert steps[..k + 1][1..] == rest[..k];
      }
      assert steps[..0] == [];
      if Ends(steps[0], turn, closed) {
        assert Ends(steps[0], turn, ClosedAfter(steps[..0], closed));
      } else if steps[0] != WaitForTurn(turn) && WaitDue(rest, turn, now) != Unsettled {
        var i :| 0 <= i < |rest| && Ends(rest[i], turn, ClosedAfter(rest[..i], now)) && forall j | 0 <= j < i :: rest[j] != WaitForTurn(turn);
        assert steps[i + 1] == rest[i];
        forall j | 0 <= j < i + 1 ensures steps[j] != WaitForTurn(turn) {
          if j > 0 {
            assert steps[j] == rest[j - 1];
          }
        }
      } else if WaitDue(rest, turn, now) == Unsettled {
        forall k | 0 < k < |steps| && Ends(steps[k], turn, ClosedAfter(steps[..k], closed))
          ensures exists j | 0 <= j < k :: steps[j] == WaitForTurn(turn)
        {
          assert rest[k - 1] == steps[k] && ClosedAfter(steps[..k - 1 + 1], closed) == ClosedAfter(rest[..k - 1], now);
          var j :| 0 <= j < k - 1 && rest[j] == WaitForTurn(turn);
          assert steps[j + 1] == rest[j];
        }
      }
    }
  }

  /** The replacement is real: of two waits for one turn only the later one settles. */
  lemma SecondWaitReplacesFirst(turn: Turn, completion: Completion)
    ensures After(INITIAL, [WaitForTurn(turn), WaitForTurn(turn), TurnCompleted(turn, completion)]).waits ==
            [Unsettled, Completed(completion)]
  {
    var one := [WaitForTurn(turn)];
    var two := one + [WaitForTurn(turn)];
    AfterStepwise(INITIAL, [], WaitForTurn(turn));
    AfterStepwise(INITIAL, one, WaitForTurn(turn));
    AfterStepwise(INITIAL, two, TurnCompleted(turn, completion));
    assert [] + one == one;
    assert After(INITIAL, one).waits == [Unsettled];
    assert After(INITIAL, two).turnWaiters[turn] == 1;
    assert two + [TurnCompleted(turn, completion)] == [WaitForTurn(turn), WaitForTurn(turn), TurnCompleted(turn, completion)];
  }
}
