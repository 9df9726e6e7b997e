/** The RPC client as the object whose maps its callbacks update. */
module RpcConnection {
  import opened RpcClient

  class StdioClient {
    var nextId: nat
    var pending: set<nat>
    var completedTurns: map<Turn, Completion>
    var turnWaiters: map<Turn, nat>
    var closed: bool
    // the promises handed out
    var replies: map<nat, Reply>
    var waits: seq<Wait>

    ghost function View(): Client
      reads this
    {
      Client(nextId, pending, completedTurns, turnWaiters, closed, replies, waits)
    }

    constructor ()
      ensures View() == INITIAL
    {
      nextId, pending, completedTurns, turnWaiters, closed, replies, waits := 1, {}, map[], map[], false, map[], [];
    }

    /** `issued` is the id, or nothing when the closed client refuses outright. */
    method Request(failure: Option<nat>) returns (issued: Option<nat>)
      requires Inv(View())
      modifies this
      ensures View() == Effect(old(View()), Step.Request(failure))
      ensures issued == if old(closed) then None else Some(old(nextId))
    {
      if closed { return None; }
      var id := nextId;
      nextId := nextId + 1;
      pending := pending + {id};
      replies := replies[id := Unanswered];
      if failure.Some? {
        pending := pending - {id};
        replies := replies[id := Failed(failure.value)];
        assert pending == old(pending) - {id};
      }
      issued := Some(id);
    }

    method Receive(id: nat, body: Body)
      modifies this
      ensures View() == Effect(old(View()), Response(id, body))
    {
      if id !in pending { return; }
      pending := pending - {id};
      replies := replies[id := Answered(body)];
    }

    method OnAbort(id: nat, reason: nat)
      requires id in pending
      modifies this
      ensures View() == Effect(old(View()), Abort(id, reason))
    {
      pending := pending - {id};
      replies := replies[id := Failed(reason)];
    }

    method OnTurnCompleted(turn: Turn, completion: Completion)
      requires Inv(View())
      modifies this
      ensures View() == Effect(old(View()), TurnCompleted(turn, completion))
    {
      completedTurns := completedTurns[turn := completion];
      if turn in turnWaiters {
        waits := waits[turnWaiters[turn] := Completed(completion)];
        turnWaiters := turnWaiters - {turn};
      }
    }

    method WaitForTurn(turn: Turn) returns (w: nat)
      modifies this
      ensures View() == Effect(old(View()), Step.WaitForTurn(turn))
      ensures w == old(|waits|)
    {
      w := |waits|;
      if turn in completedTurns {
        waits := waits + [Completed(completedTurns[turn])];
        return;
      }
      waits := waits + [Unsettled];
      turnWaiters := turnWaiters[turn := w];
    }

    method RejectRequests(reason: nat)
      modifies this`replies, this`pending
      requires forall id <- pending :: id in replies
      ensures pending == {}
      ensures replies == map id | id in old(replies) :: if id in old(pending) then Failed(reason) else old(replies)[id]
    {
      var rest := pending;
      while rest != {}
        invariant rest <= pending == old(pending)
        invariant replies.Keys == old(replies).Keys
        invariant forall id <- replies :: replies[id] == if id in pending && id !in rest then Failed(reason) else old(replies)[id]
        decreases |rest|
      {
        var id :| id in rest;
        replies := replies[id := Failed(reason)];
        rest := rest - {id};
      }
      pending := {};
    }

    method RejectWaiters(reason: nat)
      modifies this`waits, this`turnWaiters
      requires forall t <- turnWaiters :: turnWaiters[t] < |waits|
      ensures turnWaiters == map[]
      ensures |waits| == |old(waits)|
      ensures forall w | 0 <= w < |waits| ::
                waits[w] == if Registered(old(View()), w) then Rejected(reason) else old(waits)[w]
    {
      var rest := turnWaiters.Keys;
      while rest != {}
        invariant rest <= turnWaiters.Keys && turnWaiters == old(turnWaiters)
        invariant |waits| == |old(waits)|
        invariant forall w | 0 <= w < |waits| ::
                    waits[w] == if exists t | t in turnWaiters && t !in rest :: turnWaiters[t] == w then Rejected(reason) else old(waits)[w]
        decreases |rest|
      {
        var t :| t in rest;
        waits := waits[turnWaiters[t] := Rejected(reason)];
        rest := rest - {t};
      }
      turnWaiters := map[];
    }

    method RejectAll(reason: nat)
      requires Inv(View())
      modifies this
      ensures View() == RejectedAll(old(View()), reason)
    {
      RejectRequests(reason);
      ghost var c := old(View());
      RejectWaiters(reason);
      assert forall w | 0 <= w < |waits| :: Registered(c.(pending := {}, replies := replies), w) <==> Registered(c, w);
      assert waits == RejectedAll(c, reason).waits;
    }

    method OnChildExit(reason: nat)
      requires Inv(View())
      modifies this
      ensures View() == Effect(old(View()), ChildExited(reason))
    {
      if !closed { RejectAll(reason); }
    }

    method Close()
      requires Inv(View())
      modifies this
      ensures View() == Effect(old(View()), Step.Close)
    {
      if closed { return; }
      closed := true;
      ghost var c := View();
      RejectAll(CLOSED);
      assert forall w :: Registered(c, w) <==> Registered(old(View()), w);
    }
  }
}
