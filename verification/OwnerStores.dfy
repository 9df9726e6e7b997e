/** The admission commands as they run: they change the three stores in place,
    one durable write after another, and stop wherever the process dies. */
module OwnerStores {
  import opened RunAdmission

  class Process {
    var run: RunState
    var lane: Lane
    var receipt: Option<Receipt>

    /** How many more durable writes this process lives to make. */
    var writesLeft: nat

    constructor (s: Stores, writes: nat)
      ensures Contents() == s && writesLeft == writes
    {
      run, lane, receipt, writesLeft := s.run, s.lane, s.receipt, writes;
    }

    function Contents(): Stores
      reads this
    {
      Stores(run, lane, receipt)
    }

    method WriteReceipt(r: Receipt) returns (died: bool)
      modifies this
      ensures died <==> old(writesLeft) == 0
      ensures Contents() == if died then old(Contents()) else old(Contents()).(receipt := Some(r))
      ensures writesLeft == if died then 0 else old(writesLeft) - 1
    {
      died := writesLeft == 0;
      if !died { receipt, writesLeft := Some(r), writesLeft - 1; }
    }

    method PublishLane(l: Lane) returns (died: bool)
      modifies this
      ensures died <==> old(writesLeft) == 0
      ensures Contents() == if died then old(Contents()) else old(Contents()).(lane := l)
      ensures writesLeft == if died then 0 else old(writesLeft) - 1
    {
      died := writesLeft == 0;
      if !died { lane, writesLeft := l, writesLeft - 1; }
    }

    method CompareAndSwapMerged() returns (died: bool)
      modifies this
      ensures died <==> !old(run).Merged? && old(writesLeft) == 0
      ensures Contents() == if died then old(Contents()) else old(Contents()).(run := Merged)
      ensures writesLeft == if died || old(run).Merged? then old(writesLeft) else old(writesLeft) - 1
    {
      if run.Merged? { return false; }
      died := writesLeft == 0;
      if !died { run, writesLeft := Merged, writesLeft - 1; }
    }

    /** Admission: the receipt of the next generation is written before the lane. */
    method AcquireRunAdmission(secret: nat, denied: bool) returns (token: Option<Token>)
      modifies this
      ensures Contents() == Cut(old(Contents()), Admit(old(Contents()), secret, denied), old(writesLeft))
      ensures token.Some? <==> !old(lane.Active?) && !denied && old(writesLeft) >= 2
      ensures token.Some? ==> Current(lane, token.value) && Holding(receipt, token.value)
    {
      token := None;
      if lane.Active? { return; }
      var g := Generation(lane) + 1;
      if denied {
        if !lane.Parked? { var _ := PublishLane(Parked(g, Capacity)); }
        return;
      }
      var died := WriteReceipt(Receipt(PreExecution, g, Some(Token(g, secret)), false));
      if died { return; }
      died := PublishLane(Active(g, secret));
      if !died { token := Some(Token(g, secret)); }
    }

    method RenewExecutionPossible(token: Token)
      modifies this
      ensures Contents() == Cut(old(Contents()), Renew(old(Contents()), token), old(writesLeft))
    {
      if Current(lane, token) && Holding(receipt, token) {
        var _ := WriteReceipt(receipt.value.(phase := ExecutionPossible));
      }
    }

    /** Parking or releasing: transition receipt, lane, final tokenless receipt. */
    method SettleRunAdmission(token: Token)
      modifies this
      ensures Contents() == Cut(old(Contents()), Settle(old(Contents()), token), old(writesLeft))
    {
      if run.Failed? || run.Merged? {
        ReleaseRunAdmission(token);
        return;
      }
      if !Current(lane, token) || !Holding(receipt, token) { return; }
      var died := WriteReceipt(receipt.value.(phase := ParkTransition));
      if died { return; }
      died := PublishLane(Parked(token.generation + 1, ParkReason(run)));
      if died { return; }
      died := WriteReceipt(receipt.value.(phase := ParkedPhase, generation := token.generation + 1, token := None));
    }

    method ReleaseRunAdmission(token: Token)
      modifies this
      ensures Contents() == Cut(old(Contents()), Release(old(Contents()), token), old(writesLeft))
    {
      if !Current(lane, token) || !Holding(receipt, token) { return; }
      var died := WriteReceipt(receipt.value.(phase := ReleaseTransition));
      if died { return; }
      died := PublishLane(Released(token.generation + 1));
      if died { return; }
      died := WriteReceipt(receipt.value.(phase := ReleasedPhase, generation := token.generation + 1, token := None));
    }

    /** Stopped recovery against what was read before the registry lock was taken. */
    method RecoverRunAdmission(seen: Stores, expected: nat, stopped: bool) returns (refused: bool)
      modifies this
      ensures refused <==> Recover(seen, old(Contents()), expected, stopped).Refused?
      ensures Contents() == Cut(old(Contents()), Writes(Recover(seen, old(Contents()), expected, stopped)), old(writesLeft))
    {
      var o := Recover(seen, Contents(), expected, stopped);
      if o.Refused? { return true; }
      refused := false;
      if seen.lane.Active? {
        ReleaseRunAdmission(seen.receipt.value.token.value);
        return;
      }
      var r := receipt.value;
      if lane.Parked? {
        var p := lane.generation;
        var settled := r.settled || lane.reason.WorkflowSettled?;
        var died := WriteReceipt(Receipt(ParkedReleaseTransition, p, None, settled));
        if died { return; }
        died := PublishLane(Released(p + 1));
        if died { return; }
        died := WriteReceipt(Receipt(ReleasedPhase, p + 1, None, settled));
      } else if !r.phase.ReleasedPhase? {
        var _ := WriteReceipt(r.(phase := ReleasedPhase, generation := lane.generation, token := None));
      }
    }

    /** Merge settlement: receipt transition, Run, lane, final receipt. */
    method ReconcileMergedRun() returns (refused: bool)
      modifies this
      ensures refused <==> Merge(old(Contents())).Refused?
      ensures Contents() == Cut(old(Contents()), Writes(Merge(old(Contents()))), old(writesLeft))
    {
      var o := Merge(Contents());
      if o.Refused? { return true; }
      refused := false;
      var died := false;
      if lane.NoLane? || receipt.None? {
        died := CompareAndSwapMerged();
        return;
      }
      var generation := if lane.Parked? then lane.generation else lane.generation - 1;
      var publish := lane.Parked?;
      if receipt.value.phase.ParkedPhase? {
        died := WriteReceipt(Receipt(ParkedReleaseTransition, generation, None, true));
        if died { return; }
      }
      died := CompareAndSwapMerged();
      if died { return; }
      if publish {
        died := PublishLane(Released(generation + 1));
        if died { return; }
      }
      if !receipt.value.phase.ReleasedPhase? {
        died := WriteReceipt(Receipt(ReleasedPhase, generation + 1, None, true));
      }
    }
  }
}
