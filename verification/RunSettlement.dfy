/** What admission, settlement and merging leave of a Run, state by state, and that a
    Run which is ready to merge can always come to be merged. */
module RunSettlement {
  import opened RunAdmission

  /** A current token holds its receipt, after every run. */
  lemma CurrentHolds(hs: seq<History>, token: Token)
    requires Run(hs) && Current(hs[|hs| - 1].stores.lane, token)
    ensures var s := hs[|hs| - 1].stores; Holding(s.receipt, token) && ValidReceipt(s.receipt.value)
  {
    RunCoherent(hs);
  }

  /** A settlement that is left to finish: a failed or merged Run gives its lane up, every
      other one is parked, and its receipt forgets the token. */
  lemma SettlementLeaves(hs: seq<History>, token: Token)
    requires Run(hs) && Current(hs[|hs| - 1].stores.lane, token)
    ensures var s, g := hs[|hs| - 1].stores, token.generation + 1;
            Final(s, Settle(s, token)) ==
              match s.run
              case Failed => Stores(Failed, Released(g), Some(Receipt(ReleasedPhase, g, None, false)))
              case Merged => Stores(Merged, Released(g), Some(Receipt(ReleasedPhase, g, None, false)))
              case Waiting => Stores(Waiting, Parked(g, WorkflowWait), Some(Receipt(ParkedPhase, g, None, false)))
              case Working => Stores(Working, Parked(g, WorkflowSettled), Some(Receipt(ParkedPhase, g, None, false)))
              case MergeReady => Stores(MergeReady, Parked(g, WorkflowSettled), Some(Receipt(ParkedPhase, g, None, false)))
  {
    CurrentHolds(hs, token);
  }

  /** What a settled Run can do next: one that is ready merges, through any number of
      crashes, and no other one does. */
  lemma SettledMergesExactly(hs: seq<History>, token: Token, cuts: seq<nat>)
    requires Run(hs) && Current(hs[|hs| - 1].stores.lane, token)
    ensures var s := hs[|hs| - 1].stores;
            var t := Final(s, Settle(s, token));
            && (Merge(t).Done? <==> s.run.MergeReady?)
            && (s.run.MergeReady? ==>
                  var g := token.generation + 2;
                  MergesTo(Remerged(t, cuts), Stores(Merged, Released(g), Some(Receipt(ReleasedPhase, g, None, true)))))
  {
    var s := hs[|hs| - 1].stores;
    SettlementLeaves(hs, token);
    if s.run.MergeReady? { MergeConverges(Final(s, Settle(s, token)), cuts); }
  }

  /** A granted admission that is left to finish holds the next generation, whatever a
      crash left before it; a denied one parks a lane that nobody has parked. */
  lemma AdmissionLeaves(s: Stores, secret: nat)
    requires !s.lane.Active?
    ensures var g := (if s.lane.NoLane? then 0 else s.lane.generation) + 1;
            && Final(s, Admit(s, secret, false)) == Stores(s.run, Active(g, secret), Some(Receipt(PreExecution, g, Some(Token(g, secret)), false)))
            && Final(s, Admit(s, secret, true)) == (if s.lane.Parked? then s else Stores(s.run, Parked(g, Capacity), s.receipt))
  {
  }

  /** A renewal marks that execution may have begun, under the same token. */
  lemma RenewalLeaves(hs: seq<History>, token: Token)
    requires Run(hs) && Current(hs[|hs| - 1].stores.lane, token)
    ensures var s := hs[|hs| - 1].stores;
            Final(s, Renew(s, token)) == Stores(s.run, s.lane, Some(Receipt(ExecutionPossible, token.generation, Some(token), false)))
  {
    CurrentHolds(hs, token);
  }

  /** Whatever crashes left, a Run that is ready to merge comes to be merged by one
      admission, unless it is admitted already, one settlement and one merge. */
  lemma ReadyRunCanMerge(hs: seq<History>, secret: nat)
    requires Run(hs) && hs[|hs| - 1].stores.run.MergeReady?
    ensures var s := hs[|hs| - 1].stores;
            var a := if s.lane.Active? then s else Final(s, Admit(s, secret, false));
            var t := Final(a, Settle(a, Token(a.lane.generation, a.lane.secret)));
            MergesTo(t, Settled(t)) && Settled(t).run.Merged? && Settled(t).lane == Released(a.lane.generation + 2)
  {
    RunCoherent(hs);
  }

  /** A Run that was never admitted merges without a lane. */
  lemma UnadmittedMerges(s: Stores)
    requires s.lane.NoLane? && s.receipt.None? && s.run.MergeReady?
    ensures MergesTo(s, s.(run := Merged))
  {
  }

  lemma MergingStartsReady(s: Stores, op: Op, k: nat)
    requires k < |Trace(s, op)| && !s.run.Merged? && Trace(s, op)[k].run.Merged?
    ensures s.run.MergeReady? && (s.lane.NoLane? ==> s.receipt.None?) && !s.lane.Active?
  {
    assert op == OpMerge;
  }

  /** No Run becomes merged but from being ready to merge, and none while it is active. */
  lemma OnlyReadyMerges(hs: seq<History>, t: History)
    requires Run(hs) && Next(hs[|hs| - 1], t)
    requires !hs[|hs| - 1].stores.run.Merged? && t.stores.run.Merged?
    ensures var s := hs[|hs| - 1].stores; s.run.MergeReady? && !s.lane.Active? && (s.lane.NoLane? ==> s.receipt.None?)
  {
    var h := hs[|hs| - 1];
    var op: Op, k: nat :| k <= |Trace(h.stores, op)| && t == CutHistory(h, Trace(h.stores, op), k);
    CutHistoryStores(h, Trace(h.stores, op), k);
    MergingStartsReady(h.stores, op, k - 1);
  }

  /** Recovery is accepted of no lane but the expected one: an active or parked lane at
      its own generation, and only once stopped, or one that was released from it. */
  lemma RecoveryIsExact(seen: Stores, s: Stores, expected: nat, stopped: bool)
    requires Recover(seen, s, expected, stopped).Done?
    ensures expected >= 1 && match s.lane
                             case NoLane => false
                             case Active(g, _) => stopped && g == expected
                             case Parked(g, _) => stopped && g == expected
                             case Released(g) => g == expected + 1
  {
  }
}
