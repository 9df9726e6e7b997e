/** The heartbeat's admission helper: its lane in the registry, its private
    receipt, and the answers it gives to a restarted supervisor. */
module HeartbeatAdmission {

  datatype Option<T> = None | Some(value: T)

  datatype Lane =
    | NoLane
    | Active(generation: nat)
    | Released(generation: nat)
    | CapacityParked(generation: nat)

  datatype Predecessor = AbsentBefore | ReleasedBefore(generation: nat) | CapacityBefore(generation: nat)

  datatype Receipt =
    | NoReceipt
    | Live(supervisor: nat, generation: nat, receiptId: nat, settled: bool)
    | Discarded(supervisor: nat, generation: nat, receiptId: nat, predecessor: Predecessor)

  datatype Registry = Registry(lane: Lane, receipt: Receipt)
  {
    function Generation(): nat { if lane.NoLane? then 0 else lane.generation }

    /** The receipt names a generation that was prepared but never published. */
    predicate Unpublished() {
      receipt.Live? && (lane.Released? || lane.CapacityParked? || lane.NoLane?) && receipt.generation == Generation() + 1
    }

    /** Generation `g` owns the lane and nobody has attested that it stopped. */
    predicate Open(g: nat) {
      lane == Active(g) && receipt.Live? && receipt.generation == g && !receipt.settled
    }
  }

  predicate DiscardStillMatches(marker: Receipt, lane: Lane)
    requires marker.Discarded?
  {
    var candidate := if marker.predecessor.AbsentBefore? then marker.generation == 1
                     else marker.predecessor.generation + 1 == marker.generation;
    if !candidate then false
    else if marker.predecessor.AbsentBefore? && lane.NoLane? then true
    else if lane.NoLane? then false
    else if lane.CapacityParked? && lane.generation >= marker.generation then true
    else match marker.predecessor
      case AbsentBefore => false
      case ReleasedBefore(g) => lane == Released(g)
      case CapacityBefore(g) => lane == CapacityParked(g)
  }

  datatype Recovery =
    | Absent
    | CapacityWait
    | ReleasedPredecessor(generation: nat, releasedGeneration: nat)
    | DiscardedPredecessor(generation: nat)
    | UncommittedReceipt(generation: nat, receiptId: nat, supervisor: nat)
    | SettlementPending(generation: nat, receiptId: nat)
    | Recoverable(generation: nat, receiptId: nat)
    | AlreadySettled(generation: nat, receiptId: nat)
    | NotOwned

  /** The answer to `recover`, asked by the supervisor named in a durable intent. */
  function Recover(r: Registry, supervisor: nat, expected: Option<nat>): Recovery {
    var lane, receipt := r.lane, r.receipt;
    if expected.None? && receipt.Discarded? then
      if DiscardStillMatches(receipt, lane) then DiscardedPredecessor(receipt.generation) else NotOwned
    else if lane.NoLane? && receipt.NoReceipt? then Absent
    else if expected.None? && lane.CapacityParked? &&
            (!receipt.Live? || (receipt.settled && receipt.generation + 1 < lane.generation)) then CapacityWait
    else if expected.None? && receipt.Live? && receipt.settled && lane.Released? && receipt.generation + 1 == lane.generation then
      ReleasedPredecessor(receipt.generation, lane.generation)
    else if expected.None? && receipt.Live? && !receipt.settled && receipt.supervisor == supervisor && r.Unpublished() then
      UncommittedReceipt(receipt.generation, receipt.receiptId, receipt.supervisor)
    else if !receipt.Live? || receipt.supervisor != supervisor then NotOwned
    else if expected.Some? && receipt.generation != expected.value then NotOwned
    else if lane == Active(receipt.generation) then
      if receipt.settled then SettlementPending(receipt.generation, receipt.receiptId)
      else Recoverable(receipt.generation, receipt.receiptId)
    else if lane == Released(receipt.generation + 1) && receipt.settled then
      AlreadySettled(receipt.generation, receipt.receiptId)
    else NotOwned
  }

  /** `settle` with a stop attestation: the registry after each of its durable
      writes, or None when it is refused. */
  function Settle(r: Registry, supervisor: nat, generation: nat, receiptId: nat): Option<seq<Registry>> {
    if !r.receipt.Live? || r.receipt.supervisor != supervisor || r.receipt.generation != generation || r.receipt.receiptId != receiptId then None
    else if r.lane == Active(generation) then
      var r1 := r.(receipt := r.receipt.(settled := true));
      Some([r1, r1.(lane := Released(generation + 1))])
    else if r.lane == Released(generation + 1) && r.receipt.settled then Some([])
    else None
  }

  /** `discard_uncommitted`: turns a never-published receipt into a marker. */
  function Discard(r: Registry, supervisor: nat, generation: nat, receiptId: nat): Option<Registry> {
    var c := r.receipt;
    if c.NoReceipt? || c.supervisor != supervisor || c.generation != generation || c.receiptId != receiptId then None
    else if c.Discarded? then if DiscardStillMatches(c, r.lane) then Some(r) else None
    else if c.settled || !r.Unpublished() then None
    else
      var p := match r.lane
               case Released(g) => ReleasedBefore(g)
               case CapacityParked(g) => CapacityBefore(g)
               case _ => AbsentBefore;
      Some(r.(receipt := Discarded(supervisor, generation, receiptId, p)))
  }

  /** `reserve` granted on a lane that nobody owns: receipt, then lane. */
  function Reserve(r: Registry, supervisor: nat, receiptId: nat): seq<Registry> {
    if r.lane.Active? then [] else
    var g := r.Generation() + 1;
    var r1 := r.(receipt := Live(supervisor, g, receiptId, false));
    [r1, r1.(lane := Active(g))]
  }

  /** `reserve` refused for capacity: a fresh lane is parked, a parked one kept. */
  function Deny(r: Registry): Registry {
    if r.lane.Active? || r.lane.CapacityParked? then r else r.(lane := CapacityParked(r.Generation() + 1))
  }

  function CutAt(r: Registry, writes: seq<Registry>, k: nat): Registry
    requires k <= |writes|
  {
    if k == 0 then r else writes[k - 1]
  }

  /** A denial leaves the lane parked, at the next generation unless it was parked
      already, and the receipt as it was. */
  lemma DenialLeaves(r: Registry)
    requires !r.lane.Active?
    ensures Deny(r) == Registry(CapacityParked(if r.lane.CapacityParked? then r.lane.generation
                                               else if r.lane.NoLane? then 1 else r.lane.generation + 1), r.receipt)
  {}
}
