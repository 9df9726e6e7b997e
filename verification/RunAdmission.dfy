/** Ownership of one Run across three durable stores: the Run record, its lane in
    the admission registry, and its private owner receipt.

    Every operation is one registry transaction that writes the stores in a fixed
    order; the process may die after any write.  An operation is therefore given
    by the sequence of store contents it leaves behind, write by write. */
module RunAdmission {

  datatype Option<T> = None | Some(value: T)

  datatype Reason = WorkflowWait | WorkflowSettled | Capacity

  datatype Token = Token(generation: nat, secret: nat)

  datatype Lane =
    | NoLane
    | Active(generation: nat, secret: nat)
    | Parked(generation: nat, reason: Reason)
    | Released(generation: nat)

  datatype Phase =
    | PreExecution | ExecutionPossible | ParkTransition | ReleaseTransition
    | ParkedReleaseTransition | ParkedPhase | ReleasedPhase

  /** `settled` is the receipt's settlement reason workflow_settled. */
  datatype Receipt = Receipt(phase: Phase, generation: nat, token: Option<Token>, settled: bool)

  datatype RunState = Working | Waiting | MergeReady | Failed | Merged

  datatype Stores = Stores(run: RunState, lane: Lane, receipt: Option<Receipt>)

  predicate TokenPhase(p: Phase) {
    p.PreExecution? || p.ExecutionPossible? || p.ParkTransition? || p.ReleaseTransition?
  }

  /** What the receipt writer and reader accept. */
  predicate ValidReceipt(r: Receipt) {
    && r.generation >= 1
    && (TokenPhase(r.phase) <==> r.token.Some?)
    && (r.token.Some? ==> r.token.value.generation == r.generation)
    && (r.settled ==> r.phase.ParkedReleaseTransition? || r.phase.ReleasedPhase?)
  }

  function Generation(lane: Lane): nat { if lane.NoLane? then 0 else lane.generation }

  predicate Current(lane: Lane, token: Token) { lane == Active(token.generation, token.secret) }

  /** The reason a lane is parked for when work on a Run in this state stops. */
  function ParkReason(run: RunState): Reason { if run.Waiting? then WorkflowWait else WorkflowSettled }

  predicate Holding(r: Option<Receipt>, token: Token) { r.Some? && r.value.token == Some(token) && r.value.generation == token.generation }

  // ---------------------------------------------------------------------------
  // The operations, as the stores after each durable write ([] = refused or idle)

  function Admit(s: Stores, secret: nat, denied: bool): seq<Stores> {
    if s.lane.Active? then []
    else
      var g := Generation(s.lane) + 1;
      if denied then
        if s.lane.Parked? then [] else [s.(lane := Parked(g, Capacity))]
      else
        var s1 := s.(receipt := Some(Receipt(PreExecution, g, Some(Token(g, secret)), false)));
        [s1, s1.(lane := Active(g, secret))]
  }

  function Renew(s: Stores, token: Token): seq<Stores> {
    if Current(s.lane, token) && Holding(s.receipt, token) then
      [s.(receipt := Some(s.receipt.value.(phase := ExecutionPossible)))]
    else []
  }

  function Park(s: Stores, token: Token): seq<Stores> {
    if Current(s.lane, token) && Holding(s.receipt, token) then
      var g := token.generation + 1;
      var s1 := s.(receipt := Some(s.receipt.value.(phase := ParkTransition)));
      var s2 := s1.(lane := Parked(g, ParkReason(s.run)));
      [s1, s2, s2.(receipt := Some(s1.receipt.value.(phase := ParkedPhase, generation := g, token := None)))]
    else []
  }

  function Release(s: Stores, token: Token): seq<Stores> {
    if Current(s.lane, token) && Holding(s.receipt, token) then
      var g := token.generation + 1;
      var s1 := s.(receipt := Some(s.receipt.value.(phase := ReleaseTransition)));
      var s2 := s1.(lane := Released(g));
      [s1, s2, s2.(receipt := Some(s1.receipt.value.(phase := ReleasedPhase, generation := g, token := None)))]
    else []
  }

  function Settle(s: Stores, token: Token): seq<Stores> {
    if s.run.Failed? || s.run.Merged? then Release(s, token) else Park(s, token)
  }

  /** Work and public transitions change the Run record, never while its lane is parked. */
  function Work(s: Stores, next: RunState): seq<Stores> {
    if s.lane.Parked? || s.run.Merged? || next.Merged? then [] else [s.(run := next)]
  }

  // --- stopped recovery

  datatype Outcome = Refused | Done(writes: seq<Stores>)

  predicate GenerationExpected(r: Receipt, expected: nat) {
    || r.generation == expected
    || (r.phase.ReleasedPhase? && r.generation == expected + 1)
    || (r.phase.PreExecution? && r.generation == expected + 1)
    || (r.phase.ParkTransition? && r.generation + 1 == expected)
  }

  predicate HasTokenOf(r: Receipt, generation: nat) { r.token.Some? && r.token.value.generation == generation }

  /** Which parked receipt the early look at the stores accepts. */
  predicate ParkedAccepted(seen: Stores, expected: nat)
    requires seen.lane.Parked? && seen.receipt.Some?
  {
    var r, lane := seen.receipt.value, seen.lane;
    var reasonMatches := lane.reason == ParkReason(seen.run);
    var tokenless := (r.phase.ParkedPhase? || r.phase.ParkedReleaseTransition?) && r.token.None?;
    var interruptedParkPublication :=
      r.phase.ParkTransition? && r.generation + 1 == expected && HasTokenOf(r, r.generation) && lane.generation == expected && reasonMatches;
    var normalizedParkRetry := r.generation == expected && lane.generation == expected && tokenless && reasonMatches;
    var interruptedParkedReadmission :=
      lane.generation == expected && r.generation == expected + 1
      && ((r.phase.PreExecution? && HasTokenOf(r, expected + 1)) || (r.phase.ParkedReleaseTransition? && r.token.None?));
    var exactParkedGeneration := lane.generation == expected && r.generation == expected && tokenless;
    interruptedParkPublication || normalizedParkRetry || interruptedParkedReadmission || exactParkedGeneration
  }

  /** The receipt re-read under the registry lock, normalised to a parked release
      transition of exactly the parked generation. */
  function ParkedReleaseReceipt(r: Receipt, parked: nat, settledOrigin: bool): Option<Receipt> {
    var exactParkTransition := r.phase.ParkTransition? && r.generation + 1 == parked && HasTokenOf(r, r.generation);
    var exactParked := r.phase.ParkedPhase? && r.generation == parked && r.token.None?;
    var exactReleaseRetry := r.phase.ParkedReleaseTransition? && r.generation == parked && r.token.None?;
    var interruptedReadmission := r.phase.PreExecution? && r.generation == parked + 1 && HasTokenOf(r, parked + 1);
    if !exactParkTransition && !exactParked && !exactReleaseRetry && !interruptedReadmission then None
    else if r.settled && !settledOrigin then None
    else Some(Receipt(ParkedReleaseTransition, parked, None, r.settled || settledOrigin))
  }

  function RecoverReleased(seen: Stores, s: Stores, expected: nat): Outcome
    requires seen.receipt.Some?
  {
    if s.lane != Released(expected + 1) || s.receipt.None? then Refused
    else
      var r := s.receipt.value;
      if r.phase.ReleasedPhase? && r.generation == expected + 1 && r.token.None? then Done([])
      else if (r.phase.ReleaseTransition? && r.generation == expected && HasTokenOf(r, expected) && r.token == seen.receipt.value.token)
           || (r.phase.ParkedReleaseTransition? && r.generation == expected && r.token.None?)
      then Done([s.(receipt := Some(r.(phase := ReleasedPhase, generation := expected + 1, token := None)))])
      else Refused
  }

  function RecoverParked(seen: Stores, s: Stores, expected: nat, stopped: bool): Outcome
    requires seen.lane.Parked? && seen.receipt.Some?
  {
    var p := seen.lane.generation;
    if !ParkedAccepted(seen, expected) || !stopped || s.receipt.None? then Refused
    else if s.lane == seen.lane then
      match ParkedReleaseReceipt(s.receipt.value, p, s.lane.reason.WorkflowSettled?)
      case None => Refused
      case Some(r) =>
        var s1 := s.(receipt := Some(r));
        var s2 := s1.(lane := Released(p + 1));
        Done([s1, s2, s2.(receipt := Some(r.(phase := ReleasedPhase, generation := p + 1)))])
    else if s.lane == Released(p + 1) then
      // the release already happened: only the receipt is finalised
      var r := s.receipt.value;
      if r.phase.ReleasedPhase? && r.generation == p + 1 && r.token.None? then Done([])
      else if r.phase.ParkedReleaseTransition? && r.generation == p && r.token.None? then
        Done([s.(receipt := Some(r.(phase := ReleasedPhase, generation := p + 1)))])
      else Refused
    else Refused
  }

  function RecoverActive(seen: Stores, s: Stores, expected: nat, stopped: bool): Outcome
    requires seen.lane.Active? && seen.receipt.Some?
  {
    var r := seen.receipt.value;
    if r.token.None? || r.token.value.generation != expected || !stopped || !Current(seen.lane, r.token.value) then Refused
    else if !Current(s.lane, r.token.value) || !Holding(s.receipt, r.token.value) then Refused
    else Done(Release(s, r.token.value))
  }

  /** Recovery at an expected generation.  `seen` is what was read before the
      registry lock was taken, `s` the stores once it is held. */
  function Recover(seen: Stores, s: Stores, expected: nat, stopped: bool): Outcome {
    if expected < 1 || seen.receipt.None? || !GenerationExpected(seen.receipt.value, expected) then Refused
    else match seen.lane
      case NoLane => Refused
      case Released(g) => if g == expected + 1 then RecoverReleased(seen, s, expected) else Refused
      case Parked(_, _) => RecoverParked(seen, s, expected, stopped)
      case Active(_, _) => RecoverActive(seen, s, expected, stopped)
  }

  // --- merge settlement

  function MergeRun(s: Stores): seq<Stores> { if s.run.Merged? then [] else [s.(run := Merged)] }

  function MergeParked(s: Stores, r: Receipt): Outcome
    requires s.lane.Parked?
  {
    var p := s.lane.generation;
    var transitioning := r.phase.ParkedReleaseTransition? && r.generation == p && r.token.None?;
    var initialParked := r.phase.ParkedPhase? && r.generation == p && r.token.None?;
    if (transitioning && !r.settled) || (!transitioning && !initialParked) then Refused
    else
      var r1 := Receipt(ParkedReleaseTransition, p, None, true);
      var s1 := s.(receipt := Some(r1));
      var s3 := s1.(run := Merged, lane := Released(p + 1));
      Done((if transitioning then [] else [s1]) + MergeRun(s1)
           + [s3, s3.(receipt := Some(r1.(phase := ReleasedPhase, generation := p + 1)))])
  }

  function MergeReleased(s: Stores, r: Receipt): Outcome
    requires s.lane.Released?
  {
    var g := s.lane.generation;
    var exactFinal := r.phase.ReleasedPhase? && r.generation == g && r.token.None? && r.settled;
    var exactPrior := r.phase.ParkedReleaseTransition? && r.generation + 1 == g && r.token.None? && r.settled;
    if exactFinal then Done(MergeRun(s))
    else if exactPrior then
      Done(MergeRun(s) + [s.(run := Merged, receipt := Some(r.(phase := ReleasedPhase, generation := g)))])
    else Refused
  }

  /** Settlement of a Run whose pull request is proved merged. */
  function Merge(s: Stores): Outcome {
    if !s.run.MergeReady? && !s.run.Merged? then Refused
    else match s.lane
      case NoLane => if s.receipt.Some? then Refused else Done(MergeRun(s))
      case Active(_, _) => Refused
      case Parked(_, reason) =>
        if !reason.WorkflowSettled? || s.receipt.None? then Refused else MergeParked(s, s.receipt.value)
      case Released(_) =>
        if s.receipt.None? then (if s.run.Merged? then Done([]) else Refused) else MergeReleased(s, s.receipt.value)
  }

  // ---------------------------------------------------------------------------
  // Runs with crashes

  datatype Op =
    | OpAdmit(secret: nat, denied: bool)
    | OpRenew(token: Token)
    | OpSettle(token: Token)
    | OpReleasePreExecution(token: Token)
    | OpWork(next: RunState)
    | OpRecover(seen: Stores, expected: nat, stopped: bool)
    | OpMerge

  function Writes(o: Outcome): seq<Stores> { if o.Done? then o.writes else [] }

  function Trace(s: Stores, op: Op): seq<Stores> {
    match op
    case OpAdmit(secret, denied) => Admit(s, secret, denied)
    case OpRenew(token) => Renew(s, token)
    case OpSettle(token) => Settle(s, token)
    case OpReleasePreExecution(token) => Release(s, token)
    case OpWork(next) => Work(s, next)
    case OpRecover(seen, expected, stopped) => Writes(Recover(seen, s, expected, stopped))
    case OpMerge => Writes(Merge(s))
  }

  /** The stores when the process dies after `k` writes. */
  function Cut(s: Stores, writes: seq<Stores>, k: nat): Stores {
    if k == 0 || writes == [] then s else if k <= |writes| then writes[k - 1] else writes[|writes| - 1]
  }

  function Final(s: Stores, writes: seq<Stores>): Stores { Cut(s, writes, |writes|) }

  /** The stores with the history of why each parked generation was parked. */
  datatype History = History(stores: Stores, parks: map<nat, Reason>)

  function Recorded(parks: map<nat, Reason>, lane: Lane): map<nat, Reason> {
    if lane.Parked? then parks[lane.generation := lane.reason] else parks
  }

  function Advance(h: History, t: Stores): History { History(t, Recorded(h.parks, t.lane)) }

  /** The history when the process dies after `k` writes. */
  function CutHistory(h: History, writes: seq<Stores>, k: nat): History
    requires k <= |writes|
    decreases k
  {
    if k == 0 then h else CutHistory(Advance(h, writes[0]), writes[1..], k - 1)
  }

  ghost predicate Next(h: History, t: History) {
    exists op: Op, k: nat :: k <= |Trace(h.stores, op)| && t == CutHistory(h, Trace(h.stores, op), k)
  }

  ghost predicate Init(h: History) {
    h.stores.lane.NoLane? && h.stores.receipt.None? && !h.stores.run.Merged? && h.parks == map[]
  }

  ghost predicate Run(hs: seq<History>) {
    && |hs| > 0 && Init(hs[0])
    && forall i | 0 <= i < |hs| - 1 :: Next(hs[i], hs[i + 1])
  }

  // ---------------------------------------------------------------------------
  // What every crash cut keeps

  predicate Is(r: Receipt, phase: Phase, generation: int) { r.phase == phase && r.generation == generation }

  /** The (lane, receipt) pairs that crashes can leave. */
  predicate Paired(s: Stores) {
    match s.lane
    case NoLane => s.receipt.None? || Is(s.receipt.value, PreExecution, 1)
    case Active(g, secret) => s.receipt.Some? && s.receipt.value.token == Some(Token(g, secret))
    case Parked(p, reason) =>
      && p >= 1
      && if reason.Capacity? then
        s.receipt.None? ||
        (var r := s.receipt.value;
         || Is(r, ReleaseTransition, p - 2) || Is(r, ParkedReleaseTransition, p - 2) || Is(r, ReleasedPhase, p - 1)
         || Is(r, PreExecution, p) || Is(r, PreExecution, p + 1) || (Is(r, ParkedReleaseTransition, p) && !r.settled))
      else
        && reason == ParkReason(s.run) && s.receipt.Some?
        && var r := s.receipt.value;
           || Is(r, ParkTransition, p - 1) || Is(r, ParkedPhase, p) || Is(r, PreExecution, p + 1)
           || (Is(r, ParkedReleaseTransition, p) && r.settled == reason.WorkflowSettled?)
    case Released(g) =>
      && s.receipt.Some?
      && var r := s.receipt.value;
         || Is(r, ReleaseTransition, g - 1) || Is(r, ParkedReleaseTransition, g - 1) || Is(r, ReleasedPhase, g)
         || Is(r, PreExecution, g + 1)
  }

  /** The parked generation a settled receipt speaks of. */
  function SettledGeneration(r: Receipt): int {
    if r.phase.ReleasedPhase? then r.generation - 1 else r.generation
  }

  predicate Provenance(h: History) {
    && (forall g <- h.parks :: g <= Generation(h.stores.lane))
    && (h.stores.lane.Parked? ==> h.stores.lane.generation in h.parks && h.parks[h.stores.lane.generation] == h.stores.lane.reason)
    && (h.stores.receipt.Some? && h.stores.receipt.value.settled ==>
          var q := SettledGeneration(h.stores.receipt.value);
          q >= 0 && q in h.parks && h.parks[q] == WorkflowSettled)
  }

  ghost predicate Coherent(h: History) {
    && Paired(h.stores) && Provenance(h)
    && (h.stores.receipt.Some? ==> ValidReceipt(h.stores.receipt.value))
  }

  /** Coherence after each write of an operation. */
  ghost predicate EachCoherent(h: History, writes: seq<Stores>)
    decreases |writes|
  {
    Coherent(h) && (writes == [] || EachCoherent(Advance(h, writes[0]), writes[1..]))
  }

  lemma {:induction false} CutsCoherent(h: History, writes: seq<Stores>, k: nat)
    requires EachCoherent(h, writes) && k <= |writes|
    ensures Coherent(CutHistory(h, writes, k))
    decreases k
  {
    if k > 0 { CutsCoherent(Advance(h, writes[0]), writes[1..], k - 1); }
  }

  lemma Writes1(h: History, a: Stores)
    requires Coherent(h) && Coherent(Advance(h, a))
    ensures EachCoherent(h, [a])
  {
    assert [a][1..] == [];
  }

  lemma Writes2(h: History, a: Stores, b: Stores)
    requires Coherent(h) && Coherent(Advance(h, a)) && Coherent(Advance(Advance(h, a), b))
    ensures EachCoherent(h, [a, b])
  {
    assert [a, b][1..] == [b];
    Writes1(Advance(h, a), b);
  }

  lemma Writes3(h: History, a: Stores, b: Stores, c: Stores)
    requires Coherent(h) && Coherent(Advance(h, a)) && Coherent(Advance(Advance(h, a), b))
    requires Coherent(Advance(Advance(Advance(h, a), b), c))
    ensures EachCoherent(h, [a, b, c])
  {
    assert [a, b, c][1..] == [b, c];
    Writes2(Advance(h, a), b, c);
  }

  lemma AdmitCoherent(h: History, secret: nat, denied: bool)
    requires Coherent(h)
    ensures EachCoherent(h, Admit(h.stores, secret, denied))
  {
    var w := Admit(h.stores, secret, denied);
    if |w| == 1 { Writes1(h, w[0]); }
    if |w| == 2 { Writes2(h, w[0], w[1]); }
  }

  lemma RenewCoherent(h: History, token: Token)
    requires Coherent(h)
    ensures EachCoherent(h, Renew(h.stores, token))
  {
    var w := Renew(h.stores, token);
    if w != [] { Writes1(h, w[0]); }
  }

  lemma ParkCoherent(h: History, token: Token)
    requires Coherent(h)
    ensures EachCoherent(h, Park(h.stores, token))
  {
    var w := Park(h.stores, token);
    if w != [] { Writes3(h, w[0], w[1], w[2]); }
  }

  lemma ReleaseCoherent(h: History, token: Token)
    requires Coherent(h)
    ensures EachCoherent(h, Release(h.stores, token))
  {
    var w := Release(h.stores, token);
    if w != [] { Writes3(h, w[0], w[1], w[2]); }
  }

  lemma RecoverReleasedCoherent(h: History, seen: Stores, expected: nat)
    requires Coherent(h) && seen.receipt.Some?
    ensures EachCoherent(h, Writes(RecoverReleased(seen, h.stores, expected)))
  {
    var w := Writes(RecoverReleased(seen, h.stores, expected));
    if |w| == 1 { Writes1(h, w[0]); }
  }

  /** The three writes that release a parked lane under a normalised receipt. */
  function ParkedRelease(s: Stores, r: Receipt): seq<Stores>
    requires s.lane.Parked?
  {
    var s1 := s.(receipt := Some(r));
    var s2 := s1.(lane := Released(s.lane.generation + 1));
    [s1, s2, s2.(receipt := Some(r.(phase := ReleasedPhase, generation := s.lane.generation + 1)))]
  }

  lemma ParkedReleaseCoherent(h: History, r: Receipt)
    requires Coherent(h) && h.stores.lane.Parked? && h.stores.receipt.Some?
    requires ParkedReleaseReceipt(h.stores.receipt.value, h.stores.lane.generation, h.stores.lane.reason.WorkflowSettled?) == Some(r)
    ensures EachCoherent(h, ParkedRelease(h.stores, r))
  {
    var w := ParkedRelease(h.stores, r);
    Writes3(h, w[0], w[1], w[2]);
  }

  lemma RecoverParkedWrites(s: Stores, seen: Stores, expected: nat, stopped: bool)
    requires seen.receipt.Some? && seen.lane.Parked?
    ensures var w := Writes(RecoverParked(seen, s, expected, stopped));
            || |w| <= 1
            || (s.lane == seen.lane && s.receipt.Some? &&
                var r := ParkedReleaseReceipt(s.receipt.value, s.lane.generation, s.lane.reason.WorkflowSettled?);
                r.Some? && w == ParkedRelease(s, r.value))
  {
  }

  lemma RecoverParkedCoherent(h: History, seen: Stores, expected: nat, stopped: bool)
    requires Coherent(h) && seen.receipt.Some? && seen.lane.Parked?
    ensures EachCoherent(h, Writes(RecoverParked(seen, h.stores, expected, stopped)))
  {
    var w := Writes(RecoverParked(seen, h.stores, expected, stopped));
    RecoverParkedWrites(h.stores, seen, expected, stopped);
    if |w| == 1 {
      Writes1(h, w[0]);
    } else if |w| > 1 {
      var s := h.stores;
      ParkedReleaseCoherent(h, ParkedReleaseReceipt(s.receipt.value, s.lane.generation, s.lane.reason.WorkflowSettled?).value);
    }
  }

  lemma RecoverCoherent(h: History, seen: Stores, expected: nat, stopped: bool)
    requires Coherent(h)
    ensures EachCoherent(h, Writes(Recover(seen, h.stores, expected, stopped)))
  {
    if Recover(seen, h.stores, expected, stopped).Done? {
      match seen.lane {
        case Released(_) => RecoverReleasedCoherent(h, seen, expected);
        case Parked(_, _) => RecoverParkedCoherent(h, seen, expected, stopped);
        case Active(_, _) => ReleaseCoherent(h, seen.receipt.value.token.value);
      }
    }
  }

  /** What a parked merge settlement writes once its receipt is in transition. */
  function MergeTail(s1: Stores): seq<Stores>
    requires s1.lane.Parked? && s1.receipt.Some?
  {
    var p := s1.lane.generation;
    var s3 := s1.(run := Merged, lane := Released(p + 1));
    MergeRun(s1) + [s3, s3.(receipt := Some(s1.receipt.value.(phase := ReleasedPhase, generation := p + 1)))]
  }

  predicate Transitioning(s: Stores) {
    s.lane.Parked? && s.lane.reason.WorkflowSettled? && s.receipt == Some(Receipt(ParkedReleaseTransition, s.lane.generation, None, true))
  }

  lemma FirstThen(h: History, a: Stores, rest: seq<Stores>)
    requires Coherent(h) && EachCoherent(Advance(h, a), rest)
    ensures EachCoherent(h, [a] + rest)
  {
    assert ([a] + rest)[1..] == rest;
  }

  lemma MergeTailWhenMerged(h: History)
    requires Coherent(h) && Transitioning(h.stores) && h.stores.run.Merged?
    ensures EachCoherent(h, MergeTail(h.stores))
  {
    var w := MergeTail(h.stores);
    Writes2(h, w[0], w[1]);
    assert w == [w[0], w[1]];
  }

  lemma MergeTailCoherent(h: History)
    requires Coherent(h) && Transitioning(h.stores)
    ensures EachCoherent(h, MergeTail(h.stores))
  {
    if h.stores.run.Merged? {
      MergeTailWhenMerged(h);
    } else {
      var s2 := h.stores.(run := Merged);
      MergeTailWhenMerged(Advance(h, s2));
      FirstThen(h, s2, MergeTail(s2));
      assert MergeTail(h.stores) == [s2] + MergeTail(s2);
    }
  }

  lemma MergeParkedWrites(s: Stores)
    requires s.lane.Parked? && s.lane.reason.WorkflowSettled? && s.receipt.Some? && MergeParked(s, s.receipt.value).Done?
    ensures var s1 := s.(receipt := Some(Receipt(ParkedReleaseTransition, s.lane.generation, None, true)));
            && Transitioning(s1)
            && MergeParked(s, s.receipt.value).writes == if s1 == s then MergeTail(s) else [s1] + MergeTail(s1)
  {
  }

  lemma TransitionCoherent(h: History)
    requires Coherent(h) && h.stores.lane.Parked? && h.stores.lane.reason.WorkflowSettled?
    ensures Coherent(Advance(h, h.stores.(receipt := Some(Receipt(ParkedReleaseTransition, h.stores.lane.generation, None, true)))))
  {
  }

  lemma MergeParkedCoherent(h: History)
    requires Coherent(h) && h.stores.lane.Parked? && h.stores.lane.reason.WorkflowSettled? && h.stores.receipt.Some?
    ensures EachCoherent(h, Writes(MergeParked(h.stores, h.stores.receipt.value)))
  {
    var s := h.stores;
    if MergeParked(s, s.receipt.value).Done? {
      var s1 := s.(receipt := Some(Receipt(ParkedReleaseTransition, s.lane.generation, None, true)));
      MergeParkedWrites(s);
      if s1 == s {
        MergeTailCoherent(h);
      } else {
        TransitionCoherent(h);
        MergeTailCoherent(Advance(h, s1));
        FirstThen(h, s1, MergeTail(s1));
      }
    }
  }

  lemma MergeCoherent(h: History)
    requires Coherent(h)
    ensures EachCoherent(h, Writes(Merge(h.stores)))
  {
    var s, o := h.stores, Merge(h.stores);
    if o.Done? {
      if s.lane.Parked? {
        MergeParkedCoherent(h);
      } else {
        var w := o.writes;
        if |w| == 1 { Writes1(h, w[0]); assert w == [w[0]]; }
        if |w| == 2 { Writes2(h, w[0], w[1]); assert w == [w[0], w[1]]; }
      }
    }
  }

  lemma StepCoherent(h: History, t: History)
    requires Coherent(h) && Next(h, t)
    ensures Coherent(t)
  {
    var op: Op, k: nat :| k <= |Trace(h.stores, op)| && t == CutHistory(h, Trace(h.stores, op), k);
    match op {
      case OpAdmit(secret, denied) => AdmitCoherent(h, secret, denied);
      case OpRenew(token) => RenewCoherent(h, token);
      case OpSettle(token) => ParkCoherent(h, token); ReleaseCoherent(h, token);
      case OpReleasePreExecution(token) => ReleaseCoherent(h, token);
      case OpWork(next) => if Trace(h.stores, op) != [] { Writes1(h, h.stores.(run := next)); }
      case OpRecover(seen, expected, stopped) => RecoverCoherent(h, seen, expected, stopped);
      case OpMerge => MergeCoherent(h);
    }
    CutsCoherent(h, Trace(h.stores, op), k);
  }

  lemma {:induction false} RunCoherent(hs: seq<History>)
    requires Run(hs)
    ensures Coherent(hs[|hs| - 1])
  {
    if |hs| > 1 {
      var n := |hs| - 1;
      assert Run(hs[..n]);
      RunCoherent(hs[..n]);
      StepCoherent(hs[n - 1], hs[n]);
    }
  }

  // ---------------------------------------------------------------------------
  // Stopped recovery converges

  /** The lane is parked for want of capacity and the receipt does not yet speak
      of that generation or of a readmission from it. */
  predicate CapacityUnclaimed(s: Stores) {
    && s.lane.Parked? && s.lane.reason.Capacity?
    && !(s.receipt.Some? && (Is(s.receipt.value, PreExecution, s.lane.generation + 1)
                             || Is(s.receipt.value, ParkedReleaseTransition, s.lane.generation)))
  }

  /** After any run, recovery of an active or parked lane at its own generation is
      accepted exactly when the lane is not an unclaimed capacity reservation. */
  lemma RecoveryAccepted(hs: seq<History>)
    requires Run(hs)
    requires var s := hs[|hs| - 1].stores; s.lane.Active? || s.lane.Parked?
    ensures var s := hs[|hs| - 1].stores;
            Recover(s, s, s.lane.generation, true).Done? <==> !CapacityUnclaimed(s)
  {
    RunCoherent(hs);
  }

  /** Where recovery of a lane at its generation ends. */
  function Recovered(s: Stores): Stores
    requires s.lane.Active? || s.lane.Parked?
  {
    var g := s.lane.generation + 1;
    s.(lane := Released(g), receipt := Some(Receipt(ReleasedPhase, g, None, s.lane.Parked? && s.lane.reason.WorkflowSettled?)))
  }

  /** Recovery at `g` is accepted and, left to finish, reaches `target`. */
  predicate RecoversTo(s: Stores, g: nat, target: Stores) {
    Recover(s, s, g, true).Done? && Final(s, Recover(s, s, g, true).writes) == target
  }

  predicate ReceiptOk(s: Stores) { s.receipt.Some? ==> ValidReceipt(s.receipt.value) }

  lemma CutRecoversParked(s: Stores, g: nat, target: Stores, k: nat)
    requires RecoversTo(s, g, target) && ReceiptOk(s) && s.lane.Parked?
    ensures var t := Cut(s, Recover(s, s, g, true).writes, k); RecoversTo(t, g, target) && ReceiptOk(t)
  {
    var r1 := ParkedReleaseReceipt(s.receipt.value, g, s.lane.reason.WorkflowSettled?).value;
    var s1 := s.(receipt := Some(r1));
    var s2 := s1.(lane := Released(g + 1));
    assert RecoversTo(s1, g, target) && RecoversTo(s2, g, target) && RecoversTo(target, g, target);
    var t := Cut(s, Recover(s, s, g, true).writes, k);
    assert t == s || t == s1 || t == s2 || t == target;
  }

  /** Killing recovery after any write leaves stores that recover to the same end. */
  lemma CutRecovers(s: Stores, g: nat, target: Stores, k: nat)
    requires RecoversTo(s, g, target) && ReceiptOk(s)
    ensures var t := Cut(s, Recover(s, s, g, true).writes, k); RecoversTo(t, g, target) && ReceiptOk(t)
  {
    if s.lane.Parked? { CutRecoversParked(s, g, target, k); }
  }

  /** The stores after recovery was started and killed once per element of `cuts`. */
  function Retried(s: Stores, g: nat, cuts: seq<nat>): Stores
    decreases |cuts|
  {
    if cuts == [] then s else Retried(Cut(s, Writes(Recover(s, s, g, true)), cuts[0]), g, cuts[1..])
  }

  lemma {:induction false} RetriesRecover(s: Stores, g: nat, target: Stores, cuts: seq<nat>)
    requires RecoversTo(s, g, target) && ReceiptOk(s)
    ensures RecoversTo(Retried(s, g, cuts), g, target)
    decreases |cuts|
  {
    if cuts != [] {
      CutRecovers(s, g, target, cuts[0]);
      RetriesRecover(Cut(s, Recover(s, s, g, true).writes, cuts[0]), g, target, cuts[1..]);
    }
  }

  /** From every crash cut of every run, and however often recovery itself is
      killed, the next recovery completes in the one released state with a
      tokenless receipt; repeating it then writes nothing. */
  lemma RecoveryConverges(hs: seq<History>, cuts: seq<nat>)
    requires Run(hs)
    requires var s := hs[|hs| - 1].stores; (s.lane.Active? || s.lane.Parked?) && !CapacityUnclaimed(s)
    ensures var s := hs[|hs| - 1].stores;
            && RecoversTo(Retried(s, s.lane.generation, cuts), s.lane.generation, Recovered(s))
            && Recover(Recovered(s), Recovered(s), s.lane.generation, true) == Done([])
  {
    RunCoherent(hs);
    var s := hs[|hs| - 1].stores;
    assert RecoversTo(s, s.lane.generation, Recovered(s));
    RetriesRecover(s, s.lane.generation, Recovered(s), cuts);
  }

  // ---------------------------------------------------------------------------
  // Generation fencing

  predicate LaneAdvances(s: Stores, t: Stores) {
    && (t.lane == s.lane || Generation(s.lane) < Generation(t.lane))
    && (s.run.Merged? ==> t.run.Merged?)
  }

  lemma RecoveryAdvances(s: Stores, seen: Stores, expected: nat, stopped: bool, k: nat)
    requires k < |Writes(Recover(seen, s, expected, stopped))|
    ensures LaneAdvances(s, Writes(Recover(seen, s, expected, stopped))[k])
  {
  }

  lemma MergeAdvances(s: Stores, k: nat)
    requires k < |Writes(Merge(s))|
    ensures LaneAdvances(s, Writes(Merge(s))[k])
  {
  }

  lemma WritesAdvance(s: Stores, op: Op, k: nat)
    requires k < |Trace(s, op)|
    ensures LaneAdvances(s, Trace(s, op)[k])
  {
    match op {
      case OpRecover(seen, expected, stopped) => RecoveryAdvances(s, seen, expected, stopped, k);
      case OpMerge => MergeAdvances(s, k);
      case _ =>
    }
  }

  lemma {:induction false} CutHistoryStores(h: History, writes: seq<Stores>, k: nat)
    requires k <= |writes|
    ensures CutHistory(h, writes, k).stores == Cut(h.stores, writes, k)
    decreases k
  {
    if k > 0 { CutHistoryStores(Advance(h, writes[0]), writes[1..], k - 1); }
  }

  lemma StepAdvances(h: History, t: History)
    requires Next(h, t)
    ensures LaneAdvances(h.stores, t.stores)
  {
    var op: Op, k: nat :| k <= |Trace(h.stores, op)| && t == CutHistory(h, Trace(h.stores, op), k);
    CutHistoryStores(h, Trace(h.stores, op), k);
    if k > 0 { WritesAdvance(h.stores, op, k - 1); }
  }

  /** Along a run every change of the lane raises its generation, and a merged Run stays merged. */
  lemma {:induction false} GenerationsRise(hs: seq<History>, i: nat, j: nat)
    requires Run(hs) && i <= j < |hs|
    ensures LaneAdvances(hs[i].stores, hs[j].stores)
    decreases j
  {
    if i < j {
      GenerationsRise(hs, i, j - 1);
      StepAdvances(hs[j - 1], hs[j]);
    }
  }

  /** Once a token's generation has passed, no operation that presents it, and no
      recovery that saw it as the active one, ever writes a store again. */
  lemma SupersededTokenIsPowerless(hs: seq<History>, i: nat, j: nat, token: Token, seen: Stores, expected: nat, stopped: bool)
    requires Run(hs) && i <= j < |hs|
    requires token.generation < Generation(hs[i].stores.lane)
    ensures Trace(hs[j].stores, OpRenew(token)) == []
    ensures Trace(hs[j].stores, OpSettle(token)) == []
    ensures Trace(hs[j].stores, OpReleasePreExecution(token)) == []
    ensures seen.lane.Active? && seen.receipt.Some? && seen.receipt.value.token == Some(token) ==>
              Trace(hs[j].stores, OpRecover(seen, expected, stopped)) == []
  {
    GenerationsRise(hs, i, j);
  }

  // ---------------------------------------------------------------------------
  // Merge settlement converges

  predicate MergesTo(s: Stores, target: Stores) {
    Merge(s).Done? && Final(s, Merge(s).writes) == target
  }

  lemma CutMergesParked(s: Stores, target: Stores, k: nat)
    requires MergesTo(s, target) && s.lane.Parked?
    ensures MergesTo(Cut(s, Merge(s).writes, k), target)
  {
    var r1 := Receipt(ParkedReleaseTransition, s.lane.generation, None, true);
    var s1 := s.(receipt := Some(r1));
    var s2 := s1.(run := Merged);
    var s3 := s2.(lane := Released(s.lane.generation + 1));
    assert MergesTo(s1, target) && MergesTo(s2, target) && MergesTo(s3, target) && MergesTo(target, target);
    var t := Cut(s, Merge(s).writes, k);
    assert t == s || t == s1 || t == s2 || t == s3 || t == target;
  }

  lemma CutMerges(s: Stores, target: Stores, k: nat)
    requires MergesTo(s, target)
    ensures MergesTo(Cut(s, Merge(s).writes, k), target)
  {
    if s.lane.Parked? { CutMergesParked(s, target, k); }
  }

  function Remerged(s: Stores, cuts: seq<nat>): Stores
    decreases |cuts|
  {
    if cuts == [] then s else Remerged(Cut(s, Writes(Merge(s)), cuts[0]), cuts[1..])
  }

  lemma {:induction false} RetriesMerge(s: Stores, target: Stores, cuts: seq<nat>)
    requires MergesTo(s, target)
    ensures MergesTo(Remerged(s, cuts), target)
    decreases |cuts|
  {
    if cuts != [] {
      CutMerges(s, target, cuts[0]);
      RetriesMerge(Cut(s, Merge(s).writes, cuts[0]), target, cuts[1..]);
    }
  }

  /** The end of merge settlement for an admitted Run. */
  function Settled(s: Stores): Stores
    requires !s.lane.NoLane?
  {
    var g := if s.lane.Parked? then s.lane.generation + 1 else s.lane.generation;
    Stores(Merged, Released(g), Some(Receipt(ReleasedPhase, g, None, true)))
  }

  /** An accepted settlement of an admitted Run ends merged and released with a
      settled receipt, through any number of crashes; repeating it writes nothing. */
  lemma MergeConverges(s: Stores, cuts: seq<nat>)
    requires Merge(s).Done? && s.lane != NoLane && s.receipt.Some?
    ensures MergesTo(Remerged(s, cuts), Settled(s))
    ensures Merge(Settled(s)) == Done([])
  {
    RetriesMerge(s, Settled(s), cuts);
  }

  /** A Run that is parked settled and ready to merge is never stranded by a crash:
      settlement is accepted at once, or after one stopped recovery. */
  lemma SettledRunCanMerge(hs: seq<History>)
    requires Run(hs)
    requires var s := hs[|hs| - 1].stores;
             s.lane.Parked? && s.lane.reason.WorkflowSettled? && (s.run.MergeReady? || s.run.Merged?)
    ensures var s := hs[|hs| - 1].stores;
            MergesTo(s, Settled(s)) || MergesTo(Recovered(s), Settled(s))
  {
    RunCoherent(hs);
  }

  /** The one operation that merges writes a settled receipt first. */
  lemma MergingWrites(s: Stores, op: Op, k: nat)
    requires k < |Trace(s, op)| && !s.run.Merged? && Trace(s, op)[k].run.Merged? && !Trace(s, op)[k].lane.NoLane?
    ensures var t := Trace(s, op)[k];
            && t.receipt.Some? && t.receipt.value.settled
            && (t.lane == s.lane || s.lane.Parked?)
            && SettledGeneration(t.receipt.value) == (if t.lane.Parked? then t.lane.generation else t.lane.generation - 1)
            && (t.lane.Parked? ==> t.lane.reason.WorkflowSettled?) && !t.lane.Active?
  {
    assert op == OpMerge;
  }

  /** An admitted Run becomes merged only under a receipt settled by a lane
      generation that really was parked as workflow_settled. */
  lemma MergedNeedsSettledPark(hs: seq<History>, t: History)
    requires Run(hs) && Next(hs[|hs| - 1], t)
    requires !hs[|hs| - 1].stores.run.Merged? && t.stores.run.Merged? && !t.stores.lane.NoLane?
    ensures t.stores.receipt.Some? && t.stores.receipt.value.settled
    ensures var q := SettledGeneration(t.stores.receipt.value);
            && q >= 0 && q in t.parks && t.parks[q] == WorkflowSettled
            && (t.stores.lane == Parked(q, WorkflowSettled) || t.stores.lane == Released(q + 1))
  {
    RunCoherent(hs);
    var h := hs[|hs| - 1];
    StepCoherent(h, t);
    var op: Op, k: nat :| k <= |Trace(h.stores, op)| && t == CutHistory(h, Trace(h.stores, op), k);
    CutHistoryStores(h, Trace(h.stores, op), k);
    MergingWrites(h.stores, op, k - 1);
  }
}
