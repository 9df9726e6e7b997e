/** The same-host invocation lock: hard-link publication of one canonical owner
    file, stale takeover through an immutable chain of claim paths, and release.

    Attempts of many processes interleave one filesystem call at a time, and a
    process may die between any two calls.  An attempt and the owner record it
    publishes are identified: each record carries a fresh nonce. */
module InvocationLock {

  /** One acquisition attempt; `process` is the incarnation that runs it. */
  datatype Attempt = Attempt(process: nat, nonce: nat)

  /** What the canonical path holds.  Opaque is anything that does not parse as
      an owner record (or is not a regular file). */
  datatype Canonical = Absent | Opaque | Lock(owner: Attempt)

  /** Claim paths are digests of records, hence injective in them.  The recovery
      path is always derived from the root path of the stale record. */
  datatype ClaimPath = Root(stale: Attempt) | Recovery(stale: Attempt, previous: Attempt)

  /** A claim is a symlink whose target is the claimant's record, or the older
      hard link to the stale lock file itself. */
  datatype Claim = SymlinkClaim(owner: Attempt) | HardLinkClaim(owner: Attempt)

  datatype Pc =
    | Idle
    | Linking(takeover: bool)
    | Linked(takeover: bool)
    | CleaningUp
    | CleanupUnlink
    | Contending
    | Judging(stale: Attempt)
    | Claiming(stale: Attempt, path: ClaimPath, visited: set<ClaimPath>)
    | ReadingClaim(stale: Attempt, path: ClaimPath, visited: set<ClaimPath>)
    | JudgingClaim(stale: Attempt, path: ClaimPath, claimant: Attempt, visited: set<ClaimPath>)
    | Claimed(stale: Attempt, path: ClaimPath)
    | Unlinking(stale: Attempt, path: ClaimPath)
    | Verifying
    | Held
    | Releasing
    | Released
    | Failed

  datatype State = State(
    canonical: Canonical,
    claims: map<ClaimPath, Claim>,
    dead: set<nat>,
    pc: map<Attempt, Pc>)
  {
    function Pc(a: Attempt): Pc { if a in pc then pc[a] else Idle }

    predicate Alive(a: Attempt) { a.process !in dead }

    function At(a: Attempt, next: Pc): State { this.(pc := pc[a := next]) }

    /** A live attempt that has acquired the lock and not finished releasing it. */
    predicate Holds(a: Attempt) { Alive(a) && (Pc(a).Held? || Pc(a).Releasing?) }
  }

  /** The start of a run: no attempt has begun, except that an earlier owner may
      already hold the lock, dead or alive; the claim directory holds at most
      hard-link claims left by the older takeover scheme. */
  ghost predicate Init(s: State) {
    && (forall a <- s.pc :: s.canonical == Lock(a) && s.pc[a] == Held)
    && (s.canonical.Lock? ==> s.Pc(s.canonical.owner) == Held)
    && (forall p <- s.claims :: p.Root? && s.claims[p] == HardLinkClaim(p.stale))
  }

  /** One filesystem call, one verdict, or one process death. */
  datatype Step =
    | Begin(a: Attempt)
    | LinkCanonical(a: Attempt)
    | PublishedDurably(a: Attempt)
    | PublishSyncFails(a: Attempt)
    | InspectOwnLink(a: Attempt)
    | RemoveOwnLink(a: Attempt)
    | ReadExisting(a: Attempt)
    | JudgeStale(a: Attempt)
    | CreateClaim(a: Attempt)
    | ReadClaim(a: Attempt)
    | JudgeClaimStale(a: Attempt)
    | Recheck(a: Attempt)
    | UnlinkStale(a: Attempt, synced: bool)
    | VerifyOwn(a: Attempt)
    | ReleaseRead(a: Attempt)
    | ReleaseUnlink(a: Attempt)
    | ReleaseFails(a: Attempt)
    | Refuse(a: Attempt)
    | Die(process: nat)

  /** A claim is readable as a symlink, or as the exact alias of the stale lock. */
  predicate Readable(s: State, stale: Attempt, path: ClaimPath) {
    && path in s.claims
    && (s.claims[path].SymlinkClaim? || (s.canonical == Lock(stale) && s.claims[path].owner == stale))
  }

  /** The effect of one step.  `unlink` removes whatever the canonical path holds:
      nothing in the step itself protects another owner's file. */
  function Effect(s: State, step: Step): State {
    match step
    case Begin(a) => s.At(a, Linking(false))
    case LinkCanonical(a) =>
      var t := s.Pc(a).Linking? && s.Pc(a).takeover;
      if s.canonical.Absent? then s.(canonical := Lock(a)).At(a, Linked(t))
      else s.At(a, if t then Failed else Contending)
    case PublishedDurably(a) => s.At(a, if s.Pc(a) == Linked(true) then Verifying else Held)
    case PublishSyncFails(a) => s.At(a, CleaningUp)
    case InspectOwnLink(a) => s.At(a, if s.canonical == Lock(a) then CleanupUnlink else Failed)
    case RemoveOwnLink(a) => s.(canonical := Absent).At(a, Failed)
    case ReadExisting(a) => s.At(a, if s.canonical.Lock? then Judging(s.canonical.owner) else Failed)
    case JudgeStale(a) =>
      if s.Pc(a).Judging? then s.At(a, Claiming(s.Pc(a).stale, Root(s.Pc(a).stale), {})) else s
    case CreateClaim(a) =>
      if !s.Pc(a).Claiming? then s else
      var Claiming(stale, path, visited) := s.Pc(a);
      if path in visited then s.At(a, Failed)
      else if path in s.claims then s.At(a, ReadingClaim(stale, path, visited + {path}))
      else s.(claims := s.claims[path := SymlinkClaim(a)]).At(a, Claimed(stale, path))
    case ReadClaim(a) =>
      if !s.Pc(a).ReadingClaim? then s else
      var ReadingClaim(stale, path, visited) := s.Pc(a);
      if Readable(s, stale, path) then s.At(a, JudgingClaim(stale, path, s.claims[path].owner, visited))
      else s.At(a, Failed)
    case JudgeClaimStale(a) =>
      if !s.Pc(a).JudgingClaim? then s else
      var JudgingClaim(stale, path, claimant, visited) := s.Pc(a);
      s.At(a, Claiming(stale, Recovery(stale, claimant), visited))
    case Recheck(a) =>
      if !s.Pc(a).Claimed? then s else
      if s.canonical == Lock(s.Pc(a).stale) then s.At(a, Unlinking(s.Pc(a).stale, s.Pc(a).path))
      else s.At(a, Failed)
    case UnlinkStale(a, synced) =>
      s.(canonical := Absent).At(a, if synced && !s.canonical.Absent? then Linking(true) else Failed)
    case VerifyOwn(a) => s.At(a, if s.canonical == Lock(a) then Held else Failed)
    case ReleaseRead(a) => s.At(a, if s.canonical == Lock(a) then Releasing else Released)
    case ReleaseUnlink(a) => s.(canonical := Absent).At(a, Released)
    case ReleaseFails(a) => s.At(a, Held)
    case Refuse(a) => s.At(a, Failed)
    case Die(p) => s.(dead := s.dead + {p})
  }

  /** When a step may be taken.  A staleness verdict may be withheld, but is given
      only for a dead incarnation (module Staleness discharges this). */
  predicate Enabled(s: State, step: Step) {
    if step.Die? then true else
    && s.Alive(step.a)
    && var pc := s.Pc(step.a);
       match step
       case Begin(_) => pc.Idle?
       case LinkCanonical(_) => pc.Linking?
       case PublishedDurably(_) => pc.Linked?
       case PublishSyncFails(_) => pc.Linked?
       case InspectOwnLink(_) => pc.CleaningUp?
       case RemoveOwnLink(_) => pc.CleanupUnlink?
       case ReadExisting(_) => pc.Contending?
       case JudgeStale(_) => pc.Judging? && !s.Alive(pc.stale)
       case CreateClaim(_) => pc.Claiming?
       case ReadClaim(_) => pc.ReadingClaim?
       case JudgeClaimStale(_) => pc.JudgingClaim? && !s.Alive(pc.claimant)
       case Recheck(_) => pc.Claimed?
       case UnlinkStale(_, _) => pc.Unlinking?
       case VerifyOwn(_) => pc.Verifying?
       case ReleaseRead(_) => pc.Held? || pc.Released?
       case ReleaseUnlink(_) => pc.Releasing?
       case ReleaseFails(_) => pc.Releasing?
       case Refuse(_) => !pc.Held? && !pc.Releasing? && !pc.Released?
       case Die(_) => true
  }

  ghost predicate Next(s: State, t: State) {
    exists step :: Enabled(s, step) && t == Effect(s, step)
  }

  ghost predicate Run(states: seq<State>) {
    && |states| > 0
    && Init(states[0])
    && forall i | 0 <= i < |states| - 1 :: Next(states[i], states[i + 1])
  }

  // ---------------------------------------------------------------------------
  // The inductive invariant

  /** The attempt has published and still believes its link is canonical. */
  predicate Owning(pc: Pc) {
    pc.Linked? || pc.CleaningUp? || pc.CleanupUnlink? || pc.Verifying? || pc.Held? || pc.Releasing?
  }

  predicate BeforeClaim(pc: Pc) {
    pc.Idle? || pc == Linking(false) || pc.Contending? || pc.Judging? || pc.Claiming? || pc.ReadingClaim? || pc.JudgingClaim?
  }

  /** Some claim of the chain of `stale` was made by `c`. */
  ghost predicate InChain(s: State, stale: Attempt, c: Attempt) {
    exists q :: q in s.claims && q.stale == stale && s.claims[q].owner == c
  }

  predicate Tail(s: State, p: ClaimPath)
    requires p in s.claims
  {
    Recovery(p.stale, s.claims[p].owner) !in s.claims
  }

  ghost predicate OwnersCanonical(s: State) {
    forall a | a in s.pc && s.Alive(a) && Owning(s.pc[a]) :: s.canonical == Lock(a)
  }

  ghost predicate ClaimsLinear(s: State) {
    && (forall p <- s.claims :: Root(p.stale) in s.claims)
    && (forall p <- s.claims | p.Recovery? :: !s.Alive(p.previous) && InChain(s, p.stale, p.previous))
    && (forall p, q | p in s.claims && q in s.claims && p.stale == q.stale && Tail(s, p) && Tail(s, q) :: p == q)
  }

  ghost predicate ClaimsOwned(s: State) {
    && (forall p <- s.claims | s.claims[p].SymlinkClaim? :: !BeforeClaim(s.Pc(s.claims[p].owner)))
    && (forall p <- s.claims | s.claims[p].HardLinkClaim? :: p == Root(s.claims[p].owner))
    && (forall p, q | p in s.claims && q in s.claims && s.claims[p].SymlinkClaim? && s.claims[q].SymlinkClaim?
          && s.claims[p].owner == s.claims[q].owner :: p == q)
  }

  ghost predicate KnowsOf(s: State, a: Attempt, pc: Pc) {
    match pc
    case Claiming(e, p, _) =>
      && !s.Alive(e)
      && (p == Root(e) || (p.Recovery? && p.stale == e && !s.Alive(p.previous) && InChain(s, e, p.previous)))
    case ReadingClaim(e, p, _) => !s.Alive(e) && p in s.claims && p.stale == e
    case JudgingClaim(e, p, c, _) => !s.Alive(e) && p in s.claims && p.stale == e && s.claims[p].owner == c
    case Claimed(e, p) => !s.Alive(e) && p in s.claims && p.stale == e && s.claims[p] == SymlinkClaim(a)
    case Unlinking(e, p) =>
      && !s.Alive(e) && p in s.claims && p.stale == e && s.claims[p] == SymlinkClaim(a)
      && (s.Alive(a) ==> s.canonical == Lock(e))
    case _ => true
  }

  ghost predicate Knowledge(s: State) { forall a <- s.pc :: KnowsOf(s, a, s.pc[a]) }

  ghost predicate Inv(s: State) {
    OwnersCanonical(s) && ClaimsLinear(s) && ClaimsOwned(s) && Knowledge(s)
  }

  /** Of two claims in the chain of one stale record, at most one is a live one's. */
  lemma OneLiveClaimant(s: State, p: ClaimPath, q: ClaimPath)
    requires ClaimsLinear(s)
    requires p in s.claims && q in s.claims && p.stale == q.stale
    requires s.Alive(s.claims[p].owner) && s.Alive(s.claims[q].owner)
    ensures p == q
  {
    assert Tail(s, p) && Tail(s, q);
  }

  lemma InitInv(s: State)
    requires Init(s)
    ensures Inv(s)
  {
  }

  /** The canonical file of a live owner, or of the record a live takeover has
      rechecked, is removed by nobody else. */
  lemma UnlinkTarget(s: State, step: Step)
    requires Inv(s) && Enabled(s, step)
    requires step.UnlinkStale? || step.RemoveOwnLink? || step.ReleaseUnlink?
    ensures s.canonical.Lock?
    ensures s.canonical.owner == step.a || (step.UnlinkStale? && !s.Alive(s.canonical.owner))
    ensures forall b | b in s.pc && b != step.a && s.Alive(b) :: !Owning(s.pc[b]) && !s.pc[b].Unlinking?
  {
    var a := step.a;
    assert a in s.pc && KnowsOf(s, a, s.pc[a]);
    forall b | b in s.pc && b != a && s.Alive(b)
      ensures !Owning(s.pc[b]) && !s.pc[b].Unlinking?
    {
      assert KnowsOf(s, b, s.pc[b]);
      if s.pc[b].Unlinking? && s.pc[a].Unlinking? {
        OneLiveClaimant(s, s.pc[a].path, s.pc[b].path);
      }
    }
  }

  lemma InChainKept(s: State, t: State)
    requires forall p <- s.claims :: p in t.claims && t.claims[p] == s.claims[p]
    ensures forall e, c | InChain(s, e, c) :: InChain(t, e, c)
  {
    forall e, c | InChain(s, e, c) ensures InChain(t, e, c) {
      var q :| q in s.claims && q.stale == e && s.claims[q].owner == c;
      assert q in t.claims;
    }
  }

  predicate Unlinks(step: Step) { step.UnlinkStale? || step.RemoveOwnLink? || step.ReleaseUnlink? }

  lemma UnlinkKeepsOwners(s: State, step: Step)
    requires Inv(s) && Enabled(s, step) && Unlinks(step)
    ensures OwnersCanonical(Effect(s, step))
  {
    UnlinkTarget(s, step);
  }

  lemma LinkKeepsOwners(s: State, step: Step)
    requires OwnersCanonical(s) && Enabled(s, step) && step.LinkCanonical?
    ensures OwnersCanonical(Effect(s, step))
  {
    if s.canonical.Absent? {
      assert forall b | b in s.pc && s.Alive(b) :: !Owning(s.pc[b]);
    }
  }

  lemma OtherKeepsOwners(s: State, step: Step)
    requires OwnersCanonical(s) && Enabled(s, step) && !Unlinks(step) && !step.LinkCanonical?
    ensures OwnersCanonical(Effect(s, step))
  {
  }

  lemma StepKeepsOwners(s: State, step: Step)
    requires Inv(s) && Enabled(s, step)
    ensures OwnersCanonical(Effect(s, step))
  {
    if Unlinks(step) {
      UnlinkKeepsOwners(s, step);
    } else if step.LinkCanonical? {
      LinkKeepsOwners(s, step);
    } else {
      OtherKeepsOwners(s, step);
    }
  }

  /** A fresh claim extends the chain at its unique tail: every other claim of
      the chain already has its successor, so its owner is dead. */
  lemma ClaimFindsTail(s: State, a: Attempt, q: ClaimPath)
    requires Inv(s) && Enabled(s, CreateClaim(a))
    requires s.Pc(a).path !in s.claims
    requires q in s.claims && q.stale == s.Pc(a).stale
    requires Tail(s, q)
    ensures s.Pc(a).path == Recovery(q.stale, s.claims[q].owner)
  {
    var Claiming(e, path, visited) := s.Pc(a);
    assert KnowsOf(s, a, s.pc[a]);
    var w :| w in s.claims && w.stale == e && s.claims[w].owner == path.previous;
    assert Tail(s, w);
  }

  lemma ClaimExtends(s: State, a: Attempt)
    requires Inv(s) && Enabled(s, CreateClaim(a))
    requires s.Pc(a).path !in s.claims
    ensures ClaimsLinear(s.(claims := s.claims[s.Pc(a).path := SymlinkClaim(a)]))
  {
    var Claiming(e, path, visited) := s.Pc(a);
    var t := s.(claims := s.claims[path := SymlinkClaim(a)]);
    assert KnowsOf(s, a, s.pc[a]);
    InChainKept(s, t);
    assert Recovery(e, a) !in s.claims;
    forall p, q | p in t.claims && q in t.claims && p.stale == q.stale && Tail(t, p) && Tail(t, q)
      ensures p == q
    {
      if p.stale == e {
        if p != path { assert Tail(s, p); ClaimFindsTail(s, a, p); }
        if q != path { assert Tail(s, q); ClaimFindsTail(s, a, q); }
      } else {
        assert Tail(s, p) && Tail(s, q);
      }
    }
  }

  lemma FewerAlive(s: State, t: State)
    requires ClaimsLinear(s) && t.claims == s.claims && s.dead <= t.dead
    ensures ClaimsLinear(t)
  {
    InChainKept(s, t);
    forall p, q | p in t.claims && q in t.claims && p.stale == q.stale && Tail(t, p) && Tail(t, q)
      ensures p == q
    {
      assert Tail(s, p) && Tail(s, q);
    }
  }

  lemma StepKeepsLinear(s: State, step: Step)
    requires Inv(s) && Enabled(s, step)
    ensures ClaimsLinear(Effect(s, step))
  {
    var t := Effect(s, step);
    if step.CreateClaim? && s.Pc(step.a).path !in s.claims && s.Pc(step.a).path !in s.Pc(step.a).visited {
      ClaimExtends(s, step.a);
      FewerAlive(s.(claims := t.claims), t);
    } else {
      FewerAlive(s, t);
    }
  }

  /** No step leads back to before the claim. */
  lemma ClaimIsOnce(s: State, step: Step, b: Attempt)
    requires Enabled(s, step) && BeforeClaim(Effect(s, step).Pc(b))
    ensures BeforeClaim(s.Pc(b))
  {
  }

  lemma OwnedWithSameClaims(s: State, t: State)
    requires ClaimsOwned(s) && t.claims == s.claims
    requires forall b | BeforeClaim(t.Pc(b)) :: BeforeClaim(s.Pc(b))
    ensures ClaimsOwned(t)
  {
  }

  lemma OwnedWithNewClaim(s: State, t: State, a: Attempt, path: ClaimPath)
    requires ClaimsOwned(s) && path !in s.claims && BeforeClaim(s.Pc(a))
    requires t.claims == s.claims[path := SymlinkClaim(a)]
    requires !BeforeClaim(t.Pc(a)) && forall b | BeforeClaim(t.Pc(b)) :: BeforeClaim(s.Pc(b))
    ensures ClaimsOwned(t)
  {
    forall p, q | p in t.claims && q in t.claims && t.claims[p].SymlinkClaim? && t.claims[q].SymlinkClaim?
                  && t.claims[p].owner == t.claims[q].owner
      ensures p == q
    {
      if p != path { assert p in s.claims && t.claims[p] == s.claims[p]; }
      if q != path { assert q in s.claims && t.claims[q] == s.claims[q]; }
    }
  }

  lemma ClaimsAfter(s: State, step: Step)
    requires Enabled(s, step)
    ensures var t := Effect(s, step);
            || t.claims == s.claims
            || (step.CreateClaim? && s.Pc(step.a).Claiming? && s.Pc(step.a).path !in s.claims
                && t.claims == s.claims[s.Pc(step.a).path := SymlinkClaim(step.a)] && !BeforeClaim(t.Pc(step.a)))
  {
  }

  lemma StepKeepsOwned(s: State, step: Step)
    requires ClaimsOwned(s) && Enabled(s, step)
    ensures ClaimsOwned(Effect(s, step))
  {
    var t := Effect(s, step);
    forall b | BeforeClaim(t.Pc(b)) ensures BeforeClaim(s.Pc(b)) { ClaimIsOnce(s, step, b); }
    ClaimsAfter(s, step);
    if t.claims == s.claims {
      OwnedWithSameClaims(s, t);
    } else {
      OwnedWithNewClaim(s, t, step.a, s.Pc(step.a).path);
    }
  }

  /** What an attempt knows survives every step of the others. */
  lemma KnowledgeStable(s: State, step: Step, b: Attempt)
    requires Inv(s) && Enabled(s, step)
    requires b in s.pc && (step.Die? || step.a != b)
    ensures KnowsOf(Effect(s, step), b, s.pc[b])
  {
    assert KnowsOf(s, b, s.pc[b]);
    EffectGrows(s, step);
    if Unlinks(step) {
      UnlinkTarget(s, step);
    }
    KnowledgeGrows(s, Effect(s, step), b, s.pc[b]);
  }

  /** Claims are never removed, the dead stay dead, and only an unlink takes the
      canonical file away from an attempt about to unlink it. */
  predicate Grows(s: State, t: State) {
    (forall p <- s.claims :: p in t.claims && t.claims[p] == s.claims[p]) && s.dead <= t.dead
  }

  lemma EffectGrows(s: State, step: Step)
    requires Enabled(s, step)
    ensures Grows(s, Effect(s, step))
    ensures s.canonical.Lock? && !Unlinks(step) ==> Effect(s, step).canonical == s.canonical
  {
  }

  lemma KnowledgeGrows(s: State, t: State, b: Attempt, pc: Pc)
    requires KnowsOf(s, b, pc) && Grows(s, t)
    requires pc.Unlinking? && t.Alive(b) && s.canonical.Lock? ==> t.canonical == s.canonical
    ensures KnowsOf(t, b, pc)
  {
    InChainKept(s, t);
  }

  lemma OwnKnowledge(s: State, step: Step)
    requires Inv(s) && Enabled(s, step) && !step.Die?
    ensures KnowsOf(Effect(s, step), step.a, Effect(s, step).Pc(step.a))
  {
    var a, t := step.a, Effect(s, step);
    if a in s.pc { assert KnowsOf(s, a, s.pc[a]); }
    if step.JudgeClaimStale? { assert InChain(t, s.pc[a].stale, s.pc[a].claimant); }
  }

  lemma StepKeepsKnowledge(s: State, step: Step)
    requires Inv(s) && Enabled(s, step)
    ensures Knowledge(Effect(s, step))
  {
    var t := Effect(s, step);
    forall b <- t.pc ensures KnowsOf(t, b, t.pc[b]) {
      if !step.Die? && b == step.a {
        OwnKnowledge(s, step);
      } else {
        KnowledgeStable(s, step, b);
      }
    }
  }

  lemma StepKeepsInv(s: State, t: State)
    requires Inv(s) && Next(s, t)
    ensures Inv(t)
  {
    var step :| Enabled(s, step) && t == Effect(s, step);
    StepKeepsOwners(s, step);
    StepKeepsLinear(s, step);
    StepKeepsOwned(s, step);
    StepKeepsKnowledge(s, step);
  }

  lemma {:induction false} RunInv(states: seq<State>)
    requires Run(states)
    ensures Inv(states[|states| - 1])
  {
    if |states| == 1 {
      InitInv(states[0]);
    } else {
      var n := |states| - 1;
      assert Run(states[..n]);
      RunInv(states[..n]);
      StepKeepsInv(states[n - 1], states[n]);
    }
  }

  // ---------------------------------------------------------------------------
  // Main results

  /** At most one live attempt holds the lock, and the canonical file is its own
      record, after any run. */
  lemma MutualExclusion(states: seq<State>, a: Attempt, b: Attempt)
    requires Run(states)
    requires states[|states| - 1].Holds(a)
    ensures states[|states| - 1].canonical == Lock(a)
    ensures states[|states| - 1].Holds(b) ==> a == b
  {
    RunInv(states);
  }

  /** No step of any run takes away the canonical record of another live owner:
      a step changes a canonical record only when its actor owns it or its owner
      is dead, and a file that is not a record is never removed. */
  lemma OnlyOwnOrDeadRemoved(states: seq<State>, step: Step)
    requires Run(states) && Enabled(states[|states| - 1], step)
    ensures var s, t := states[|states| - 1], Effect(states[|states| - 1], step);
            && (s.canonical.Opaque? ==> t.canonical.Opaque?)
            && (s.canonical.Lock? && t.canonical != s.canonical ==>
                  !s.Alive(s.canonical.owner) || (!step.Die? && step.a == s.canonical.owner))
  {
    RunInv(states);
    var s := states[|states| - 1];
    if step.UnlinkStale? || step.RemoveOwnLink? || step.ReleaseUnlink? { UnlinkTarget(s, step); }
  }

  /** Of all live attempts that passed the claim for one stale record, only one
      can reach its unlink. */
  lemma OneLiveTakeover(states: seq<State>, a: Attempt, b: Attempt)
    requires Run(states)
    requires var s := states[|states| - 1];
             && s.Alive(a) && s.Alive(b)
             && (s.Pc(a).Claimed? || s.Pc(a).Unlinking?) && (s.Pc(b).Claimed? || s.Pc(b).Unlinking?)
             && s.Pc(a).stale == s.Pc(b).stale
    ensures a == b
  {
    RunInv(states);
    var s := states[|states| - 1];
    assert KnowsOf(s, a, s.pc[a]) && KnowsOf(s, b, s.pc[b]);
    OneLiveClaimant(s, s.Pc(a).path, s.Pc(b).path);
  }

  // ---------------------------------------------------------------------------
  // The chain walk of one claimant, while nobody else changes the directory

  datatype Option<T> = None | Some(value: T)

  /** The walk goes past a claim that it can read and judges stale. */
  predicate Passed(s: State, stale: Attempt, verdicts: set<Attempt>, p: ClaimPath) {
    Readable(s, stale, p) && s.claims[p].owner in verdicts
  }

  /** The n-th path of the chain: the root, then the recovery path of each passed claim. */
  ghost function NthPath(s: State, stale: Attempt, verdicts: set<Attempt>, n: nat): Option<ClaimPath> {
    if n == 0 then Some(Root(stale)) else
    match NthPath(s, stale, verdicts, n - 1)
    case Some(q) => if Passed(s, stale, verdicts, q) then Some(Recovery(stale, s.claims[q].owner)) else None
    case None => None
  }

  lemma {:induction false} ChainStaysWithin(s: State, stale: Attempt, verdicts: set<Attempt>, paths: set<ClaimPath>, n: nat)
    requires Root(stale) in paths
    requires forall p <- paths | Passed(s, stale, verdicts, p) :: Recovery(stale, s.claims[p].owner) in paths
    ensures NthPath(s, stale, verdicts, n).Some? ==> NthPath(s, stale, verdicts, n).value in paths
  {
    if n > 0 { ChainStaysWithin(s, stale, verdicts, paths, n - 1); }
  }

  /** For any directory contents the walk terminates, because every path it goes
      past is new, and it answers the free path of the chain exactly when the
      chain has one behind claims that are all readable and stale. */
  method WalkTakeoverChain(s: State, stale: Attempt, verdicts: set<Attempt>) returns (free: Option<ClaimPath>)
    ensures free.Some? ==> free.value !in s.claims && exists n :: NthPath(s, stale, verdicts, n) == free
    ensures free.None? ==> forall n :: NthPath(s, stale, verdicts, n).Some? ==> NthPath(s, stale, verdicts, n).value in s.claims
  {
    var path := Root(stale);
    var visited: set<ClaimPath> := {};
    ghost var k := 0;
    while true
      invariant NthPath(s, stale, verdicts, k) == Some(path)
      invariant visited <= s.claims.Keys
      invariant Root(stale) in visited + {path}
      invariant forall p <- visited :: Recovery(stale, s.claims[p].owner) in visited + {path}
      decreases s.claims.Keys - visited
    {
      if path in visited {
        forall n { ChainStaysWithin(s, stale, verdicts, visited, n); }
        return None;
      }
      if path !in s.claims {
        return Some(path);
      }
      visited := visited + {path};
      if !Passed(s, stale, verdicts, path) {
        forall n { ChainStaysWithin(s, stale, verdicts, visited, n); }
        return None;
      }
      path := Recovery(stale, s.claims[path].owner);
      k := k + 1;
    }
  }
}
