/** What the invocation lock lets happen: a free lock is taken, a release frees it, a
    publication that failed leaves nothing behind, and a dead owner is replaced through
    any chain of dead claims. */
module InvocationProgress {
  import opened InvocationLock

  /** The steps are enabled one after the other. */
  predicate Plays(s: State, steps: seq<Step>)
    decreases |steps|
  {
    steps == [] || (Enabled(s, steps[0]) && Plays(Effect(s, steps[0]), steps[1..]))
  }

  function Play(s: State, steps: seq<Step>): State
    decreases |steps|
  {
    if steps == [] then s else Play(Effect(s, steps[0]), steps[1..])
  }

  lemma {:induction false} PlayOn(s: State, steps: seq<Step>, more: seq<Step>)
    requires Plays(s, steps) && Plays(Play(s, steps), more)
    ensures Plays(s, steps + more) && Play(s, steps + more) == Play(Play(s, steps), more)
    decreases |steps|
  {
    if steps == [] {
      assert steps + more == more;
    } else {
      PlayOn(Effect(s, steps[0]), steps[1..], more);
      assert (steps + more)[1..] == steps[1..] + more;
    }
  }

  lemma PlayOne(s: State, step: Step)
    requires Enabled(s, step)
    ensures Plays(s, [step]) && Play(s, [step]) == Effect(s, step)
  {
    assert [step][1..] == [];
  }

  predicate ByOne(steps: seq<Step>, a: Attempt) { forall i | 0 <= i < |steps| :: !steps[i].Die? && steps[i].a == a }

  /** One more step at the end. */
  lemma PlayNext(s: State, steps: seq<Step>, step: Step)
    requires Plays(s, steps) && Enabled(Play(s, steps), step)
    ensures Plays(s, steps + [step]) && Play(s, steps + [step]) == Effect(Play(s, steps), step)
  {
    PlayOne(Play(s, steps), step);
    PlayOn(s, steps, [step]);
  }

  lemma FreeLockIsTaken(s: State, b: Attempt) returns (steps: seq<Step>)
    requires s.canonical.Absent? && s.Alive(b) && s.Pc(b).Idle?
    ensures Plays(s, steps) && ByOne(steps, b) && Play(s, steps).Holds(b)
  {
    steps := [];
    PlayNext(s, steps, Begin(b)); steps := steps + [Begin(b)];
    PlayNext(s, steps, LinkCanonical(b)); steps := steps + [LinkCanonical(b)];
    PlayNext(s, steps, PublishedDurably(b)); steps := steps + [PublishedDurably(b)];
  }

  /** A holder that releases leaves the lock free, and the next one takes it. */
  lemma ReleaseFreesLock(states: seq<State>, a: Attempt, b: Attempt) returns (next: seq<Step>)
    requires Run(states)
    requires var s := states[|states| - 1]; s.Alive(a) && s.Pc(a).Held? && s.Alive(b) && s.Pc(b).Idle?
    ensures var s := states[|states| - 1];
            var t := Play(s, [ReleaseRead(a), ReleaseUnlink(a)]);
            && Plays(s, [ReleaseRead(a), ReleaseUnlink(a)])
            && t.canonical.Absent? && t.Pc(a).Released?
            && Plays(t, next) && ByOne(next, b) && Play(t, next).Holds(b)
  {
    RunInv(states);
    var s := states[|states| - 1];
    PlayNext(s, [], ReleaseRead(a));
    PlayNext(s, [ReleaseRead(a)], ReleaseUnlink(a));
    assert [] + [ReleaseRead(a)] + [ReleaseUnlink(a)] == [ReleaseRead(a), ReleaseUnlink(a)];
    next := FreeLockIsTaken(Play(s, [ReleaseRead(a), ReleaseUnlink(a)]), b);
  }

  /** A release whose unlink fails leaves a holder that can release again. */
  lemma FailedReleaseIsRetried(states: seq<State>, a: Attempt)
    requires Run(states)
    requires var s := states[|states| - 1]; s.Alive(a) && s.Pc(a).Releasing?
    ensures var s := states[|states| - 1];
            && Plays(s, [ReleaseFails(a)]) && Play(s, [ReleaseFails(a)]).Holds(a)
            && var steps := [ReleaseFails(a), ReleaseRead(a), ReleaseUnlink(a)];
               Plays(s, steps) && Play(s, steps).canonical.Absent? && Play(s, steps).Pc(a).Released?
  {
    RunInv(states);
    var s := states[|states| - 1];
    PlayNext(s, [], ReleaseFails(a));
    assert [] + [ReleaseFails(a)] == [ReleaseFails(a)];
    PlayNext(s, [ReleaseFails(a)], ReleaseRead(a));
    PlayNext(s, [ReleaseFails(a), ReleaseRead(a)], ReleaseUnlink(a));
  }

  /** A publication that could not be made durable takes its link away again. */
  lemma FailedPublicationIsUndone(states: seq<State>, a: Attempt)
    requires Run(states)
    requires var s := states[|states| - 1]; s.Alive(a) && s.Pc(a).Linked?
    ensures var s := states[|states| - 1];
            var steps := [PublishSyncFails(a), InspectOwnLink(a), RemoveOwnLink(a)];
            Plays(s, steps) && Play(s, steps).canonical.Absent? && Play(s, steps).Pc(a).Failed?
  {
    RunInv(states);
    var s := states[|states| - 1];
    PlayNext(s, [], PublishSyncFails(a));
    PlayNext(s, [PublishSyncFails(a)], InspectOwnLink(a));
    PlayNext(s, [PublishSyncFails(a), InspectOwnLink(a)], RemoveOwnLink(a));
  }

  // --- takeover

  /** Nobody claims over its own record: the claimant lives and the owner is dead. */
  ghost predicate ClaimsForeign(s: State) {
    forall p <- s.claims | s.claims[p].SymlinkClaim? :: s.claims[p].owner != p.stale
  }

  lemma StepKeepsForeign(s: State, step: Step)
    requires Inv(s) && ClaimsForeign(s) && Enabled(s, step)
    ensures ClaimsForeign(Effect(s, step))
  {
    if step.CreateClaim? {
      assert KnowsOf(s, step.a, s.pc[step.a]);
    }
  }

  lemma {:induction false} RunForeign(states: seq<State>)
    requires Run(states)
    ensures ClaimsForeign(states[|states| - 1])
  {
    var n := |states| - 1;
    if n > 0 {
      assert Run(states[..n]);
      RunForeign(states[..n]);
      RunInv(states[..n]);
      assert Next(states[n - 1], states[n]);
      var step :| Enabled(states[n - 1], step) && states[n] == Effect(states[n - 1], step);
      StepKeepsForeign(states[n - 1], step);
    }
  }

  type Claims = map<ClaimPath, Claim>

  function Successor(c: Claims, p: ClaimPath): ClaimPath
    requires p in c
  {
    Recovery(p.stale, c[p].owner)
  }

  /** Two claims of one chain have different successors. */
  lemma SuccessorsDiffer(s: State, p: ClaimPath, q: ClaimPath)
    requires ClaimsOwned(s) && ClaimsForeign(s)
    requires p in s.claims && q in s.claims && p.stale == q.stale && Successor(s.claims, p) == Successor(s.claims, q)
    ensures p == q
  {}

  /** Every claim over `e` is readable and its claimant dead. */
  predicate DeadChain(s: State, e: Attempt) {
    forall p | p in s.claims && p.stale == e :: Readable(s, e, p) && !s.Alive(s.claims[p].owner)
  }

  /** The walk so far: each path it went past is a claim over `e`, and each of them and
      the next path is the root or the successor of one it went past. */
  ghost predicate Walked(c: Claims, e: Attempt, path: ClaimPath, visited: set<ClaimPath>) {
    && (forall p <- visited :: p in c && p.stale == e)
    && path.stale == e && path !in visited
    && (forall p | p in visited + {path} :: p == Root(e) || exists q :: q in visited && p == Successor(c, q))
    && (forall q <- visited :: Successor(c, q) in visited + {path})
  }

  lemma WalkGoesOn(s: State, e: Attempt, path: ClaimPath, visited: set<ClaimPath>)
    requires ClaimsOwned(s) && ClaimsForeign(s) && Walked(s.claims, e, path, visited) && path in s.claims
    ensures Walked(s.claims, e, Successor(s.claims, path), visited + {path})
  {
    var next := Successor(s.claims, path);
    if next in visited + {path} {
      var q :| q in visited && next == Successor(s.claims, q);
      SuccessorsDiffer(s, path, q);
    }
  }

  /** What taking over changes until the unlink: the attempt's own place. */
  function Placed(s: State, b: Attempt, pc: Pc): State { s.(pc := s.pc[b := pc]) }

  lemma PassClaim(s: State, b: Attempt, e: Attempt, path: ClaimPath, visited: set<ClaimPath>) returns (steps: seq<Step>)
    requires s.Alive(b) && s.Pc(b) == Claiming(e, path, visited) && path in s.claims && path !in visited && path.stale == e
    requires Readable(s, e, path) && !s.Alive(s.claims[path].owner)
    ensures Plays(s, steps) && ByOne(steps, b)
    ensures Play(s, steps) == Placed(s, b, Claiming(e, Successor(s.claims, path), visited + {path}))
  {
    steps := [];
    PlayNext(s, steps, CreateClaim(b)); steps := steps + [CreateClaim(b)];
    PlayNext(s, steps, ReadClaim(b)); steps := steps + [ReadClaim(b)];
    PlayNext(s, steps, JudgeClaimStale(b)); steps := steps + [JudgeClaimStale(b)];
    assert Play(s, steps).pc == s.pc[b := Claiming(e, Successor(s.claims, path), visited + {path})];
  }

  lemma ClaimAndUnlink(s: State, b: Attempt, e: Attempt, path: ClaimPath, visited: set<ClaimPath>) returns (steps: seq<Step>)
    requires s.Alive(b) && s.Pc(b) == Claiming(e, path, visited) && path !in s.claims && path !in visited
    requires s.canonical == Lock(e)
    ensures Plays(s, steps) && ByOne(steps, b)
    ensures var t := Play(s, steps); t.canonical.Absent? && t.Alive(b) && t.Pc(b) == Linking(true)
  {
    steps := [];
    PlayNext(s, steps, CreateClaim(b)); steps := steps + [CreateClaim(b)];
    PlayNext(s, steps, Recheck(b)); steps := steps + [Recheck(b)];
    PlayNext(s, steps, UnlinkStale(b, true)); steps := steps + [UnlinkStale(b, true)];
  }

  lemma Republish(s: State, b: Attempt) returns (steps: seq<Step>)
    requires s.Alive(b) && s.Pc(b) == Linking(true) && s.canonical.Absent?
    ensures Plays(s, steps) && ByOne(steps, b) && Play(s, steps).Holds(b)
  {
    steps := [];
    PlayNext(s, steps, LinkCanonical(b)); steps := steps + [LinkCanonical(b)];
    PlayNext(s, steps, PublishedDurably(b)); steps := steps + [PublishedDurably(b)];
    PlayNext(s, steps, VerifyOwn(b)); steps := steps + [VerifyOwn(b)];
  }

  lemma ReplaceOwner(s: State, b: Attempt, e: Attempt, path: ClaimPath, visited: set<ClaimPath>) returns (steps: seq<Step>)
    requires s.Alive(b) && s.Pc(b) == Claiming(e, path, visited) && path !in s.claims && path !in visited
    requires s.canonical == Lock(e)
    ensures Plays(s, steps) && ByOne(steps, b) && Play(s, steps).Holds(b)
  {
    var claim := ClaimAndUnlink(s, b, e, path, visited);
    var publish := Republish(Play(s, claim), b);
    PlayOn(s, claim, publish);
    steps := claim + publish;
  }

  lemma SameClaimsKept(s: State, t: State, b: Attempt, e: Attempt)
    requires t == Placed(s, b, t.Pc(b)) && b in t.pc
    requires ClaimsOwned(s) && ClaimsForeign(s) && DeadChain(s, e)
    requires forall p <- s.claims | s.claims[p].SymlinkClaim? :: s.claims[p].owner != b
    ensures ClaimsOwned(t) && ClaimsForeign(t) && DeadChain(t, e)
  {}

  ghost predicate Walking(s: State, b: Attempt, e: Attempt, path: ClaimPath, visited: set<ClaimPath>) {
    && s.Alive(b) && s.Pc(b) == Claiming(e, path, visited) && s.canonical == Lock(e)
    && ClaimsOwned(s) && ClaimsForeign(s) && DeadChain(s, e) && Walked(s.claims, e, path, visited)
  }

  lemma WalkOn(s: State, b: Attempt, e: Attempt, path: ClaimPath, visited: set<ClaimPath>) returns (steps: seq<Step>)
    requires Walking(s, b, e, path, visited) && path in s.claims
    ensures Plays(s, steps) && ByOne(steps, b) && Play(s, steps).claims == s.claims
    ensures Walking(Play(s, steps), b, e, Successor(s.claims, path), visited + {path})
  {
    steps := PassClaim(s, b, e, path, visited);
    WalkGoesOn(s, e, path, visited);
    SameClaimsKept(s, Play(s, steps), b, e);
  }

  lemma {:induction false} WalkAndReplace(s: State, b: Attempt, e: Attempt, path: ClaimPath, visited: set<ClaimPath>) returns (steps: seq<Step>)
    requires Walking(s, b, e, path, visited)
    ensures Plays(s, steps) && ByOne(steps, b) && Play(s, steps).Holds(b)
    decreases s.claims.Keys - visited
  {
    if path in s.claims {
      var pass := WalkOn(s, b, e, path, visited);
      var rest := WalkAndReplace(Play(s, pass), b, e, Successor(s.claims, path), visited + {path});
      PlayOn(s, pass, rest);
      steps := pass + rest;
    } else {
      steps := ReplaceOwner(s, b, e, path, visited);
    }
  }

  lemma MeetDeadOwner(s: State, b: Attempt, e: Attempt) returns (steps: seq<Step>)
    requires s.Alive(b) && s.Pc(b).Idle? && s.canonical == Lock(e) && !s.Alive(e)
    ensures Plays(s, steps) && ByOne(steps, b)
    ensures Play(s, steps) == Placed(s, b, Claiming(e, Root(e), {}))
  {
    steps := [];
    PlayNext(s, steps, Begin(b)); steps := steps + [Begin(b)];
    PlayNext(s, steps, LinkCanonical(b)); steps := steps + [LinkCanonical(b)];
    PlayNext(s, steps, ReadExisting(b)); steps := steps + [ReadExisting(b)];
    PlayNext(s, steps, JudgeStale(b)); steps := steps + [JudgeStale(b)];
    assert Play(s, steps).pc == s.pc[b := Claiming(e, Root(e), {})];
  }

  /** A dead owner is always replaced: after any run, a live attempt that has not begun
      gets the lock by steps of its own alone, however long the chain of dead claimants
      over that owner is, if their claims are readable. */
  lemma DeadOwnerIsReplaced(states: seq<State>, b: Attempt, e: Attempt) returns (steps: seq<Step>)
    requires Run(states)
    requires var s := states[|states| - 1];
             s.Alive(b) && s.Pc(b).Idle? && s.canonical == Lock(e) && !s.Alive(e) && DeadChain(s, e)
    ensures Plays(states[|states| - 1], steps) && ByOne(steps, b) && Play(states[|states| - 1], steps).Holds(b)
  {
    RunInv(states);
    RunForeign(states);
    var s := states[|states| - 1];
    var meet := MeetDeadOwner(s, b, e);
    var t := Play(s, meet);
    SameClaimsKept(s, t, b, e);
    var walk := WalkAndReplace(t, b, e, Root(e), {});
    PlayOn(s, meet, walk);
    steps := meet + walk;
  }
}
