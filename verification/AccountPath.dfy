/** Resolving a path through its deepest existing ancestor while other processes may
    create and remove what is being looked at. */
module AccountPath {

  datatype Option<T> = None | Some(value: T)

  /** An absolute path, component by component; the root is the empty one. */
  type Path = seq<string>

  datatype Real = At(path: Path) | Enoent | OtherError

  datatype Kind = Nothing | Link | File | Directory | Special | Unreadable

  /** What the two system calls of the n-th round answer. */
  type RealPath = (nat, Path) -> Real
  type Lstat = (nat, Path) -> Kind

  const MAX_REOBSERVATIONS := 3

  predicate Missing(phys: RealPath, stat: Lstat, n: nat, p: Path) { phys(n, p).Enoent? && stat(n, p).Nothing? }

  ghost predicate SeenMissing(phys: RealPath, stat: Lstat, p: Path) { exists n :: Missing(phys, stat, n, p) }

  /** What `target` resolves to by way of the ancestor with `k` components. */
  ghost predicate ResolvesThrough(phys: RealPath, stat: Lstat, target: Path, k: nat, r: Path) {
    && k <= |target|
    && (exists n :: phys(n, target[..k]).At? && r == phys(n, target[..k]).path + target[k..])
    && forall j | k < j <= |target| :: SeenMissing(phys, stat, target[..j])
  }

  // --- on a disk that does not change

  predicate Gone(phys: RealPath, stat: Lstat, p: Path) { Missing(phys, stat, 0, p) }

  function Physical(phys: RealPath, stat: Lstat, t: Path): Option<Path>
    decreases |t|
  {
    if phys(0, t).At? then Some(phys(0, t).path)
    else if t != [] && Gone(phys, stat, t) then
      match Physical(phys, stat, t[..|t| - 1])
      case Some(parent) => Some(parent + [t[|t| - 1]])
      case None => None
    else None
  }

  ghost predicate Frozen(phys: RealPath, stat: Lstat) {
    forall n, p :: phys(n, p) == phys(0, p) && stat(n, p) == stat(0, p)
  }

  function Appended(p: Option<Path>, rest: Path): Option<Path> { if p.Some? then Some(p.value + rest) else None }

  lemma AppendedNothing(p: Option<Path>)
    ensures Appended(p, []) == p
  {
    if p.Some? {
      assert p.value + [] == p.value;
    }
  }

  lemma PhysicalOfMissing(phys: RealPath, stat: Lstat, t: Path, rest: Path)
    requires t != [] && Gone(phys, stat, t)
    ensures Appended(Physical(phys, stat, t), rest) == Appended(Physical(phys, stat, t[..|t| - 1]), [t[|t| - 1]] + rest)
  {
    var parent := Physical(phys, stat, t[..|t| - 1]);
    if parent.Some? {
      assert parent.value + [t[|t| - 1]] + rest == parent.value + ([t[|t| - 1]] + rest);
    }
  }

  // --- the rounds of one resolution

  /** One round: where it looked and what the calls answered. */
  datatype Look = Look(path: Path, resolved: Real, kind: Kind)

  /** The rounds so far, the latest one outermost. */
  datatype Looks = NoLook | Then(before: Looks, look: Look)

  /** What may have appeared since it did not resolve is looked at once more. */
  predicate Reobserved(l: Look) { l.resolved.Enoent? && (l.kind.File? || l.kind.Directory?) }

  predicate SeenAbsent(l: Look) { l.resolved.Enoent? && l.kind.Nothing? && l.path != [] }

  function Count(h: Looks): nat { if h.NoLook? then 0 else Count(h.before) + 1 }

  function Reobservations(h: Looks): nat {
    if h.NoLook? then 0 else Reobservations(h.before) + if Reobserved(h.look) then 1 else 0
  }

  /** Where to look next: at the parent of what is absent, or again at what has appeared. */
  predicate LeadsTo(target: Path, h: Looks, next: Path) {
    if h.NoLook? then next == target
    else (SeenAbsent(h.look) && next == h.look.path[..|h.look.path| - 1]) || (Reobserved(h.look) && next == h.look.path)
  }

  /** Each round asks the disk as it then is, and at most three times is one repeated. */
  predicate Rounds(phys: RealPath, stat: Lstat, target: Path, h: Looks) {
    h.Then? ==>
      && Rounds(phys, stat, target, h.before) && Reobservations(h.before) <= 3
      && LeadsTo(target, h.before, h.look.path)
      && h.look.resolved == phys(Count(h.before), h.look.path) && h.look.kind == stat(Count(h.before), h.look.path)
  }

  /** Why the last round refuses: it cannot go on, or may not look again. */
  predicate Refuses(h: Looks)
    requires h.Then?
  {
    !h.look.resolved.At? && !SeenAbsent(h.look) && (Reobserved(h.look) ==> Reobservations(h.before) == 3)
  }

  /** Every round looks at an ancestor, behind components each of which was seen missing,
      and there are no more rounds than that takes. */
  lemma {:induction false} RoundsDescend(phys: RealPath, stat: Lstat, target: Path, h: Looks)
    requires Rounds(phys, stat, target, h) && h.Then?
    ensures var current := h.look.path;
            && |current| <= |target| && current == target[..|current|]
            && Count(h.before) == |target| - |current| + Reobservations(h.before)
            && forall j | |current| < j <= |target| :: SeenMissing(phys, stat, target[..j])
  {
    if h.before.Then? {
      RoundsDescend(phys, stat, target, h.before);
      var l := h.before.look;
      if SeenAbsent(l) {
        assert Missing(phys, stat, Count(h.before.before), l.path);
        assert l.path[..|l.path| - 1] == target[..|l.path| - 1];
      }
    }
  }

  lemma {:induction false} RoundsOfFrozen(phys: RealPath, stat: Lstat, target: Path, h: Looks)
    requires Rounds(phys, stat, target, h) && h.Then? && Frozen(phys, stat)
    ensures var current := h.look.path;
            |current| <= |target| && Physical(phys, stat, target) == Appended(Physical(phys, stat, current), target[|current|..])
  {
    RoundsDescend(phys, stat, target, h);
    if h.before.NoLook? {
      assert target[|target|..] == [];
      AppendedNothing(Physical(phys, stat, target));
    } else {
      var p := h.before.look.path;
      RoundsDescend(phys, stat, target, h.before);
      RoundsOfFrozen(phys, stat, target, h.before);
      if SeenAbsent(h.before.look) {
        PhysicalOfMissing(phys, stat, p, target[|p|..]);
        assert target[|p| - 1..] == [p[|p| - 1]] + target[|p|..];
      }
    }
  }

  /** Within three rounds more than the path has components, whatever appears and
      disappears, the loop ends; what it resolves is a real ancestor followed by
      components each of which was seen missing. It goes on exactly past what is absent
      and, three times in all, past files and directories that have just appeared, and
      never past a link or anything else. */
  method Physicalize(phys: RealPath, stat: Lstat, target: Path) returns (r: Option<Path>, ghost looks: Looks)
    ensures Rounds(phys, stat, target, looks) && looks.Then? && Count(looks) <= |target| + 1 + MAX_REOBSERVATIONS
    ensures r.None? ==> Refuses(looks)
    ensures r.Some? ==> looks.look.resolved.At? && ResolvesThrough(phys, stat, target, |looks.look.path|, r.value)
    ensures Frozen(phys, stat) ==> r == Physical(phys, stat, target)
  {
    r, looks := Resolve(phys, stat, target);
    RoundsDescend(phys, stat, target, looks);
    if Frozen(phys, stat) {
      RoundsOfFrozen(phys, stat, target, looks);
    }
  }

  lemma Climbs(target: Path, k: nat)
    requires 0 < k <= |target|
    ensures target[..k][..k - 1] == target[..k - 1] && [target[..k][k - 1]] + target[k..] == target[k - 1..]
  {}

  method Resolve(phys: RealPath, stat: Lstat, target: Path) returns (r: Option<Path>, ghost looks: Looks)
    ensures Rounds(phys, stat, target, looks) && looks.Then?
    ensures match looks.look.resolved
            case At(p) => |looks.look.path| <= |target| && r == Some(p + target[|looks.look.path|..])
            case _ => r.None? && Refuses(looks)
  {
    var current := target;
    var missing: Path := [];
    var reobservations := 0;
    var n := 0;
    ghost var before := NoLook;
    while true
      invariant |current| <= |target| && current == target[..|current|] && missing == target[|current|..]
      invariant Count(before) == n && reobservations == Reobservations(before) <= MAX_REOBSERVATIONS
      invariant Rounds(phys, stat, target, before) && LeadsTo(target, before, current)
      decreases |current|, MAX_REOBSERVATIONS - reobservations
    {
      looks := Then(before, Look(current, phys(n, current), stat(n, current)));
      match phys(n, current) {
        case At(p) => return Some(p + missing), looks;
        case OtherError => return None, looks;
        case Enoent =>
          var stats := stat(n, current);
          if stats.Unreadable? { return None, looks; }
          if !stats.Nothing? {
            if stats.Link? || (!stats.File? && !stats.Directory?) || reobservations >= MAX_REOBSERVATIONS {
              return None, looks;
            }
            reobservations := reobservations + 1;
          } else {
            if current == [] { return None, looks; }
            Climbs(target, |current|);
            missing := [current[|current| - 1]] + missing;
            current := current[..|current| - 1];
          }
          n := n + 1;
          before := looks;
      }
    }
  }

  /** A disk as directories make it: a real path is its own real path, an entry missing
      from a directory is missing by the directory's real path too, and below what is
      missing everything is. */
  ghost predicate Coherent(phys: RealPath, stat: Lstat) {
    && (forall p | phys(0, p).At? :: phys(0, phys(0, p).path) == phys(0, p))
    && (forall p, x | phys(0, p).At? && Gone(phys, stat, p + [x]) :: Gone(phys, stat, phys(0, p).path + [x]))
    && (forall p, x | Gone(phys, stat, p) :: Gone(phys, stat, p + [x]))
  }

  lemma {:induction false} PhysicalIsFixed(phys: RealPath, stat: Lstat, t: Path)
    requires Coherent(phys, stat) && Physical(phys, stat, t).Some?
    ensures var u := Physical(phys, stat, t).value;
            && Physical(phys, stat, u) == Some(u)
            && (Gone(phys, stat, t) ==> Gone(phys, stat, u))
    decreases |t|
  {
    if !phys(0, t).At? {
      var p, x := t[..|t| - 1], t[|t| - 1];
      assert t == p + [x];
      PhysicalIsFixed(phys, stat, p);
      var v := Physical(phys, stat, p).value;
      assert Gone(phys, stat, v + [x]);
      assert (v + [x])[..|v|] == v;
    }
  }

  /** On an unchanging disk, resolving what was resolved changes nothing. */
  lemma PhysicalIsIdempotent(phys: RealPath, stat: Lstat, t: Path)
    requires Coherent(phys, stat) && Physical(phys, stat, t).Some?
    ensures Physical(phys, stat, Physical(phys, stat, t).value) == Physical(phys, stat, t)
  {
    PhysicalIsFixed(phys, stat, t);
  }
}
