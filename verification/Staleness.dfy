/** The staleness verdict on an owner record, against a world of hosts, boots and
    processes in which process ids are reused and machines reboot. */
module Staleness {

  datatype Option<T> = None | Some(value: T)

  /** One life of one process, with its start as each of the two trusted schemes
      writes it. */
  datatype Incarnation = Incarnation(serial: nat, host: string, boot: string, pid: nat, linuxStart: string, darwinStart: string)

  datatype Record =
    | Legacy(nonce: string, pid: nat)
    | Versioned(nonce: string, pid: nat, hostId: string, bootId: string, processStartId: string)

  /** What one verdict observed.  `identity` is None when it could not be established,
      `start` is None when the host reported no start identity for the pid. */
  datatype Observation = Observation(identity: Option<(string, string)>, start: Option<string>, alive: bool)

  const TRUSTED_SCHEMES: seq<string> := ["linux-start-ticks:", "darwin-ps-start-utc:"]

  predicate StartsWith(s: string, prefix: string) { |prefix| <= |s| && s[..|prefix|] == prefix }

  /** The first trusted scheme a start identity is written in. */
  function SchemeOf(s: string): Option<string> {
    if StartsWith(s, TRUSTED_SCHEMES[0]) then Some(TRUSTED_SCHEMES[0])
    else if StartsWith(s, TRUSTED_SCHEMES[1]) then Some(TRUSTED_SCHEMES[1])
    else None
  }

  predicate CompatibleProcessStartSchemes(recorded: string, current: string) {
    SchemeOf(recorded).Some? && SchemeOf(recorded) == SchemeOf(current)
  }

  predicate DefinitelyStale(record: Record, o: Observation) {
    match record
    case Legacy(_, _) => !o.alive
    case Versioned(_, _, host, boot, start) =>
      if o.identity.None? then false
      else if host != o.identity.value.0 then false
      else if boot != o.identity.value.1 then true
      else if o.start.Some? && o.start.value != start && CompatibleProcessStartSchemes(start, o.start.value) then true
      else !o.alive
  }

  // ---------------------------------------------------------------------------
  // Start identities in the world

  /** A start identity that a host gives for a life. Only the two trusted schemes pin
      it down; any other text may be given for any life, and for one life in many ways. */
  predicate Names(text: string, i: Incarnation) {
    && (StartsWith(text, "linux-start-ticks:") ==> text == i.linuxStart)
    && (StartsWith(text, "darwin-ps-start-utc:") ==> text == i.darwinStart)
  }

  /** Both texts are written in the same trusted scheme. */
  predicate InOneScheme(a: string, b: string) {
    || (StartsWith(a, "linux-start-ticks:") && StartsWith(b, "linux-start-ticks:"))
    || (StartsWith(a, "darwin-ps-start-utc:") && StartsWith(b, "darwin-ps-start-utc:"))
  }

  lemma CompatibleExactly(a: string, b: string)
    ensures CompatibleProcessStartSchemes(a, b) <==> InOneScheme(a, b)
  {
    assert TRUSTED_SCHEMES[0][0] == 'l' && TRUSTED_SCHEMES[1][0] == 'd';
    assert StartsWith(a, TRUSTED_SCHEMES[0]) ==> a[0] == 'l';
    assert StartsWith(b, TRUSTED_SCHEMES[0]) ==> b[0] == 'l';
    assert StartsWith(a, TRUSTED_SCHEMES[1]) ==> a[0] == 'd';
    assert StartsWith(b, TRUSTED_SCHEMES[1]) ==> b[0] == 'd';
  }

  /** While the pid is alive on the own host and boot, and a start is reported, the
      verdict is exactly that the starts differ within one trusted scheme. */
  lemma VerdictByStart(record: Record, o: Observation)
    requires record.Versioned? && o.identity == Some((record.hostId, record.bootId)) && o.alive && o.start.Some?
    ensures DefinitelyStale(record, o) <==> o.start.value != record.processStartId && InOneScheme(record.processStartId, o.start.value)
  {
    CompatibleExactly(record.processStartId, o.start.value);
  }

  // ---------------------------------------------------------------------------
  // The world

  datatype World = World(boots: map<string, string>, oldBoots: set<(string, string)>,
                         running: set<Incarnation>, started: set<Incarnation>)

  ghost predicate WorldOk(w: World) {
    && w.running <= w.started
    && (forall i <- w.running :: i.host in w.boots && w.boots[i.host] == i.boot)
    && (forall i <- w.started :: (i.host in w.boots && w.boots[i.host] == i.boot) || (i.host, i.boot) in w.oldBoots)
    && (forall h <- w.boots :: (h, w.boots[h]) !in w.oldBoots)
    && (forall i, j | i in w.running && j in w.running && i.host == j.host && i.pid == j.pid :: i == j)
  }

  datatype Event =
    | Start(i: Incarnation)
    | Exit(i: Incarnation)
    | Reboot(host: string, boot: string)

  predicate Possible(w: World, e: Event) {
    match e
    case Start(i) =>
      && i !in w.started && i.host in w.boots && w.boots[i.host] == i.boot
      && forall j <- w.running :: !(j.host == i.host && j.pid == i.pid)
    case Exit(i) => i in w.running
    case Reboot(h, b) => (h, b) !in w.oldBoots && (h in w.boots ==> w.boots[h] != b)
  }

  function After(w: World, e: Event): World {
    match e
    case Start(i) => w.(running := w.running + {i}, started := w.started + {i})
    case Exit(i) => w.(running := w.running - {i})
    case Reboot(h, b) =>
      w.(boots := w.boots[h := b],
         oldBoots := if h in w.boots then w.oldBoots + {(h, w.boots[h])} else w.oldBoots,
         running := set i | i in w.running && i.host != h)
  }

  /** `w` is followed by `v` after the events, one at a time. */
  ghost predicate Leads(w: World, events: seq<Event>, v: World)
    decreases |events|
  {
    if events == [] then v == w
    else Possible(w, events[0]) && Leads(After(w, events[0]), events[1..], v)
  }

  /** An ended life stays ended, whatever reuses its pid and however often the host reboots. */
  lemma {:induction false} DeathIsFinal(w: World, events: seq<Event>, v: World, i: Incarnation)
    requires WorldOk(w) && Leads(w, events, v)
    ensures WorldOk(v) && w.started <= v.started
    ensures i in w.started && i !in w.running ==> i !in v.running
    ensures forall h | h in w.boots :: h in v.boots && (v.boots[h] == w.boots[h] || (h, w.boots[h]) in v.oldBoots)
    ensures w.oldBoots <= v.oldBoots
    decreases |events|
  {
    if events != [] {
      DeathIsFinal(After(w, events[0]), events[1..], v, i);
    }
  }

  // ---------------------------------------------------------------------------
  // Truthful observation by a process of host `h`

  ghost predicate TruthfulIdentity(w: World, h: string, o: Observation) {
    o.identity.Some? ==> h in w.boots && o.identity.value == (h, w.boots[h])
  }

  ghost predicate TruthfulStart(w: World, h: string, pid: nat, o: Observation) {
    o.start.Some? ==> exists j :: j in w.running && j.host == h && j.pid == pid && Names(o.start.value, j)
  }

  /** A pid is reported dead only when no process of the host has it. */
  ghost predicate TruthfulLiveness(w: World, h: string, pid: nat, o: Observation) {
    !o.alive ==> forall j <- w.running :: !(j.host == h && j.pid == pid)
  }

  /** The record was written by incarnation `i`, about itself. */
  predicate Describes(record: Record, i: Incarnation) {
    && record.pid == i.pid
    && (record.Versioned? ==> record.hostId == i.host && record.bootId == i.boot && Names(record.processStartId, i))
  }

  /** The three observations are made one after the other while the world moves on:
      a verdict of stale means that the recorded process is gone, and stays gone.
      The one demand beyond truthfulness is that a record without a host field was
      written on the observer's host. */
  lemma StaleIsDead(w0: World, e0: seq<Event>, w1: World, e1: seq<Event>, w2: World, later: seq<Event>, w3: World,
                    h: string, record: Record, i: Incarnation, o: Observation)
    requires WorldOk(w0) && Leads(w0, e0, w1) && Leads(w1, e1, w2) && Leads(w2, later, w3)
    requires i in w0.started && Describes(record, i)
    requires TruthfulIdentity(w0, h, o) && TruthfulStart(w1, h, record.pid, o) && TruthfulLiveness(w2, h, record.pid, o)
    requires DefinitelyStale(record, o)
    requires record.Legacy? ==> i.host == h
    ensures i !in w2.running && i !in w3.running
  {
    if record.Versioned? && o.start.Some? {
      CompatibleExactly(record.processStartId, o.start.value);
    }
    DeathIsFinal(w0, e0, w1, i);
    DeathIsFinal(w1, e1, w2, i);
    DeathIsFinal(w2, later, w3, i);
  }

  /** A legacy verdict is sound for every world and every truthful observation
      exactly when its author's host is the observer's. */
  ghost predicate LegacySound(h: string, i: Incarnation) {
    forall w, o, nonce ::
      WorldOk(w) && i in w.started && TruthfulLiveness(w, h, i.pid, o) && DefinitelyStale(Legacy(nonce, i.pid), o)
      ==> i !in w.running
  }

  lemma LegacySoundExactlyOnItsHost(h: string, i: Incarnation)
    ensures LegacySound(h, i) <==> i.host == h
  {
    if i.host != h {
      var w := World(map[i.host := i.boot], {}, {i}, {i});
      var o := Observation(None, None, false);
      assert WorldOk(w) && TruthfulLiveness(w, h, i.pid, o) && DefinitelyStale(Legacy("n", i.pid), o);
    }
  }

  /** No two lives under one pid have the same start in a trusted scheme. */
  ghost predicate DistinctStarts(w: World) {
    forall j, k | j in w.started && k in w.started && j.host == k.host && j.boot == k.boot && j.pid == k.pid ::
      j.linuxStart == k.linuxStart || j.darwinStart == k.darwinStart ==> j == k
  }

  /** With complete observations a versioned verdict on its own host is exactly
      death, so it never flips back. */
  lemma CompleteVerdictIsExact(w: World, h: string, record: Record, i: Incarnation, o: Observation)
    requires WorldOk(w) && i in w.started && record.Versioned? && Describes(record, i) && i.host == h
    requires h in w.boots && o.identity == Some((h, w.boots[h]))
    requires TruthfulStart(w, h, record.pid, o)
    requires o.alive <==> exists j :: j in w.running && j.host == h && j.pid == record.pid
    // the host reports a start identity of the recorded scheme
    requires o.alive && w.boots[h] == i.boot ==> o.start.Some? && InOneScheme(record.processStartId, o.start.value)
    requires DistinctStarts(w)
    ensures DefinitelyStale(record, o) <==> i !in w.running
  {
    if o.start.Some? {
      CompatibleExactly(record.processStartId, o.start.value);
    }
  }

  // ---------------------------------------------------------------------------
  // Whether a verdict once given is given again

  ghost predicate PidLives(w: World, h: string, pid: nat) { exists j :: j in w.running && j.host == h && j.pid == pid }

  /** A later look that reports liveness of the pid completely; what it cannot
      establish about host, boot and start identity it leaves out. */
  ghost predicate LaterLook(w: World, h: string, pid: nat, o: Observation) {
    TruthfulIdentity(w, h, o) && TruthfulStart(w, h, pid, o) && (o.alive <==> PidLives(w, h, pid))
  }

  /** What the later look can tell the recorded life apart by, even if its pid lives. */
  predicate Separates(record: Record, boot: string, o: Observation) {
    record.Versioned? &&
    (boot != record.bootId ||
     (o.start.Some? && o.start.value != record.processStartId && InOneScheme(record.processStartId, o.start.value)))
  }

  lemma StaleIsLocal(w: World, h: string, record: Record, i: Incarnation, o: Observation)
    requires Describes(record, i) && TruthfulIdentity(w, h, o) && DefinitelyStale(record, o)
    requires record.Legacy? ==> i.host == h
    ensures i.host == h
    ensures record.Versioned? ==> h in w.boots
  {}

  /** A verdict of stale, once given, is withheld later, after any number of starts,
      exits and reboots, exactly when a versioned record meets an observer that cannot
      establish its own host and boot, or the dead owner's pid lives again on the host
      and neither boot nor start identity separates the two lives. The death itself
      stands in either case. */
  lemma WithheldLaterExactly(w: World, events: seq<Event>, v: World, h: string, record: Record, i: Incarnation, o: Observation, o': Observation)
    requires WorldOk(w) && Leads(w, events, v) && i in w.started && Describes(record, i)
    requires record.Legacy? ==> i.host == h && h in w.boots
    requires TruthfulIdentity(w, h, o) && TruthfulStart(w, h, record.pid, o) && TruthfulLiveness(w, h, record.pid, o)
    requires DefinitelyStale(record, o) && LaterLook(v, h, record.pid, o')
    ensures i !in v.running && h in v.boots
    ensures !DefinitelyStale(record, o') <==>
              (record.Versioned? && o'.identity.None?) ||
              ((exists j :: j in v.running && j != i && j.host == h && j.pid == record.pid) && !Separates(record, v.boots[h], o'))
  {
    StaleIsLocal(w, h, record, i, o);
    if record.Versioned? && o'.start.Some? {
      CompatibleExactly(record.processStartId, o'.start.value);
    }
    StaleIsDead(w, [], w, [], w, events, v, h, record, i, o);
    DeathIsFinal(w, events, v, i);
    assert PidLives(v, h, record.pid) <==> exists j :: j in v.running && j != i && j.host == h && j.pid == record.pid;
  }

  /** Without a start identity to compare, the verdict itself is not stable: the
      pid of a dead legacy owner is reused and the second verdict is withheld.
      The fact it rested on is unaffected. */
  lemma LegacyVerdictMayBeWithdrawn()
    ensures exists w, e, i, o, o' ::
      && WorldOk(w) && Possible(w, e) && i in w.started && Describes(Legacy("n", i.pid), i)
      && TruthfulLiveness(w, i.host, i.pid, o) && DefinitelyStale(Legacy("n", i.pid), o)
      && TruthfulLiveness(After(w, e), i.host, i.pid, o') && !DefinitelyStale(Legacy("n", i.pid), o')
      && i !in After(w, e).running
  {
    var i := Incarnation(0, "h", "b", 7, "linux-start-ticks:1", "");
    var j := Incarnation(1, "h", "b", 7, "linux-start-ticks:2", "");
    var w := World(map["h" := "b"], {}, {}, {i});
    var o, o' := Observation(None, None, false), Observation(None, None, true);
    assert WorldOk(w) && Possible(w, Start(j)) && i in w.started && Describes(Legacy("n", i.pid), i)
      && TruthfulLiveness(w, i.host, i.pid, o) && DefinitelyStale(Legacy("n", i.pid), o)
      && TruthfulLiveness(After(w, Start(j)), i.host, i.pid, o') && !DefinitelyStale(Legacy("n", i.pid), o')
      && i !in After(w, Start(j)).running;
  }
}
