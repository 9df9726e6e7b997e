/** What an accepted preflight promises for a base that is not known yet: the
    placeholder it is measured with is shorter than a commit id. */
module PacketBase {
  import opened Packet
  import opened PacketBounds

  // --- how a text grows with one of its lines

  lemma {:induction false} JoinGrows(before: seq<string>, x: string, y: string, after: seq<string>)
    ensures Bytes(Join(before + [y] + after)) - Bytes(Join(before + [x] + after)) == Bytes(y) - Bytes(x)
  {
    var a, b := before + [x] + after, before + [y] + after;
    if before == [] {
      assert a[1..] == after && b[1..] == after;
      if after != [] {
        HeadBytes(a);
        HeadBytes(b);
      }
    } else {
      JoinGrows(before[1..], x, y, after);
      assert a[1..] == before[1..] + [x] + after && b[1..] == before[1..] + [y] + after;
      HeadBytes(a);
      HeadBytes(b);
    }
  }

  lemma HeadBytes(lines: seq<string>)
    requires |lines| > 1
    ensures Bytes(Join(lines)) == Bytes(lines[0]) + 1 + Bytes(Join(lines[1..]))
  {
    BytesConcat(lines[0] + "\n", Join(lines[1..]));
    BytesConcat(lines[0], "\n");
    assert Bytes("\n") == 1;
  }

  lemma FramedSplit(before: seq<string>, ws: string, br: string, z: string, after: seq<string>)
    ensures Framed(before, ws, br, z, after) == (before + [ws, br]) + [z] + after
  {}

  lemma FramedGrows(x: Wording, before: seq<string>, ws: string, br: string, base: string, base': string, after: seq<string>)
    ensures Bytes(Join(Framed(before, ws, br, x.base + base', after))) - Bytes(Join(Framed(before, ws, br, x.base + base, after))) ==
            Bytes(base') - Bytes(base)
  {
    BytesConcat(x.base, base);
    BytesConcat(x.base, base');
    FramedSplit(before, ws, br, x.base + base, after);
    FramedSplit(before, ws, br, x.base + base', after);
    JoinGrows(before + [ws, br], x.base + base, x.base + base', after);
  }

  lemma RenderedGrows(w: World, input: Input, ws: string, br: string, base: string, base': string)
    ensures Bytes(Rendered(w, Placed(input, ws, br, base'))) - Bytes(Rendered(w, Placed(input, ws, br, base))) == Bytes(base') - Bytes(base)
  {
    FramedGrows(w.words, Heading(w.words, input.kind, input.identity.runId, input.identity.target),
                w.words.workspace + ws, w.words.branch + br, base, base',
                Task(w, input.identity.execution, input.authority, input.repair));
  }

  lemma FourLines(a: string, b: string, c: string, d: string)
    ensures Bytes(Join([a, b, c, d])) == Bytes(a) + Bytes(b) + Bytes(c) + Bytes(d) + 3
  {
    HeadBytes([a, b, c, d]);
    HeadBytes([b, c, d]);
    HeadBytes([c, d]);
    assert [a, b, c, d][1..] == [b, c, d] && [b, c, d][1..] == [c, d] && [c, d][1..] == [d];
  }

  lemma Between(a: string, b: string, c: string)
    ensures Bytes(a + b + c) == Bytes(a) + Bytes(b) + Bytes(c)
  {
    BytesConcat(a + b, c);
    BytesConcat(a, b);
  }

  lemma FinalBytes(x: Wording, target: string, base: string, r: string)
    ensures Bytes(FinalText(x, target, base, r)) ==
            Bytes(x.implement + target + x.fromBase) + Bytes(base) + Bytes(".") + Bytes(x.onlyAuthority) + Bytes(x.validate) + Bytes(r) + 3
  {
    Between(x.implement + target + x.fromBase, base, ".");
    FourLines(x.implement + target + x.fromBase + base + ".", x.onlyAuthority, x.validate, r);
  }

  // --- the exact promise

  predicate FitsPlace(input: Input, ws: string, br: string) {
    FitsIn(input.identity.workspacePath, ws, WORKSPACE_PATH_BYTES) && FitsIn(input.identity.branch, br, BRANCH_BYTES)
  }

  /** The accepted packet has room for `more` bytes of base: once in the rendering and
      twice in the final text. */
  predicate HasRoom(p: Packet, more: nat) {
    Bytes(p.rendered) + more <= RENDERED_BYTES && Bytes(p.finalCliText) + 2 * more <= FINAL_CLI_BYTES
  }

  lemma AcceptedWhenSized(w: World, input: Input, ws: string, br: string, base: string)
    requires Preflight(w, input).Built? && input.identity.baseSha == "" && !Blank(base) && FitsPlace(input, ws, br)
    ensures Build(w, Placed(input, ws, br, base)).Built? <==> WithinSize(w, Placed(input, ws, br, base))
  {
    FillerFits();
    BuiltWhen(w, Placed(input, ws, br, base));
    BuiltWhen(w, Placed(input, FilledWorkspace(input), FilledBranch(input), PENDING_BASE));
    FoundedElsewhere(w, input, ws, br, base, FilledWorkspace(input), FilledBranch(input), PENDING_BASE);
  }

  lemma FinalGrows(w: World, input: Input, ws: string, br: string, base: string, base': string)
    ensures var a, b := Placed(input, ws, br, base), Placed(input, ws, br, base');
            var target := TargetText(input.identity.target);
            Bytes(FinalText(w.words, target, base', Rendered(w, b))) - Bytes(FinalText(w.words, target, base, Rendered(w, a))) ==
            2 * (Bytes(base') - Bytes(base))
  {
    var target := TargetText(input.identity.target);
    RenderedGrows(w, input, ws, br, base, base');
    FinalBytes(w.words, target, base, Rendered(w, Placed(input, ws, br, base)));
    FinalBytes(w.words, target, base', Rendered(w, Placed(input, ws, br, base')));
  }

  lemma WorstCase(w: World, input: Input, base: string)
    requires Preflight(w, input).Built? && input.identity.baseSha == "" && Bytes(base) >= Bytes(PENDING_BASE)
    ensures WithinSize(w, Placed(input, FilledWorkspace(input), FilledBranch(input), base)) <==>
            HasRoom(Preflight(w, input).packet, Bytes(base) - Bytes(PENDING_BASE))
  {
    var ws, br := FilledWorkspace(input), FilledBranch(input);
    var p := BuiltPacket(w, Placed(input, ws, br, PENDING_BASE));
    RenderedGrows(w, input, ws, br, PENDING_BASE, base);
    FinalGrows(w, input, ws, br, PENDING_BASE, base);
  }

  /** An accepted preflight covers a longer base, in every possible workspace and
      branch, exactly when the packet it accepted has room for the difference. */
  lemma BaseCoveredExactly(w: World, input: Input, base: string)
    requires Preflight(w, input).Built? && input.identity.baseSha == ""
    requires !Blank(base) && Bytes(base) >= Bytes(PENDING_BASE)
    ensures (forall ws, br | FitsPlace(input, ws, br) :: Build(w, Placed(input, ws, br, base)).Built?) <==>
            HasRoom(Preflight(w, input).packet, Bytes(base) - Bytes(PENDING_BASE))
  {
    var ws', br' := FilledWorkspace(input), FilledBranch(input);
    FilledRealises(w, input);
    assert FitsPlace(input, ws', br');
    WorstCase(w, input, base);
    AcceptedWhenSized(w, input, ws', br', base);
    if HasRoom(Preflight(w, input).packet, Bytes(base) - Bytes(PENDING_BASE)) {
      forall ws, br | FitsPlace(input, ws, br) ensures Build(w, Placed(input, ws, br, base)).Built? {
        FillerFits();
        SizeMonotone(w, input, ws, br, base, ws', br', base);
        AcceptedWhenSized(w, input, ws, br, base);
      }
    }
  }

  // --- the difference matters: every accepted input has a neighbour without that room

  /** The digest has one length, whatever it digests. */
  ghost predicate FixedDigest(w: World) { forall s, t :: Bytes(w.digest(s)) == Bytes(w.digest(t)) }

  /** The same input with `k` more characters of accepted scope. */
  function Padded(input: Input, k: nat): Input {
    input.(authority := input.authority.(scopeText := input.authority.scopeText + Repeat('s', k)))
  }

  lemma PaddedTask(w: World, e: Execution, a: Authority, repair: Option<Repair>, text: string)
    ensures var t, u := Task(w, e, a, repair), Task(w, e, a.(scopeText := text), repair);
            && |t| == |u| > 7 && t[5] == a.scopeText && u[5] == text
            && t[2] == ScopeLine(w, a) && u[2] == ScopeLine(w, a.(scopeText := text))
            && forall i | 0 <= i < |t| && i != 2 && i != 5 :: t[i] == u[i]
  {}

  lemma ScopeLineBytes(w: World, a: Authority, text: string)
    requires FixedDigest(w)
    ensures Bytes(ScopeLine(w, a.(scopeText := text))) == Bytes(ScopeLine(w, a))
  {
    var front := w.words.scope + w.words.scopeKind(a.scope) + " " + a.scopeId + w.words.updated + a.scopeUpdatedAt + w.words.sha;
    BytesConcat(front, w.digest(a.scopeText));
    BytesConcat(front, w.digest(text));
  }

  function Around(a: seq<string>, x: string, m: seq<string>, y: string, z: seq<string>): seq<string> {
    (a + [x] + m) + [y] + z
  }

  lemma FirstOfTwo(a: seq<string>, x: string, m: seq<string>, y: string, z: seq<string>)
    ensures Around(a, x, m, y, z) == a + [x] + (m + [y] + z)
  {}

  /** Two lines that change, one of them in content alone. */
  lemma TwoLinesGrow(a: seq<string>, x: string, x': string, m: seq<string>, y: string, y': string, z: seq<string>)
    requires Bytes(x) == Bytes(x')
    ensures Bytes(Join(Around(a, x', m, y', z))) - Bytes(Join(Around(a, x, m, y, z))) == Bytes(y') - Bytes(y)
  {
    FirstOfTwo(a, x, m, y, z);
    FirstOfTwo(a, x', m, y, z);
    JoinGrows(a, x, x', m + [y] + z);
    JoinGrows(a + [x'] + m, y, y', z);
  }

  lemma FramedTask(before: seq<string>, a: string, b: string, c: string, t: seq<string>)
    requires |t| > 7
    ensures Framed(before, a, b, c, t) == Around(before + [a, b, c] + t[..2], t[2], t[3..5], t[5], t[6..])
  {}

  lemma PaddedLines(before: seq<string>, a: string, b: string, c: string, t: seq<string>, u: seq<string>)
    requires |t| == |u| > 7 && Bytes(t[2]) == Bytes(u[2])
    requires forall i | 0 <= i < |t| && i != 2 && i != 5 :: t[i] == u[i]
    ensures Bytes(Join(Framed(before, a, b, c, u))) - Bytes(Join(Framed(before, a, b, c, t))) == Bytes(u[5]) - Bytes(t[5])
  {
    FramedTask(before, a, b, c, t);
    FramedTask(before, a, b, c, u);
    assert t[..2] == u[..2] && t[3..5] == u[3..5] && t[6..] == u[6..];
    TwoLinesGrow(before + [a, b, c] + t[..2], t[2], u[2], t[3..5], t[5], u[5], t[6..]);
  }

  lemma PaddedRendered(w: World, input: Input, k: nat)
    requires FixedDigest(w)
    ensures Bytes(Rendered(w, Padded(input, k))) == Bytes(Rendered(w, input)) + k
  {
    var id, a := input.identity, input.authority;
    var text := a.scopeText + Repeat('s', k);
    PaddedTask(w, id.execution, a, input.repair, text);
    ScopeLineBytes(w, a, text);
    PaddedLines(Heading(w.words, input.kind, id.runId, id.target),
                w.words.workspace + id.workspacePath, w.words.branch + id.branch, w.words.base + id.baseSha,
                Task(w, id.execution, a, input.repair), Task(w, id.execution, a.(scopeText := text), input.repair));
    BytesConcat(a.scopeText, Repeat('s', k));
    BytesRepeat('s', k);
  }

  lemma PaddedNotBlank(s: string, k: nat)
    requires !Blank(s)
    ensures !Blank(s + Repeat('s', k))
  {
    var i :| 0 <= i < |s| && !IsSpace(s[i]);
    assert (s + Repeat('s', k))[i] == s[i];
  }

  lemma PaddedFounded(w: World, input: Input, k: nat)
    requires WellFounded(w, input)
    ensures WellFounded(w, Padded(input, k))
  {
    PaddedNotBlank(input.authority.scopeText, k);
  }

  /** How much scope a packet still holds. */
  function Slack(p: Packet): int {
    var r, f := RENDERED_BYTES - Bytes(p.rendered), FINAL_CLI_BYTES - Bytes(p.finalCliText);
    if r <= f then r else f
  }

  /** A packet takes exactly as many more characters of scope as it has slack, and they
      use it up one by one. */
  lemma PaddedBuild(w: World, input: Input, k: nat)
    requires FixedDigest(w) && Build(w, input).Built?
    ensures Slack(Build(w, input).packet) >= 0
    ensures Build(w, Padded(input, k)).Built? <==> k <= Slack(Build(w, input).packet)
    ensures k <= Slack(Build(w, input).packet) ==> Slack(Build(w, Padded(input, k)).packet) == Slack(Build(w, input).packet) - k
  {
    var padded := Padded(input, k);
    BuiltWhen(w, input);
    BuiltWhen(w, padded);
    PaddedFounded(w, input, k);
    PaddedRendered(w, input, k);
    FinalBytes(w.words, TargetText(input.identity.target), input.identity.baseSha, Rendered(w, input));
    FinalBytes(w.words, TargetText(input.identity.target), input.identity.baseSha, Rendered(w, padded));
  }

  predicate Ascii(s: string) { forall i | 0 <= i < |s| :: s[i] as int < 0x80 }

  lemma {:induction false} AsciiBytes(s: string)
    requires Ascii(s)
    ensures Bytes(s) == |s|
  {
    if s != "" { AsciiBytes(s[1..]); }
  }

  lemma PlaceholderIsAscii()
    ensures Ascii(PENDING_BASE) && |PENDING_BASE| == 14
  {}

  lemma CommitIdIsAscii(base: string)
    requires HexSha(base)
    ensures Ascii(base) && |base| == 40 && !Blank(base)
  {
    assert !IsSpace(base[0]);
  }

  lemma AsciiLonger(s: string, t: string)
    requires Ascii(s) && Ascii(t)
    ensures Bytes(s) - Bytes(t) == |s| - |t|
  {
    AsciiBytes(s);
    AsciiBytes(t);
  }

  lemma FullHasNoRoom(w: World, input: Input, base: string)
    requires Preflight(w, input).Built? && input.identity.baseSha == "" && HexSha(base)
    requires Slack(Preflight(w, input).packet) == 0
    ensures FitsPlace(input, FilledWorkspace(input), FilledBranch(input))
    ensures !Build(w, Placed(input, FilledWorkspace(input), FilledBranch(input), base)).Built?
  {
    CommitIdIsAscii(base);
    PlaceholderIsAscii();
    AsciiLonger(base, PENDING_BASE);
    FilledRealises(w, input);
    WorstCase(w, input, base);
    AcceptedWhenSized(w, input, FilledWorkspace(input), FilledBranch(input), base);
  }

  /** The room is not always there, whatever the wording and the digest: every input
      that a preflight accepts with its base unknown becomes, with some more accepted
      scope, one that it still accepts and that no commit id leaves within the bounds
      in the farthest workspace and branch. */
  lemma CommitIdMayNotFit(w: World, input: Input, base: string) returns (k: nat)
    requires FixedDigest(w) && HexSha(base)
    requires Preflight(w, input).Built? && input.identity.baseSha == ""
    ensures Preflight(w, Padded(input, k)).Built?
    ensures var full := Padded(input, k);
            && FitsPlace(full, FilledWorkspace(full), FilledBranch(full))
            && !Build(w, Placed(full, FilledWorkspace(full), FilledBranch(full), base)).Built?
  {
    var measured := Placed(input, FilledWorkspace(input), FilledBranch(input), PENDING_BASE);
    PaddedBuild(w, measured, 0);
    k := Slack(Build(w, measured).packet);
    PaddedBuild(w, measured, k);
    assert Padded(measured, k) == Placed(Padded(input, k), FilledWorkspace(input), FilledBranch(input), PENDING_BASE);
    FullHasNoRoom(w, Padded(input, k), base);
  }
}
