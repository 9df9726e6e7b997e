/** Why an accepted preflight stays accepted, what every built packet keeps, and that
    the gate in front of the model turn accepts exactly the matching requests. */
module PacketBounds {
  import opened Packet

  // --- byte lengths

  lemma {:induction false} BytesConcat(a: string, b: string)
    ensures Bytes(a + b) == Bytes(a) + Bytes(b)
  {
    if a == "" {
      assert a + b == b;
    } else {
      BytesConcat(a[1..], b);
      assert (a + b)[1..] == a[1..] + b;
    }
  }

  lemma {:induction false} BytesRepeat(c: char, n: nat)
    requires c as int < 0x80
    ensures Bytes(Repeat(c, n)) == n
  {
    if n > 0 {
      BytesRepeat(c, n - 1);
      assert Repeat(c, n)[1..] == Repeat(c, n - 1);
    }
  }

  predicate Shorter(a: seq<string>, b: seq<string>) {
    |a| == |b| && forall i | 0 <= i < |a| :: Bytes(a[i]) <= Bytes(b[i])
  }

  /** Joining lines that are no longer gives no longer a text. */
  lemma {:induction false} JoinMonotone(a: seq<string>, b: seq<string>)
    requires Shorter(a, b)
    ensures Bytes(Join(a)) <= Bytes(Join(b))
  {
    if |a| > 1 {
      JoinMonotone(a[1..], b[1..]);
      BytesConcat(a[0] + "\n", Join(a[1..]));
      BytesConcat(b[0] + "\n", Join(b[1..]));
      BytesConcat(a[0], "\n");
      BytesConcat(b[0], "\n");
    }
  }

  lemma ConcatMonotone(a: string, x: string, y: string, b: string)
    requires Bytes(x) <= Bytes(y)
    ensures Bytes(a + x + b) <= Bytes(a + y + b)
  {
    BytesConcat(a + x, b);
    BytesConcat(a + y, b);
    BytesConcat(a, x);
    BytesConcat(a, y);
  }

  lemma LabelMonotone(a: string, x: string, y: string)
    requires Bytes(x) <= Bytes(y)
    ensures Bytes(a + x) <= Bytes(a + y)
  {
    BytesConcat(a, x);
    BytesConcat(a, y);
  }

  // --- one input with other places

  function Placed(input: Input, workspace: string, branch: string, base: string): Input {
    input.(identity := input.identity.(workspacePath := workspace, branch := branch, baseSha := base))
  }

  lemma FramedMonotone(before: seq<string>, x: string, y: string, z: string, x': string, y': string, z': string, after: seq<string>)
    requires Bytes(x) <= Bytes(x') && Bytes(y) <= Bytes(y') && Bytes(z) <= Bytes(z')
    ensures Bytes(Join(Framed(before, x, y, z, after))) <= Bytes(Join(Framed(before, x', y', z', after)))
  {
    JoinMonotone(Framed(before, x, y, z, after), Framed(before, x', y', z', after));
  }

  lemma LabelledMonotone(x: Wording, before: seq<string>, ws: string, br: string, base: string, ws': string, br': string, base': string, after: seq<string>)
    requires Bytes(ws) <= Bytes(ws') && Bytes(br) <= Bytes(br') && Bytes(base) <= Bytes(base')
    ensures Bytes(Join(Framed(before, x.workspace + ws, x.branch + br, x.base + base, after))) <=
            Bytes(Join(Framed(before, x.workspace + ws', x.branch + br', x.base + base', after)))
  {
    LabelMonotone(x.workspace, ws, ws');
    LabelMonotone(x.branch, br, br');
    LabelMonotone(x.base, base, base');
    FramedMonotone(before, x.workspace + ws, x.branch + br, x.base + base, x.workspace + ws', x.branch + br', x.base + base', after);
  }

  lemma RenderedMonotone(w: World, input: Input, ws: string, br: string, base: string, ws': string, br': string, base': string)
    requires Bytes(ws) <= Bytes(ws') && Bytes(br) <= Bytes(br') && Bytes(base) <= Bytes(base')
    ensures Bytes(Rendered(w, Placed(input, ws, br, base))) <= Bytes(Rendered(w, Placed(input, ws', br', base')))
  {
    LabelledMonotone(w.words, Heading(w.words, input.kind, input.identity.runId, input.identity.target), ws, br, base, ws', br', base',
                     Task(w, input.identity.execution, input.authority, input.repair));
  }

  lemma FinalMonotone(x: Wording, target: string, base: string, base': string, rendered: string, rendered': string)
    requires Bytes(base) <= Bytes(base') && Bytes(rendered) <= Bytes(rendered')
    ensures Bytes(FinalText(x, target, base, rendered)) <= Bytes(FinalText(x, target, base', rendered'))
  {
    ConcatMonotone(x.implement + target + x.fromBase, base, base', ".");
    JoinMonotone([x.implement + target + x.fromBase + base + ".", x.onlyAuthority, x.validate, rendered],
                 [x.implement + target + x.fromBase + base' + ".", x.onlyAuthority, x.validate, rendered']);
  }

  // --- preflight

  predicate FitsIn(known: string, actual: string, limit: nat) {
    !Blank(actual) && Bytes(actual) <= limit && (known != "" ==> actual == known)
  }

  /** What the workspace, branch and base may turn out to be: what is known already, and
      otherwise anything within the bound that the preflight filled in. */
  predicate Realises(input: Input, workspace: string, branch: string, base: string) {
    && FitsIn(input.identity.workspacePath, workspace, WORKSPACE_PATH_BYTES)
    && FitsIn(input.identity.branch, branch, BRANCH_BYTES)
    && !Blank(base) && (if input.identity.baseSha != "" then base == input.identity.baseSha else Bytes(base) <= Bytes(PENDING_BASE))
  }

  predicate WithinSize(w: World, input: Input) {
    && Bytes(Rendered(w, input)) <= RENDERED_BYTES
    && Bytes(FinalText(w.words, TargetText(input.identity.target), input.identity.baseSha, Rendered(w, input))) <= FINAL_CLI_BYTES
  }

  /** Everything that is checked before the sizes of the rendering. */
  predicate WellFounded(w: World, input: Input) {
    && !NoIdentity(input.identity) && !NoAuthority(w, input)
    && Bytes(input.authority.title) <= TITLE_BYTES && Bytes(input.authority.body) <= ISSUE_BODY_BYTES
    && RepairRefusal(w, input.kind, input.identity.baseSha, input.repair).None?
  }

  lemma BuiltWhen(w: World, input: Input)
    ensures Build(w, input).Built? <==> WellFounded(w, input) && WithinSize(w, input)
  {}

  lemma SizeMonotone(w: World, input: Input, ws: string, br: string, base: string, ws': string, br': string, base': string)
    requires Bytes(ws) <= Bytes(ws') && Bytes(br) <= Bytes(br') && Bytes(base) <= Bytes(base')
    requires WithinSize(w, Placed(input, ws', br', base'))
    ensures WithinSize(w, Placed(input, ws, br, base))
  {
    RenderedMonotone(w, input, ws, br, base, ws', br', base');
    FinalMonotone(w.words, TargetText(input.identity.target), base, base',
                  Rendered(w, Placed(input, ws, br, base)), Rendered(w, Placed(input, ws', br', base')));
  }

  lemma FoundedElsewhere(w: World, input: Input, ws: string, br: string, base: string, ws': string, br': string, base': string)
    requires !Blank(ws) && Bytes(ws) <= WORKSPACE_PATH_BYTES && !Blank(br) && Bytes(br) <= BRANCH_BYTES && !Blank(base)
    requires base == base' || |base'| != 40 || input.kind.Initial?
    requires WellFounded(w, Placed(input, ws', br', base'))
    ensures WellFounded(w, Placed(input, ws, br, base))
  {}

  lemma FillerFits()
    ensures Bytes(Repeat('w', WORKSPACE_PATH_BYTES)) == WORKSPACE_PATH_BYTES && !Blank(Repeat('w', WORKSPACE_PATH_BYTES))
    ensures Bytes(Repeat('b', BRANCH_BYTES)) == BRANCH_BYTES && !Blank(Repeat('b', BRANCH_BYTES))
    ensures |PENDING_BASE| == 14 && !Blank(PENDING_BASE)
  {
    BytesRepeat('w', WORKSPACE_PATH_BYTES);
    BytesRepeat('b', BRANCH_BYTES);
    assert Repeat('w', WORKSPACE_PATH_BYTES)[0] == 'w' && Repeat('b', BRANCH_BYTES)[0] == 'b';
    assert PENDING_BASE[0] == '<';
  }

  function FilledWorkspace(input: Input): string { Filled(input.identity.workspacePath, Repeat('w', WORKSPACE_PATH_BYTES)) }

  function FilledBranch(input: Input): string { Filled(input.identity.branch, Repeat('b', BRANCH_BYTES)) }

  function FilledBase(input: Input): string { Filled(input.identity.baseSha, PENDING_BASE) }

  /** An accepted preflight stays accepted wherever the work ends up. */
  lemma PreflightCovers(w: World, input: Input, ws: string, br: string, base: string)
    requires Preflight(w, input).Built? && Realises(input, ws, br, base)
    ensures Build(w, Placed(input, ws, br, base)).Built?
  {
    var ws', br', base' := FilledWorkspace(input), FilledBranch(input), FilledBase(input);
    FillerFits();
    BuiltWhen(w, Placed(input, ws', br', base'));
    BuiltWhen(w, Placed(input, ws, br, base));
    SizeMonotone(w, input, ws, br, base, ws', br', base');
    FoundedElsewhere(w, input, ws, br, base, ws', br', base');
  }

  lemma FilledRealises(w: World, input: Input)
    ensures (exists ws, br, base :: Realises(input, ws, br, base)) ==>
              Realises(input, FilledWorkspace(input), FilledBranch(input), FilledBase(input))
    ensures Preflight(w, input).Built? ==> Realises(input, FilledWorkspace(input), FilledBranch(input), FilledBase(input))
  {
    FillerFits();
    BuiltWhen(w, Placed(input, FilledWorkspace(input), FilledBranch(input), FilledBase(input)));
  }

  /** And it is refused only for cause: the preflight accepts exactly the inputs for
      which some place is possible and the packet can be built for every possible one. */
  lemma PreflightExactly(w: World, input: Input)
    ensures Preflight(w, input).Built? <==>
              (exists ws, br, base :: Realises(input, ws, br, base)) &&
              (forall ws, br, base | Realises(input, ws, br, base) :: Build(w, Placed(input, ws, br, base)).Built?)
  {
    FilledRealises(w, input);
    if Preflight(w, input).Built? {
      forall ws, br, base | Realises(input, ws, br, base) ensures Build(w, Placed(input, ws, br, base)).Built? {
        PreflightCovers(w, input, ws, br, base);
      }
    }
  }

  // --- what a refusal and a packet tell

  /** A place that an input may be given: not blank and within the bounds. */
  predicate Fitting(workspace: string, branch: string) {
    !Blank(workspace) && Bytes(workspace) <= WORKSPACE_PATH_BYTES && !Blank(branch) && Bytes(branch) <= BRANCH_BYTES
  }

  predicate TooLong(r: Result) { r.Refused? && (r.code.RenderedOversize? || r.code.FinalCliOversize?) }

  lemma SameBeforeSizes(w: World, input: Input, ws: string, br: string, base: string, ws': string, br': string, base': string)
    requires Fitting(ws, br) && Fitting(ws', br') && !Blank(base) && !Blank(base')
    requires base == base' || input.kind.Initial?
    ensures var r, r' := Build(w, Placed(input, ws, br, base)), Build(w, Placed(input, ws', br', base'));
            (r.Built? || TooLong(r) <==> r'.Built? || TooLong(r')) && (r.Refused? && !TooLong(r) ==> r' == r)
  {}

  /** Where the work takes place matters for nothing but length: a longer workspace,
      branch or base turns no refusal into a packet or into another refusal, and a packet
      only into a refusal for its size. */
  lemma PlaceMattersForLengthOnly(w: World, input: Input, ws: string, br: string, base: string, ws': string, br': string, base': string)
    requires Fitting(ws, br) && Fitting(ws', br') && !Blank(base) && !Blank(base')
    requires base == base' || input.kind.Initial?
    requires Bytes(ws) <= Bytes(ws') && Bytes(br) <= Bytes(br') && Bytes(base) <= Bytes(base')
    ensures var r, r' := Build(w, Placed(input, ws, br, base)), Build(w, Placed(input, ws', br', base'));
            && (r.Built? ==> r'.Built? || TooLong(r'))
            && (TooLong(r) ==> TooLong(r'))
            && (r.Refused? && !TooLong(r) ==> r' == r)
  {
    SameBeforeSizes(w, input, ws, br, base, ws', br', base');
    BuiltWhen(w, Placed(input, ws, br, base));
    BuiltWhen(w, Placed(input, ws', br', base'));
    if Build(w, Placed(input, ws', br', base')).Built? {
      SizeMonotone(w, input, ws, br, base, ws', br', base');
      FoundedElsewhere(w, input, ws, br, base, ws', br', base');
    }
  }

  ghost predicate Within(s: string, t: string) { exists a, b :: t == a + s + b }

  lemma WithinSelf(a: string, s: string, b: string)
    ensures Within(s, a + s + b)
  {}

  lemma WithinTransitive(s: string, t: string, u: string)
    requires Within(s, t) && Within(t, u)
    ensures Within(s, u)
  {
    var a, b :| t == a + s + b;
    var c, d :| u == c + t + d;
    assert u == (c + a) + s + (b + d);
  }

  lemma {:induction false} LineWithin(lines: seq<string>, line: string)
    requires line in lines
    ensures Within(line, Join(lines))
  {
    if |lines| == 1 {
      assert Join(lines) == "" + line + "";
    } else if line == lines[0] {
      assert Join(lines) == "" + line + ("\n" + Join(lines[1..]));
    } else {
      LineWithin(lines[1..], line);
      var a, b :| Join(lines[1..]) == a + line + b;
      assert Join(lines) == (lines[0] + "\n" + a) + line + b;
    }
  }

  lemma {:induction false} FindingWithin(findings: seq<string>, first: nat, i: nat)
    requires i < |findings|
    ensures exists line :: line in Numbered(findings, first) && Within(findings[i], line)
  {
    if i == 0 {
      var line := Decimal(first) + ". " + findings[0];
      WithinSelf(Decimal(first) + ". ", findings[0], "");
      assert line + "" == line;
      assert Numbered(findings, first)[0] == line;
    } else {
      FindingWithin(findings[1..], first + 1, i - 1);
      var line :| line in Numbered(findings[1..], first + 1) && Within(findings[i], line);
      assert line in Numbered(findings, first);
    }
  }

  lemma TaskLineWithin(w: World, input: Input, line: string)
    requires line in Task(w, input.identity.execution, input.authority, input.repair)
    ensures Within(line, Rendered(w, input))
  {
    var id := input.identity;
    InFramed(Heading(w.words, input.kind, id.runId, id.target), w.words.workspace + id.workspacePath, w.words.branch + id.branch,
             w.words.base + id.baseSha, Task(w, id.execution, input.authority, input.repair), line);
  }

  lemma InFramed(before: seq<string>, x: string, y: string, z: string, after: seq<string>, line: string)
    requires line in after
    ensures Within(line, Join(Framed(before, x, y, z, after)))
  {
    LineWithin(Framed(before, x, y, z, after), line);
  }

  lemma TaskLines(w: World, e: Execution, a: Authority, repair: Option<Repair>)
    ensures var t := Task(w, e, a, repair); a.body in t && a.scopeText in t && w.words.title + a.title in t
    ensures repair.Some? ==> forall line <- RepairLines(w, repair.value) :: line in Task(w, e, a, repair)
  {
    var t := Task(w, e, a, repair);
    assert t[3] == w.words.title + a.title && t[5] == a.scopeText && t[7] == a.body;
  }

  lemma FinalHasRendered(x: Wording, target: string, base: string, rendered: string)
    ensures Within(rendered, FinalText(x, target, base, rendered))
  {
    var lines := [x.implement + target + x.fromBase + base + ".", x.onlyAuthority, x.validate, rendered];
    assert lines[3] == rendered;
    LineWithin(lines, rendered);
  }

  /** Nothing is truncated: the final text of a built packet holds the accepted scope
      and the issue body, and in a repair the evidence and every blocking finding,
      character for character. */
  lemma NothingTruncated(w: World, input: Input)
    requires Build(w, input).Built?
    ensures var p, a := Build(w, input).packet, input.authority;
            Within(a.body, p.finalCliText) && Within(a.scopeText, p.finalCliText) && Within(w.words.title + a.title, p.finalCliText)
    ensures input.repair.Some? ==>
              var p, r := Build(w, input).packet, input.repair.value;
              Within(r.evidence, p.finalCliText) && forall i | 0 <= i < |r.blockingFindings| :: Within(r.blockingFindings[i], p.finalCliText)
  {
    var id, a := input.identity, input.authority;
    var p := BuiltPacket(w, input);
    FinalHasRendered(w.words, TargetText(id.target), id.baseSha, p.rendered);
    TaskLines(w, id.execution, a, input.repair);
    InFinal(w, input, p, a.body);
    InFinal(w, input, p, a.scopeText);
    InFinal(w, input, p, w.words.title + a.title);
    if input.repair.Some? {
      RepairInFinal(w, input, p, input.repair.value);
    }
  }

  lemma BuiltPacket(w: World, input: Input) returns (p: Packet)
    requires Build(w, input).Built?
    ensures p == Build(w, input).packet && p.rendered == Rendered(w, input)
    ensures p.finalCliText == FinalText(w.words, TargetText(input.identity.target), input.identity.baseSha, p.rendered)
  {
    p := Build(w, input).packet;
  }

  lemma InFinal(w: World, input: Input, p: Packet, line: string)
    requires line in Task(w, input.identity.execution, input.authority, input.repair)
    requires p.rendered == Rendered(w, input) && Within(p.rendered, p.finalCliText)
    ensures Within(line, p.finalCliText)
  {
    TaskLineWithin(w, input, line);
    WithinTransitive(line, p.rendered, p.finalCliText);
  }

  lemma RepairLinesHave(w: World, r: Repair)
    ensures r.evidence in RepairLines(w, r)
    ensures r.blockingFindings != [] ==> forall line <- Numbered(r.blockingFindings, 1) :: line in RepairLines(w, r)
  {
    var lines := RepairLines(w, r);
    assert lines[if r.leadDisposition.Some? then 5 else 3] == r.evidence;
  }

  lemma RepairInFinal(w: World, input: Input, p: Packet, r: Repair)
    requires input.repair == Some(r)
    requires p.rendered == Rendered(w, input) && Within(p.rendered, p.finalCliText)
    ensures Within(r.evidence, p.finalCliText)
    ensures forall i | 0 <= i < |r.blockingFindings| :: Within(r.blockingFindings[i], p.finalCliText)
  {
    TaskLines(w, input.identity.execution, input.authority, input.repair);
    RepairLinesHave(w, r);
    InFinal(w, input, p, r.evidence);
    forall i | 0 <= i < |r.blockingFindings| ensures Within(r.blockingFindings[i], p.finalCliText) {
      FindingWithin(r.blockingFindings, 1, i);
      var line :| line in Numbered(r.blockingFindings, 1) && Within(r.blockingFindings[i], line);
      InFinal(w, input, p, line);
      WithinTransitive(r.blockingFindings[i], line, p.finalCliText);
    }
  }

  // ---------------------------------------------------------------------------
  // The gate in front of the model turn

  /** The parts of an implementation request that the gate looks at. */
  datatype Request = Request(
    embedded: bool,
    instructions: string,
    target: Target,
    baseSha: string,
    workspacePath: Option<string>,
    branch: Option<string>,
    ownerRunId: Option<string>,
    execution: Option<Execution>,
    capabilities: nat,
    supplemental: Option<string>,
    session: Option<string>,
    resumed: bool)

  datatype Gate = Pass | Oversize | Mismatch

  function GateOn(x: Wording, p: Packet, q: Request): Gate {
    var expected := FinalText(x, TargetText(q.target), q.baseSha, p.rendered);
    if Bytes(p.finalCliText) > FINAL_CLI_BYTES then Oversize
    else if !q.embedded || q.instructions != p.rendered || q.capabilities != 0 || q.supplemental.Some? || q.session.Some? || q.resumed ||
            TargetText(p.identity.target) != TargetText(q.target) || p.identity.baseSha != q.baseSha ||
            q.workspacePath != Some(p.identity.workspacePath) || q.branch != Some(p.identity.branch) ||
            q.ownerRunId != Some(p.identity.runId) || q.execution != Some(p.identity.execution) ||
            p.finalCliText != expected || Bytes(expected) > FINAL_CLI_BYTES
    then Mismatch
    else Pass
  }

  /** The request made for this very packet. */
  function RequestFor(p: Packet): Request {
    Request(true, p.rendered, p.identity.target, p.identity.baseSha, Some(p.identity.workspacePath), Some(p.identity.branch),
            Some(p.identity.runId), Some(p.identity.execution), 0, None, None, false)
  }

  /** A built packet is within its byte bounds, and the gate lets through its own
      request and besides it only those whose target reads the same. */
  lemma BuiltPasses(w: World, input: Input, q: Request)
    requires Build(w, input).Built?
    ensures var p := Build(w, input).packet;
            && p.identity == input.identity
            && Bytes(p.rendered) <= RENDERED_BYTES && Bytes(p.finalCliText) <= FINAL_CLI_BYTES
            && GateOn(w.words, p, RequestFor(p)) == Pass
            && (GateOn(w.words, p, q) == Pass <==> q.(target := input.identity.target) == RequestFor(p) && TargetText(q.target) == TargetText(input.identity.target))
  {
    BuiltWhen(w, input);
  }

  // --- a target reads back from its text

  /** Owner and repository names hold none of the separators. */
  predicate PlainName(s: string) { '/' !in s && '#' !in s && '@' !in s }

  predicate PlainTarget(t: Target) { PlainName(t.owner) && PlainName(t.repo) }

  /** A text is split at its first separator in one way. */
  lemma {:induction false} SplitsOneWay(a: string, c: char, x: string, b: string, d: char, y: string)
    requires a + [c] + x == b + [d] + y
    requires PlainName(a) && PlainName(b) && c in "/#@" && d in "/#@"
    ensures a == b && c == d && x == y
  {
    if a == "" || b == "" {
      assert (a + [c] + x)[0] == (b + [d] + y)[0];
      assert a == b;
      assert (a + [c] + x)[1..] == x && (b + [d] + y)[1..] == y;
    } else {
      assert (a + [c] + x)[0] == a[0] && (b + [d] + y)[0] == b[0];
      assert (a + [c] + x)[1..] == a[1..] + [c] + x && (b + [d] + y)[1..] == b[1..] + [d] + y;
      SplitsOneWay(a[1..], c, x, b[1..], d, y);
      assert a == [a[0]] + a[1..] && b == [b[0]] + b[1..];
    }
  }

  lemma {:induction false} DecimalUnique(n: nat, m: nat)
    requires Decimal(n) == Decimal(m)
    ensures n == m
  {
    var s, t := Decimal(n), Decimal(m);
    assert s[|s| - 1] == ('0' as int + n % 10) as char && t[|t| - 1] == ('0' as int + m % 10) as char;
    if n >= 10 || m >= 10 {
      DecimalNonempty(n / 10);
      DecimalNonempty(m / 10);
      assert n >= 10 && m >= 10;
      assert s[..|s| - 1] == Decimal(n / 10) && t[..|t| - 1] == Decimal(m / 10);
      DecimalUnique(n / 10, m / 10);
    }
  }

  lemma DecimalNonempty(n: nat)
    ensures |Decimal(n)| >= 1
  {}

  function Separator(t: Target): char { if t.Issue? then '#' else '@' }

  function Tail(t: Target): string { if t.Issue? then Decimal(t.issueNumber) else t.branch }

  lemma TargetParts(t: Target)
    ensures TargetText(t) == t.owner + ['/'] + (t.repo + [Separator(t)] + Tail(t))
  {}

  /** Targets with plain names are told apart by their texts. */
  lemma TargetReadsBack(t: Target, u: Target)
    requires PlainTarget(t) && PlainTarget(u) && TargetText(t) == TargetText(u)
    ensures t == u
  {
    TargetParts(t);
    TargetParts(u);
    SplitsOneWay(t.owner, '/', t.repo + [Separator(t)] + Tail(t), u.owner, '/', u.repo + [Separator(u)] + Tail(u));
    SplitsOneWay(t.repo, Separator(t), Tail(t), u.repo, Separator(u), Tail(u));
    if t.Issue? {
      DecimalUnique(t.issueNumber, u.issueNumber);
    }
  }

  /** For targets with plain names, the gate passes a built packet for one request
      alone: the one that was made for it. */
  lemma GatePassesOnlyItsRequest(w: World, input: Input, q: Request)
    requires Build(w, input).Built? && PlainTarget(input.identity.target) && PlainTarget(q.target)
    ensures GateOn(w.words, Build(w, input).packet, q) == Pass <==> q == RequestFor(Build(w, input).packet)
  {
    BuiltPasses(w, input, q);
    if TargetText(q.target) == TargetText(input.identity.target) {
      TargetReadsBack(q.target, input.identity.target);
    }
  }
}
