/** The program's own wording, and an input that its preflight accepts with it, so that
    what PacketBase says of accepted inputs is about real ones. */
module PacketWording {
  import opened Packet
  import opened PacketBounds
  import opened PacketBase

  function KindLine(k: Kind): string {
    match k
    case Initial => "Kind: initial"
    case ValidationRepair => "Kind: validation-repair"
    case ReviewRepair => "Kind: review-repair"
  }

  function ScopeName(s: Scope): string { if s.IssueScope? then "issue" else "pull_request" }

  const CONTRACT := "Worker contract: implement only this bounded packet and required tests; preserve the supplied execution identity; commit one clean exact HEAD. Do not push or create a pull request; the trusted host owns publication."

  const ONLY_AUTHORITY := "Treat the supplied bounded task packet as the only target authority; do not use network or MCP to rediscover it."

  const VALIDATE := "Run repository-required validation before reporting success."

  const LEAD_HEADING := "Qualified bounded lead disposition (read-only; original scope remains authoritative):"

  function Program(): Wording {
    Wording("Packet: tachiko.implementation-packet.v1", KindLine, "Run: ", "Target: ", "Workspace: ", "Branch: ", "Base: ",
            "Execution: profile=", "; revision=", "; executor=", "; model=", "; reasoning=", "; timeoutMs=",
            "; sandbox=", "; approval=", "(unspecified)",
            "Issue authority: ", "Accepted scope: ", ScopeName, " updated ", " sha256=", "Task title: ",
            "Accepted scope and instructions:", "Issue requirements:",
            "Repair identity: PR #", " at exact HEAD ", "Repair evidence source: ", LEAD_HEADING, "Repair evidence:",
            "Blocking findings:", CONTRACT,
            "Implement ", " from base ", ONLY_AUTHORITY, VALIDATE)
  }

  const LABEL: nat := 40
  const SENTENCE: nat := 250

  /** How long the wording of an initial packet may be for the argument below. */
  predicate Brief(x: Wording) {
    && |x.packet| <= LABEL && |x.kind(Initial)| <= LABEL && |x.run| <= LABEL && |x.target| <= LABEL
    && |x.workspace| <= LABEL && |x.branch| <= LABEL && |x.base| <= LABEL
    && |x.profile| <= LABEL && |x.revision| <= LABEL && |x.executor| <= LABEL && |x.model| <= LABEL && |x.reasoning| <= LABEL
    && |x.timeout| <= LABEL && |x.sandbox| <= LABEL && |x.approval| <= LABEL && |x.unspecified| <= LABEL
    && |x.issue| <= LABEL && |x.scope| <= LABEL && |x.scopeKind(IssueScope)| <= LABEL && |x.updated| <= LABEL && |x.sha| <= LABEL
    && |x.title| <= LABEL && |x.scopeHeading| <= LABEL && |x.issueHeading| <= LABEL
    && |x.contract| <= SENTENCE && |x.implement| <= LABEL && |x.fromBase| <= LABEL && |x.onlyAuthority| <= SENTENCE && |x.validate| <= SENTENCE
  }

  lemma ProgramIsBrief()
    ensures Brief(Program())
  {}

  /** A digest of 64 hexadecimal digits. */
  ghost predicate HexDigest(w: World) { forall s :: |w.digest(s)| == 64 && Ascii(w.digest(s)) }

  lemma HexDigestIsFixed(w: World)
    requires HexDigest(w)
    ensures FixedDigest(w)
  {
    forall s, t ensures Bytes(w.digest(s)) == Bytes(w.digest(t)) {
      AsciiBytes(w.digest(s));
      AsciiBytes(w.digest(t));
    }
  }

  /** An initial packet for one issue, its place and base unknown. */
  function OneIssue(): Input {
    Input(Initial,
          Identity("r", Issue("o", "r", 1), "", "", "", Execution("p", "v", "e", 1, None, None, None, None)),
          Authority("o", "r", "i", 1, "u", "t", "b", "s", IssueScope, "u", Current, "s"), None)
  }

  // --- how long its rendering is at most

  lemma {:induction false} BytesAtMost(s: string)
    ensures |s| <= Bytes(s) <= 4 * |s|
  {
    if s != "" { BytesAtMost(s[1..]); }
  }

  const LINE: nat := 2400

  lemma {:induction false} JoinAtMost(lines: seq<string>)
    requires forall i | 0 <= i < |lines| :: Bytes(lines[i]) <= LINE
    ensures Bytes(Join(lines)) <= |lines| * (LINE + 1)
  {
    if |lines| > 1 {
      JoinAtMost(lines[1..]);
      HeadBytes(lines);
    }
  }

  lemma JoinAfter(line: string, b: seq<string>)
    requires b != []
    ensures Bytes(Join([line] + b)) == Bytes(line) + 1 + Bytes(Join(b))
  {
    HeadBytes([line] + b);
    assert ([line] + b)[1..] == b;
  }

  lemma {:induction false} JoinConcat(a: seq<string>, b: seq<string>)
    requires a != [] && b != []
    ensures Bytes(Join(a + b)) == Bytes(Join(a)) + 1 + Bytes(Join(b))
  {
    if |a| == 1 {
      JoinAfter(a[0], b);
      assert a + b == [a[0]] + b;
    } else {
      JoinConcat(a[1..], b);
      JoinAfter(a[0], a[1..] + b);
      JoinAfter(a[0], a[1..]);
      assert a + b == [a[0]] + (a[1..] + b) && a == [a[0]] + a[1..];
    }
  }

  function OneTask(w: World): seq<string> { Task(w, OneIssue().identity.execution, OneIssue().authority, None) }

  lemma ExecutionShort(x: Wording)
    requires Brief(x)
    ensures |ExecutionLine(x, OneIssue().identity.execution)| <= 600
  {}

  lemma AuthorityLinesShort(w: World)
    requires Brief(w.words) && HexDigest(w)
    ensures |IssueLine(w, OneIssue().authority)| <= 600 && |ScopeLine(w, OneIssue().authority)| <= 600
  {}

  lemma OneTaskShort(w: World)
    requires Brief(w.words) && HexDigest(w)
    ensures |OneTask(w)| == 9 && forall i | 0 <= i < 9 :: |OneTask(w)[i]| <= 600
  {
    ExecutionShort(w.words);
    AuthorityLinesShort(w);
  }

  lemma HeadingShort(x: Wording)
    requires Brief(x)
    ensures var h := Heading(x, Initial, "r", Issue("o", "r", 1)); |h| == 4 && forall i | 0 <= i < 4 :: |h[i]| <= 600
  {}

  lemma {:induction false} ShortLines(lines: seq<string>)
    requires forall i | 0 <= i < |lines| :: |lines[i]| <= 600
    ensures forall i | 0 <= i < |lines| :: Bytes(lines[i]) <= LINE
  {
    forall i | 0 <= i < |lines| ensures Bytes(lines[i]) <= LINE {
      BytesAtMost(lines[i]);
    }
  }

  lemma ThreeLines(a: string, b: string, c: string)
    ensures Bytes(Join([a, b, c])) == Bytes(a) + Bytes(b) + Bytes(c) + 2
  {
    HeadBytes([a, b, c]);
    HeadBytes([b, c]);
    assert [a, b, c][1..] == [b, c] && [b, c][1..] == [c];
  }

  lemma LabelledAtMost(x: string, s: string)
    requires |x| <= LABEL
    ensures Bytes(x + s) <= Bytes(s) + 4 * LABEL
  {
    BytesConcat(x, s);
    BytesAtMost(x);
  }

  lemma PlacesShort(x: Wording)
    requires Brief(x)
    ensures Bytes(Join([x.workspace + FilledWorkspace(OneIssue()), x.branch + FilledBranch(OneIssue()), x.base + PENDING_BASE])) <= 8000
  {
    FillerFits();
    LabelledAtMost(x.workspace, FilledWorkspace(OneIssue()));
    LabelledAtMost(x.branch, FilledBranch(OneIssue()));
    LabelledAtMost(x.base, PENDING_BASE);
    BytesAtMost(PENDING_BASE);
    ThreeLines(x.workspace + FilledWorkspace(OneIssue()), x.branch + FilledBranch(OneIssue()), x.base + PENDING_BASE);
  }

  lemma FramedAtMost(before: seq<string>, a: string, b: string, c: string, after: seq<string>)
    requires |before| == 4 && |after| == 9
    requires forall i | 0 <= i < 4 :: |before[i]| <= 600
    requires forall i | 0 <= i < 9 :: |after[i]| <= 600
    requires Bytes(Join([a, b, c])) <= 8000
    ensures Bytes(Join(Framed(before, a, b, c, after))) <= 50000
  {
    ShortLines(before);
    ShortLines(after);
    JoinAtMost(before);
    JoinAtMost(after);
    JoinConcat(before, [a, b, c]);
    JoinConcat(before + [a, b, c], after);
  }

  function Measured(): Input { Placed(OneIssue(), FilledWorkspace(OneIssue()), FilledBranch(OneIssue()), PENDING_BASE) }

  lemma OneIssueSmall(w: World)
    requires Brief(w.words) && HexDigest(w)
    ensures Bytes(Rendered(w, Measured())) <= 50000
  {
    HeadingShort(w.words);
    OneTaskShort(w);
    PlacesShort(w.words);
    FramedAtMost(Heading(w.words, Initial, "r", Issue("o", "r", 1)),
                 w.words.workspace + FilledWorkspace(OneIssue()), w.words.branch + FilledBranch(OneIssue()), w.words.base + PENDING_BASE,
                 OneTask(w));
  }

  lemma OneIssueFinal(w: World)
    requires Brief(w.words) && HexDigest(w)
    ensures Bytes(FinalText(w.words, TargetText(Issue("o", "r", 1)), PENDING_BASE, Rendered(w, Measured()))) <= 54000
  {
    var x, target := w.words, TargetText(Issue("o", "r", 1));
    OneIssueSmall(w);
    FinalBytes(x, target, PENDING_BASE, Rendered(w, Measured()));
    assert |target| == 5;
    BytesAtMost(x.implement + target + x.fromBase);
    BytesAtMost(PENDING_BASE);
    BytesAtMost(".");
    BytesAtMost(x.onlyAuthority);
    BytesAtMost(x.validate);
  }

  lemma Visible(s: string)
    requires s in ["r", "p", "v", "e", "i", "u", "s"]
    ensures !Blank(s)
  {
    assert !IsSpace(s[0]);
  }

  lemma MeasuredIdentity()
    ensures !NoIdentity(Measured().identity)
  {
    FillerFits();
    Visible("r");
    Visible("p");
    Visible("v");
    Visible("e");
  }

  lemma MeasuredAuthority(w: World)
    ensures !NoAuthority(w, Measured())
  {
    Visible("i");
    Visible("u");
    Visible("s");
  }

  lemma OneIssueAccepted(w: World)
    requires Brief(w.words) && HexDigest(w)
    ensures Preflight(w, OneIssue()).Built?
  {
    MeasuredIdentity();
    MeasuredAuthority(w);
    BytesAtMost("t");
    BytesAtMost("b");
    OneIssueSmall(w);
    OneIssueFinal(w);
    BuiltWhen(w, Measured());
  }

  /** With the program's wording and any 64-digit digest: one issue, with some length
      of accepted scope, that the preflight accepts with its base unknown and that does
      not fit with this or any other commit id in the farthest place. */
  lemma ProgramMayNotFit(w: World, base: string) returns (input: Input)
    requires w.words == Program() && HexDigest(w) && HexSha(base)
    ensures Preflight(w, input).Built? && input.identity.baseSha == ""
    ensures FitsPlace(input, FilledWorkspace(input), FilledBranch(input))
    ensures !Build(w, Placed(input, FilledWorkspace(input), FilledBranch(input), base)).Built?
  {
    ProgramIsBrief();
    HexDigestIsFixed(w);
    OneIssueAccepted(w);
    var k := CommitIdMayNotFit(w, OneIssue(), base);
    input := Padded(OneIssue(), k);
  }
}
