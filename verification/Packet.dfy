/** The bounded implementation packet: every check of its construction in order, its
    rendering, the preflight with unknown workspace and branch, and the gate that
    checks a request against it. */
module Packet {

  datatype Option<T> = None | Some(value: T)

  // --- text

  function CharBytes(c: char): nat {
    if c as int < 0x80 then 1 else if c as int < 0x800 then 2 else if c as int < 0x10000 then 3 else 4
  }

  /** Length in UTF-8. */
  function Bytes(s: string): nat { if s == "" then 0 else CharBytes(s[0]) + Bytes(s[1..]) }

  predicate IsSpace(c: char) {
    var n := c as int;
    || 0x09 <= n <= 0x0D || n == 0x20 || n == 0xA0 || n == 0x1680 || 0x2000 <= n <= 0x200A
    || n == 0x2028 || n == 0x2029 || n == 0x202F || n == 0x205F || n == 0x3000 || n == 0xFEFF
  }

  predicate Blank(s: string) { forall i | 0 <= i < |s| :: IsSpace(s[i]) }

  function Join(lines: seq<string>): string {
    if lines == [] then "" else if |lines| == 1 then lines[0] else lines[0] + "\n" + Join(lines[1..])
  }

  function Decimal(n: nat): string {
    if n < 10 then [('0' as int + n) as char] else Decimal(n / 10) + [('0' as int + n % 10) as char]
  }

  function Repeat(c: char, n: nat): string { seq(n, _ => c) }

  // --- packets

  const ISSUE_BODY_BYTES := 32 * 1024
  const REPAIR_EVIDENCE_BYTES := 24 * 1024
  const RENDERED_BYTES := 60 * 1024
  const FINAL_CLI_BYTES := 64 * 1024
  const TITLE_BYTES := 1024
  const WORKSPACE_PATH_BYTES := 4096
  const BRANCH_BYTES := 1024
  const BLOCKING_FINDINGS := 20
  const MAX_SAFE := 0x1F_FFFF_FFFF_FFFF

  datatype Kind = Initial | ValidationRepair | ReviewRepair

  datatype Target =
    | Issue(owner: string, repo: string, issueNumber: nat)
    | Branch(owner: string, repo: string, branch: string)

  datatype Execution = Execution(
    profile: string,
    revision: string,
    executor: string,
    timeoutMs: int,
    model: Option<string>,
    reasoningEffort: Option<string>,
    sandboxMode: Option<string>,
    approvalPolicy: Option<string>)

  datatype Identity = Identity(
    runId: string,
    target: Target,
    workspacePath: string,
    branch: string,
    baseSha: string,
    execution: Execution)

  datatype Scope = IssueScope | PullRequestScope

  datatype Freshness = Current | Stale | Unknown

  datatype Authority = Authority(
    owner: string,
    repo: string,
    issueId: string,
    issueNumber: nat,
    issueUpdatedAt: string,
    title: string,
    body: string,
    scopeId: string,
    scope: Scope,
    scopeUpdatedAt: string,
    freshness: Freshness,
    scopeText: string)

  datatype EvidenceKind = ValidationEvidence | ReviewEvidence

  datatype EvidenceStatus = FailedStatus | RequestChanges

  /** The lead disposition is its JSON text. */
  datatype Repair = Repair(
    headSha: string,
    pullRequestNumber: int,
    evidenceRef: string,
    evidence: string,
    evidenceKind: EvidenceKind,
    evidenceHeadSha: string,
    evidencePullRequestNumber: int,
    evidenceStatus: EvidenceStatus,
    blockingFindings: seq<string>,
    leadDisposition: Option<string>)

  datatype Input = Input(kind: Kind, identity: Identity, authority: Authority, repair: Option<Repair>)

  datatype Code =
    | IdentityMissing
    | AuthorityMissing
    | IssueBodyOversize
    | TitleOversize
    | RepairEvidenceMissing
    | RepairEvidenceOversize
    | TooManyBlockingFindings
    | RenderedOversize
    | FinalCliOversize

  datatype Packet = Packet(kind: Kind, identity: Identity, rendered: string, finalCliText: string)

  datatype Result = Built(packet: Packet) | Refused(code: Code)

  /** The wording of the lines that carry no input: labels, headings and fixed lines. */
  datatype Wording = Wording(
    packet: string, kind: Kind -> string, run: string, target: string, workspace: string, branch: string, base: string,
    profile: string, revision: string, executor: string, model: string, reasoning: string, timeout: string,
    sandbox: string, approval: string, unspecified: string,
    issue: string, scope: string, scopeKind: Scope -> string, updated: string, sha: string, title: string,
    scopeHeading: string, issueHeading: string,
    repairIdentity: string, repairHead: string, repairSource: string, leadHeading: string, evidenceHeading: string,
    findingsHeading: string, contract: string,
    implement: string, fromBase: string, onlyAuthority: string, validate: string)

  /** What the construction takes from elsewhere: the digest, case folding, and the
      judgement of the repair evidence and of the lead disposition. */
  datatype World = World(
    words: Wording,
    digest: string -> string,
    lower: string -> string,
    evidenceMatches: (Kind, Repair) -> bool,
    leadBinds: Repair -> bool)

  // --- the checks, in order

  predicate NoIdentity(id: Identity) {
    || Blank(id.runId) || Blank(id.workspacePath) || Blank(id.branch) || Blank(id.baseSha)
    || Blank(id.execution.profile) || Blank(id.execution.revision) || Blank(id.execution.executor)
    || !(1 <= id.execution.timeoutMs <= MAX_SAFE)
    || Bytes(id.workspacePath) > WORKSPACE_PATH_BYTES || Bytes(id.branch) > BRANCH_BYTES
  }

  predicate NoAuthority(w: World, input: Input) {
    var a, t := input.authority, input.identity.target;
    || Blank(a.issueId) || Blank(a.issueUpdatedAt)
    || !t.Issue? || a.issueNumber != t.issueNumber
    || w.lower(a.owner) != w.lower(t.owner) || w.lower(a.repo) != w.lower(t.repo)
    || Blank(a.scopeId) || Blank(a.scopeUpdatedAt)
    || !(a.freshness.Current? || (input.kind.Initial? && a.freshness.Unknown? && a.scope.IssueScope?))
    || Blank(a.scopeText)
  }

  predicate HexSha(s: string) {
    |s| == 40 && forall i | 0 <= i < |s| :: ('0' <= s[i] <= '9') || ('a' <= s[i] <= 'f') || ('A' <= s[i] <= 'F')
  }

  function Material(r: Repair): string {
    Join([r.evidence] + r.blockingFindings + (if r.leadDisposition.Some? then [r.leadDisposition.value] else []))
  }

  predicate RepairUnbound(w: World, kind: Kind, baseSha: string, r: Repair) {
    || !HexSha(r.headSha) || r.headSha != baseSha
    || !(1 <= r.pullRequestNumber <= MAX_SAFE)
    || Blank(r.evidenceRef) || Blank(r.evidence)
    || r.evidenceHeadSha != r.headSha || r.evidencePullRequestNumber != r.pullRequestNumber
    || !w.evidenceMatches(kind, r)
    || (kind.ValidationRepair? && !(r.evidenceKind.ValidationEvidence? && r.evidenceStatus.FailedStatus?))
    || (kind.ReviewRepair? && !(r.evidenceKind.ReviewEvidence? && r.evidenceStatus.RequestChanges?))
    || (r.leadDisposition.Some? && !w.leadBinds(r))
  }

  function RepairRefusal(w: World, kind: Kind, baseSha: string, repair: Option<Repair>): Option<Code> {
    if kind.Initial? then if repair.Some? then Some(RepairEvidenceMissing) else None
    else if repair.None? || RepairUnbound(w, kind, baseSha, repair.value) then Some(RepairEvidenceMissing)
    else if Bytes(Material(repair.value)) > REPAIR_EVIDENCE_BYTES then Some(RepairEvidenceOversize)
    else if |repair.value.blockingFindings| > BLOCKING_FINDINGS then Some(TooManyBlockingFindings)
    else if kind.ReviewRepair? && repair.value.blockingFindings == [] then Some(RepairEvidenceMissing)
    else None
  }

  // --- rendering

  function TargetText(t: Target): string {
    match t
    case Issue(owner, repo, n) => owner + "/" + repo + "#" + Decimal(n)
    case Branch(owner, repo, b) => owner + "/" + repo + "@" + b
  }

  function Or(o: Option<string>, fallback: string): string { if o.Some? then o.value else fallback }

  function ExecutionLine(x: Wording, e: Execution): string {
    x.profile + e.profile + x.revision + e.revision + x.executor + e.executor +
    x.model + Or(e.model, x.unspecified) + x.reasoning + Or(e.reasoningEffort, x.unspecified) +
    x.timeout + (if e.timeoutMs >= 0 then Decimal(e.timeoutMs) else "") +
    x.sandbox + Or(e.sandboxMode, x.unspecified) + x.approval + Or(e.approvalPolicy, x.unspecified)
  }

  function IssueLine(w: World, a: Authority): string {
    w.words.issue + a.owner + "/" + a.repo + "#" + Decimal(a.issueNumber) + " " + a.issueId +
    w.words.updated + a.issueUpdatedAt + w.words.sha + w.digest(a.body)
  }

  function ScopeLine(w: World, a: Authority): string {
    w.words.scope + w.words.scopeKind(a.scope) + " " + a.scopeId + w.words.updated + a.scopeUpdatedAt + w.words.sha + w.digest(a.scopeText)
  }

  function Numbered(findings: seq<string>, first: nat): seq<string> {
    if findings == [] then [] else [Decimal(first) + ". " + findings[0]] + Numbered(findings[1..], first + 1)
  }

  function RepairLines(w: World, r: Repair): seq<string> {
    [w.words.repairIdentity + (if r.pullRequestNumber >= 0 then Decimal(r.pullRequestNumber) else "") + w.words.repairHead + r.headSha,
     w.words.repairSource + r.evidenceRef + w.words.sha + w.digest(Material(r))] +
    (if r.leadDisposition.Some? then [w.words.leadHeading, r.leadDisposition.value] else []) +
    [w.words.evidenceHeading, r.evidence] +
    (if r.blockingFindings == [] then [] else [w.words.findingsHeading] + Numbered(r.blockingFindings, 1))
  }

  function Heading(x: Wording, kind: Kind, runId: string, target: Target): seq<string> {
    [x.packet, x.kind(kind), x.run + runId, x.target + TargetText(target)]
  }

  function Task(w: World, e: Execution, a: Authority, repair: Option<Repair>): seq<string> {
    [ExecutionLine(w.words, e), IssueLine(w, a), ScopeLine(w, a), w.words.title + a.title,
     w.words.scopeHeading, a.scopeText, w.words.issueHeading, a.body] +
    (if repair.Some? then RepairLines(w, repair.value) else []) +
    [w.words.contract]
  }

  function Framed(before: seq<string>, workspace: string, branch: string, base: string, after: seq<string>): seq<string> {
    before + [workspace, branch, base] + after
  }

  function Rendered(w: World, input: Input): string {
    var id := input.identity;
    Join(Framed(Heading(w.words, input.kind, id.runId, id.target),
                w.words.workspace + id.workspacePath, w.words.branch + id.branch, w.words.base + id.baseSha,
                Task(w, id.execution, input.authority, input.repair)))
  }

  function FinalText(x: Wording, target: string, baseSha: string, rendered: string): string {
    Join([x.implement + target + x.fromBase + baseSha + ".", x.onlyAuthority, x.validate, rendered])
  }

  function Build(w: World, input: Input): Result {
    if NoIdentity(input.identity) then Refused(IdentityMissing)
    else if NoAuthority(w, input) then Refused(AuthorityMissing)
    else if Bytes(input.authority.title) > TITLE_BYTES then Refused(TitleOversize)
    else if Bytes(input.authority.body) > ISSUE_BODY_BYTES then Refused(IssueBodyOversize)
    else
      match RepairRefusal(w, input.kind, input.identity.baseSha, input.repair)
      case Some(code) => Refused(code)
      case None =>
        var rendered := Rendered(w, input);
        if Bytes(rendered) > RENDERED_BYTES then Refused(RenderedOversize)
        else
          var final := FinalText(w.words, TargetText(input.identity.target), input.identity.baseSha, rendered);
          if Bytes(final) > FINAL_CLI_BYTES then Refused(FinalCliOversize)
          else Built(Packet(input.kind, input.identity, rendered, final))
  }

  function Filled(s: string, filler: string): string { if s == "" then filler else s }

  const PENDING_BASE := "<pending-base>"

  function Preflight(w: World, input: Input): Result {
    var id := input.identity;
    Build(w, input.(identity := id.(
      workspacePath := Filled(id.workspacePath, Repeat('w', WORKSPACE_PATH_BYTES)),
      branch := Filled(id.branch, Repeat('b', BRANCH_BYTES)),
      baseSha := Filled(id.baseSha, PENDING_BASE))))
  }
}
