/** What authorizes a packet, as an independent reference: the conditions under which
    one is built, the order in which a missing one is reported, and what of its identity
    a reader and the gate find in it. */
module PacketAuthority {
  import opened Packet
  import opened PacketBounds

  predicate Safe(n: int) { 1 <= n < 0x20_0000_0000_0000 }

  predicate Present(s: string) { exists i | 0 <= i < |s| :: !IsSpace(s[i]) }

  predicate Identified(id: Identity) {
    && Present(id.runId) && Present(id.workspacePath) && Present(id.branch) && Present(id.baseSha)
    && Present(id.execution.profile) && Present(id.execution.revision) && Present(id.execution.executor)
    && Safe(id.execution.timeoutMs)
    && Bytes(id.workspacePath) <= 4096 && Bytes(id.branch) <= 1024
  }

  /** The scope is current, or unknown for a first packet that takes the issue's own. */
  predicate Usable(kind: Kind, a: Authority) {
    match a.freshness
    case Current => true
    case Stale => false
    case Unknown => kind == Initial && a.scope == IssueScope
  }

  predicate Accepted(w: World, kind: Kind, target: Target, a: Authority) {
    && target.Issue? && target.issueNumber == a.issueNumber
    && w.lower(target.owner) == w.lower(a.owner) && w.lower(target.repo) == w.lower(a.repo)
    && Present(a.issueId) && Present(a.issueUpdatedAt) && Present(a.scopeId) && Present(a.scopeUpdatedAt) && Present(a.scopeText)
    && Usable(kind, a)
  }

  /** The evidence is of the head and the pull request that the repair is about. */
  predicate Evident(w: World, kind: Kind, base: string, r: Repair) {
    && |r.headSha| == 40 && (forall c <- r.headSha :: c in "0123456789abcdefABCDEF")
    && r.headSha == base && r.evidenceHeadSha == base
    && Safe(r.pullRequestNumber) && r.evidencePullRequestNumber == r.pullRequestNumber
    && Present(r.evidenceRef) && Present(r.evidence) && w.evidenceMatches(kind, r)
    && (r.leadDisposition.Some? ==> w.leadBinds(r))
    && match kind
       case Initial => false
       case ValidationRepair => r.evidenceKind == ValidationEvidence && r.evidenceStatus == FailedStatus
       case ReviewRepair => r.evidenceKind == ReviewEvidence && r.evidenceStatus == RequestChanges
  }

  predicate RepairSupported(w: World, input: Input) {
    if input.kind == Initial then input.repair == None
    else input.repair.Some? && Evident(w, input.kind, input.identity.baseSha, input.repair.value)
  }

  /** Length of the lines with one line break between two of them. */
  function LinesBytes(lines: seq<string>): nat {
    if lines == [] then 0 else Bytes(lines[0]) + (if |lines| > 1 then 1 else 0) + LinesBytes(lines[1..])
  }

  lemma {:induction false} JoinBytes(lines: seq<string>)
    ensures Bytes(Join(lines)) == LinesBytes(lines)
  {
    if |lines| > 1 {
      JoinBytes(lines[1..]);
      BytesConcat(lines[0] + "\n", Join(lines[1..]));
      BytesConcat(lines[0], "\n");
    } else if |lines| == 1 {
      assert lines[1..] == [];
    }
  }

  function EvidenceBytes(r: Repair): nat {
    LinesBytes([r.evidence] + r.blockingFindings + (if r.leadDisposition.Some? then [r.leadDisposition.value] else []))
  }

  lemma EvidenceMeasured(r: Repair)
    ensures Bytes(Material(r)) == EvidenceBytes(r)
  {
    JoinBytes([r.evidence] + r.blockingFindings + (if r.leadDisposition.Some? then [r.leadDisposition.value] else []));
  }

  lemma PresentExactly(s: string)
    ensures Present(s) <==> !Blank(s)
  {}

  lemma IdentifiedExactly(id: Identity)
    ensures NoIdentity(id) <==> !Identified(id)
  {}

  lemma AcceptedExactly(w: World, input: Input)
    ensures NoAuthority(w, input) <==> !Accepted(w, input.kind, input.identity.target, input.authority)
  {}

  lemma HexExactly(s: string)
    ensures HexSha(s) <==> |s| == 40 && forall c <- s :: c in "0123456789abcdefABCDEF"
  {
    forall c: char ensures c in "0123456789abcdefABCDEF" <==> '0' <= c <= '9' || 'a' <= c <= 'f' || 'A' <= c <= 'F' {
      InHex(c);
    }
    if HexSha(s) {
      forall c <- s ensures c in "0123456789abcdefABCDEF" {}
    } else if |s| == 40 {
      var i :| 0 <= i < |s| && !('0' <= s[i] <= '9' || 'a' <= s[i] <= 'f' || 'A' <= s[i] <= 'F');
      assert s[i] in s;
    }
  }

  lemma InHex(c: char)
    ensures c in "0123456789abcdefABCDEF" <==> '0' <= c <= '9' || 'a' <= c <= 'f' || 'A' <= c <= 'F'
  {
    var h := "0123456789abcdefABCDEF";
    assert forall i | 0 <= i < 10 :: h[i] == ('0' as int + i) as char;
    assert forall i | 10 <= i < 16 :: h[i] == ('a' as int + i - 10) as char;
    assert forall i | 16 <= i < 22 :: h[i] == ('A' as int + i - 16) as char;
    if '0' <= c <= '9' {
      assert h[c as int - '0' as int] == c;
    } else if 'a' <= c <= 'f' {
      assert h[10 + (c as int - 'a' as int)] == c;
    } else if 'A' <= c <= 'F' {
      assert h[16 + (c as int - 'A' as int)] == c;
    }
  }

  lemma EvidentExactly(w: World, kind: Kind, base: string, r: Repair)
    requires kind != Initial
    ensures RepairUnbound(w, kind, base, r) <==> !Evident(w, kind, base, r)
  {
    HexExactly(r.headSha);
  }

  /** The first condition that fails, in the order of the checks. */
  function FirstMissing(w: World, input: Input): Option<Code> {
    var a := input.authority;
    if !Identified(input.identity) then Some(IdentityMissing)
    else if !Accepted(w, input.kind, input.identity.target, a) then Some(AuthorityMissing)
    else if Bytes(a.title) > 1024 then Some(TitleOversize)
    else if Bytes(a.body) > 32768 then Some(IssueBodyOversize)
    else if !RepairSupported(w, input) then Some(RepairEvidenceMissing)
    else if input.repair.Some? && EvidenceBytes(input.repair.value) > 24576 then Some(RepairEvidenceOversize)
    else if input.repair.Some? && |input.repair.value.blockingFindings| > 20 then Some(TooManyBlockingFindings)
    else if input.kind == ReviewRepair && input.repair.Some? && |input.repair.value.blockingFindings| == 0 then Some(RepairEvidenceMissing)
    else if Bytes(Rendered(w, input)) > 61440 then Some(RenderedOversize)
    else if Bytes(FinalText(w.words, TargetText(input.identity.target), input.identity.baseSha, Rendered(w, input))) > 65536 then Some(FinalCliOversize)
    else None
  }

  lemma RepairExactly(w: World, input: Input)
    ensures RepairRefusal(w, input.kind, input.identity.baseSha, input.repair) ==
              if !RepairSupported(w, input) then Some(RepairEvidenceMissing)
              else if input.repair.None? then None
              else if EvidenceBytes(input.repair.value) > 24576 then Some(RepairEvidenceOversize)
              else if |input.repair.value.blockingFindings| > 20 then Some(TooManyBlockingFindings)
              else if input.kind == ReviewRepair && |input.repair.value.blockingFindings| == 0 then Some(RepairEvidenceMissing)
              else None
  {
    if input.repair.Some? && input.kind != Initial {
      EvidentExactly(w, input.kind, input.identity.baseSha, input.repair.value);
      EvidenceMeasured(input.repair.value);
    }
  }

  /** A packet is built exactly when nothing is missing, and a refusal names the first
      thing that is. */
  lemma RefusalIsExact(w: World, input: Input)
    ensures match Build(w, input)
            case Built(_) => FirstMissing(w, input) == None
            case Refused(code) => FirstMissing(w, input) == Some(code)
  {
    IdentifiedExactly(input.identity);
    AcceptedExactly(w, input);
    RepairExactly(w, input);
  }

  /** What a built packet is authorized by: no stale scope, and an unknown one on a
      first packet from its issue alone; a repair only of the exact head. */
  lemma BuiltIsAuthorized(w: World, input: Input)
    requires Build(w, input).Built?
    ensures var a, t := input.authority, input.identity.target;
            && a.freshness != Stale && (a.freshness == Unknown ==> input.kind == Initial && a.scope == IssueScope && input.repair == None)
            && t.Issue? && t.issueNumber == a.issueNumber && w.lower(t.owner) == w.lower(a.owner) && w.lower(t.repo) == w.lower(a.repo)
            && (input.kind == Initial <==> input.repair == None)
            && (input.repair.Some? ==>
                  var r := input.repair.value;
                  && r.headSha == r.evidenceHeadSha == input.identity.baseSha && |r.headSha| == 40
                  && r.pullRequestNumber == r.evidencePullRequestNumber && w.evidenceMatches(input.kind, r)
                  && (input.kind == ReviewRepair ==> 1 <= |r.blockingFindings| <= 20))
  {
    RefusalIsExact(w, input);
  }

  // --- the identity in the final text

  lemma FramedLine(before: seq<string>, x: string, y: string, z: string, after: seq<string>, line: string)
    requires line in before || line == x || line == y || line == z
    ensures Within(line, Join(Framed(before, x, y, z, after)))
  {
    var lines := Framed(before, x, y, z, after);
    assert lines[|before|] == x && lines[|before| + 1] == y && lines[|before| + 2] == z;
    LineWithin(lines, line);
  }

  lemma IdentityLine(w: World, input: Input, line: string)
    requires var id, x := input.identity, w.words;
             || line == x.kind(input.kind) || line == x.run + id.runId || line == x.target + TargetText(id.target)
             || line == x.workspace + id.workspacePath || line == x.branch + id.branch || line == x.base + id.baseSha
    ensures Within(line, FinalText(w.words, TargetText(input.identity.target), input.identity.baseSha, Rendered(w, input)))
  {
    var id, x := input.identity, w.words;
    var before := Heading(x, input.kind, id.runId, id.target);
    assert before[1] == x.kind(input.kind) && before[2] == x.run + id.runId && before[3] == x.target + TargetText(id.target);
    FramedLine(before, x.workspace + id.workspacePath, x.branch + id.branch, x.base + id.baseSha,
               Task(w, id.execution, input.authority, input.repair), line);
    FinalHasRendered(x, TargetText(id.target), id.baseSha, Rendered(w, input));
    WithinTransitive(line, Rendered(w, input), FinalText(x, TargetText(id.target), id.baseSha, Rendered(w, input)));
  }

  /** The final text of a built packet names its whole identity. */
  lemma NothingUnnamed(w: World, input: Input)
    requires Build(w, input).Built?
    ensures var p, id, x := Build(w, input).packet, input.identity, w.words;
            && Within(x.kind(input.kind), p.finalCliText)
            && Within(x.run + id.runId, p.finalCliText) && Within(x.target + TargetText(id.target), p.finalCliText)
            && Within(x.workspace + id.workspacePath, p.finalCliText) && Within(x.branch + id.branch, p.finalCliText)
            && Within(x.base + id.baseSha, p.finalCliText)
  {
    var id, x := input.identity, w.words;
    IdentityLine(w, input, x.kind(input.kind));
    IdentityLine(w, input, x.run + id.runId);
    IdentityLine(w, input, x.target + TargetText(id.target));
    IdentityLine(w, input, x.workspace + id.workspacePath);
    IdentityLine(w, input, x.branch + id.branch);
    IdentityLine(w, input, x.base + id.baseSha);
  }

  // --- the authority and the execution in the final text

  lemma AtEnd(s: string, x: string)
    ensures Within(s, x + s)
  {
    assert x + s == x + s + "";
  }

  lemma AuthorityPieces(w: World, a: Authority)
    ensures Within(a.owner, IssueLine(w, a)) && Within(a.repo + "#" + Decimal(a.issueNumber) + " " + a.issueId, IssueLine(w, a))
    ensures Within(a.issueUpdatedAt, IssueLine(w, a)) && Within(w.digest(a.body), IssueLine(w, a))
  {
    var name := a.repo + "#" + Decimal(a.issueNumber) + " " + a.issueId;
    var rest := w.words.updated + a.issueUpdatedAt + w.words.sha + w.digest(a.body);
    assert IssueLine(w, a) == w.words.issue + a.owner + ("/" + name + rest);
    assert IssueLine(w, a) == (w.words.issue + a.owner + "/") + name + rest;
    assert IssueLine(w, a) == (w.words.issue + a.owner + "/" + name + w.words.updated) + a.issueUpdatedAt + (w.words.sha + w.digest(a.body));
    AtEnd(w.digest(a.body), w.words.issue + a.owner + "/" + name + w.words.updated + a.issueUpdatedAt + w.words.sha);
    assert IssueLine(w, a) == (w.words.issue + a.owner + "/" + name + w.words.updated + a.issueUpdatedAt + w.words.sha) + w.digest(a.body);
  }

  lemma ScopePieces(w: World, a: Authority)
    ensures Within(w.words.scopeKind(a.scope) + " " + a.scopeId, ScopeLine(w, a))
    ensures Within(a.scopeUpdatedAt, ScopeLine(w, a)) && Within(w.digest(a.scopeText), ScopeLine(w, a))
  {
    var name := w.words.scopeKind(a.scope) + " " + a.scopeId;
    assert ScopeLine(w, a) == w.words.scope + name + (w.words.updated + a.scopeUpdatedAt + w.words.sha + w.digest(a.scopeText));
    assert ScopeLine(w, a) == (w.words.scope + name + w.words.updated) + a.scopeUpdatedAt + (w.words.sha + w.digest(a.scopeText));
    AtEnd(w.digest(a.scopeText), w.words.scope + name + w.words.updated + a.scopeUpdatedAt + w.words.sha);
    assert ScopeLine(w, a) == (w.words.scope + name + w.words.updated + a.scopeUpdatedAt + w.words.sha) + w.digest(a.scopeText);
  }

  lemma Pair(before: string, tag: string, value: string)
    ensures before + tag + value == before + (tag + value)
  {}

  lemma ExecutionPieces(x: Wording, e: Execution)
    requires e.timeoutMs >= 0
    ensures var line := ExecutionLine(x, e);
            && Within(x.profile + e.profile, line) && Within(x.revision + e.revision, line) && Within(x.executor + e.executor, line)
            && Within(x.model + Or(e.model, x.unspecified), line) && Within(x.reasoning + Or(e.reasoningEffort, x.unspecified), line)
            && Within(x.timeout + Decimal(e.timeoutMs), line)
            && Within(x.sandbox + Or(e.sandboxMode, x.unspecified), line) && Within(x.approval + Or(e.approvalPolicy, x.unspecified), line)
  {
    var p := [x.profile + e.profile, x.revision + e.revision, x.executor + e.executor,
              x.model + Or(e.model, x.unspecified), x.reasoning + Or(e.reasoningEffort, x.unspecified), x.timeout + Decimal(e.timeoutMs),
              x.sandbox + Or(e.sandboxMode, x.unspecified), x.approval + Or(e.approvalPolicy, x.unspecified)];
    Pair(p[0], x.revision, e.revision);
    Pair(p[0] + p[1], x.executor, e.executor);
    Pair(p[0] + p[1] + p[2], x.model, Or(e.model, x.unspecified));
    Pair(p[0] + p[1] + p[2] + p[3], x.reasoning, Or(e.reasoningEffort, x.unspecified));
    Pair(p[0] + p[1] + p[2] + p[3] + p[4], x.timeout, Decimal(e.timeoutMs));
    Pair(p[0] + p[1] + p[2] + p[3] + p[4] + p[5], x.sandbox, Or(e.sandboxMode, x.unspecified));
    Pair(p[0] + p[1] + p[2] + p[3] + p[4] + p[5] + p[6], x.approval, Or(e.approvalPolicy, x.unspecified));
    EightPieces(p);
  }

  lemma EightPieces(p: seq<string>)
    requires |p| == 8
    ensures forall i | 0 <= i < 8 :: Within(p[i], p[0] + p[1] + p[2] + p[3] + p[4] + p[5] + p[6] + p[7])
  {
    var whole := p[0] + p[1] + p[2] + p[3] + p[4] + p[5] + p[6] + p[7];
    assert whole == "" + p[0] + (p[1] + p[2] + p[3] + p[4] + p[5] + p[6] + p[7]);
    assert whole == p[0] + p[1] + (p[2] + p[3] + p[4] + p[5] + p[6] + p[7]);
    assert whole == (p[0] + p[1]) + p[2] + (p[3] + p[4] + p[5] + p[6] + p[7]);
    assert whole == (p[0] + p[1] + p[2]) + p[3] + (p[4] + p[5] + p[6] + p[7]);
    assert whole == (p[0] + p[1] + p[2] + p[3]) + p[4] + (p[5] + p[6] + p[7]);
    assert whole == (p[0] + p[1] + p[2] + p[3] + p[4]) + p[5] + (p[6] + p[7]);
    assert whole == (p[0] + p[1] + p[2] + p[3] + p[4] + p[5]) + p[6] + p[7];
    assert whole == (p[0] + p[1] + p[2] + p[3] + p[4] + p[5] + p[6]) + p[7] + "";
  }

  lemma RepairPieces(w: World, r: Repair)
    requires r.pullRequestNumber >= 0
    ensures var lines := RepairLines(w, r);
            && |lines| >= 2
            && Within(Decimal(r.pullRequestNumber), lines[0]) && Within(r.headSha, lines[0])
            && Within(r.evidenceRef, lines[1]) && Within(w.digest(Material(r)), lines[1])
    ensures r.leadDisposition.Some? ==> r.leadDisposition.value in RepairLines(w, r)
  {
    var n := Decimal(r.pullRequestNumber);
    var lines := RepairLines(w, r);
    assert lines[0] == w.words.repairIdentity + n + (w.words.repairHead + r.headSha);
    AtEnd(r.headSha, w.words.repairIdentity + n + w.words.repairHead);
    assert lines[1] == w.words.repairSource + r.evidenceRef + (w.words.sha + w.digest(Material(r)));
    AtEnd(w.digest(Material(r)), w.words.repairSource + r.evidenceRef + w.words.sha);
    if r.leadDisposition.Some? {
      assert lines[3] == r.leadDisposition.value;
    }
  }

  /** A piece of a line of the packet's body stands in the final text. */
  lemma PieceInFinal(w: World, input: Input, p: Packet, piece: string, line: string)
    requires line in Task(w, input.identity.execution, input.authority, input.repair) && Within(piece, line)
    requires p.rendered == Rendered(w, input) && Within(p.rendered, p.finalCliText)
    ensures Within(piece, p.finalCliText)
  {
    InFinal(w, input, p, line);
    WithinTransitive(piece, line, p.finalCliText);
  }

  lemma AuthorityLines(w: World, input: Input)
    ensures var t := Task(w, input.identity.execution, input.authority, input.repair);
            ExecutionLine(w.words, input.identity.execution) in t && IssueLine(w, input.authority) in t && ScopeLine(w, input.authority) in t
  {
    var t := Task(w, input.identity.execution, input.authority, input.repair);
    assert t[0] == ExecutionLine(w.words, input.identity.execution) && t[1] == IssueLine(w, input.authority) && t[2] == ScopeLine(w, input.authority);
  }

  lemma FinalOf(w: World, input: Input) returns (p: Packet)
    requires Build(w, input).Built?
    ensures p == Build(w, input).packet && p.rendered == Rendered(w, input) && Within(p.rendered, p.finalCliText)
  {
    p := BuiltPacket(w, input);
    FinalHasRendered(w.words, TargetText(input.identity.target), input.identity.baseSha, p.rendered);
  }

  /** The final text of a built packet shows what authorized it: the issue and the scope
      with their update times and the digests of their texts. */
  lemma AuthorityShown(w: World, input: Input)
    requires Build(w, input).Built?
    ensures var t, a := Build(w, input).packet.finalCliText, input.authority;
            && Within(a.owner, t) && Within(a.repo + "#" + Decimal(a.issueNumber) + " " + a.issueId, t)
            && Within(a.issueUpdatedAt, t) && Within(w.digest(a.body), t)
            && Within(w.words.scopeKind(a.scope) + " " + a.scopeId, t)
            && Within(a.scopeUpdatedAt, t) && Within(w.digest(a.scopeText), t)
  {
    var p := FinalOf(w, input);
    var a := input.authority;
    AuthorityLines(w, input);
    AuthorityPieces(w, a);
    ScopePieces(w, a);
    PieceInFinal(w, input, p, a.owner, IssueLine(w, a));
    PieceInFinal(w, input, p, a.repo + "#" + Decimal(a.issueNumber) + " " + a.issueId, IssueLine(w, a));
    PieceInFinal(w, input, p, a.issueUpdatedAt, IssueLine(w, a));
    PieceInFinal(w, input, p, w.digest(a.body), IssueLine(w, a));
    PieceInFinal(w, input, p, w.words.scopeKind(a.scope) + " " + a.scopeId, ScopeLine(w, a));
    PieceInFinal(w, input, p, a.scopeUpdatedAt, ScopeLine(w, a));
    PieceInFinal(w, input, p, w.digest(a.scopeText), ScopeLine(w, a));
  }

  /** And under which execution it is to be done. */
  lemma ExecutionShown(w: World, input: Input)
    requires Build(w, input).Built?
    ensures var t, e, x := Build(w, input).packet.finalCliText, input.identity.execution, w.words;
            && e.timeoutMs >= 0
            && Within(x.profile + e.profile, t) && Within(x.revision + e.revision, t) && Within(x.executor + e.executor, t)
            && Within(x.model + Or(e.model, x.unspecified), t) && Within(x.reasoning + Or(e.reasoningEffort, x.unspecified), t)
            && Within(x.timeout + Decimal(e.timeoutMs), t)
            && Within(x.sandbox + Or(e.sandboxMode, x.unspecified), t) && Within(x.approval + Or(e.approvalPolicy, x.unspecified), t)
  {
    var p := FinalOf(w, input);
    var e, x := input.identity.execution, w.words;
    AuthorityLines(w, input);
    ExecutionPieces(x, e);
    InFinal(w, input, p, ExecutionLine(x, e));
    forall piece | Within(piece, ExecutionLine(x, e)) ensures Within(piece, p.finalCliText) {
      WithinTransitive(piece, ExecutionLine(x, e), p.finalCliText);
    }
  }

  /** A repair shows the pull request and head it is of, where its evidence is from with
      the digest of all of it, and the lead's disposition. */
  lemma RepairShown(w: World, input: Input)
    requires Build(w, input).Built? && input.repair.Some?
    ensures var t, r := Build(w, input).packet.finalCliText, input.repair.value;
            && r.pullRequestNumber >= 0
            && Within(Decimal(r.pullRequestNumber), t) && Within(r.headSha, t) && Within(r.evidenceRef, t) && Within(w.digest(Material(r)), t)
            && (r.leadDisposition.Some? ==> Within(r.leadDisposition.value, t))
  {
    var p := FinalOf(w, input);
    var r := input.repair.value;
    BuiltIsAuthorized(w, input);
    RefusalIsExact(w, input);
    RepairPieces(w, r);
    TaskLines(w, input.identity.execution, input.authority, input.repair);
    var lines := RepairLines(w, r);
    assert lines[0] in lines && lines[1] in lines;
    PieceInFinal(w, input, p, Decimal(r.pullRequestNumber), lines[0]);
    PieceInFinal(w, input, p, r.headSha, lines[0]);
    PieceInFinal(w, input, p, r.evidenceRef, lines[1]);
    PieceInFinal(w, input, p, w.digest(Material(r)), lines[1]);
    if r.leadDisposition.Some? {
      InFinal(w, input, p, r.leadDisposition.value);
    }
  }

  /** The request of a built packet lets no other packet through: one that passes with
      it has the same texts and, but for the way its target is written, its identity. */
  lemma RequestPassesOnlyItsPacket(w: World, input: Input, other: Packet)
    requires Build(w, input).Built?
    requires GateOn(w.words, other, RequestFor(Build(w, input).packet)) == Pass
    ensures var p := Build(w, input).packet;
            && other.rendered == p.rendered && other.finalCliText == p.finalCliText
            && TargetText(other.identity.target) == TargetText(p.identity.target)
            && other.identity.(target := p.identity.target) == p.identity
  {}
}
