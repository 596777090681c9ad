/**
 The semantic contract of a governed Change: identities, lifecycle states, the
 GitHub evidence a Change is rebuilt from, and the effects a plan may ask for.
 */
module Change {
  import opened Wrappers

  const MAX_SAFE_INTEGER: nat := 9007199254740991
  const MAX_TEXT: nat := 255            // host, branch and base-branch bound
  const MAX_PRINCIPAL: nat := 160
  const MAX_TITLE: nat := 255
  const MAX_BODY: nat := 65536
  const MAX_KEY: nat := 512
  const MAX_CANDIDATES: nat := 64
  const MAX_EFFECTS: nat := 8

  // ---- bounded text ------------------------------------------------------

  predicate IsControl(c: char) { c as int < 0x20 || c as int == 0x7F }

  /** Non-empty, bounded and free of control characters. */
  predicate ValidText(s: string, max: nat) {
    0 < |s| <= max && forall i :: 0 <= i < |s| ==> !IsControl(s[i])
  }

  /** Multi-line text: tab, line feed and carriage return are allowed as well. */
  predicate ValidBody(s: string) {
    0 < |s| <= MAX_BODY && forall i :: 0 <= i < |s| ==> !IsControl(s[i]) || s[i] in "\t\n\r"
  }

  predicate IsWhitespace(c: char) {
    var n := c as int;
    9 <= n <= 13 || n == 0x20 || n == 0xA0 || n == 0x1680 || 0x2000 <= n <= 0x200A ||
    n == 0x2028 || n == 0x2029 || n == 0x202F || n == 0x205F || n == 0x3000 || n == 0xFEFF
  }

  predicate ValidNumber(n: nat) { 1 <= n <= MAX_SAFE_INTEGER }

  predicate IsHexDigit(c: char) { '0' <= c <= '9' || 'a' <= c <= 'f' || 'A' <= c <= 'F' }

  predicate IsCommitSha(s: string) { |s| == 40 && forall i :: 0 <= i < |s| ==> IsHexDigit(s[i]) }

  function LowerChar(c: char): char {
    if 'A' <= c <= 'Z' then (c as int + 32) as char else c
  }

  function Lower(s: string): (r: string)
    ensures |r| == |s| && forall i :: 0 <= i < |s| ==> r[i] == LowerChar(s[i])
  {
    seq(|s|, i requires 0 <= i < |s| => LowerChar(s[i]))
  }

  /** Canonical commit generations survive lower-casing unchanged. */
  lemma LowerIdempotent(s: string)
    ensures Lower(Lower(s)) == Lower(s)
    ensures IsCommitSha(s) ==> IsCommitSha(Lower(s))
  {
  }

  function Decimal(n: nat): (s: string)
    ensures |s| > 0 && forall i :: 0 <= i < |s| ==> '0' <= s[i] <= '9'
  {
    var digit := [('0' as int + n % 10) as char];
    if n < 10 then digit else Decimal(n / 10) + digit
  }

  // ---- identity, provenance and lifecycle ---------------------------------

  datatype Identity = Identity(host: string, repositoryId: string, rootIssue: nat)

  predicate ValidIdentity(id: Identity) {
    && 0 < |id.host| <= MAX_TEXT && (forall i :: 0 <= i < |id.host| ==> !IsWhitespace(id.host[i]) && id.host[i] != '/')
    && 0 < |id.repositoryId| <= 20 && id.repositoryId[0] != '0'
    && (forall i :: 0 <= i < |id.repositoryId| ==> '0' <= id.repositoryId[i] <= '9')
    && ValidNumber(id.rootIssue)
  }

  /** Stable key of one Change; derived from the identity alone. */
  function IdentityKey(id: Identity): string {
    id.host + "#" + id.repositoryId + "#" + Decimal(id.rootIssue)
  }

  datatype Provenance = Provenance(
    requester: Option<string>, issuer: Option<string>, implementer: Option<string>,
    reviewer: Option<string>, merger: Option<string>)

  const NO_PROVENANCE := Provenance(None, None, None, None, None)

  predicate ValidRole(r: Option<string>) {
    r.Some? ==> ValidText(r.value, MAX_PRINCIPAL) && exists i :: 0 <= i < |r.value| && !IsWhitespace(r.value[i])
  }

  predicate ValidProvenance(p: Provenance) {
    ValidRole(p.requester) && ValidRole(p.issuer) && ValidRole(p.implementer) && ValidRole(p.reviewer) && ValidRole(p.merger)
  }

  function Override(base: Option<string>, over: Option<string>): Option<string> {
    if over.Some? then over else base
  }

  /** Roles named by the candidate replace those of the base; the others stay. */
  function MergeProvenance(base: Provenance, over: Option<Provenance>): Provenance {
    match over
    case None => base
    case Some(p) => Provenance(
      Override(base.requester, p.requester), Override(base.issuer, p.issuer), Override(base.implementer, p.implementer),
      Override(base.reviewer, p.reviewer), Override(base.merger, p.merger))
  }

  datatype State = Defined | Draft | Review | Accepted | Merged | Aborted | RecoveryRequired

  datatype Operation = Issue | Ready | Abort | Merge

  /** The executable lifecycle graph: the target of an accepted event. */
  function LifecycleTarget(operation: Operation, from: State): Option<State> {
    match (operation, from)
    case (Issue, Defined) => Some(Draft)
    case (Ready, Draft) => Some(Review)
    case (Ready, Review) => Some(Review)
    case (Abort, Draft) => Some(Aborted)
    case (Abort, Review) => Some(Aborted)
    case (Abort, Aborted) => Some(Aborted)
    case (Abort, RecoveryRequired) => Some(Aborted)
    case (Merge, Review) => Some(Merged)
    case (Merge, Accepted) => Some(Merged)
    case _ => None
  }

  /** The artifacts a Change is projected onto; both absent means no projection. */
  datatype Artifacts = Artifacts(branch: Option<string>, pullRequest: Option<nat>)

  const NO_ARTIFACTS := Artifacts(None, None)

  datatype Change = Change(identity: Identity, state: State, provenance: Provenance, artifacts: Artifacts)

  predicate ValidArtifacts(a: Artifacts) {
    && (a.branch.Some? ==> ValidText(a.branch.value, MAX_TEXT))
    && (a.pullRequest.Some? ==> ValidNumber(a.pullRequest.value))
  }

  predicate ValidChange(c: Change) {
    ValidIdentity(c.identity) && ValidProvenance(c.provenance) && ValidArtifacts(c.artifacts)
  }

  // ---- evidence ------------------------------------------------------------

  datatype Read<+T> = Available(value: T) | ConfirmedAbsent | Unreadable

  datatype IssueEvidence = IssueEvidence(number: nat, open: bool)

  datatype BranchEvidence = BranchEvidence(name: string, sha: Option<string>, rootIssue: Option<nat>)

  /** A pull request as reported; `merged` may be missing. */
  datatype PullRequestReport = PullRequestReport(
    number: nat, head: string, headSha: Option<string>, base: string, open: bool, draft: bool,
    merged: Option<bool>, accepted: Option<bool>, rootIssue: Option<nat>, provenance: Option<Provenance>)

  /** A pull request after normalization. */
  datatype PullRequestEvidence = PullRequestEvidence(
    number: nat, head: string, headSha: Option<string>, base: string, open: bool, draft: bool,
    merged: bool, accepted: Option<bool>, rootIssue: Option<nat>, provenance: Option<Provenance>)

  datatype Evidence = Evidence(
    issue: Read<IssueEvidence>, branches: Read<seq<BranchEvidence>>, pullRequests: Read<seq<PullRequestReport>>)

  // ---- effects --------------------------------------------------------------

  /** What a Core-produced pull-request plan contributes to issuance. */
  datatype PullRequestPlan = PullRequestPlan(
    head: string, base: string, title: string, body: string, keepsDraft: bool,
    milestoneOrReviewers: bool, nativeImplements: bool, host: string, repositoryId: string)

  datatype Effect =
    | CreateBranch(branch: string, baseBranch: string)
    | CreateProvenanceCommit(branch: string, rootIssue: nat, path: string)
    | CreatePullRequest(branch: string, baseBranch: string, rootIssue: nat, title: string, body: string,
                        plan: Option<PullRequestPlan>)
    | MarkPullRequestReady(pullRequest: nat)
    | ClosePullRequest(pullRequest: nat)
    | DeleteBranch(branch: string, expectedCommitSha: Option<string>)

  function ProvenancePath(rootIssue: nat): string {
    ".inari/provenance/" + Decimal(rootIssue) + ".json"
  }
}
