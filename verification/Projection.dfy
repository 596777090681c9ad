/**
 Rebuild one Change from Issue, branch and pull-request evidence.
 `Project` is the specification; `ProjectChange` computes it step by step.
 */
module Projection {
  import opened Wrappers
  import opened Ordering
  import opened Change

  datatype Status = Healthy | Absent | Partial | Duplicate | WrongBase | Ambiguous | Unavailable

  datatype Class = Canonical | Noncanonical | Conflicting

  datatype Candidate<+T> = Candidate(evidence: T, class_: Class)

  datatype Code =
    | InvalidInput | EvidenceUnavailable | EvidenceMissing | InvalidEvidence | IssueMismatch
    | ConflictingEvidence | PartialEvidence | DuplicateEvidence | WrongBaseEvidence | AmbiguousEvidence

  const MAX_DIAGNOSTICS: nat := 32

  /** Who names the canonical branch: a governed plan or policy, or the legacy derivation. */
  datatype Authority = Governed(branch: string) | Derived(branch: string)

  datatype Input = Input(
    identity: Identity, provenance: Provenance, authority: Authority, baseBranch: string, evidence: Evidence)

  datatype Projection = Projection(
    valid: bool, status: Status, canonicalBranch: Option<string>, canonicalBaseBranch: Option<string>,
    branches: seq<Candidate<BranchEvidence>>, pullRequests: seq<Candidate<PullRequestEvidence>>,
    change: Option<Change>, diagnostics: seq<Code>)

  /** Everything the classification looks at, once the evidence has been read and normalized. */
  datatype Facts = Facts(
    identity: Identity, provenance: Provenance, authority: Authority, baseBranch: string,
    issue: Option<IssueEvidence>, branches: seq<BranchEvidence>, pullRequests: seq<PullRequestEvidence>)

  // ---- reading the evidence ---------------------------------------------------

  predicate ValidInput(input: Input) {
    && ValidIdentity(input.identity) && ValidProvenance(input.provenance)
    && ValidText(input.authority.branch, MAX_TEXT) && ValidText(input.baseBranch, MAX_TEXT)
  }

  predicate ValidBranchReport(b: BranchEvidence) {
    && ValidText(b.name, MAX_TEXT)
    && (b.sha.Some? ==> IsCommitSha(b.sha.value))
    && (b.rootIssue.Some? ==> ValidNumber(b.rootIssue.value))
  }

  predicate ValidPullRequestReport(p: PullRequestReport) {
    && ValidNumber(p.number) && ValidText(p.head, MAX_TEXT) && ValidText(p.base, MAX_TEXT)
    && (p.headSha.Some? ==> IsCommitSha(p.headSha.value))
    && (p.rootIssue.Some? ==> ValidNumber(p.rootIssue.value))
    && (p.provenance.Some? ==> ValidProvenance(p.provenance.value))
  }

  function BranchDiagnostics(b: BranchEvidence): seq<Code> {
    if ValidBranchReport(b) then [] else [InvalidEvidence]
  }

  /** A closed report must say whether it was merged; open-and-merged and draft-and-accepted contradict themselves. */
  function PullRequestDiagnostics(p: PullRequestReport): seq<Code> {
    (if ValidPullRequestReport(p) then [] else [InvalidEvidence]) +
    (if p.merged.None? && !p.open then [EvidenceMissing] else []) +
    (if p.open && p.merged == Some(true) then [ConflictingEvidence] else []) +
    (if p.draft && p.accepted == Some(true) then [ConflictingEvidence] else [])
  }

  function Collect<T>(s: seq<T>, f: T -> seq<Code>): seq<Code> {
    if s == [] then [] else Collect(s[..|s| - 1], f) + f(s[|s| - 1])
  }

  function ListDiagnostics<T>(r: Read<seq<T>>, f: T -> seq<Code>): seq<Code> {
    match r
    case Unreadable => [EvidenceUnavailable]
    case ConfirmedAbsent => []
    case Available(s) => if |s| > MAX_CANDIDATES then [InvalidEvidence] else Collect(s, f)
  }

  function IssueDiagnostics(r: Read<IssueEvidence>): seq<Code> {
    match r
    case Unreadable => [EvidenceUnavailable]
    case ConfirmedAbsent => []
    case Available(i) => if ValidNumber(i.number) then [] else [InvalidEvidence]
  }

  function EvidenceDiagnostics(e: Evidence): seq<Code> {
    IssueDiagnostics(e.issue) + ListDiagnostics(e.branches, BranchDiagnostics)
      + ListDiagnostics(e.pullRequests, PullRequestDiagnostics)
  }

  function NormalizeBranch(b: BranchEvidence): BranchEvidence {
    b.(sha := if b.sha.Some? then Some(Lower(b.sha.value)) else None)
  }

  function NormalizePullRequest(p: PullRequestReport): PullRequestEvidence {
    PullRequestEvidence(p.number, p.head, if p.headSha.Some? then Some(Lower(p.headSha.value)) else None, p.base,
                        p.open, p.draft, p.merged.GetOr(false), p.accepted, p.rootIssue, p.provenance)
  }

  function ReadList<T>(r: Read<seq<T>>): seq<T> {
    if r.Available? then r.value else []
  }

  // ---- candidate order ----------------------------------------------------------

  function CompareOptionalNumber(a: Option<nat>, b: Option<nat>): int {
    if a.None? && b.None? then 0 else if a.None? then -1 else if b.None? then 1 else a.value - b.value
  }

  function BoolRank(b: bool): int { if b then 1 else 0 }

  function CompareBool(a: bool, b: bool): int { BoolRank(a) - BoolRank(b) }

  function CompareOptionalBool(a: Option<bool>, b: Option<bool>): int {
    if a.None? && b.None? then 0 else if a.None? then -1 else if b.None? then 1 else BoolRank(a.value) - BoolRank(b.value)
  }

  /** An absent optional text compares like the empty text. */
  function CompareOptionalText(a: Option<string>, b: Option<string>): int {
    CompareText(a.GetOr(""), b.GetOr(""))
  }

  function StateText(p: PullRequestEvidence): string { if p.open then "open" else "closed" }

  function Roles(p: PullRequestEvidence): Provenance { p.provenance.GetOr(NO_PROVENANCE) }

  function CompareBranches(a: BranchEvidence, b: BranchEvidence): int {
    Or(CompareText(a.name, b.name),
    Or(CompareOptionalText(a.sha, b.sha),
       CompareOptionalNumber(a.rootIssue, b.rootIssue)))
  }

  function CompareRoles(a: Provenance, b: Provenance): int {
    Or(CompareOptionalText(a.issuer, b.issuer),
    Or(CompareOptionalText(a.implementer, b.implementer),
    Or(CompareOptionalText(a.reviewer, b.reviewer),
    Or(CompareOptionalText(a.merger, b.merger),
       CompareOptionalText(a.requester, b.requester)))))
  }

  function CompareStates(a: PullRequestEvidence, b: PullRequestEvidence): int {
    Or(CompareText(StateText(a), StateText(b)),
    Or(CompareBool(a.draft, b.draft),
    Or(CompareBool(a.merged, b.merged),
    Or(CompareOptionalBool(a.accepted, b.accepted),
       CompareOptionalNumber(a.rootIssue, b.rootIssue)))))
  }

  function ComparePullRequests(a: PullRequestEvidence, b: PullRequestEvidence): int {
    Or(CompareNumber(a.number, b.number),
    Or(CompareText(a.head, b.head),
    Or(CompareOptionalText(a.headSha, b.headSha),
    Or(CompareText(a.base, b.base),
    Or(CompareStates(a, b), CompareRoles(Roles(a), Roles(b)))))))
  }

  /** The facts of an input whose evidence was read without a diagnostic. */
  function FactsOf(input: Input): Facts {
    var e := input.evidence;
    Facts(input.identity, input.provenance, input.authority, input.baseBranch,
          if e.issue.Available? then Some(e.issue.value) else None,
          StableSort(Map(ReadList(e.branches), NormalizeBranch), CompareBranches),
          StableSort(Map(ReadList(e.pullRequests), NormalizePullRequest), ComparePullRequests))
  }

  // ---- which branch is canonical --------------------------------------------------

  function AnchoredNames(f: Facts): set<string> {
    (set b | b in f.branches && b.rootIssue == Some(f.identity.rootIssue) :: b.name) +
    (set p | p in f.pullRequests && p.rootIssue == Some(f.identity.rootIssue) :: p.head)
  }

  lemma SingletonUnique<T>(s: set<T>, x: T, y: T)
    requires |s| == 1 && x in s && y in s
    ensures x == y
  {
    assert |s - {x}| == 0;
  }

  function TheOnly<T(==)>(s: set<T>): (x: T)
    requires |s| == 1
    ensures s == {x}
  {
    assert forall x, y | x in s && y in s :: x == y by {
      forall x, y | x in s && y in s ensures x == y { SingletonUnique(s, x, y); }
    }
    assert s != {};
    var x :| x in s;
    x
  }

  /** A governed branch always wins; otherwise a unique root-Issue claim anchors the branch. */
  function CanonicalBranch(f: Facts): string {
    if f.authority.Governed? then f.authority.branch
    else if |AnchoredNames(f)| == 1 then TheOnly(AnchoredNames(f))
    else f.authority.branch
  }

  predicate AmbiguouslyAnchored(f: Facts) {
    || |AnchoredNames(f)| > 1
    || (f.authority.Governed? && exists name :: name in AnchoredNames(f) && name != CanonicalBranch(f))
  }

  // ---- classification ----------------------------------------------------------------

  function BranchName(b: BranchEvidence): string { b.name }

  function Number(p: PullRequestEvidence): nat { p.number }

  function NameCounts(f: Facts): multiset<string> { multiset(Map(f.branches, BranchName)) }

  function NumberCounts(f: Facts): multiset<nat> { multiset(Map(f.pullRequests, Number)) }

  function ClassifyBranch(f: Facts, b: BranchEvidence): Class {
    if NameCounts(f)[b.name] > 1 then Conflicting
    else if b.rootIssue.Some? && b.rootIssue.value != f.identity.rootIssue then Conflicting
    else if b.name == CanonicalBranch(f) then Canonical
    else Noncanonical
  }

  predicate IdentityMatches(f: Facts, p: PullRequestEvidence) {
    && p.number != f.identity.rootIssue
    && p.head == CanonicalBranch(f)
    && p.base == f.baseBranch
    && (p.rootIssue.None? || p.rootIssue.value == f.identity.rootIssue)
  }

  function ClassifyPullRequest(f: Facts, p: PullRequestEvidence): Class {
    if NumberCounts(f)[p.number] > 1 then Conflicting
    else if p.number == f.identity.rootIssue then Conflicting
    else if p.head == CanonicalBranch(f) && p.base != f.baseBranch then Conflicting
    else if p.head == CanonicalBranch(f) && p.rootIssue.Some? && p.rootIssue.value != f.identity.rootIssue then Conflicting
    else if IdentityMatches(f, p) then Canonical
    else Noncanonical
  }

  function BranchCandidates(f: Facts): seq<Candidate<BranchEvidence>> {
    Map(f.branches, b => Candidate(b, ClassifyBranch(f, b)))
  }

  function PullRequestCandidates(f: Facts): seq<Candidate<PullRequestEvidence>> {
    Map(f.pullRequests, p => Candidate(p, ClassifyPullRequest(f, p)))
  }

  function OnCanonicalBranch(f: Facts): BranchEvidence -> bool {
    (b: BranchEvidence) => b.name == CanonicalBranch(f)
  }

  function MatchesIdentity(f: Facts): PullRequestEvidence -> bool {
    p => IdentityMatches(f, p)
  }

  function ConflictingBranch(f: Facts): BranchEvidence -> bool {
    b => ClassifyBranch(f, b) == Conflicting
  }

  function ConflictingPullRequest(f: Facts): PullRequestEvidence -> bool {
    p => ClassifyPullRequest(f, p) == Conflicting
  }

  function RepeatsCanonicalNumber(f: Facts): PullRequestEvidence -> bool {
    (p: PullRequestEvidence) => p.head == CanonicalBranch(f) && NumberCounts(f)[p.number] > 1
  }

  function MissesBase(f: Facts): PullRequestEvidence -> bool {
    (p: PullRequestEvidence) => p.head == CanonicalBranch(f) && p.base != f.baseBranch
  }

  function HeadsCanonicalBranch(f: Facts): PullRequestEvidence -> bool {
    (p: PullRequestEvidence) => p.head == CanonicalBranch(f)
  }

  function ClaimsElsewhere(f: Facts): PullRequestEvidence -> bool {
    (p: PullRequestEvidence) => p.rootIssue == Some(f.identity.rootIssue) && p.head != CanonicalBranch(f)
  }

  function CanonicalBranches(f: Facts): seq<BranchEvidence> { Filter(f.branches, OnCanonicalBranch(f)) }

  function CanonicalPullRequests(f: Facts): seq<PullRequestEvidence> { Filter(f.pullRequests, MatchesIdentity(f)) }

  predicate RepeatedCanonicalNumber(f: Facts) { Filter(f.pullRequests, RepeatsCanonicalNumber(f)) != [] }

  predicate OffBase(f: Facts) { Filter(f.pullRequests, MissesBase(f)) != [] }

  predicate AnyConflict(f: Facts) {
    Filter(f.branches, ConflictingBranch(f)) != [] || Filter(f.pullRequests, ConflictingPullRequest(f)) != []
  }

  predicate ClosedUnmerged(p: PullRequestEvidence) { !p.open && !p.merged }

  function PlausibleNoncanonical(f: Facts): seq<PullRequestEvidence> { Filter(f.pullRequests, ClaimsElsewhere(f)) }

  /** What the status cascade looks at. */
  datatype Tally = Tally(
    branches: nat, pullRequests: nat, onlyClosedUnmerged: bool, issueKnown: bool, repeatedNumber: bool,
    offBase: bool, ambiguousAnchor: bool, conflict: bool, elsewhere: nat)

  function TallyOf(f: Facts): Tally {
    var prs := CanonicalPullRequests(f);
    Tally(|CanonicalBranches(f)|, |prs|, |prs| == 1 && ClosedUnmerged(prs[0]), f.issue.Some?, RepeatedCanonicalNumber(f),
          OffBase(f), AmbiguouslyAnchored(f), AnyConflict(f), |PlausibleNoncanonical(f)|)
  }

  /** The status cascade, in the order in which it is decided. */
  function Decide(t: Tally): Status {
    if t.branches > 1 || t.pullRequests > 1 || t.repeatedNumber then Duplicate
    else if t.offBase then WrongBase
    else if t.ambiguousAnchor then Ambiguous
    else if t.conflict then Ambiguous
    else if t.branches == 1 && t.onlyClosedUnmerged && t.issueKnown then Partial
    else if t.branches == 0 && t.onlyClosedUnmerged && t.issueKnown then Healthy
    else if t.branches == 1 && t.pullRequests == 1 && t.issueKnown then Healthy
    else if t.branches == 1 || t.pullRequests == 1 then Partial
    else if t.elsewhere > 1 then Ambiguous
    else if !t.issueKnown && (t.branches > 0 || t.pullRequests > 0) then Partial
    else Absent
  }

  function StatusOf(f: Facts): Status { Decide(TallyOf(f)) }

  function StateFromPullRequest(p: PullRequestEvidence): State {
    if !p.open then if p.merged then Merged else Aborted
    else if p.draft then Draft
    else if p.accepted == Some(true) then Accepted
    else Review
  }

  function StatusDiagnostics(s: Status): seq<Code> {
    match s
    case Partial => [PartialEvidence]
    case Duplicate => [DuplicateEvidence]
    case WrongBase => [WrongBaseEvidence]
    case Ambiguous => [AmbiguousEvidence]
    case _ => []
  }

  function OnlyPullRequest(f: Facts): Option<PullRequestEvidence> {
    var prs := CanonicalPullRequests(f);
    if |prs| == 1 then Some(prs[0]) else None
  }

  predicate BranchKnown(f: Facts) {
    |CanonicalBranches(f)| == 1 || Filter(f.pullRequests, HeadsCanonicalBranch(f)) != []
  }

  function BuildChange(f: Facts, status: Status, branch: Option<string>, only: Option<PullRequestEvidence>): Change {
    match only
    case None => Change(f.identity, RecoveryRequired, f.provenance, Artifacts(branch, None))
    case Some(p) =>
      Change(f.identity, if status == Healthy then StateFromPullRequest(p) else RecoveryRequired,
             MergeProvenance(f.provenance, p.provenance), Artifacts(branch, Some(p.number)))
  }

  function ProjectedChange(f: Facts): Change {
    BuildChange(f, StatusOf(f), if BranchKnown(f) then Some(CanonicalBranch(f)) else None, OnlyPullRequest(f))
  }

  function ProjectFacts(f: Facts): Projection {
    var status := StatusOf(f);
    var change :=
      if status == Absent then
        if f.issue.Some? then Some(Change(f.identity, Defined, f.provenance, NO_ARTIFACTS)) else None
      else Some(ProjectedChange(f));
    var conflict := AnyConflict(f) && status !in {Absent, Duplicate, WrongBase};
    Projection(status == Healthy || status == Absent, status, Some(CanonicalBranch(f)), Some(f.baseBranch),
               BranchCandidates(f), PullRequestCandidates(f), change,
               (if conflict then [ConflictingEvidence] else []) + StatusDiagnostics(status))
  }

  function MismatchedIssue(f: Facts): Projection {
    Projection(false, Unavailable, Some(CanonicalBranch(f)), Some(f.baseBranch),
               BranchCandidates(f), PullRequestCandidates(f), None, [IssueMismatch])
  }

  function Rejected(codes: seq<Code>, branch: Option<string>, base: Option<string>): Projection {
    Projection(false, Unavailable, branch, base, [], [], None,
               if |codes| > MAX_DIAGNOSTICS then codes[..MAX_DIAGNOSTICS] else codes)
  }

  predicate Readable(input: Input) {
    ValidInput(input) && EvidenceDiagnostics(input.evidence) == []
  }

  predicate IssueMatches(f: Facts) { f.issue.Some? ==> f.issue.value.number == f.identity.rootIssue }

  function Project(input: Input): Projection {
    if !ValidInput(input) then Rejected([InvalidInput], Some(input.authority.branch), Some(input.baseBranch))
    else if EvidenceDiagnostics(input.evidence) != [] then
      Rejected(EvidenceDiagnostics(input.evidence), Some(input.authority.branch), Some(input.baseBranch))
    else
      var f := FactsOf(input);
      if !IssueMatches(f) then MismatchedIssue(f) else ProjectFacts(f)
  }

  // ---- the computation ------------------------------------------------------------------

  /** Count how often each key occurs. */
  method CountValues<T, K(==)>(values: seq<T>, key: T -> K) returns (counts: map<K, nat>)
    ensures forall k :: (if k in counts then counts[k] else 0) == multiset(Map(values, key))[k]
  {
    counts := map[];
    for i := 0 to |values|
      invariant forall k :: (if k in counts then counts[k] else 0) == multiset(Map(values[..i], key))[k]
    {
      var k := key(values[i]);
      counts := counts[k := (if k in counts then counts[k] else 0) + 1];
      assert values[..i + 1] == values[..i] + [values[i]];
      assert Map(values[..i + 1], key) == Map(values[..i], key) + [k];
    }
    assert values[..|values|] == values;
  }

  /** Every branch name that observed evidence ties to the root Issue. */
  method CollectAnchoredNames(f: Facts) returns (names: set<string>)
    ensures names == AnchoredNames(f)
  {
    var root := Some(f.identity.rootIssue);
    names := {};
    for i := 0 to |f.branches|
      invariant names == set b | b in f.branches[..i] && b.rootIssue == root :: b.name
    {
      assert f.branches[..i + 1] == f.branches[..i] + [f.branches[i]];
      if f.branches[i].rootIssue == root { names := names + {f.branches[i].name}; }
    }
    assert f.branches[..|f.branches|] == f.branches;
    ghost var fromBranches := names;
    for i := 0 to |f.pullRequests|
      invariant names == fromBranches + set p | p in f.pullRequests[..i] && p.rootIssue == root :: p.head
    {
      assert f.pullRequests[..i + 1] == f.pullRequests[..i] + [f.pullRequests[i]];
      if f.pullRequests[i].rootIssue == root { names := names + {f.pullRequests[i].head}; }
    }
    assert f.pullRequests[..|f.pullRequests|] == f.pullRequests;
  }

  /** Normalize one list source; every malformed element adds its diagnostics. */
  method ReadSource<T, N>(read: Read<seq<T>>, check: T -> seq<Code>, normalize: T -> N)
    returns (values: seq<N>, diagnostics: seq<Code>)
    ensures diagnostics == ListDiagnostics(read, check)
    ensures diagnostics == [] ==> values == Map(ReadList(read), normalize)
  {
    values, diagnostics := [], [];
    match read
    case Unreadable => diagnostics := [EvidenceUnavailable];
    case ConfirmedAbsent =>
    case Available(s) =>
      if |s| > MAX_CANDIDATES {
        diagnostics := [InvalidEvidence];
        return;
      }
      for i := 0 to |s|
        invariant diagnostics == Collect(s[..i], check)
        invariant values == Map(s[..i], normalize)
      {
        assert s[..i + 1][..i] == s[..i];
        diagnostics := diagnostics + check(s[i]);
        values := values + [normalize(s[i])];
      }
      assert s[..|s|] == s;
  }

  method ClassifyBranches(f: Facts, canonical: string) returns (candidates: seq<Candidate<BranchEvidence>>)
    requires canonical == CanonicalBranch(f)
    ensures candidates == BranchCandidates(f)
  {
    var counts := CountValues(f.branches, BranchName);
    candidates := [];
    for i := 0 to |f.branches|
      invariant |candidates| == i
      invariant forall j :: 0 <= j < i ==> candidates[j] == Candidate(f.branches[j], ClassifyBranch(f, f.branches[j]))
    {
      var b := f.branches[i];
      assert Map(f.branches, BranchName)[i] == b.name;
      assert (if b.name in counts then counts[b.name] else 0) == NameCounts(f)[b.name];
      var count := if b.name in counts then counts[b.name] else 0;
      var class_ :=
        if count > 1 then Conflicting
        else if b.rootIssue.Some? && b.rootIssue.value != f.identity.rootIssue then Conflicting
        else if b.name == canonical then Canonical
        else Noncanonical;
      candidates := candidates + [Candidate(b, class_)];
    }
  }

  method ClassifyPullRequests(f: Facts, canonical: string) returns (candidates: seq<Candidate<PullRequestEvidence>>)
    requires canonical == CanonicalBranch(f)
    ensures candidates == PullRequestCandidates(f)
  {
    var counts := CountValues(f.pullRequests, Number);
    candidates := [];
    for i := 0 to |f.pullRequests|
      invariant |candidates| == i
      invariant forall j :: 0 <= j < i ==>
        candidates[j] == Candidate(f.pullRequests[j], ClassifyPullRequest(f, f.pullRequests[j]))
    {
      var p := f.pullRequests[i];
      assert (if p.number in counts then counts[p.number] else 0) == NumberCounts(f)[p.number];
      var count := if p.number in counts then counts[p.number] else 0;
      var claims := p.rootIssue.Some? && p.rootIssue.value != f.identity.rootIssue;
      var class_ :=
        if count > 1 || p.number == f.identity.rootIssue then Conflicting
        else if p.head == canonical && (p.base != f.baseBranch || claims) then Conflicting
        else if p.head == canonical then Canonical
        else Noncanonical;
      candidates := candidates + [Candidate(p, class_)];
    }
  }

  method ResolveCanonicalBranch(f: Facts) returns (canonical: string)
    ensures canonical == CanonicalBranch(f)
  {
    canonical := f.authority.branch;
    var anchored := CollectAnchoredNames(f);
    if f.authority.Derived? && |anchored| == 1 { canonical := TheOnly(anchored); }
  }

  /** Diagnose a status; conflicts are reported next to it unless the status already explains them. */
  method DiagnoseStatus(f: Facts, status: Status) returns (diagnostics: seq<Code>)
    ensures diagnostics == (if AnyConflict(f) && status != Duplicate && status != WrongBase then [ConflictingEvidence] else [])
                           + StatusDiagnostics(status)
  {
    diagnostics := [];
    if AnyConflict(f) && status != Duplicate && status != WrongBase {
      diagnostics := diagnostics + [ConflictingEvidence];
    }
    diagnostics := diagnostics + StatusDiagnostics(status);
  }

  /** Decide status, Change and diagnostics from normalized facts. */
  method DecideProjection(f: Facts) returns (r: Projection)
    ensures r == if IssueMatches(f) then ProjectFacts(f) else MismatchedIssue(f)
  {
    var canonical := ResolveCanonicalBranch(f);
    var branches := ClassifyBranches(f, canonical);
    var pullRequests := ClassifyPullRequests(f, canonical);
    if f.issue.Some? && f.issue.value.number != f.identity.rootIssue {
      return Projection(false, Unavailable, Some(canonical), Some(f.baseBranch), branches, pullRequests, None,
                        [IssueMismatch]);
    }
    var status := StatusOf(f);
    if status == Absent {
      var change := if f.issue.Some? then Some(Change(f.identity, Defined, f.provenance, NO_ARTIFACTS)) else None;
      return Projection(true, status, Some(canonical), Some(f.baseBranch), branches, pullRequests, change, []);
    }
    var diagnostics := DiagnoseStatus(f, status);
    r := Projection(status == Healthy, status, Some(canonical), Some(f.baseBranch), branches, pullRequests,
                    Some(ProjectedChange(f)), diagnostics);
  }

  /** Project one Change; the step-by-step computation meets its specification. */
  method ProjectChange(input: Input) returns (r: Projection)
    ensures r == Project(input)
  {
    if !ValidInput(input) {
      return Rejected([InvalidInput], Some(input.authority.branch), Some(input.baseBranch));
    }
    var e := input.evidence;
    var branches, branchDiagnostics := ReadSource(e.branches, BranchDiagnostics, NormalizeBranch);
    var pullRequests, pullRequestDiagnostics := ReadSource(e.pullRequests, PullRequestDiagnostics, NormalizePullRequest);
    var diagnostics := IssueDiagnostics(e.issue) + branchDiagnostics + pullRequestDiagnostics;
    if diagnostics != [] {
      return Rejected(diagnostics, Some(input.authority.branch), Some(input.baseBranch));
    }
    var issue := if e.issue.Available? then Some(e.issue.value) else None;
    var f := Facts(input.identity, input.provenance, input.authority, input.baseBranch, issue,
                   StableSort(branches, CompareBranches), StableSort(pullRequests, ComparePullRequests));
    r := DecideProjection(f);
  }
}
