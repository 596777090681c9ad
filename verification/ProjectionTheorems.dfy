/**
 What the projected status means: each status is characterised without the
 cascade that decides it, and none of it depends on the order of the evidence.
 */
module ProjectionTheorems {
  import opened Wrappers
  import opened Ordering
  import opened Change
  import opened Projection

  // ---- what the evidence says, stated without counting ------------------------

  /** Everything that names the root Issue names the canonical branch. */
  ghost predicate RootClaimsAgree(f: Facts) {
    && (forall b :: b in f.branches && b.rootIssue == Some(f.identity.rootIssue) ==> b.name == CanonicalBranch(f))
    && (forall p :: p in f.pullRequests && p.rootIssue == Some(f.identity.rootIssue) ==> p.head == CanonicalBranch(f))
  }

  /** No name or number is reported twice and no candidate contradicts the identity. */
  ghost predicate Consistent(f: Facts) {
    && (forall i, j :: 0 <= i < j < |f.branches| ==> f.branches[i].name != f.branches[j].name)
    && (forall i, j :: 0 <= i < j < |f.pullRequests| ==> f.pullRequests[i].number != f.pullRequests[j].number)
    && (forall b :: b in f.branches && b.rootIssue.Some? ==> b.rootIssue.value == f.identity.rootIssue)
    && (forall p :: p in f.pullRequests ==> p.number != f.identity.rootIssue)
    && (forall p :: p in f.pullRequests && p.head == CanonicalBranch(f) && p.rootIssue.Some? ==>
          p.rootIssue.value == f.identity.rootIssue)
  }

  /** No candidate claims the root Issue or stands on the canonical branch. */
  ghost predicate NothingClaims(f: Facts) {
    && (forall b :: b in f.branches ==> b.name != CanonicalBranch(f) && b.rootIssue != Some(f.identity.rootIssue))
    && (forall p :: p in f.pullRequests ==> p.head != CanonicalBranch(f) && p.rootIssue != Some(f.identity.rootIssue))
  }

  lemma {:induction false} RepeatedKey<K>(keys: seq<K>, i: nat)
    requires i < |keys|
    ensures multiset(keys)[keys[i]] > 1 <==> exists j :: 0 <= j < |keys| && j != i && keys[j] == keys[i]
  {
    var rest := Cut(keys, i);
    assert multiset(keys)[keys[i]] == multiset(rest)[keys[i]] + 1;
    if keys[i] in multiset(rest) {
      var k :| 0 <= k < |rest| && rest[k] == keys[i];
      var j := if k < i then k else k + 1;
      assert keys[j] == keys[i] && j != i;
    }
    if j :| 0 <= j < |keys| && j != i && keys[j] == keys[i] {
      var k := if j < i then j else j - 1;
      assert rest[k] == keys[i];
    }
  }

  lemma ConflictingBranchIsInconsistent(f: Facts, b: BranchEvidence)
    requires b in f.branches && ClassifyBranch(f, b) == Conflicting
    ensures !Consistent(f)
  {
    var i :| 0 <= i < |f.branches| && f.branches[i] == b;
    RepeatedKey(Map(f.branches, BranchName), i);
  }

  lemma ConflictingPullRequestIsInconsistent(f: Facts, p: PullRequestEvidence)
    requires p in f.pullRequests && ClassifyPullRequest(f, p) == Conflicting && !OffBase(f)
    ensures !Consistent(f)
  {
    var i :| 0 <= i < |f.pullRequests| && f.pullRequests[i] == p;
    RepeatedKey(Map(f.pullRequests, Number), i);
    assert p.head == CanonicalBranch(f) && p.base != f.baseBranch ==> p in Filter(f.pullRequests, MissesBase(f));
  }

  lemma RepeatedNameConflicts(f: Facts, i: nat, j: nat)
    requires i < j < |f.branches| && f.branches[i].name == f.branches[j].name
    ensures AnyConflict(f)
  {
    RepeatedKey(Map(f.branches, BranchName), i);
    assert Map(f.branches, BranchName)[j] == f.branches[i].name;
    assert f.branches[i] in Filter(f.branches, ConflictingBranch(f));
  }

  lemma RepeatedNumberConflicts(f: Facts, i: nat, j: nat)
    requires i < j < |f.pullRequests| && f.pullRequests[i].number == f.pullRequests[j].number
    ensures AnyConflict(f)
  {
    RepeatedKey(Map(f.pullRequests, Number), i);
    assert Map(f.pullRequests, Number)[j] == f.pullRequests[i].number;
    assert f.pullRequests[i] in Filter(f.pullRequests, ConflictingPullRequest(f));
  }

  lemma ContradictionConflicts(f: Facts)
    requires
      || (exists b :: b in f.branches && b.rootIssue.Some? && b.rootIssue.value != f.identity.rootIssue)
      || (exists p :: p in f.pullRequests && (p.number == f.identity.rootIssue ||
           (p.head == CanonicalBranch(f) && p.rootIssue.Some? && p.rootIssue.value != f.identity.rootIssue)))
    ensures AnyConflict(f)
  {
    if b :| b in f.branches && b.rootIssue.Some? && b.rootIssue.value != f.identity.rootIssue {
      assert b in Filter(f.branches, ConflictingBranch(f));
    } else {
      var p :| p in f.pullRequests && (p.number == f.identity.rootIssue ||
        (p.head == CanonicalBranch(f) && p.rootIssue.Some? && p.rootIssue.value != f.identity.rootIssue));
      assert p in Filter(f.pullRequests, ConflictingPullRequest(f));
    }
  }

  /** A conflict is a repeated name or number, or a candidate that contradicts the identity. */
  lemma ConflictMeansInconsistent(f: Facts)
    requires !OffBase(f)
    ensures AnyConflict(f) <==> !Consistent(f)
  {
    if AnyConflict(f) {
      if Filter(f.branches, ConflictingBranch(f)) != [] {
        var b := Filter(f.branches, ConflictingBranch(f))[0];
        assert b in Filter(f.branches, ConflictingBranch(f));
        ConflictingBranchIsInconsistent(f, b);
      } else {
        var p := Filter(f.pullRequests, ConflictingPullRequest(f))[0];
        assert p in Filter(f.pullRequests, ConflictingPullRequest(f));
        ConflictingPullRequestIsInconsistent(f, p);
      }
    } else {
      forall i, j | 0 <= i < j < |f.branches| ensures f.branches[i].name != f.branches[j].name {
        if f.branches[i].name == f.branches[j].name { RepeatedNameConflicts(f, i, j); }
      }
      forall i, j | 0 <= i < j < |f.pullRequests| ensures f.pullRequests[i].number != f.pullRequests[j].number {
        if f.pullRequests[i].number == f.pullRequests[j].number { RepeatedNumberConflicts(f, i, j); }
      }
      if !Consistent(f) { ContradictionConflicts(f); }
    }
  }

  lemma SubsetOfSingleton<T>(s: set<T>, x: T)
    requires forall y :: y in s ==> y == x
    ensures |s| <= 1
  {
    if s != {} { assert s == {x}; }
  }

  lemma AmbiguousAnchorMeansDisagreement(f: Facts)
    ensures AmbiguouslyAnchored(f) <==> !RootClaimsAgree(f)
  {
    var names, canonical := AnchoredNames(f), CanonicalBranch(f);
    assert RootClaimsAgree(f) <==> forall name :: name in names ==> name == canonical by {
      forall b | b in f.branches && b.rootIssue == Some(f.identity.rootIssue) ensures b.name in names {}
      forall p | p in f.pullRequests && p.rootIssue == Some(f.identity.rootIssue) ensures p.head in names {}
    }
    if forall name :: name in names ==> name == canonical {
      SubsetOfSingleton(names, canonical);
    } else {
      var name :| name in names && name != canonical;
      if f.authority.Derived? && |names| <= 1 {
        assert names != {};
        assert |names| == 1;
        SingletonUnique(names, name, TheOnly(names));
      }
    }
  }

  lemma RepeatedCanonicalIsConflict(f: Facts)
    ensures RepeatedCanonicalNumber(f) ==> AnyConflict(f)
  {
    if RepeatedCanonicalNumber(f) {
      var p := Filter(f.pullRequests, RepeatsCanonicalNumber(f))[0];
      assert p in Filter(f.pullRequests, RepeatsCanonicalNumber(f));
      assert p in Filter(f.pullRequests, ConflictingPullRequest(f));
    }
  }

  /** Two branches with one name are a conflict, so a consistent world has at most one canonical branch. */
  lemma {:induction false} ConsistentHasOneBranch(f: Facts, names: seq<BranchEvidence>)
    requires forall i, j :: 0 <= i < j < |names| ==> names[i].name != names[j].name
    ensures |Filter(names, OnCanonicalBranch(f))| <= 1
  {
    if names != [] {
      ConsistentHasOneBranch(f, names[..|names| - 1]);
    }
  }

  lemma AtMostOneCanonicalBranch(f: Facts)
    requires Consistent(f)
    ensures |CanonicalBranches(f)| <= 1
  {
    ConsistentHasOneBranch(f, f.branches);
  }

  lemma {:induction false} CollectNothing<T>(s: seq<T>, f: T -> seq<Code>)
    ensures Collect(s, f) == [] <==> forall i :: 0 <= i < |s| ==> f(s[i]) == []
  {
    if s != [] {
      var front := s[..|s| - 1];
      CollectNothing(front, f);
      assert forall i :: 0 <= i < |front| ==> s[i] == front[i];
    }
  }

  /** A branch of this name, or a pull request from it, claims the root Issue. */
  ghost predicate Claims(f: Facts, name: string) {
    || (exists b :: b in f.branches && b.name == name && b.rootIssue == Some(f.identity.rootIssue))
    || (exists p :: p in f.pullRequests && p.head == name && p.rootIssue == Some(f.identity.rootIssue))
  }

  ghost predicate OnlyClaim(f: Facts, name: string) { Claims(f, name) && forall other :: Claims(f, other) ==> other == name }

  /** The governed name is canonical whatever is claimed; a derived name gives way to the one name that is claimed, if there is one. */
  lemma CanonicalBranchMeans(f: Facts, name: string)
    ensures f.authority.Governed? ==> CanonicalBranch(f) == f.authority.branch
    ensures f.authority.Derived? && OnlyClaim(f, name) ==> CanonicalBranch(f) == name
    ensures f.authority.Derived? && (forall other :: !OnlyClaim(f, other)) ==> CanonicalBranch(f) == f.authority.branch
  {
    var names := AnchoredNames(f);
    forall other ensures Claims(f, other) <==> other in names {}
    hide AnchoredNames, Claims;
    if f.authority.Derived? && OnlyClaim(f, name) {
      SubsetOfSingleton(names, name);
    }
    if |names| == 1 {
      forall other | other in names ensures other == TheOnly(names) { SingletonUnique(names, other, TheOnly(names)); }
      assert OnlyClaim(f, TheOnly(names));
    }
  }

  // ---- status theorems ---------------------------------------------------------------

  lemma NothingClaimedMeansNothingSelected(f: Facts)
    requires NothingClaims(f)
    ensures CanonicalBranches(f) == [] && CanonicalPullRequests(f) == [] && PlausibleNoncanonical(f) == []
    ensures !OffBase(f) && !RepeatedCanonicalNumber(f) && RootClaimsAgree(f)
  {
  }

  /** With neither an off-base pull request nor a conflict, only canonical candidates can make a claim. */
  lemma NothingSelectedMeansNothingClaimed(f: Facts)
    requires CanonicalBranches(f) == [] && CanonicalPullRequests(f) == [] && !OffBase(f)
    requires RootClaimsAgree(f) && Consistent(f)
    ensures NothingClaims(f)
  {
    forall b | b in f.branches
      ensures b.name != CanonicalBranch(f) && b.rootIssue != Some(f.identity.rootIssue)
    {
      assert b !in CanonicalBranches(f);
    }
    forall p | p in f.pullRequests
      ensures p.head != CanonicalBranch(f) && p.rootIssue != Some(f.identity.rootIssue)
    {
      assert p !in CanonicalPullRequests(f) && p !in Filter(f.pullRequests, MissesBase(f));
    }
  }

  /** Absence is proved, never guessed. */
  lemma AbsentIff(f: Facts)
    ensures StatusOf(f) == Absent <==> Consistent(f) && NothingClaims(f)
  {
    hide CanonicalBranches, CanonicalPullRequests, PlausibleNoncanonical, OffBase, RepeatedCanonicalNumber,
         AnyConflict, AmbiguouslyAnchored, Consistent, NothingClaims, RootClaimsAgree;
    if !OffBase(f) { ConflictMeansInconsistent(f); }
    AmbiguousAnchorMeansDisagreement(f);
    if StatusOf(f) == Absent { NothingSelectedMeansNothingClaimed(f); }
    if NothingClaims(f) { NothingClaimedMeansNothingSelected(f); }
  }

  /** A health certificate: one canonical pair, or the record of a finished abort. */
  ghost predicate Sound(f: Facts) {
    && f.issue.Some? && RootClaimsAgree(f) && Consistent(f) && !OffBase(f)
    && |CanonicalPullRequests(f)| == 1
    && (|CanonicalBranches(f)| == 1 <==> !ClosedUnmerged(CanonicalPullRequests(f)[0]))
  }

  lemma HealthyIff(f: Facts)
    ensures StatusOf(f) == Healthy <==> Sound(f)
  {
    hide CanonicalBranches, CanonicalPullRequests, PlausibleNoncanonical, OffBase, RepeatedCanonicalNumber,
         AnyConflict, AmbiguouslyAnchored, RootClaimsAgree;
    if !OffBase(f) { ConflictMeansInconsistent(f); }
    AmbiguousAnchorMeansDisagreement(f);
    RepeatedCanonicalIsConflict(f);
    if Consistent(f) { AtMostOneCanonicalBranch(f); }
  }

  /** Partial: nothing contradicts, something canonical exists, but the pair is not sound. */
  lemma PartialIff(f: Facts)
    ensures StatusOf(f) == Partial <==>
      && RootClaimsAgree(f) && Consistent(f) && !OffBase(f) && |CanonicalPullRequests(f)| <= 1
      && (CanonicalBranches(f) != [] || CanonicalPullRequests(f) != []) && !Sound(f)
  {
    hide CanonicalBranches, CanonicalPullRequests, PlausibleNoncanonical, OffBase, RepeatedCanonicalNumber,
         AnyConflict, AmbiguouslyAnchored, RootClaimsAgree, Consistent;
    if !OffBase(f) { ConflictMeansInconsistent(f); }
    AmbiguousAnchorMeansDisagreement(f);
    RepeatedCanonicalIsConflict(f);
    if Consistent(f) { AtMostOneCanonicalBranch(f); }
  }

  lemma AgreementLeavesNothingElsewhere(f: Facts)
    requires RootClaimsAgree(f)
    ensures PlausibleNoncanonical(f) == []
  {
  }

  /** Ambiguous: a contradiction that is neither a duplicate nor a wrong base. */
  lemma AmbiguousIff(f: Facts)
    ensures StatusOf(f) == Ambiguous <==>
      && !(RootClaimsAgree(f) && Consistent(f)) && !OffBase(f) && !RepeatedCanonicalNumber(f)
      && |CanonicalBranches(f)| <= 1 && |CanonicalPullRequests(f)| <= 1
  {
    hide CanonicalBranches, CanonicalPullRequests, PlausibleNoncanonical, OffBase, RepeatedCanonicalNumber,
         AnyConflict, AmbiguouslyAnchored, RootClaimsAgree, Consistent;
    if !OffBase(f) { ConflictMeansInconsistent(f); }
    AmbiguousAnchorMeansDisagreement(f);
    if RootClaimsAgree(f) { AgreementLeavesNothingElsewhere(f); }
  }

  /** A merged pull request whose branch is gone is not healthy: the status is partial. */
  lemma MergedWithoutBranchIsPartial(f: Facts)
    requires RootClaimsAgree(f) && Consistent(f) && !OffBase(f)
    requires CanonicalBranches(f) == [] && |CanonicalPullRequests(f)| == 1 && CanonicalPullRequests(f)[0].merged
    ensures StatusOf(f) == Partial && ProjectedChange(f).state == RecoveryRequired
  {
    PartialIff(f);
  }

  lemma SoundStatusHasNoConflict(f: Facts)
    ensures StatusOf(f) == Healthy || StatusOf(f) == Absent ==> !AnyConflict(f)
  {
  }

  lemma FactsExplainRejection(f: Facts)
    ensures ProjectFacts(f).valid <==> ProjectFacts(f).diagnostics == []
    ensures |ProjectFacts(f).diagnostics| <= 2
    ensures ProjectFacts(f).valid <==> ProjectFacts(f).status in {Healthy, Absent}
  {
    hide BranchCandidates, PullRequestCandidates, TallyOf, ProjectedChange, CanonicalBranch;
    SoundStatusHasNoConflict(f);
    var status, conflict := StatusOf(f), AnyConflict(f);
    assert StatusDiagnostics(status) == [] <==> status in {Healthy, Absent, Unavailable};
  }

  /** Valid results carry no diagnostic, and every rejected one carries at least one. */
  lemma DiagnosticsExplainRejection(input: Input)
    ensures Project(input).valid <==> Project(input).diagnostics == []
    ensures |Project(input).diagnostics| <= MAX_DIAGNOSTICS
    ensures Project(input).valid <==> Project(input).status in {Healthy, Absent}
  {
    if Readable(input) && IssueMatches(FactsOf(input)) { FactsExplainRejection(FactsOf(input)); }
  }

  lemma HealthyShape(f: Facts)
    requires StatusOf(f) == Healthy
    ensures f.issue.Some? && |CanonicalPullRequests(f)| == 1 && CanonicalPullRequests(f)[0] in f.pullRequests
    ensures IdentityMatches(f, CanonicalPullRequests(f)[0])
  {
    assert CanonicalPullRequests(f)[0] in CanonicalPullRequests(f);
  }

  /** A healthy projection names its one canonical pair and keeps the identity. */
  lemma HealthyChange(f: Facts)
    requires StatusOf(f) == Healthy
    ensures |CanonicalPullRequests(f)| == 1
    ensures var p := CanonicalPullRequests(f)[0];
      ProjectedChange(f) == Change(f.identity, StateFromPullRequest(p), MergeProvenance(f.provenance, p.provenance),
                                   Artifacts(Some(CanonicalBranch(f)), Some(p.number)))
  {
    HealthyShape(f);
    assert CanonicalPullRequests(f)[0].head == CanonicalBranch(f);
  }
}
