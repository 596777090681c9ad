/**
 Aborting a Change in a world that moves: an abort may stop after any effect, report a
 failure although its effect landed, and find the branch pushed to in between. Planned
 again from a fresh projection it always finishes, and it never deletes work it has not read.
 */
module AbortRuns {
  import opened Wrappers
  import opened Ordering
  import opened Change
  import opened Projection
  import opened ProjectionTheorems
  import opened Permutation
  import opened AbortRecovery
  import opened Transition
  import opened Issuance
  import opened AbortPlanning
  import opened GitHubWorld

  // ---- facts under single moves ------------------------------------------------------------

  ghost predicate KeepsBranch(g: BranchEvidence -> BranchEvidence) {
    forall b :: g(b).name == b.name && g(b).rootIssue == b.rootIssue
  }

  ghost predicate KeepsPullRequest(g: PullRequestEvidence -> PullRequestEvidence) {
    forall p :: g(p).number == p.number && g(p).head == p.head && g(p).base == p.base && g(p).rootIssue == p.rootIssue
                && g(p).provenance == p.provenance
  }

  function Moved(f: Facts, gb: BranchEvidence -> BranchEvidence, gp: PullRequestEvidence -> PullRequestEvidence): Facts {
    f.(branches := Map(f.branches, gb), pullRequests := Map(f.pullRequests, gp))
  }

  lemma MovedAnchors(f: Facts, gb: BranchEvidence -> BranchEvidence, gp: PullRequestEvidence -> PullRequestEvidence)
    requires KeepsBranch(gb) && KeepsPullRequest(gp)
    ensures AnchoredNames(Moved(f, gb, gp)) == AnchoredNames(f) && CanonicalBranch(Moved(f, gb, gp)) == CanonicalBranch(f)
  {
    var g := Moved(f, gb, gp);
    assert forall i :: 0 <= i < |f.branches| ==> g.branches[i].name == f.branches[i].name && f.branches[i] in f.branches
                                                 && g.branches[i] in g.branches;
    assert forall i :: 0 <= i < |f.pullRequests| ==> g.pullRequests[i].head == f.pullRequests[i].head
                                                     && f.pullRequests[i] in f.pullRequests && g.pullRequests[i] in g.pullRequests;
    forall n ensures n in AnchoredNames(g) <==> n in AnchoredNames(f) {}
  }

  /** Pushing, closing or readying changes no name, number, base or claim, so it changes no classification. */
  lemma MovedFacts(f: Facts, gb: BranchEvidence -> BranchEvidence, gp: PullRequestEvidence -> PullRequestEvidence)
    requires KeepsBranch(gb) && KeepsPullRequest(gp)
    ensures var g := Moved(f, gb, gp);
      && CanonicalBranch(g) == CanonicalBranch(f)
      && CanonicalBranches(g) == Map(CanonicalBranches(f), gb)
      && CanonicalPullRequests(g) == Map(CanonicalPullRequests(f), gp)
      && OffBase(g) == OffBase(f)
      && RootClaimsAgree(g) == RootClaimsAgree(f) && Consistent(g) == Consistent(f)
  {
    hide Filter, CanonicalBranch;
    var g := Moved(f, gb, gp);
    MovedAnchors(f, gb, gp);
    FilterImage(f.branches, gb, OnCanonicalBranch(g), OnCanonicalBranch(f));
    FilterImage(f.pullRequests, gp, MatchesIdentity(g), MatchesIdentity(f));
    FilterImage(f.pullRequests, gp, MissesBase(g), MissesBase(f));
    MovedClaims(f, gb, gp);
    AmbiguousAnchorMeansDisagreement(f);
    AmbiguousAnchorMeansDisagreement(g);
  }

  lemma MovedClaims(f: Facts, gb: BranchEvidence -> BranchEvidence, gp: PullRequestEvidence -> PullRequestEvidence)
    requires KeepsBranch(gb) && KeepsPullRequest(gp)
    ensures Consistent(Moved(f, gb, gp)) == Consistent(f)
  {
    hide Consistent, CanonicalBranch;
    if Consistent(f) { MovedStaysConsistent(f, gb, gp); }
    if Consistent(Moved(f, gb, gp)) { MovedWasConsistent(f, gb, gp); }
  }

  lemma MovedStaysConsistent(f: Facts, gb: BranchEvidence -> BranchEvidence, gp: PullRequestEvidence -> PullRequestEvidence)
    requires KeepsBranch(gb) && KeepsPullRequest(gp) && Consistent(f)
    ensures Consistent(Moved(f, gb, gp))
  {
    hide CanonicalBranch, AnchoredNames;
    MovedAnchors(f, gb, gp);
  }

  lemma MovedWasConsistent(f: Facts, gb: BranchEvidence -> BranchEvidence, gp: PullRequestEvidence -> PullRequestEvidence)
    requires KeepsBranch(gb) && KeepsPullRequest(gp) && Consistent(Moved(f, gb, gp))
    ensures Consistent(f)
  {
    hide CanonicalBranch, AnchoredNames;
    MovedAnchors(f, gb, gp);
    var g := Moved(f, gb, gp);
    assert forall i :: 0 <= i < |f.branches| ==> g.branches[i] == gb(f.branches[i]) && g.branches[i] in g.branches;
    assert forall i :: 0 <= i < |f.pullRequests| ==>
      g.pullRequests[i] == gp(f.pullRequests[i]) && g.pullRequests[i] in g.pullRequests;
  }

  /** The canonical branch keeps its role after its deletion: it is the configured one, or a pull request claims the Issue. */
  ghost predicate AnchorSurvives(f: Facts) {
    CanonicalBranch(f) == f.authority.branch || exists p :: p in f.pullRequests && p.rootIssue == Some(f.identity.rootIssue)
  }

  function Deleted(f: Facts, name: string): Facts { f.(branches := Filter(f.branches, BranchIsNot(name))) }

  lemma DeletedAnchor(f: Facts)
    requires RootClaimsAgree(f)
    ensures CanonicalBranch(Deleted(f, CanonicalBranch(f))) == CanonicalBranch(f) <==> AnchorSurvives(f)
  {
    var name := CanonicalBranch(f);
    var g := Deleted(f, name);
    forall b | b in g.branches ensures b.rootIssue != Some(f.identity.rootIssue) {}
    assert AnchoredNames(g) == set p | p in f.pullRequests && p.rootIssue == Some(f.identity.rootIssue) :: p.head;
    if p :| p in f.pullRequests && p.rootIssue == Some(f.identity.rootIssue) {
      assert p.head in AnchoredNames(g);
      assert AnchoredNames(g) == {name};
    } else {
      assert AnchoredNames(g) == {};
    }
  }

  lemma {:induction false} FilterKeepsDistinct(s: seq<BranchEvidence>, p: BranchEvidence -> bool)
    requires DistinctNames(s)
    ensures DistinctNames(Filter(s, p))
  {
    if s != [] {
      var front := s[..|s| - 1];
      FilterKeepsDistinct(front, p);
      assert forall b :: b in front ==> b.name != s[|s| - 1].name;
    }
  }

  lemma DeletedFacts(f: Facts)
    requires RootClaimsAgree(f) && Consistent(f) && !OffBase(f) && AnchorSurvives(f)
    ensures var g := Deleted(f, CanonicalBranch(f));
      && CanonicalBranch(g) == CanonicalBranch(f) && CanonicalBranches(g) == []
      && CanonicalPullRequests(g) == CanonicalPullRequests(f)
      && RootClaimsAgree(g) && Consistent(g) && !OffBase(g)
  {
    hide Filter, CanonicalBranch;
    var g := Deleted(f, CanonicalBranch(f));
    DeletedAnchor(f);
    FilterKeepsDistinct(f.branches, BranchIsNot(CanonicalBranch(f)));
    assert forall b :: b in g.branches ==> b in f.branches && b.name != CanonicalBranch(f);
    assert forall b :: b in CanonicalBranches(g) ==> b in g.branches && b.name == CanonicalBranch(f);
    FilterCongruence(f.pullRequests, MatchesIdentity(f), MatchesIdentity(g));
    FilterCongruence(f.pullRequests, MissesBase(f), MissesBase(g));
  }

  // ---- stages of an abort ----------------------------------------------------------------------

  /** How many effects are still to be carried out. */
  function Rank(f: Facts): nat {
    |CanonicalBranches(f)| + if CanonicalPullRequests(f) != [] && CanonicalPullRequests(f)[0].open then 1 else 0
  }

  /** An open pair that may be aborted, a closed pair, or the record of a finished abort. */
  ghost predicate OnTheWay(c: Setting, w: World) {
    var f := RawFacts(c, w);
    && WellFormed(c, w) && AnchorSurvives(f)
    && (Pair(f) || Finished(f))
    && var p := CanonicalPullRequests(f)[0];
       && (Abortable(p) || ClosedUnmerged(p))
       && MergeProvenance(c.provenance, p.provenance).issuer == Some(TRUSTED_ISSUER)
  }

  /** What an abort started now has to do. */
  function Outstanding(f: Facts, sha: Option<string>): seq<Effect> {
    (if CanonicalPullRequests(f) != [] && CanonicalPullRequests(f)[0].open then [ClosePullRequest(CanonicalPullRequests(f)[0].number)] else [])
    + if CanonicalBranches(f) != [] then [DeleteBranch(CanonicalBranch(f), sha)] else []
  }

  lemma WellFormedIsTrusted(c: Setting, w: World)
    requires OnTheWay(c, w)
    ensures Trusted(RawFacts(c, w), CanonicalPullRequests(RawFacts(c, w))[0].provenance)
  {
    var f := RawFacts(c, w);
    forall p | p in w.pullRequests ensures ValidPullRequest(p) { assert WellFormedPullRequest(p); }
    CanonicalNameValid(c, w);
  }

  lemma CanonicalNameValid(c: Setting, w: World)
    requires WellFormed(c, w)
    ensures ValidText(CanonicalBranch(RawFacts(c, w)), MAX_TEXT)
  {
    var f := RawFacts(c, w);
    if f.authority.Derived? && |AnchoredNames(f)| == 1 {
      assert CanonicalBranch(f) in AnchoredNames(f);
      if b :| b in f.branches && b.name == CanonicalBranch(f) { assert WellFormedBranch(b); }
      else { var p :| p in f.pullRequests && p.head == CanonicalBranch(f); assert WellFormedPullRequest(p); }
    }
  }

  /** The plan made from the raw facts is the outstanding work. */
  lemma RawPlan(c: Setting, w: World, requester: Option<string>)
    requires OnTheWay(c, w) && ValidRole(requester)
    ensures PlanAbort(ProjectFacts(RawFacts(c, w)), requester) == Some(Outstanding(RawFacts(c, w), Generation(RawFacts(c, w))))
  {
    hide CanonicalBranches, CanonicalPullRequests, OffBase, Consistent, RootClaimsAgree, PlanAbort, ProjectFacts, Trusted,
         WellFormed, CanonicalBranch, Generation, MergeProvenance, AnchorSurvives;
    var f := RawFacts(c, w);
    WellFormedIsTrusted(c, w);
    if Finished(f) {
      FinishedPlan(f, requester);
      assert Outstanding(f, Generation(f)) == [];
    } else if ClosedUnmerged(CanonicalPullRequests(f)[0]) {
      ClosedPlan(f, requester);
      assert Outstanding(f, Generation(f)) == [DeleteBranch(CanonicalBranch(f), Generation(f))];
    } else {
      OpenPlan(f, requester);
      assert Outstanding(f, Generation(f)) == [ClosePullRequest(CanonicalPullRequests(f)[0].number),
                                               DeleteBranch(CanonicalBranch(f), Generation(f))];
    }
  }

  lemma PlanFromWorld(c: Setting, w: World, listing: Listing, requester: Option<string>)
    requires WellFormed(c, w)
    requires Consistent(RawFacts(c, w))
    ensures PlanAbort(Project(Observe(c, w, listing)), requester) == PlanAbort(ProjectFacts(RawFacts(c, w)), requester)
    ensures ClassifyAbortRecovery(Project(Observe(c, w, listing))) == ClassifyAbortRecovery(ProjectFacts(RawFacts(c, w)))
  {
    hide PlanAbort, ClassifyAbortRecovery, WellFormed, TallyOf, CanonicalBranch, PullRequestCandidates, Project;
    var f := RawFacts(c, w);
    ObservedProjection(c, w, listing);
    CanonicalBranchCandidates(f);
    AtMostOneCanonicalBranch(f);
    PlanAbortForgetsOrder(Project(Observe(c, w, listing)), ProjectFacts(f), requester);
  }

  /** Whoever starts an abort on the way finds exactly the outstanding work, whatever the reader's listing style. */
  lemma FreshPlan(c: Setting, w: World, listing: Listing, requester: Option<string>)
    requires OnTheWay(c, w) && ValidRole(requester)
    ensures var f := RawFacts(c, w);
      && PlanAbort(Project(Observe(c, w, listing)), requester) == Some(Outstanding(f, Generation(f)))
      && |Outstanding(f, Generation(f))| == Rank(f)
  {
    hide PlanAbort, ProjectFacts, Project, Observe, CanonicalBranch, Generation, OffBase;
    RawPlan(c, w, requester);
    PlanFromWorld(c, w, listing, requester);
  }

  // ---- moves along the way ------------------------------------------------------------------------

  predicate ValidGeneration(sha: string) { IsCommitSha(sha) && Lower(sha) == sha }

  function Same<T>(): T -> T { (x: T) => x }

  function Pushed(w: World, name: string, sha: string): World { w.(branches := Map(w.branches, Advance(name, sha))) }

  lemma MovedWorld(c: Setting, w: World, gb: BranchEvidence -> BranchEvidence, gp: PullRequestEvidence -> PullRequestEvidence)
    requires WellFormed(c, w) && KeepsBranch(gb) && KeepsPullRequest(gp)
    requires forall b :: WellFormedBranch(b) ==> WellFormedBranch(gb(b))
    requires forall p :: WellFormedPullRequest(p) ==> WellFormedPullRequest(gp(p))
    ensures WellFormed(c, w.(branches := Map(w.branches, gb), pullRequests := Map(w.pullRequests, gp)))
  {
    hide WellFormedBranch, WellFormedPullRequest;
  }

  lemma MovedSurvives(f: Facts, gb: BranchEvidence -> BranchEvidence, gp: PullRequestEvidence -> PullRequestEvidence)
    requires KeepsBranch(gb) && KeepsPullRequest(gp) && AnchorSurvives(f)
    ensures AnchorSurvives(Moved(f, gb, gp))
  {
    MovedAnchors(f, gb, gp);
    var g := Moved(f, gb, gp);
    if p :| p in f.pullRequests && p.rootIssue == Some(f.identity.rootIssue) {
      var i :| 0 <= i < |f.pullRequests| && f.pullRequests[i] == p;
      assert g.pullRequests[i] in g.pullRequests;
    }
  }

  /** A push to any branch leaves an abort where it is; only the generation to delete changes. */
  lemma PushKeepsRank(c: Setting, w: World, name: string, sha: string)
    requires OnTheWay(c, w) && ValidGeneration(sha)
    ensures OnTheWay(c, Pushed(w, name, sha)) && Rank(RawFacts(c, Pushed(w, name, sha))) == Rank(RawFacts(c, w))
    ensures forall s :: Outstanding(RawFacts(c, Pushed(w, name, sha)), s) == Outstanding(RawFacts(c, w), s)
  {
    hide WellFormed, CanonicalBranches, CanonicalPullRequests, OffBase, Consistent, RootClaimsAgree, AnchorSurvives, CanonicalBranch;
    var f, gb, gp := RawFacts(c, w), Advance(name, sha), Same<PullRequestEvidence>();
    MovedWorld(c, w, gb, gp);
    MovedFacts(f, gb, gp);
    MovedSurvives(f, gb, gp);
    assert Map(w.pullRequests, gp) == w.pullRequests;
    assert RawFacts(c, Pushed(w, name, sha)) == Moved(f, gb, gp);
    assert Pushed(w, name, sha) == w.(branches := Map(w.branches, gb), pullRequests := Map(w.pullRequests, gp));
  }

  function Closed(w: World, number: nat): World { w.(pullRequests := Map(w.pullRequests, Closing(number))) }

  lemma CloseLands(c: Setting, w: World, choice: Choice)
    requires |CanonicalPullRequests(RawFacts(c, w))| == 1
    ensures var n := CanonicalPullRequests(RawFacts(c, w))[0].number; Apply(w, ClosePullRequest(n), choice) == Some(Closed(w, n))
  {
    var p := CanonicalPullRequests(RawFacts(c, w))[0];
    assert p in w.pullRequests;
    assert p in Filter(w.pullRequests, WithNumber(p.number));
  }

  lemma ClosedFacts(c: Setting, w: World, number: nat)
    requires WellFormed(c, w)
    ensures WellFormed(c, Closed(w, number))
    ensures var f, g := RawFacts(c, w), RawFacts(c, Closed(w, number));
      && CanonicalBranch(g) == CanonicalBranch(f) && CanonicalBranches(g) == CanonicalBranches(f)
      && CanonicalPullRequests(g) == Map(CanonicalPullRequests(f), Closing(number))
      && OffBase(g) == OffBase(f) && RootClaimsAgree(g) == RootClaimsAgree(f) && Consistent(g) == Consistent(f)
      && (AnchorSurvives(f) ==> AnchorSurvives(g))
  {
    hide WellFormed, CanonicalBranches, CanonicalPullRequests, OffBase, Consistent, RootClaimsAgree, AnchorSurvives, CanonicalBranch;
    var f, gb, gp := RawFacts(c, w), Same<BranchEvidence>(), Closing(number);
    MovedWorld(c, w, gb, gp);
    MovedFacts(f, gb, gp);
    if AnchorSurvives(f) { MovedSurvives(f, gb, gp); }
    assert Map(w.branches, gb) == w.branches && Map(CanonicalBranches(f), gb) == CanonicalBranches(f);
    assert Closed(w, number) == w.(branches := Map(w.branches, gb), pullRequests := Map(w.pullRequests, gp));
    assert RawFacts(c, Closed(w, number)) == Moved(f, gb, gp);
  }

  /** Closing the canonical pull request of an open pair is one step forward. */
  lemma CloseAdvances(c: Setting, w: World, choice: Choice)
    requires OnTheWay(c, w) && CanonicalPullRequests(RawFacts(c, w))[0].open
    ensures var f := RawFacts(c, w); var e := ClosePullRequest(CanonicalPullRequests(f)[0].number);
      && Apply(w, e, choice).Some? && OnTheWay(c, Apply(w, e, choice).value)
      && Rank(RawFacts(c, Apply(w, e, choice).value)) + 1 == Rank(f)
      && Generation(RawFacts(c, Apply(w, e, choice).value)) == Generation(f)
      && forall s :: Outstanding(RawFacts(c, Apply(w, e, choice).value), s) == Outstanding(f, s)[1..]
  {
    hide WellFormed, CanonicalBranches, CanonicalPullRequests, OffBase, Consistent, RootClaimsAgree, AnchorSurvives,
         CanonicalBranch, Closed, Apply, MergeProvenance;
    var f := RawFacts(c, w);
    var p := CanonicalPullRequests(f)[0];
    InWorld(c, w);
    CloseLands(c, w, choice);
    ClosedFacts(c, w, p.number);
    assert CanonicalPullRequests(RawFacts(c, Closed(w, p.number)))[0] == p.(open := false);
  }

  lemma InWorld(c: Setting, w: World)
    requires WellFormed(c, w) && |CanonicalPullRequests(RawFacts(c, w))| == 1
    ensures var p := CanonicalPullRequests(RawFacts(c, w))[0]; p in w.pullRequests && (p.open ==> !p.merged)
  {
    var p := CanonicalPullRequests(RawFacts(c, w))[0];
    assert p in w.pullRequests && WellFormedPullRequest(p);
  }

  lemma DeletedWorld(c: Setting, w: World, name: string)
    requires WellFormed(c, w)
    ensures WellFormed(c, w.(branches := Filter(w.branches, BranchIsNot(name))))
  {
    hide WellFormedBranch, WellFormedPullRequest, Filter;
    FilterKeepsDistinct(w.branches, BranchIsNot(name));
  }

  lemma DeletedSurvives(f: Facts)
    requires RootClaimsAgree(f) && AnchorSurvives(f)
    ensures AnchorSurvives(Deleted(f, CanonicalBranch(f)))
  {
    hide CanonicalBranch, Filter;
    DeletedAnchor(f);
  }

  /** Deleting the canonical branch of a closed pair finishes the abort. */
  lemma DeleteAdvances(c: Setting, w: World, sha: Option<string>, choice: Choice)
    requires OnTheWay(c, w) && Rank(RawFacts(c, w)) == 1
    requires Apply(w, DeleteBranch(CanonicalBranch(RawFacts(c, w)), sha), choice).Some?
    ensures var v := Apply(w, DeleteBranch(CanonicalBranch(RawFacts(c, w)), sha), choice).value;
      OnTheWay(c, v) && Rank(RawFacts(c, v)) == 0 && forall s :: Outstanding(RawFacts(c, v), s) == []
  {
    hide WellFormed, CanonicalBranches, CanonicalPullRequests, OffBase, Consistent, RootClaimsAgree, AnchorSurvives, CanonicalBranch, Filter;
    var f := RawFacts(c, w);
    var v := Apply(w, DeleteBranch(CanonicalBranch(f), sha), choice).value;
    assert RawFacts(c, v) == Deleted(f, CanonicalBranch(f));
    DeletedFacts(f);
    DeletedSurvives(f);
    DeletedWorld(c, w, CanonicalBranch(f));
  }

  /** The generation read from the world is accepted by the conditional delete. */
  lemma FreshDeleteLands(c: Setting, w: World, choice: Choice)
    requires OnTheWay(c, w) && |CanonicalBranches(RawFacts(c, w))| == 1
    ensures Apply(w, DeleteBranch(CanonicalBranch(RawFacts(c, w)), Generation(RawFacts(c, w))), choice).Some?
  {
    hide Pair, Finished, CanonicalBranch, AnchorSurvives;
    var f := RawFacts(c, w);
    var name := CanonicalBranch(f);
    FilterCongruence(w.branches, BranchIs(name), OnCanonicalBranch(f));
    var b := CanonicalBranches(f)[0];
    assert b in w.branches && WellFormedBranch(b);
  }

  // ---- runs ------------------------------------------------------------------------------------------

  datatype Session = Idle | Aborting(remaining: seq<Effect>)

  datatype State = State(world: World, session: Session)

  /** One step of an abort that may be interrupted, or of somebody who pushes. */
  datatype Step =
    | Begin(listing: Listing)                 // read, project and plan
    | Land(choice: Choice)                    // the next effect lands and is reported
    | LandUnreported(choice: Choice)          // it lands but the executor sees a failure and stops
    | Stop                                    // a crash, a refused effect, or the end of the attempt
    | Push(name: string, sha: string)

  ghost predicate Next(c: Setting, requester: Option<string>, s: State, step: Step, t: State) {
    match step
    case Begin(listing) =>
      && s.session == Idle && t.world == s.world
      && PlanAbort(Project(Observe(c, s.world, listing)), requester).Some?
      && t.session == Aborting(PlanAbort(Project(Observe(c, s.world, listing)), requester).value)
    case Land(choice) =>
      && s.session.Aborting? && s.session.remaining != []
      && Apply(s.world, s.session.remaining[0], choice) == Some(t.world) && t.session == Aborting(s.session.remaining[1..])
    case LandUnreported(choice) =>
      && s.session.Aborting? && s.session.remaining != []
      && Apply(s.world, s.session.remaining[0], choice) == Some(t.world) && t.session == Idle
    case Stop => t == State(s.world, Idle)
    case Push(name, sha) => ValidGeneration(sha) && t == State(Pushed(s.world, name, sha), s.session)
  }

  ghost predicate Run(c: Setting, requester: Option<string>, states: seq<State>, steps: seq<Step>) {
    |states| == |steps| + 1 && forall i :: 0 <= i < |steps| ==> Next(c, requester, states[i], steps[i], states[i + 1])
  }

  /** A running abort still has to do exactly what a fresh one would, at the generation it read. */
  ghost predicate Converging(c: Setting, s: State) {
    && OnTheWay(c, s.world)
    && (s.session.Aborting? ==> exists sha :: s.session.remaining == Outstanding(RawFacts(c, s.world), sha))
  }

  lemma LandingAdvances(c: Setting, w: World, sha: Option<string>, choice: Choice)
    requires OnTheWay(c, w) && Outstanding(RawFacts(c, w), sha) != []
    requires Apply(w, Outstanding(RawFacts(c, w), sha)[0], choice).Some?
    ensures var v := Apply(w, Outstanding(RawFacts(c, w), sha)[0], choice).value;
      && OnTheWay(c, v) && Rank(RawFacts(c, v)) + 1 == Rank(RawFacts(c, w))
      && Outstanding(RawFacts(c, v), sha) == Outstanding(RawFacts(c, w), sha)[1..]
  {
    hide Apply, WellFormed, CanonicalBranch, CanonicalBranches, CanonicalPullRequests, AnchorSurvives, OffBase, Consistent,
         RootClaimsAgree;
    if CanonicalPullRequests(RawFacts(c, w))[0].open { CloseAdvances(c, w, choice); } else { DeleteAdvances(c, w, sha, choice); }
  }

  lemma StepConverges(c: Setting, requester: Option<string>, s: State, step: Step, t: State)
    requires Converging(c, s) && Next(c, requester, s, step, t) && ValidRole(requester)
    ensures Converging(c, t) && Rank(RawFacts(c, t.world)) <= Rank(RawFacts(c, s.world))
    ensures step.Land? || step.LandUnreported? ==> Rank(RawFacts(c, t.world)) + 1 == Rank(RawFacts(c, s.world))
  {
    hide OnTheWay, Outstanding, PlanAbort, Project, Apply, Rank, ValidRole;
    match step
    case Begin(listing) => FreshPlan(c, s.world, listing, requester);
    case Push(name, sha) =>
      PushKeepsRank(c, s.world, name, sha);
    case Stop =>
    case _ =>
      var sha :| s.session.remaining == Outstanding(RawFacts(c, s.world), sha);
      LandingAdvances(c, s.world, sha, step.choice);
  }

  lemma {:induction false} RunConverges(c: Setting, requester: Option<string>, states: seq<State>, steps: seq<Step>, i: nat)
    requires Run(c, requester, states, steps) && Converging(c, states[0]) && ValidRole(requester) && i < |states|
    ensures Converging(c, states[i]) && Rank(RawFacts(c, states[i].world)) <= Rank(RawFacts(c, states[0].world))
    decreases i
  {
    hide Converging, Next, Rank, RawFacts, ValidRole;
    if i > 0 {
      RunConverges(c, requester, states, steps, i - 1);
      StepConverges(c, requester, states[i - 1], steps[i - 1], states[i]);
    }
  }

  /**
   Abort converges from every crash point. In every run of abort attempts, interrupted anywhere and
   interleaved with pushes, the world stays on the way, work is never redone, a fresh plan asks for
   exactly the effects still missing, and an attempt with nothing left has finished the abort.
   */
  lemma AbortConverges(c: Setting, requester: Option<string>, states: seq<State>, steps: seq<Step>, i: nat, listing: Listing)
    requires Run(c, requester, states, steps) && Converging(c, states[0]) && ValidRole(requester) && i < |states|
    ensures var w := states[i].world;
      && OnTheWay(c, w) && Rank(RawFacts(c, w)) <= Rank(RawFacts(c, states[0].world))
      && PlanAbort(Project(Observe(c, w, listing)), requester) == Some(Outstanding(RawFacts(c, w), Generation(RawFacts(c, w))))
      && |Outstanding(RawFacts(c, w), Generation(RawFacts(c, w)))| == Rank(RawFacts(c, w))
      && (states[i].session.Aborting? ==> |states[i].session.remaining| == Rank(RawFacts(c, w)))
      && (states[i].session == Aborting([]) ==> Finished(RawFacts(c, w)))
  {
    RunConverges(c, requester, states, steps, i);
    hide PlanAbort, Project, Run, ValidRole, WellFormed, AnchorSurvives, Consistent, RootClaimsAgree, OffBase, CanonicalBranch,
         CanonicalBranches, CanonicalPullRequests;
    FreshPlan(c, states[i].world, listing, requester);
  }

  /** What the original plan still owed at any crash point is what a new plan asks for. */
  lemma CrashAndReplan(c: Setting, w: World, requester: Option<string>, listing: Listing, choice: Choice, k: nat)
    requires OnTheWay(c, w) && ValidRole(requester)
    requires k <= |Outstanding(RawFacts(c, w), Generation(RawFacts(c, w)))|
    ensures var effects := Outstanding(RawFacts(c, w), Generation(RawFacts(c, w)));
      && PlanAbort(Project(Observe(c, w, listing)), requester) == Some(effects)
      && ApplyAll(w, effects[..k], choice).Some?
      && PlanAbort(Project(Observe(c, ApplyAll(w, effects[..k], choice).value, listing)), requester) == Some(effects[k..])
  {
    hide PlanAbort, Project, ValidRole;
    FreshPlan(c, w, listing, requester);
    CrashPoint(c, w, choice, k);
    FreshPlan(c, ApplyAll(w, Outstanding(RawFacts(c, w), Generation(RawFacts(c, w)))[..k], choice).value, listing, requester);
  }

  /** The first effect of a fresh plan lands and leaves the rest outstanding. */
  lemma FreshEffectLands(c: Setting, w: World, choice: Choice)
    requires OnTheWay(c, w) && Outstanding(RawFacts(c, w), Generation(RawFacts(c, w))) != []
    ensures var effects := Outstanding(RawFacts(c, w), Generation(RawFacts(c, w)));
      && Apply(w, effects[0], choice).Some?
      && var v := Apply(w, effects[0], choice).value;
         OnTheWay(c, v) && Outstanding(RawFacts(c, v), Generation(RawFacts(c, v))) == effects[1..]
  {
    hide Apply, WellFormed, CanonicalBranch, CanonicalBranches, CanonicalPullRequests, AnchorSurvives, OffBase, Consistent,
         RootClaimsAgree, Generation;
    var f := RawFacts(c, w);
    if CanonicalPullRequests(f)[0].open {
      CloseAdvances(c, w, choice);
    } else {
      FreshDeleteLands(c, w, choice);
      DeleteAdvances(c, w, Generation(f), choice);
    }
  }

  /** The plan's own prefix lands, whatever its length, and leaves the rest of the plan outstanding. */
  lemma {:induction false} CrashPoint(c: Setting, w: World, choice: Choice, k: nat)
    requires OnTheWay(c, w) && k <= |Outstanding(RawFacts(c, w), Generation(RawFacts(c, w)))|
    ensures var effects := Outstanding(RawFacts(c, w), Generation(RawFacts(c, w)));
      && ApplyAll(w, effects[..k], choice).Some?
      && var v := ApplyAll(w, effects[..k], choice).value;
         OnTheWay(c, v) && Outstanding(RawFacts(c, v), Generation(RawFacts(c, v))) == effects[k..]
    decreases k
  {
    hide Apply, OnTheWay, Outstanding, Generation;
    var effects := Outstanding(RawFacts(c, w), Generation(RawFacts(c, w)));
    if k > 0 {
      FreshEffectLands(c, w, choice);
      CrashPoint(c, Apply(w, effects[0], choice).value, choice, k - 1);
      assert effects[1..][..k - 1] == effects[..k][1..] && effects[1..][k - 1..] == effects[k..];
    }
  }
}
