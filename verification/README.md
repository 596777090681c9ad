# Governed Changes: a verified model

A *Change* is never stored. It is rebuilt, each time it is needed, from what GitHub shows: one root Issue, a set of
branches, a set of pull requests. Planners turn the rebuilt Change into ordered effects; executors carry the effects
out one by one, may stop after any of them, and start over from a fresh read. This project models that loop and proves
what it is for. It also models the parts of the repository that carry text through Markdown, branch names and argument
lists, and the parts that report what an execution did.

`dafny verify dfyconfig.toml` checks everything.

## How the model is laid out

- **Change, Projection** – identities, states, evidence and effects; `Project` says what a projection is, and
  `ProjectChange` computes it with the source's loops. **ProjectionTheorems** and **ProjectionMeaning** characterise
  every status, class and code without the cascade; **EvidenceOrder** and **Permutation** show that the order of the evidence does not matter; **ProjectionContract**
  is the contract a transported projection is checked against.
- **Transition, Issuance, Compensation, CompensationContract, AbortRecovery, AbortPlanning** – the planners and validators;
  **Admission** says operation by operation which requests are valid and what is planned for them, and **AttemptRecords** which
  records of attempts lead to a compensation or a recovery.
- **GitHubWorld** – a small GitHub: an Issue, branches with commit generations, pull requests; every effect is one step
  that may be refused, and a reader observes the world in one of two listing styles.
- **AbortRuns, AbortOutcomes, IssuanceRuns, ReadyRuns, RecoveryRuns, CompensationRuns, SafetyRuns, Lifecycle** – whole runs
  over that world.
- **PercentToken, StructuredMarkdown, StructuredRoundTrip, IssueText, Coverage** – the artifact codecs and the coverage pass;
  **MarkdownGrammar** states the structured Markdown grammar apart from its parser and shows that the parser accepts just that,
  **RenderTheorems** says what is rendered and in which canonical form.
- **BranchFormat, BranchFormatTheorems, BranchNaming** – the declarative branch formatter and the fixed branch grammar;
  **BranchRules** says what names, slugs and formats are valid without the scans that check them, and **LegacyBranches** shows that under the legacy rule the two agree.
- **Argv, BranchPrefix** – the tokenizer and the two argument rewritings.
- **AuthorizedExecution, Reconciliation, Handoff** – what a reported outcome is allowed to mean; **AuthorizedRuns** follows one
  gate over any sequence of mintings and executions, **AuthorizedWorlds** ties reported outcomes to the world they leave.
- **Ordering, Characters, Wrappers** – comparators, stable sorting, filtering; character classes; `Option` and `Result`.

Code that runs step by step in the source (the projection, the plan builder, the Markdown renderer and parser, the
coverage pass, the format validator and matcher, the tokenizer and rewritings, the executors, the handoff) is a method
proved equal to a specification function; the theorems are about that function. Pure source code is functions only.

## What turned out not to hold, and exactly when it does

- A valid abort request without a commit generation is admitted by the request validator and then makes the planner
  throw (`src/change.ts:3666`, `3672`): `Transition.PlannerTotality`, `Transition.ValidAbortWithoutGenerationIsUnplannable`.
- A merged pull request whose branch is gone projects as partial: `ProjectionTheorems.MergedWithoutBranchIsPartial`.
- A finished abort is recognised as such if and only if the canonical name does not depend on the deleted branch alone:
  `AbortOutcomes.FinishedAbortIsRecognisedIff`, with a failing family in `AbortOutcomes.LostAnchor`.
- An identity whose host holds a control character passes identity validation but can never be issued, because its
  idempotency key is refused: the `KeyIsText` condition in `Issuance.IssuancePlannedIff`.
- Compensation insists on lists that were read (`src/change.ts:5765-5773`), while the shipped reader reports an empty list
  as absent (`src/github/change-state-projector.ts:284-285`). With that reader a failed issuance is compensated exactly if its
  branch is untouched and some unrelated pull request is listed (`CompensationRuns.AbsentListsBlockCompensation`), and since
  reporting success needs that none is listed, a compensation is never reported as successful
  (`CompensationRuns.ShippedReaderNeverReportsCompensation`). With a reader that lists empty lists it is reported exactly if
  no other candidate exists (`CompensationRuns.ReportedCompensatedIff`).
- Success of an abort does not mean ABORTED: any sound pair of the Issue passes (`AuthorizedWorlds.IdleAbortMaySucceed`). The
  claimed state tells exactly what was left (`AuthorizedWorlds.AbortedIffFinished`).
- Structured Markdown gives back the same value if and only if every property is declared and is not the prototype key
  `__proto__`, and every `integer` holds a whole number (`StructuredRoundTrip.SameValueIffFaithful`). Undeclared properties and
  fractional integers are refused before rendering, by schema validation (`src/artifact.ts:865-892`). The prototype key is not:
  the parser assigns it on a plain object (`src/artifact.ts:1199`), which replaces the prototype instead of adding a property,
  so a validated value returns unchanged if and only if no object in it uses that key (`StructuredRoundTrip.ValidatedReturnsIff`,
  `StructuredRoundTrip.PrototypeKeyIsLost`).
- Field escaping is idempotent unless the value starts with two byte order marks (`IssueText.EscapeIdempotentIff`), and
  decoding undoes encoding unless a line already looks escaped (`IssueText.FieldRoundTripIff`).
- A rendered branch with both `{slug}` and `{type}` need not be recognised. With `{slug}` in front it is recognised if and only
  if no reading of the branch has an overlong slug; with `{type}` in front, if and only if the first listed word that has a
  reading leaves a slug within the bound: `BranchFormatTheorems.RenderedIsAcceptedByReadings`, with a failing family in
  `BranchFormatTheorems.RenderedButNotRecognised`.
- A recognised branch is re-derived if and only if its number has no leading zero: `BranchNaming.DeriveUndoesRecognizeIff`.
- The handoff validator compares a native Implementation with the root Issue by number only; the projector also compares
  host and repository: `Handoff.NativeFitsIff`.

## Model

| member | source | states |
|---|---|---|
| Projection.ProjectChange | src/change.ts:2445-2772 | the step-by-step projection (counting, anchoring, classifying, deciding, diagnosing) meets its specification on every input, malformed evidence included |
| Projection.ReadSource | src/change.ts:1851-1920 | a list source is normalized element by element; an unreadable or oversized list yields exactly its diagnostic, a confirmed-absent one counts as empty |
| ProjectionMeaning.UnavailableIff | src/change.ts:1851-2170 | a projection is unavailable exactly when the input is malformed, the Issue is unread or another one, or a list is unread, longer than 64, or holds a malformed or self-contradicting report |
| ProjectionMeaning.CodesTellEvidence | src/change.ts:1851-2170 | each code of unreadable evidence tells its cause: a source that was not read, a malformed part, a closed report silent on merging, a contradiction |
| Projection.CountValues | src/change.ts:2201-2208 | the counting map agrees with the multiset of keys |
| Projection.ClassifyBranches | src/change.ts:2210-2241 | every branch candidate gets exactly one class: duplicated or foreign-claimed is conflicting, else canonical by name, else noncanonical |
| Projection.ClassifyPullRequests | src/change.ts:2257-2306 | every pull-request candidate gets exactly one class from number, base, head and claim |
| ProjectionMeaning.BranchClassMeans | src/change.ts:2210-2241 | the class of each branch: conflicting exactly when its name is reported elsewhere too or it claims another Issue, else canonical exactly by name |
| ProjectionMeaning.PullRequestClassMeans | src/change.ts:2257-2306 | the class of each pull request, from its number, head, base and claim |
| ProjectionMeaning.CandidatesInOrder | src/change.ts:2175-2195 | candidates are listed by name and by number, whatever order the evidence came in |
| Projection.ResolveCanonicalBranch | src/change.ts:2608-2629 | a governed name always wins; otherwise a unique root-Issue claim anchors the branch, else the derived name |
| ProjectionTheorems.CanonicalBranchMeans | src/change.ts:2608-2629 | the governed name is canonical whatever is claimed; a derived name gives way exactly to a name that alone claims the root Issue |
| ProjectionTheorems.AbsentIff | src/change.ts:2667-2726 | absent exactly when the evidence is consistent and nothing in it claims the root Issue or stands on the canonical name |
| ProjectionTheorems.HealthyIff | src/change.ts:2679-2717 | healthy exactly when the Issue is known, all claims agree, nothing conflicts or is off base, and there is one canonical pull request with one branch iff it is not closed unmerged |
| ProjectionTheorems.PartialIff | src/change.ts:2699-2726 | partial exactly when nothing contradicts, something canonical exists, but the pair is not sound |
| ProjectionTheorems.AmbiguousIff | src/change.ts:2624-2626 | ambiguous exactly when claims disagree or conflict and neither a duplicate nor a wrong base explains it |
| ProjectionMeaning.DuplicateIff | src/change.ts:2667-2702 | duplicate exactly for two branches of the canonical name, two canonical pull requests, or a number of the canonical branch reported twice |
| ProjectionMeaning.WrongBaseIff | src/change.ts:2674-2704 | wrong base exactly when nothing is duplicated and a pull request from the canonical branch targets another base |
| ProjectionTheorems.MergedWithoutBranchIsPartial | src/change.ts:2716-2719 | a merged pull request without its branch is partial and needs recovery |
| ProjectionTheorems.ConflictMeansInconsistent | src/change.ts:2691-2694 | a conflicting candidate exists exactly when a name or number repeats or a candidate contradicts the identity |
| ProjectionTheorems.AmbiguousAnchorMeansDisagreement | src/change.ts:2615-2626 | the anchor test fails exactly when some root-Issue claim names another branch |
| ProjectionTheorems.AgreementLeavesNothingElsewhere | src/change.ts:2695-2721 | once the anchor test has passed, the later test for plausible noncanonical pull requests never decides |
| ProjectionTheorems.DiagnosticsExplainRejection | src/change.ts:2754-2771 | a projection is valid exactly when it carries no diagnostic, and diagnostics are bounded |
| ProjectionMeaning.CodesTellStatus | src/change.ts:2343-2378 | each code of a decided projection tells its status; a conflict is reported exactly next to an ambiguity with inconsistent candidates |
| ProjectionTheorems.HealthyChange | src/change.ts:2742-2752 | a healthy projection names its one pair, merges provenance and takes its state from that pull request |
| ReadyRuns.HealthyStateMeans | src/change.ts:2336-2341 | the five states of a healthy Change, each exactly when its pull request is open and draft, open and unaccepted, open and accepted, merged, or closed unmerged |
| ReadyRuns.ObservedStateMeans | src/change.ts:2336-2341 | any reader of a sound world sees that state, the canonical pair and the merged provenance |
| EvidenceOrder.EvidenceOrderIrrelevant | src/change.ts:2175-2195 | permuting both evidence lists leaves status, validity, canonical branch and Change unchanged, and for readable evidence candidates and diagnostics too, once an empty provenance is identified with a missing one |
| Permutation.PermutedProjection | src/change.ts:2667-2771 | permuted facts give the same projection with permuted candidates |
| AbortRecovery.ClosedPullRequestIff | src/change.ts:2381-2421 | the closed-pull-request recovery is admitted exactly for one consistent pair whose pull request was closed unmerged |
| AbortRecovery.BranchOnlyIff | src/change.ts:2381-2421 | the branch-only recovery is admitted exactly for a lone canonical branch and nothing else at all |
| AbortRecovery.CleanupCompleteIff | src/change.ts:2428-2438 | cleanup is complete exactly when the Issue is known and no candidate is left |
| Transition.BuildPlan | src/change.ts:3611-3697 | the effect list pushed step by step is the specified one, with the source's missing-operand failures |
| Admission.IssueAdmitted | src/change.ts:3252-3327 | an issue request is valid exactly for a DEFINED Change without artifacts, a branch and a base, no pull request, and no plan or the plan of an initial Draft of that branch |
| Admission.MergeAdmitted | src/change.ts:3329-3419 | a merge request is valid exactly with a merge plan for the Change's own pull request, base and repository |
| Admission.ArtifactsAdmitted | src/change.ts:3421-3477 | a ready or abort request is valid exactly when it names nothing but the Change's own pair; only a recovering abort may lack the pull request |
| Admission.IssuePlanned | src/change.ts:3611-3653 | an issue plan is branch, provenance commit and Draft in that order, with the texts of the plan or the defaults |
| Admission.AbortPlanned | src/change.ts:3657-3679 | an open Change is closed and its branch deleted at the lower-cased generation, a recovering one only loses its branch, an aborted one nothing |
| Admission.MergePlanned | src/change.ts:3680-3697 | every valid merge is planned, without effects, and changes nothing but the state |
| ReadyRuns.ReadyPlans | src/change.ts:3654-3656 | every valid ready request is planned; its one effect marks the pull request ready exactly from DRAFT, and there is none exactly from REVIEW |
| ReadyRuns.ReadyFromWorld | src/change.ts:3654-3656 | over an observed sound world: one effect for an open draft, none for an open unaccepted pull request, no plan otherwise |
| ReadyRuns.ReadyRun | src/change.ts:2336-2341 | over a sound Draft the planned effect lands, the Change is seen as REVIEW with the same pair, and ready again plans nothing |
| ReadyRuns.IssueThenReady | src/change.ts:3611-3697 | a freshly issued Change is made ready by exactly one effect, on the pull request its issuance opened |
| Transition.PlannerTotality | src/change.ts:3237-3477 | planning succeeds exactly on valid requests whose unfinished abort names a commit generation |
| Transition.ValidAbortWithoutGenerationIsUnplannable | src/change.ts:3657-3679 | concrete valid requests on which the planner throws |
| Transition.PlanFollowsLifecycle | src/change/machine/lifecycle-machine.ts:27-92 | a plan follows one edge of the lifecycle graph and keeps identity and provenance |
| Transition.DeletionsNameGeneration | src/change.ts:3657-3679 | every planned deletion names the projected branch and the generation given in the request |
| Transition.CreationNeedsUnissuedChange | src/change.ts:3237-3300 | creating effects are planned only for a DEFINED Change that owns no artifact |
| Transition.ValidatorAcceptsPlannerImage | src/change.ts:4181-4256 | a transported plan validates to q exactly when planning its own request gives q and from, to, result and effects agree |
| Transition.PlansValidateToThemselves | src/change.ts:4181-4256 | a planned transition validates to itself exactly when its pull-request texts are within the effect bounds |
| Issuance.KeyInjective | src/change.ts:2778-2786 | two Changes share an idempotency key only when they are the same Change |
| Issuance.KeyBounded | src/change.ts:4348-4365 | the key is acceptable text exactly when the host has no control character |
| Issuance.IssuancePlannedIff | src/change.ts:4520-4659 | issuance is planned exactly for healthy projections and for absent ones with a confirmed Issue and an admissible plan |
| Issuance.IssuancePlanShape | src/change.ts:4520-4587 | every issuance plan validates to itself, is keyed by identity, and creates exactly when absent and returns without effects exactly when healthy |
| Admission.IssuanceAdmitted | src/change.ts:4665-4917 | which issuance plans validate, for every plan: keyed by the identity of a well-formed Change with a branch, verified by just that Change, and either creating it with the three effects or returning it healthy without any |
| Issuance.ValidProjectionShape | src/change.ts:2728-2752 | valid projections name their pair and carry a well-formed Change of the requested identity |
| Compensation.CompensationDeletesOnlyItsOwnGeneration | src/change.ts:6001-6046 | compensation is one delete of the canonical branch at the recorded provenance commit |
| Compensation.CompensationNeverTouchesAnIssuedChange | src/change.ts:5623-5717 | compensation is planned only from absent or partial projections that show no pull request |
| Compensation.CompensationNeedsListedEvidence | src/change.ts:5740-5775 | evidence that reports a list as absent always refuses compensation |
| AttemptRecords.CompensationIff | src/change.ts:5623-5775 | for every plan, record and evidence: compensation exists exactly when only the Draft is missing and its commit known, the Issue is open and both lists were read, and nothing of the Change is left or just its branch at that commit |
| AttemptRecords.PendingReport | src/change.ts:6301-6385 | before an outcome the report is the projected Change, now needing recovery |
| AttemptRecords.CompensatedReport | src/change.ts:5777-5826 | a successful compensation is reported exactly if a fresh read shows an open Issue and nothing else, and then as DEFINED and owning nothing |
| AttemptRecords.FailedReport | src/change.ts:6301-6385 | a failed compensation is reported exactly for the planned delete itself, as whatever Change a fresh read shows |
| Compensation.RecoveryResultIsEarned | src/change.ts:6301-6385 | a recovery result says DEFINED exactly when absence was shown again after a successful compensation |
| Compensation.RecoveryCompletesThePlan | src/change.ts:6652-6745 | succeeded attempts followed by the recovery effects are the effects of the original plan |
| AttemptRecords.RecoveryIff | src/change.ts:6652-6745 | a recovery exists exactly when the plan validates, the attempts repeat its effects up to one failed effect with fitting evidence, and the projection is of the same Change and healthy, absent or partial |
| RecoveryRuns.RecoveryExistsIff | src/change.ts:6652-6745 | for every plan that validates and every failed effect of it: what the recovery asks for, and the artifacts and provenance it keeps |
| RecoveryRuns.DeleteFailed | src/change.ts:6720-6745 | an abort whose close landed and whose delete failed is recovered by exactly that delete, keeping the pair |
| RecoveryRuns.CloseFailed | src/change.ts:6720-6745 | an abort whose close failed is recovered by its whole plan |
| CompensationContract.PlannedCompensationIsAccepted | src/change.ts:6049-6168 | every planned compensation passes its own validator |
| CompensationContract.AcceptedCompensationIsBounded | src/change.ts:6049-6168 | whatever the validator accepts is a single delete at the issuance's own commit, from a projection without canonical pull request |
| ProjectionContract.ComputedResultIsValid | src/change.ts:5193-5372 | projections computed from readable evidence satisfy the transported-result contract |
| Admission.AbortPlannedIff | src/change/machine/trusted-execution-adapter.ts:1084-1178 | over computed projections an abort is planned exactly for Changes of the trusted issuer: nothing left, aborted already, or, with the branch's generation read, a healthy Draft or Review or one of the two recovery shapes; never for ACCEPTED or MERGED |
| Admission.AbortKeepsRoles | src/change/machine/trusted-execution-adapter.ts:1127-1178 | an abort plan records who asked for it and keeps every other role, the identity and the artifacts |
| AbortPlanning.OpenPlan | src/change/machine/trusted-execution-adapter.ts:1127-1178 | a healthy Draft or Review of the trusted issuer is aborted by close, then delete at the generation just read |
| AbortPlanning.ClosedPlan | src/change.ts:3657-3679 | a closed pair is recovered by the single remaining delete |
| AbortPlanning.FinishedPlan | src/change.ts:3657-3679 | a healthy ABORTED Change is aborted again without effects |
| AbortPlanning.LonePlan | src/change.ts:3657-3679 | a lone branch is recovered by the single delete |
| GitHubWorld.ObservedProjection | src/github/change-state-projector.ts:276-291 | what a reader observes projects like the world's own facts, whatever its listing style |
| GitHubWorld.OnlyTheNamedGenerationIsRemoved | src/github/change-effect-adapter.ts:675-722 | an effect removes a branch only if it is the conditional delete of that branch at its current generation |
| GitHubWorld.MovedBranchSurvives | src/github/change-effect-adapter.ts:691-722 | a conditional delete is refused once the branch has moved |
| AbortRuns.AbortConverges | src/change.ts:2679-2715 | in every run of abort attempts stopped anywhere and interleaved with pushes, a fresh plan asks for exactly the effects still missing, work is never redone, and an exhausted attempt has finished the abort |
| AbortRuns.CrashAndReplan | src/change.ts:3657-3679 | after any prefix of the plan, planning again yields the rest of that plan |
| AbortRuns.StepConverges | src/change/machine/abort-execution-machine.ts:258-637 | every step keeps the abort on its way; each landed effect brings it exactly one step closer |
| AbortRuns.FreshPlan | src/change/machine/trusted-execution-adapter.ts:1127-1178 | whoever starts an abort finds exactly the outstanding effects |
| AbortOutcomes.HealthyChangeStarts | src/change/machine/trusted-execution-adapter.ts:1084-1126 | every healthy Draft or Review of the trusted issuer whose anchor survives is on the way |
| AbortOutcomes.StageSeen | src/change.ts:2679-2752 | healthy before the close, partial closed-pull-request recovery between, healthy ABORTED after, with the same identity, pair and provenance throughout |
| AbortOutcomes.FinishedAbortIsRecognisedIff | src/change.ts:2617-2623 | after the last delete the Change is recognised as ABORTED exactly when the anchor of its branch survives |
| AbortOutcomes.LostAnchor | src/change.ts:2617-2623 | the family of worlds in which it does not: a legacy branch that alone claims the Issue under another than the derived name |
| AbortOutcomes.BranchOnlyRecovery | src/change.ts:2381-2438 | a lone branch is removed by one conditional delete, after which cleanup is complete and nothing is left to do |
| IssuanceRuns.IssuanceCreatesOnce | src/change.ts:4498-4587 | a completed create run re-projects to the healthy DRAFT its verification record demands, and planning again returns it without effects |
| IssuanceRuns.InterruptedIssuanceIsNotRepeated | src/change.ts:4614-4659 | after one or two effects issuance is refused, and branch-only recovery is available exactly when nothing else is listed |
| IssuanceRuns.AbsentWorldIff | src/change.ts:2728-2740 | absent means an unclaimed world, and then the configured name is the canonical one |
| CompensationRuns.CompensatedIffUntouched | src/change.ts:5495-5717 | with only the pull request failed, and for either listing style, compensation exists exactly while the branch is at the provenance commit and the pull requests are reported as a list that was read; running it restores the absent DEFINED world |
| CompensationRuns.CompensatedWhenGone | src/change.ts:5632-5647 | when the branch is already gone compensation exists exactly if both lists are reported as read, and then changes nothing |
| CompensationRuns.ReportedCompensatedIff | src/change.ts:5777-5826 | the compensated outcome is reported exactly when the failure was read by a reader that lists empty lists and no other candidate exists |
| CompensationRuns.AbsentListsBlockCompensation | src/github/change-state-projector.ts:284-285 | with the shipped reader compensation is planned exactly for an untouched branch beside at least one unrelated pull request, or for a branch that is gone beside both unrelated kinds |
| CompensationRuns.ShippedReaderNeverReportsCompensation | src/change.ts:5765-5775 | with the shipped reader no compensation is ever reported as successful, for any issuance, record and worlds in which pull requests stay on record |
| GitHubWorld.ListingDoesNotShow | src/change.ts:2197-2199 | whether an empty list is reported as read or as absent never changes the projection |
| SafetyRuns.AtMostOnePullRequest | src/change.ts:4520-4659 | in every run of issue, ready, abort and compensation attempts, whatever others do, at most one pull request with the configured head is opened, and none if there was one |
| SafetyRuns.NoUnreadWorkIsDeleted | src/change.ts:3657-3679 | in every run a branch removed by an attempt stood at a generation read at the state where the attempt was planned, or at the commit its failure record names |
| SafetyRuns.CompensationRemovesOwnCommit | src/change.ts:6001-6046 | when records are those of the run, a branch removed by a compensation stood at a generation that an earlier issuance of the same run committed |
| SafetyRuns.CreationIsIssuance | src/change.ts:4520-4587 | only issuance of an absent Change creates, on the configured branch and base |
| SafetyRuns.AbortDeletesWhatItRead | src/change/machine/trusted-execution-adapter.ts:1145-1172 | an abort deletes a branch of the read world at the generation read for it |
| Lifecycle.IssuedIsOnTheWay | src/change.ts:4498-4587 | every freshly issued Change is a pair on which an abort can start |
| Lifecycle.IssueThenAbort | src/change.ts:2679-2752 | issue, then abort: all effects land, the record is a healthy ABORTED Change, and issuing again returns it instead of creating another |
| Lifecycle.FromNothing | src/change.ts:2728-2740 | that run starts from the world in which nothing was done yet, for every valid setting |
| PercentToken.DecodesExactlyEncodings | src/artifact.ts:910-924 | a token decodes to s exactly when it is the encoding of s |
| PercentToken.EncodeIsTokenText | src/artifact.ts:910-915 | tokens hold only unreserved characters and upper-case percent triples (RFC 3986 sections 2.1 and 2.3) |
| PercentToken.DecodedTokensAreTokenText | src/artifact.ts:917-924 | whatever decodes holds nothing else either |
| PercentToken.EncodeInjective | src/artifact.ts:910-915 | different texts have different tokens |
| PercentToken.Utf8RoundTrip | src/artifact.ts:917-924 | strict UTF-8 decoding undoes encoding for every scalar value |
| PercentToken.Utf8LengthAdds | src/artifact.ts:978-982 | the length of a text in octets adds up over its parts, one to four for a character by its code point (section 3 of RFC 3629) |
| PercentToken.UnreservedStandForThemselves | src/artifact.ts:910-915 | exactly letters, digits and four marks stand for themselves (RFC 3986 section 2.3); every other character takes three characters an octet |
| StructuredMarkdown.Render | src/artifact.ts:930-1000 | the recursive renderer with its shared node budget meets its specification |
| RenderTheorems.RendersIff | src/artifact.ts:930-1000 | rendering succeeds exactly on values of the shape of their schema, with texts within 16384 octets, that leave the budget of 4096 nodes intact; it spends one for each node |
| RenderTheorems.RenderedRecordIsCanonical | src/artifact.ts:943-962 | one level below a rendered record stand exactly the markers of the declared names it has, each once, in code-unit order |
| StructuredMarkdown.Parse | src/artifact.ts:1173-1242 | the cursor parser with its shared budget meets its specification; on success cursor and budget stand where specified |
| MarkdownGrammar.ParsesIffSpelled | src/artifact.ts:1173-1242 | without the prototype key, parsing consumes a segment as a value exactly when the segment spells that value in a grammar stated apart from the parser |
| MarkdownGrammar.ParsedIsSpelled | src/artifact.ts:1173-1242 | over arbitrary items: whatever is parsed was spelled, each declared name at most once, in any order, up to the prototype key |
| MarkdownGrammar.RepeatedPropertyIsRefused | src/artifact.ts:1190-1206 | a property marked twice in one object is refused, wherever the markers stand |
| MarkdownGrammar.UndeclaredPropertyIsRefused | src/artifact.ts:1190-1206 | an item right below an object that marks no declared property is refused |
| MarkdownGrammar.MalformedNodeIsRefused | src/artifact.ts:1173-1188 | a scalar with anything below it, a checked and a quoted node are refused |
| MarkdownGrammar.PrototypeKeyInTurn | src/artifact.ts:1190-1206 | what repeated assignments under the prototype key do: nothing is added until a value takes the inherited setter away, and from then on the last value is an own property |
| StructuredRoundTrip.RoundTrip | src/artifact.ts:930-1242 | wherever a rendered value stands, before anything not deeper, parsing returns what the trip keeps, stops right behind it and spends the budget rendering spent |
| StructuredRoundTrip.SameValueIffFaithful | src/artifact.ts:930-1242 | the same value comes back exactly when it is faithful to its schema: its shape, declared names other than the prototype key, whole integers |
| StructuredRoundTrip.ValidatedReturnsIff | src/artifact.ts:865-892 | a value that passed schema validation comes back unchanged exactly when no object in it uses the prototype key |
| StructuredRoundTrip.PrototypeKeyIsLost | src/artifact.ts:1190-1206 | the smallest failing input: it validates and renders, and comes back as the empty object |
| StructuredRoundTrip.SurvivesIffFaithful | src/artifact.ts:943-960 | undeclared properties, the prototype key and fractional integers are all that a round trip can lose |
| IssueText.EscapedValueOpensNothing | src/artifact.ts:2969-2979 | no line of an escaped value opens a heading, fence or HTML comment |
| IssueText.MarkMeansOpening | src/artifact.ts:2969-2979 | the marks looked for are exactly one to six hashes before white space or the end, a code fence, or a comment |
| IssueText.EscapeLineMeans | src/artifact.ts:2969-2979 | exactly the lines that open one of these behind at most three spaces get one backslash, right before the mark |
| IssueText.UnescapeLineMeans | src/artifact.ts:3000-3005 | exactly a backslash before a block start behind at most three spaces is taken away |
| IssueText.LineEndsUnify | src/artifact.ts:3024-3026 | every line end becomes one line feed wherever it stands, and nothing else changes |
| IssueText.EscapeIdempotentIff | src/artifact.ts:2969-2979 | escaping twice is escaping once exactly unless two byte order marks lead |
| IssueText.UnescapesExactly | src/artifact.ts:3000-3005 | per line, unescaping undoes escaping exactly when the line did not already start escaped |
| IssueText.SentinelRoundTrip | src/artifact.ts:1137-1149 | sentinel decoding gives back exactly the values of sentinel form, and no encoding is the placeholder |
| IssueText.DecodesExactlySentinels | src/artifact.ts:1143-1149 | a response decodes to v exactly when it is the encoding of v and v has sentinel form |
| IssueText.DecodedResponse | src/artifact.ts:1090-1102 | missing exactly for the empty response and the placeholder; sentinels are decoded, everything else is unescaped |
| IssueText.SentinelEncodingInjective | src/artifact.ts:1137-1141 | sentinel encoding is injective |
| IssueText.FieldRoundTripIff | src/artifact.ts:1101-1102 | a normalized non-empty field value comes back exactly when it has sentinel form or no line already looks escaped |
| IssueText.SuppliedIsNeverMissing | src/artifact.ts:1090-1102 | a supplied value is never read back as missing |
| Coverage.Mark | src/artifact.ts:2246-2249 | marking sets exactly the existing lines of the range |
| Coverage.CompressLines | src/artifact.ts:2333-2344 | the bounded compression is the first sixteen of all runs, truncated exactly when there are more |
| Coverage.ReportCoverage | src/artifact.ts:2329-2352 | counts add up, ranges are the first maximal runs, and without truncation they cover exactly the uncovered non-blank lines |
| Coverage.RunsAreExact | src/artifact.ts:2335-2344 | runs are sorted, never adjacent, and cover exactly their lines |
| BranchFormat.ValidateRule | src/branch-naming.ts:308-376 | there is no violation exactly when the rule is valid |
| BranchRules.RuleIff | src/branch-naming.ts:308-376 | a rule is valid exactly when its format can be put together from name characters and holes, the number once, slug and type at most once, and its type words, if it needs any, are one to 32 different ones |
| BranchRules.SafeNameIff | src/branch-naming.ts:383-400 | which names are safe branch names: by their characters, the two sides of every slash, dots in a row and what they end with |
| BranchRules.SlugsAreFixedPoints | src/branch-naming.ts:407-423 | the slugs the formatter accepts are exactly the texts that slug normalization leaves alone |
| BranchFormat.CheckTypes | src/branch-naming.ts:361-375 | the scan with its seen-set accepts exactly distinct well-formed type words |
| BranchFormat.MatchBranchFormat | src/branch-naming.ts:450-475 | the matcher assembled token by token decides as specified |
| BranchFormatTheorems.MatchIsSound | src/branch-naming.ts:450-475 | whatever is recovered renders back to exactly that branch |
| BranchFormatTheorems.MatchRecoversValues | src/branch-naming.ts:407-443 | with at most one of slug and type, a rendered branch is accepted and gives back its values |
| BranchFormatTheorems.RenderedIsAcceptedByReadings | src/branch-naming.ts:450-475 | with slug in front, a rendered branch is accepted exactly when no reading of it has an overlong slug; with type in front, exactly when the first listed word that has a reading leaves a slug within the bound |
| BranchFormatTheorems.RenderedButNotRecognised | src/branch-naming.ts:473 | for every slug of full length, a rendered branch that is not recognised |
| BranchFormatTheorems.AcceptedMeansRendered | src/branch-naming.ts:407-475 | without slug or without type, acceptance is the same as being rendered by some values |
| BranchNaming.NormalizedSlugIsSlug | src/branch-naming.ts:188-198 | a normalized slug is empty or of the formatter's slug grammar |
| BranchNaming.NormalizedSlugKeepsEssence | src/branch-naming.ts:188-198 | normalization keeps all lower-case letters and digits in order and is empty exactly when there are none |
| BranchNaming.SlugIsFixed | src/branch-naming.ts:188-198 | a slug is its own normal form |
| BranchNaming.SlugIsWords | src/branch-naming.ts:188-198 | the slug is the words of the lower-cased text with single hyphens between them; only text over the bound is refused |
| BranchNaming.RecognizeUndoesDerive | src/branch-naming.ts:95-117 | derived ordinary and integration branches are recognised with all their parts |
| BranchNaming.RecognizedIff | src/branch-naming.ts:95-117 | exactly the spellings of parts are recognised, with any digits whose number is a safe integer, positive for integration types |
| BranchNaming.LeadingZero | src/branch-naming.ts:95-117 | a leading zero does not change the recognised number |
| BranchNaming.DerivedIffRecognized | src/branch-naming.ts:222-240 | the derived names are exactly the recognised ones whose positive number is in plain decimal |
| BranchNaming.DeriveUndoesRecognizeIff | src/branch-naming.ts:222-240 | a recognised ordinary branch is re-derived exactly when its number has no leading zero |
| LegacyBranches.LegacyRendersCanonicalNames | src/branch-naming.ts:255-259 | under the legacy rule the formatter renders exactly the names the fixed grammar derives |
| LegacyBranches.LegacyMatchesCanonicalNames | src/branch-naming.ts:255-259 | and its matcher gives back the parts of every canonical name |
| LegacyBranches.LegacyMatchIsCanonical | src/branch-naming.ts:255-259 | it accepts nothing but canonical names of that number |
| Argv.TokenizeArgv | src/command-contract.ts:1955-1999 | the index loop with its value skipping meets its specification |
| Argv.EqualsForms | src/command-contract.ts:1970-1987 | what an argument with an equals sign means, for every name, value and rest |
| Argv.PlainForms | src/command-contract.ts:1960-1996 | what an argument without one means: terminator, word, option, and the value a required option takes from the next argument |
| Argv.RouteFirstArgv | src/cli.ts:100-135 | the search for the movable prefix meets its specification |
| Argv.RouteFirstMovesExactly | src/cli.ts:100-135 | nothing moves where help or version is asked for or no route is selected; otherwise the first place of the route behind a movable prefix decides, and without one nothing changes |
| Argv.RouteFirstKeepsMeaning | src/cli.ts:100-135 | rewriting permutes the arguments and keeps positionals and options in order, terminator or not |
| Argv.RouteFirstIdempotent | src/cli.ts:100-135 | rewriting twice is rewriting once, and a rewritten list starts with its route |
| Argv.PrefixTokens | src/command-contract.ts:1955-1999 | complete options are read the same whatever follows them |
| BranchPrefix.BranchPrefixArgv | src/cli.ts:143-205 | the second rewriting moves only one unambiguous, completely readable prefix and permutes the arguments |
| BranchPrefix.CollectFlags | src/cli.ts:171-178 | the flag table exists exactly when no name is used twice, and holds exactly the names |
| BranchPrefix.TableHolds | src/cli.ts:171-178 | a name leads to a field exactly when the field takes flags and goes by that flag or alias |
| BranchPrefix.MatchesAreAllPlaces | src/cli.ts:143-169 | every place of every route is found, once for each time its command is listed, and nothing else |
| BranchPrefix.ScanPrefix | src/cli.ts:180-200 | the scan accepts exactly prefixes that read as flags with only allowed repetitions |
| BranchPrefix.ReadWithEquals | src/cli.ts:180-200 | an argument with an equals sign reads exactly as a known option that takes a value |
| BranchPrefix.ReadPlain | src/cli.ts:180-200 | an argument without one reads as a known flag, or as a known option with whatever follows it |
| BranchPrefix.MovedFlagsReadTheSame | src/cli.ts:202 | behind the route the moved flags read as they stood, followed by the rest |
| AuthorizedExecution.Gate.Create | src/authorized-execution.ts:432-592 | an input is minted exactly when everything in it agrees, and only that fresh input enters the set |
| AuthorizedExecution.MintedIff | src/authorized-execution.ts:432-592 | what can be minted, request by request: one Issue through request, subject, task and capability, a capability that grants the request, authorized provenance with exactly these claims, a context that speaks for its session |
| AuthorizedExecution.Gate.Execute | src/authorized-execution.ts:769-940 | one execution is one step of the gate: an input never minted makes no call, a minted one makes the specified calls and gets the specified result |
| AuthorizedExecution.PublishSucceedsIff | src/authorized-execution.ts:836-875 | a publication succeeds exactly when its delegate returned one that is ok and a valid App is in force |
| AuthorizedExecution.AdvanceSucceedsIff | src/authorized-execution.ts:804-834 | a branch advance succeeds exactly when its delegate succeeded with verified provenance, which is handed on |
| AuthorizedExecution.RefusalTellsWhy | src/authorized-execution.ts:877-940 | each phase of a refused mutation, exactly by what the executor answered and whether the reread was reached |
| AuthorizedExecution.OtherRefusalsTellWhy | src/authorized-execution.ts:785-875 | each phase of a refused show, advance or publication, by what was asked, answered and read |
| AuthorizedExecution.ExecutesAtMostOnce | src/authorized-execution.ts:877-940 | a mutation executes at most once, other actions never, and the reread only follows the execution |
| AuthorizedRuns.JournalIsMintedCalls | src/authorized-execution.ts:769-940 | in every run of mintings and executions the journal is exactly the calls of minted executions, in order |
| AuthorizedRuns.ForeignEnvelopeIsInert | src/authorized-execution.ts:769-782 | an envelope that no minting of the run produced is refused and changes nothing |
| AuthorizedRuns.ExecutionsAreMintedMutations | src/authorized-execution.ts:877-910 | the executions in the journal are exactly the minted mutations that reached their executor, one each |
| AuthorizedRuns.SuccessesShareNothing | src/authorized-execution.ts:903-940 | every reported success owns an adjacent execute-and-reread pair, and two successes never share a call |
| AuthorizedRuns.DelegatedSuccessOwnsCall | src/authorized-execution.ts:804-875 | in every run each successful publication or advance has its own call in the journal, and that call's answer was a success |
| AuthorizedRuns.SuccessNamesApp | src/authorized-execution.ts:903-940 | in every run a successful mutation or publication names the application that did it by two positive decimal numbers |
| AuthorizedRuns.ExecutionNeedsCapability | src/authorized-execution.ts:432-592 | at a gate that started empty every execution in the journal goes back to a minting with a capability for that action on that Issue |
| AuthorizedRuns.EverySuccessWasMinted | src/authorized-execution.ts:432-592 | at a gate that started empty every success goes back to an earlier admissible minting about one Issue, and carries verified provenance unless it only showed |
| AuthorizedWorlds.TruthfulSuccessIff | src/authorized-execution.ts:665-688 | over an observed world a truthful mutation is reported as succeeded exactly when the world holds the sound pair of this Issue, or, for an abort, nothing |
| AuthorizedWorlds.SuccessFixesWorld | src/authorized-execution.ts:647-663 | whatever an executor claims, success means that state, branch and pull request it claims are those of the world |
| AuthorizedWorlds.AbortedIffFinished | src/authorized-execution.ts:665-688 | a successful abort has finished exactly when the claimed state is ABORTED, and cleaned up exactly when it is DEFINED |
| AuthorizedWorlds.IdleAbortMaySucceed | src/authorized-execution.ts:670-676 | an abort that did nothing over a fresh Draft is reported as a success in state DRAFT |
| AuthorizedWorlds.AbortIsReportedWhenDone | src/authorized-execution.ts:903-940 | along every run of interrupted aborts, no mutation succeeds while the pull request is closed and the branch still stands, and an exhausted attempt truthfully reported succeeds as ABORTED |
| AuthorizedWorlds.ShowSeesClosingNotPushing | src/authorized-execution.ts:785-802 | a show still succeeds after any push to any branch, and fails after the pull request was closed |
| Reconciliation.Execute | src/artifact-reconciliation-executor.ts:73-209 | observe, decide, update, verify as specified; the remote body, sent and landed counts move exactly as specified, by at most one update |
| Reconciliation.SendIff | src/artifact-reconciliation-executor.ts:73-165 | an update with this body is sent exactly when the read artifact is governed, needs exactly it and is still fresh |
| Reconciliation.ReportMeans | src/artifact-reconciliation-executor.ts:73-208 | unchanged, safe retry, a rethrown error, a possible and an applied but unverified effect, each exactly in terms of the artifact that was read and the answers received |
| Reconciliation.EffectIsAccounted | src/artifact-reconciliation-executor.ts:380-451 | not started, applied and possible are reported exactly when no update could have landed, one was accepted, or its answer was lost |
| Reconciliation.RetryIsSound | src/artifact-reconciliation-executor.ts:425-451 | a safe retry implies no effect; any possible effect demands a fresh observation |
| Reconciliation.ReconciledIff | src/artifact-reconciliation-executor.ts:186-208 | reconciled exactly when an accepted update is reread as governed, current and without difference |
| Reconciliation.NoLandingGoesUnreported | src/artifact-reconciliation-executor.ts:380-451 | over any sequence of executions, updates that landed are at most those reported as applied or possible and at most those sent, and without a landing the body is unchanged |
| Reconciliation.LandingsAreReportedExactly | src/artifact-reconciliation-executor.ts:380-451 | where no answer is lost, the reports count the landings exactly |
| Reconciliation.SafeRetriesLandOnce | src/artifact-reconciliation-executor.ts:426-433 | retrying only while told that it is safe lands at most one update, leaves the body alone until the last execution, and after reconciled it is what that execution prepared |
| Reconciliation.ReconciledIsFinal | src/artifact-reconciliation-executor.ts:193-208 | with honest reads every execution after a reconciled one reports unchanged and sends nothing |
| Reconciliation.SentIsSemanticallyNeutral | src/artifact-reconciliation-executor.ts:115-157 | what is sent changes the artifact and is semantically neutral, on a governed, fully covered basis |
| Reconciliation.RecoveryLosesNothing | src/artifact-reconciliation-executor.ts:255-315 | a marked recovery accounts for every non-blank line and changes no meaning |
| Handoff.TryProjectHandoff | src/change-handoff.ts:485-757 | problems accumulate, and a handoff is made exactly when there is none |
| Handoff.CheckHandoff | src/change-handoff.ts:251-427 | the validator accepts exactly when it finds no problem, and drops a locator without evidence |
| Handoff.ValidatesIff | src/change-handoff.ts:251-427 | which transported handoffs validate, and to what |
| Handoff.HandoffIff | src/change-handoff.ts:485-757 | over computed projections and for any options: a handoff is made exactly for a healthy Draft whose repository and topology, where given, are its own; what it carries, and that it validates to itself |
| Handoff.HandoffIffHealthyDraft | src/change-handoff.ts:485-757 | over computed projections a plain handoff succeeds exactly on healthy drafts, carries their pair and passes its validator |
| Handoff.AcceptedHandoffIsHealthyDraft | src/change-handoff.ts:440-458 | every accepted handoff comes from a healthy DRAFT with one canonical, open, unmerged draft pull request |
| Handoff.HandoffValidates | src/change-handoff.ts:251-427 | every projected handoff validates to itself under the same repository evidence |
| Handoff.NativeFitsIff | src/change-handoff.ts:345-378 | the validator differs from the projector only in not comparing the Implementation's repository |
| Handoff.IssuedChangeIsHandedOff | src/change-handoff.ts:485-757 | a freshly issued Change can be handed off with the branch and pull request its run created |

## Left out

- Reads, writes, credentials, retries and timing of the GitHub and git adapters: their results are parameters or world steps.
- Signatures, hashing and the content of provenance records; observation identities are not modelled.
- Untrusted-JSON shape checks, unknown-property lists, diagnostic paths, wording and sorting; the validators are modelled on
  typed values, and a diagnostic is a code.
- Candidate reason texts.
- The semantic branch and pull-request plan validators; a pull-request plan is the fields that issuance compares and renders.
- The ready and merge admission gates: conjunctions of equalities, each settled by one branch.
- JavaScript strings are sequences of Unicode scalar values here, so lone surrogates, for which the token encoder throws,
  do not occur, and lengths are counted in characters rather than UTF-16 units.
- Lower-casing is that of ASCII; canonical decomposition of titles and the removal of combining marks happen before
  `NormalizeSlug` sees a text.
- Number printing and reading is a parameter of the structured Markdown codec, constrained to read back what it printed.
- Markdown parsing itself: a list item is a depth, a label and its two flags.
- Extracting a field response between headings, and dependency markers in Issue bodies.
- Regular expressions of the branch formatter are run by a small greedy matcher over the compiled atoms; legacy policy
  patterns are not modelled.
- Executing the output of the transition-recovery planner is not part of the runs: executors only report it. What it asks for
  is covered by `Compensation.RecoveryCompletesThePlan` and, after a failed abort, by `RecoveryRuns.DeleteFailed`.
- The reread and verification states of the abort and issuance machines are covered by what a fresh projection shows after
  each effect, not as machine states of their own.
- Inherited properties of a parsed object whose prototype was replaced; a parsed object is its own properties.
- SafetyRuns.CompensationRemovesOwnCommit: assumes that compensation is given records of the same run, which the source leaves to its caller.
- SafetyRuns.AtMostOnePullRequest: assumes that a pull request once opened stays on record, as the provider guarantees.
- IssuanceRuns.IssuanceCreatesOnce: assumes fewer than 64 listed candidates of each kind before the run, because more than 64
  make the evidence unreadable by design.
- IssueText.FieldRoundTripIff: is about normalized values; normalization itself is lossy by intent.
- Branch policy resolution, Epic routing, command tables, failure wording and the Canon shell would add only easy members.
