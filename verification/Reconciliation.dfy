/**
 Reconcile one artifact with its governing template: observe, decide, update once, and verify by
 rereading. Every report says whether an effect may have happened and whether a retry is safe.
 */
module Reconciliation {
  import opened Characters
  import opened Wrappers
  import Coverage

  datatype Domain = IssueDomain | PullRequestDomain

  datatype Request = Request(domain: Domain, number: nat)

  // ---- what a read tells ------------------------------------------------------------------------

  datatype Section = Section(id: string, isInput: bool)

  datatype Contract = Contract(path: string, semanticSource: Option<string>, sections: seq<Section>)

  datatype Marker = Marker(domain: Domain, path: string)

  datatype DependencyMarker = NoDependencies | ValidDependencies | MalformedDependencies | UnsupportedDependencies

  datatype Diagnostic = Diagnostic(wrongTemplate: bool, path: string)

  datatype Recovered = Recovered(coverage: Coverage.Coverage, diagnostics: seq<Diagnostic>)

  datatype GovernanceFailure = SourceUnavailable | OtherGovernanceFailure

  /** `parsed` is the only part a marked recovery replaces. */
  datatype Reading = Reading(
    contract: Option<Contract>, marker: Option<Marker>, dependencies: DependencyMarker, inferred: bool, parsed: bool,
    governance: seq<GovernanceFailure>, recovered: Recovered, body: string)

  datatype Error = Adapter(code: string, kindMismatch: bool) | Stale | Governance(code: string, transient: bool) | Missing | Unknown

  datatype ReadAnswer = ReadOk(reading: Reading) | ReadError(error: Error)

  // ---- the rules that read, prepare and compare artifacts, whatever they are --------------------------

  datatype Routing = NothingToDo | Normalize | SelectTemplate | ManualReview(reason: string) | OtherRouting

  datatype Prepared = Prepared(body: string)

  datatype Diff = Diff(changed: bool, semantic: bool)

  datatype Rules = Rules(
    route: (Domain, Reading) -> Routing,
    prepare: (Domain, Reading) -> Option<Prepared>,
    admits: (Domain, Reading) -> bool,
    diff: (Domain, Reading, Prepared) -> Diff,
    current: (Domain, Reading) -> bool)

  // ---- results ------------------------------------------------------------------------------------------

  datatype Outcome = Unchanged | Reconciled | Blocked | SafePreEffectRetry | PossibleEffectAmbiguity

  datatype EffectReport = NotStarted | Applied | Possible

  datatype Retry = NoRetry | SafeRetry | FreshObservation

  datatype Result =
    | Report(outcome: Outcome, effect: EffectReport, retry: Retry)
    | Thrown          // an error that is not classified is raised again

  const UNCHANGED := Report(Unchanged, NotStarted, NoRetry)
  const BLOCKED := Report(Blocked, NotStarted, NoRetry)
  const SAFE_RETRY := Report(SafePreEffectRetry, NotStarted, SafeRetry)
  const RECONCILED := Report(Reconciled, Applied, NoRetry)

  function Ambiguous(effect: EffectReport): Result { Report(PossibleEffectAmbiguity, effect, FreshObservation) }

  // ---- deciding ---------------------------------------------------------------------------------------------

  predicate HasMarker(domain: Domain, r: Reading) {
    && r.contract.Some? && r.marker.Some? && r.marker.value.domain == domain
    && (r.marker.value.path == r.contract.value.path || Some(r.marker.value.path) == r.contract.value.semanticSource)
  }

  predicate Inferred(r: Reading) { r.inferred && r.parsed && r.contract.Some? }

  const SECTION_PATH := "$.sections."

  predicate IdChar(c: char) { 'A' <= c <= 'Z' || 'a' <= c <= 'z' || '0' <= c <= '9' || c == '_' || c == '-' }

  function SectionOf(path: string): Option<string> {
    if |path| > |SECTION_PATH| && path[..|SECTION_PATH|] == SECTION_PATH
       && forall i :: |SECTION_PATH| <= i < |path| ==> IdChar(path[i])
    then Some(path[|SECTION_PATH|..])
    else None
  }

  /** The first section of that id is an input section. */
  predicate InputSection(sections: seq<Section>, id: string) {
    sections != [] && if sections[0].id == id then sections[0].isInput else InputSection(sections[1..], id)
  }

  predicate DiagnosticAdmitted(c: Contract, d: Diagnostic) {
    d.wrongTemplate && SectionOf(d.path).Some? && InputSection(c.sections, SectionOf(d.path).value)
  }

  predicate DiagnosticsAdmitted(c: Contract, diagnostics: seq<Diagnostic>) {
    diagnostics != [] && forall i :: 0 <= i < |diagnostics| ==> DiagnosticAdmitted(c, diagnostics[i])
  }

  predicate CoverageAdmitted(c: Coverage.Coverage) { c.complete && c.unmatchedLineCount == 0 && !c.truncated }

  datatype MarkedRecovery = NotApplicable | RecoveryBlocked | RecoveredRead(reading: Reading)

  /** A marked but unparseable artifact is recovered only when every line is accounted for and no meaning is lost. */
  function RecoverMarked(rules: Rules, domain: Domain, r: Reading): MarkedRecovery {
    if r.parsed || r.contract.None? || !HasMarker(domain, r) then NotApplicable
    else if domain == IssueDomain && r.dependencies in {MalformedDependencies, UnsupportedDependencies} then RecoveryBlocked
    else if !CoverageAdmitted(r.recovered.coverage) then RecoveryBlocked
    else if !DiagnosticsAdmitted(r.contract.value, r.recovered.diagnostics) then RecoveryBlocked
    else
      var candidate := r.(parsed := true);
      if !rules.admits(domain, candidate) || rules.prepare(domain, candidate).None? then RecoveryBlocked
      else if rules.diff(domain, candidate, rules.prepare(domain, candidate).value).semantic then RecoveryBlocked
      else RecoveredRead(candidate)
  }

  /** Failures in front of the effect: transient ones may be retried safely. */
  function PreEffectFailure(e: Error): Result {
    match e
    case Adapter(_, _) => SAFE_RETRY
    case Stale => SAFE_RETRY
    case Governance(_, transient) => if transient then SAFE_RETRY else BLOCKED
    case _ => Thrown
  }

  datatype Decision = Done(result: Result) | Send(prepared: Prepared)

  function DecideRouting(rules: Rules, domain: Domain, r: Reading, freshness: Option<Error>): Decision {
    var routing := rules.route(domain, r);
    if routing == NothingToDo then Done(UNCHANGED)
    else if routing != Normalize || r.contract.None? then Done(BLOCKED)
    else
      match rules.prepare(domain, r)
      case None => Done(BLOCKED)
      case Some(prepared) =>
        var diff := rules.diff(domain, r, prepared);
        if diff.semantic then Done(BLOCKED)
        else if !diff.changed then Done(UNCHANGED)
        else if freshness.Some? then Done(PreEffectFailure(freshness.value))
        else Send(prepared)
  }

  /** Everything in front of the update. */
  function Decide(rules: Rules, domain: Domain, first: ReadAnswer, freshness: Option<Error>): Decision {
    match first
    case ReadError(e) => Done(if e == Missing then BLOCKED else PreEffectFailure(e))
    case ReadOk(r) =>
      if SourceUnavailable in r.governance && !HasMarker(domain, r) then Done(SAFE_RETRY)
      else if r.governance != [] && !HasMarker(domain, r) && !Inferred(r) then Done(BLOCKED)
      else
        match RecoverMarked(rules, domain, r)
        case RecoveryBlocked => Done(BLOCKED)
        case RecoveredRead(recovered) => DecideRouting(rules, domain, recovered, freshness)
        case NotApplicable => DecideRouting(rules, domain, r, freshness)
  }

  // ---- effect and verification --------------------------------------------------------------------------------

  /** How the provider answers an update; a lost answer does not tell whether it landed. */
  datatype UpdateAnswer = Accepted | RefusedStale | RefusedKind | Lost(landed: bool)

  predicate Lands(a: UpdateAnswer) { a.Accepted? || (a.Lost? && a.landed) }

  predicate Verified(rules: Rules, domain: Domain, after: Reading, prepared: Prepared) {
    && (HasMarker(domain, after) || Inferred(after)) && rules.route(domain, after) == NothingToDo
    && rules.current(domain, after) && after.contract.Some? && !rules.diff(domain, after, prepared).changed
  }

  function Conclude(rules: Rules, domain: Domain, prepared: Prepared, update: UpdateAnswer, second: ReadAnswer): Result {
    match update
    case RefusedStale => SAFE_RETRY
    case RefusedKind => BLOCKED
    case Lost(_) => Ambiguous(Possible)
    case Accepted =>
      if second.ReadOk? && Verified(rules, domain, second.reading, prepared) then RECONCILED else Ambiguous(Applied)
  }

  /** What the environment will answer, in the order in which it is asked. */
  datatype Environment = Environment(first: ReadAnswer, freshness: Option<Error>, update: UpdateAnswer, second: ReadAnswer)

  function Reconcile(rules: Rules, domain: Domain, env: Environment): Result {
    match Decide(rules, domain, env.first, env.freshness)
    case Done(result) => result
    case Send(prepared) => Conclude(rules, domain, prepared, env.update, env.second)
  }

  /** The remote artifact as a value: its body, the updates it was sent, and those that landed. */
  datatype Standing = Standing(body: string, sent: nat, landed: nat)

  /** What one execution leaves behind. */
  function After(rules: Rules, domain: Domain, s: Standing, env: Environment): Standing {
    match Decide(rules, domain, env.first, env.freshness)
    case Done(_) => s
    case Send(prepared) =>
      if Lands(env.update) then Standing(prepared.body, s.sent + 1, s.landed + 1) else s.(sent := s.sent + 1)
  }

  /** The artifact as it stands remotely, with the updates it was sent and those that landed. */
  class Remote {
    var body: string
    var sent: nat
    var landed: nat

    constructor (body: string)
      ensures this.body == body && sent == 0 && landed == 0
    {
      this.body, sent, landed := body, 0, 0;
    }

    method Update(prepared: Prepared, answer: UpdateAnswer)
      modifies this
      ensures sent == old(sent) + 1 && landed == old(landed) + (if Lands(answer) then 1 else 0)
      ensures body == if Lands(answer) then prepared.body else old(body)
    {
      sent := sent + 1;
      if Lands(answer) {
        body := prepared.body;
        landed := landed + 1;
      }
    }
  }

  /**
   Observe, decide, update, verify. At most one update is sent, and the report never claims less
   than what may have happened to the remote artifact.
   */
  method Execute(rules: Rules, request: Request, env: Environment, remote: Remote) returns (r: Result)
    modifies remote
    ensures r == Reconcile(rules, request.domain, env)
    ensures Standing(remote.body, remote.sent, remote.landed)
            == After(rules, request.domain, Standing(old(remote.body), old(remote.sent), old(remote.landed)), env)
  {
    var domain := request.domain;
    if env.first.ReadError? {
      if env.first.error == Missing { return BLOCKED; }
      return PreEffectFailure(env.first.error);
    }
    var read := env.first.reading;
    var marked := HasMarker(domain, read);
    if SourceUnavailable in read.governance && !marked { return SAFE_RETRY; }
    if read.governance != [] && !marked && !Inferred(read) { return BLOCKED; }
    var recovery := RecoverMarked(rules, domain, read);
    if recovery.RecoveryBlocked? { return BLOCKED; }
    if recovery.RecoveredRead? { read := recovery.reading; }
    var routing := rules.route(domain, read);
    if routing == NothingToDo { return UNCHANGED; }
    if routing != Normalize || read.contract.None? { return BLOCKED; }
    var prepared := rules.prepare(domain, read);
    if prepared.None? { return BLOCKED; }
    var diff := rules.diff(domain, read, prepared.value);
    if diff.semantic { return BLOCKED; }
    if !diff.changed { return UNCHANGED; }
    if env.freshness.Some? { return PreEffectFailure(env.freshness.value); }
    remote.Update(prepared.value, env.update);
    if env.update == RefusedStale { return SAFE_RETRY; }
    if env.update == RefusedKind { return BLOCKED; }
    if env.update.Lost? { return Ambiguous(Possible); }
    if env.second.ReadError? { return Ambiguous(Applied); }
    var after := env.second.reading;
    if !(HasMarker(domain, after) || Inferred(after)) || rules.route(domain, after) != NothingToDo
       || !rules.current(domain, after) || after.contract.None? || rules.diff(domain, after, prepared.value).changed {
      return Ambiguous(Applied);
    }
    r := RECONCILED;
  }

  // ---- theorems ----------------------------------------------------------------------------------------------------

  // What a reading is worth, said without the functions that decide.

  const ID_CHARS: set<char> := UPPER + LOWER + DIGITS + {'_', '-'}

  predicate IsMarked(domain: Domain, r: Reading) {
    r.contract.Some? && (|| r.marker == Some(Marker(domain, r.contract.value.path))
                         || (r.contract.value.semanticSource.Some? && r.marker == Some(Marker(domain, r.contract.value.semanticSource.value))))
  }

  /** The place of the section that carries an id first. */
  predicate FirstOfId(sections: seq<Section>, id: string, k: nat) {
    k < |sections| && sections[k].id == id && forall j :: 0 <= j < k ==> sections[j].id != id
  }

  /** A wrong-template diagnostic that names a section for which input is expected. */
  ghost predicate NamesInput(c: Contract, d: Diagnostic) {
    d.wrongTemplate && exists id: string, k: nat ::
      d.path == "$.sections." + id && IsId(id) && FirstOfId(c.sections, id, k) && c.sections[k].isInput
  }

  /** Every line is accounted for, nothing but misplaced input is complained about, and preparing it changes no meaning. */
  ghost predicate Recoverable(rules: Rules, domain: Domain, r: Reading, basis: Reading) {
    && (domain == PullRequestDomain || r.dependencies == NoDependencies || r.dependencies == ValidDependencies)
    && r.recovered.coverage.complete && r.recovered.coverage.unmatchedLineCount == 0 && !r.recovered.coverage.truncated
    && r.contract.Some? && r.recovered.diagnostics != []
    && (forall i :: 0 <= i < |r.recovered.diagnostics| ==> NamesInput(r.contract.value, r.recovered.diagnostics[i]))
    && rules.admits(domain, basis) && exists p :: rules.prepare(domain, basis) == Some(p) && !rules.diff(domain, basis, p).semantic
  }

  /** The reading that is acted on: the one that was read, or its recovery when it is marked and could not be parsed. */
  ghost predicate Usable(rules: Rules, domain: Domain, r: Reading, basis: Reading) {
    && (|| IsMarked(domain, r) || r.governance == []
        || (r.inferred && r.parsed && r.contract.Some? && SourceUnavailable !in r.governance))
    && if IsMarked(domain, r) && !r.parsed then basis == r.(parsed := true) && Recoverable(rules, domain, r, basis) else basis == r
  }

  predicate Transient(e: Error) { e.Adapter? || e.Stale? || (e.Governance? && e.transient) }

  predicate Unclassified(e: Error) { e.Missing? || e.Unknown? }

  /** The prepared body differs from the artifact, and not in what it means. */
  predicate UpdatePending(rules: Rules, domain: Domain, basis: Reading, prepared: Prepared) {
    && rules.route(domain, basis) == Normalize && basis.contract.Some?
    && rules.prepare(domain, basis) == Some(prepared) && rules.diff(domain, basis, prepared) == Diff(true, false)
  }

  /** There is nothing to do, or the prepared body equals the artifact. */
  ghost predicate NothingPending(rules: Rules, domain: Domain, basis: Reading) {
    || rules.route(domain, basis) == NothingToDo
    || (rules.route(domain, basis) == Normalize && basis.contract.Some?
        && exists p :: rules.prepare(domain, basis) == Some(p) && rules.diff(domain, basis, p) == Diff(false, false))
  }

  ghost predicate NeedsUpdate(rules: Rules, domain: Domain, r: Reading, prepared: Prepared) {
    exists basis :: Usable(rules, domain, r, basis) && UpdatePending(rules, domain, basis, prepared)
  }

  ghost predicate NeedsNothing(rules: Rules, domain: Domain, r: Reading) {
    exists basis :: Usable(rules, domain, r, basis) && NothingPending(rules, domain, basis)
  }

  lemma MarkedIff(domain: Domain, r: Reading)
    ensures IsMarked(domain, r) <==> HasMarker(domain, r)
  {
  }

  lemma IdCharIff(c: char)
    ensures IdChar(c) <==> c in ID_CHARS
  {
    hide UPPER, LOWER, DIGITS;
    InUpper(c);
    InLower(c);
    InDigits(c);
  }

  lemma {:induction false} InputSectionIff(sections: seq<Section>, id: string)
    ensures InputSection(sections, id) <==> exists k: nat :: FirstOfId(sections, id, k) && sections[k].isInput
    decreases |sections|
  {
    if sections == [] {
    } else if sections[0].id == id {
      assert FirstOfId(sections, id, 0);
      assert forall k: nat :: FirstOfId(sections, id, k) ==> k == 0;
    } else {
      InputSectionIff(sections[1..], id);
      forall k: nat ensures FirstOfId(sections, id, k + 1) <==> FirstOfId(sections[1..], id, k) {
        if FirstOfId(sections[1..], id, k) {
          forall j | 0 <= j < k + 1 ensures sections[j].id != id { if j > 0 { assert sections[j] == sections[1..][j - 1]; } }
        }
        if FirstOfId(sections, id, k + 1) {
          forall j | 0 <= j < k ensures sections[1..][j].id != id { assert sections[1..][j] == sections[j + 1]; }
        }
      }
      if k: nat :| FirstOfId(sections, id, k) && sections[k].isInput {
        assert k > 0;
        assert FirstOfId(sections, id, (k - 1) + 1);
        assert sections[1..][k - 1] == sections[k];
      }
      if k: nat :| FirstOfId(sections[1..], id, k) && sections[1..][k].isInput {
        assert FirstOfId(sections, id, k + 1) && sections[k + 1].isInput;
      }
    }
  }

  predicate IsId(id: string) { id != [] && forall i :: 0 <= i < |id| ==> id[i] in ID_CHARS }

  lemma SectionOfIs(path: string, id: string)
    ensures SectionOf(path) == Some(id) <==> path == "$.sections." + id && IsId(id)
  {
    hide IdChar, ID_CHARS;
    assert |SECTION_PATH| == 11;
    if |path| > |SECTION_PATH| && path[..|SECTION_PATH|] == SECTION_PATH { assert path == SECTION_PATH + path[|SECTION_PATH|..]; }
    if path == SECTION_PATH + id {
      assert path[..|SECTION_PATH|] == SECTION_PATH && path[|SECTION_PATH|..] == id;
      forall i | 0 <= i < |id| ensures id[i] == path[|SECTION_PATH| + i] && (IdChar(id[i]) <==> id[i] in ID_CHARS) { IdCharIff(id[i]); }
      assert forall i :: |SECTION_PATH| <= i < |path| ==> path[i] == id[i - |SECTION_PATH|];
    }
  }

  lemma NamesInputIff(c: Contract, d: Diagnostic)
    ensures NamesInput(c, d) <==> DiagnosticAdmitted(c, d)
  {
    hide SectionOf, InputSection, FirstOfId, IsId;
    var section := SectionOf(d.path);
    if section.Some? {
      SectionOfIs(d.path, section.value);
      InputSectionIff(c.sections, section.value);
    }
    forall id: string | d.path == "$.sections." + id && IsId(id) ensures section == Some(id) { SectionOfIs(d.path, id); }
  }

  lemma AllNameInputIff(c: Contract, diagnostics: seq<Diagnostic>)
    ensures DiagnosticsAdmitted(c, diagnostics) <==>
      diagnostics != [] && forall i :: 0 <= i < |diagnostics| ==> NamesInput(c, diagnostics[i])
  {
    hide NamesInput, DiagnosticAdmitted;
    forall i | 0 <= i < |diagnostics| ensures NamesInput(c, diagnostics[i]) <==> DiagnosticAdmitted(c, diagnostics[i]) {
      NamesInputIff(c, diagnostics[i]);
    }
  }

  lemma RecoverableIff(rules: Rules, domain: Domain, r: Reading)
    requires IsMarked(domain, r) && !r.parsed
    ensures var recovery := RecoverMarked(rules, domain, r);
      if Recoverable(rules, domain, r, r.(parsed := true)) then recovery == RecoveredRead(r.(parsed := true)) else recovery == RecoveryBlocked
  {
    hide NamesInput, DiagnosticsAdmitted, HasMarker;
    MarkedIff(domain, r);
    if r.contract.Some? { AllNameInputIff(r.contract.value, r.recovered.diagnostics); }
  }

  /** The decision on a reading, in terms of the reading that is acted on. */
  lemma DecisionOn(rules: Rules, domain: Domain, r: Reading, basis: Reading, freshness: Option<Error>)
    ensures Usable(rules, domain, r, basis) ==>
      Decide(rules, domain, ReadOk(r), freshness) == DecideRouting(rules, domain, basis, freshness)
    ensures (forall b :: !Usable(rules, domain, r, b)) ==>
      Decide(rules, domain, ReadOk(r), freshness)
      == Done(if SourceUnavailable in r.governance && !IsMarked(domain, r) then SAFE_RETRY else BLOCKED)
  {
    hide Recoverable, HasMarker, IsMarked, RecoverMarked, DecideRouting;
    MarkedIff(domain, r);
    if IsMarked(domain, r) && !r.parsed {
      RecoverableIff(rules, domain, r);
      assert Usable(rules, domain, r, r.(parsed := true)) <==> Recoverable(rules, domain, r, r.(parsed := true));
    } else {
      NoRecovery(rules, domain, r);
      assert (IsMarked(domain, r) || r.governance == []
        || (r.inferred && r.parsed && r.contract.Some? && SourceUnavailable !in r.governance)) ==> Usable(rules, domain, r, r);
    }
  }

  lemma NoRecovery(rules: Rules, domain: Domain, r: Reading)
    requires !IsMarked(domain, r) || r.parsed
    ensures RecoverMarked(rules, domain, r) == NotApplicable
  {
  }

  lemma UsableIsOne(rules: Rules, domain: Domain, r: Reading, a: Reading, b: Reading)
    requires Usable(rules, domain, r, a) && Usable(rules, domain, r, b)
    ensures a == b
  {
  }

  lemma SourceIsRead(rules: Rules, domain: Domain, r: Reading, basis: Reading)
    requires Usable(rules, domain, r, basis)
    ensures IsMarked(domain, r) || SourceUnavailable !in r.governance
  {
  }

  lemma RoutingMeans(rules: Rules, domain: Domain, basis: Reading, freshness: Option<Error>)
    ensures var d, pending := DecideRouting(rules, domain, basis, freshness), exists p :: UpdatePending(rules, domain, basis, p);
      && (forall p :: d == Send(p) <==> freshness.None? && UpdatePending(rules, domain, basis, p))
      && (d == Done(UNCHANGED) <==> NothingPending(rules, domain, basis))
      && (d == Done(SAFE_RETRY) <==> freshness.Some? && Transient(freshness.value) && pending)
      && (d == Done(Thrown) <==> freshness.Some? && Unclassified(freshness.value) && pending)
      && (d.Send? || d in {Done(UNCHANGED), Done(SAFE_RETRY), Done(Thrown), Done(BLOCKED)})
  {
    var prepared := rules.prepare(domain, basis);
    assert forall p :: UpdatePending(rules, domain, basis, p) ==> prepared == Some(p);
    if prepared.Some? && UpdatePending(rules, domain, basis, prepared.value) {
      assert exists p :: UpdatePending(rules, domain, basis, p);
    }
  }

  /** When an update is sent, and what is sent. */
  lemma SendIff(rules: Rules, domain: Domain, env: Environment, prepared: Prepared)
    ensures Decide(rules, domain, env.first, env.freshness) == Send(prepared) <==>
      env.first.ReadOk? && NeedsUpdate(rules, domain, env.first.reading, prepared) && env.freshness.None?
  {
    hide Usable, Decide, DecideRouting, UpdatePending;
    if env.first.ReadError? {
      ErrorDecision(rules, domain, env.first.error, env.freshness);
    } else {
      var r := env.first.reading;
      if basis :| Usable(rules, domain, r, basis) {
        DecisionOn(rules, domain, r, basis, env.freshness);
        RoutingMeans(rules, domain, basis, env.freshness);
        forall b | Usable(rules, domain, r, b) ensures b == basis { UsableIsOne(rules, domain, r, b, basis); }
      } else {
        DecisionOn(rules, domain, r, r, env.freshness);
      }
    }
  }

  lemma ErrorDecision(rules: Rules, domain: Domain, e: Error, freshness: Option<Error>)
    ensures Decide(rules, domain, ReadError(e), freshness)
      == Done(if Transient(e) then SAFE_RETRY else if e == Unknown then Thrown else BLOCKED)
  {
  }

  /** Unchanged, a safe retry and a rethrown error in front of the update, each exactly; everything else that sends nothing is blocked. */
  lemma DecisionMeans(rules: Rules, domain: Domain, first: ReadAnswer, freshness: Option<Error>)
    ensures var d := Decide(rules, domain, first, freshness);
      && (d == Done(UNCHANGED) <==> first.ReadOk? && NeedsNothing(rules, domain, first.reading))
      && (d == Done(SAFE_RETRY) <==>
            if first.ReadError? then Transient(first.error)
            else || (SourceUnavailable in first.reading.governance && !IsMarked(domain, first.reading))
                 || (freshness.Some? && Transient(freshness.value) && exists p :: NeedsUpdate(rules, domain, first.reading, p)))
      && (d == Done(Thrown) <==>
            if first.ReadError? then first.error == Unknown
            else freshness.Some? && Unclassified(freshness.value) && exists p :: NeedsUpdate(rules, domain, first.reading, p))
      && (d.Send? || d in {Done(UNCHANGED), Done(SAFE_RETRY), Done(Thrown), Done(BLOCKED)})
  {
    hide Usable, Decide, DecideRouting, UpdatePending, NothingPending;
    if first.ReadError? {
      ErrorDecision(rules, domain, first.error, freshness);
    } else {
      var r := first.reading;
      if basis :| Usable(rules, domain, r, basis) {
        DecisionOn(rules, domain, r, basis, freshness);
        forall b | Usable(rules, domain, r, b) ensures b == basis { UsableIsOne(rules, domain, r, b, basis); }
        SourceIsRead(rules, domain, r, basis);
        RoutingMeans(rules, domain, basis, freshness);
        assert forall p :: NeedsUpdate(rules, domain, r, p) <==> UpdatePending(rules, domain, basis, p);
      } else {
        DecisionOn(rules, domain, r, r, freshness);
      }
    }
  }

  /** Nothing that is decided in front of the update reports an effect. */
  lemma DecisionsReportNoEffect(rules: Rules, domain: Domain, first: ReadAnswer, freshness: Option<Error>)
    ensures var d := Decide(rules, domain, first, freshness);
      d.Done? ==> d.result == Thrown || (d.result.effect == NotStarted && d.result.outcome in {Unchanged, Blocked, SafePreEffectRetry})
  {
  }

  predicate Sent(rules: Rules, domain: Domain, env: Environment) { Decide(rules, domain, env.first, env.freshness).Send? }

  /**
   Effect accounting. An effect is reported as not started exactly when no update was sent or the provider refused
   it before the effect; as applied exactly when an update was accepted; and as possible exactly when its answer was lost.
   */
  lemma EffectIsAccounted(rules: Rules, domain: Domain, env: Environment)
    ensures var r, sent := Reconcile(rules, domain, env), Sent(rules, domain, env);
      r.Report? ==>
        && (r.effect == NotStarted <==> !sent || env.update in {RefusedStale, RefusedKind})
        && (r.effect == Applied <==> sent && env.update == Accepted)
        && (r.effect == Possible <==> sent && env.update.Lost?)
        && (sent && Lands(env.update) ==> r.effect != NotStarted)
    ensures Reconcile(rules, domain, env) == Thrown ==> !Sent(rules, domain, env)
  {
    DecisionsReportNoEffect(rules, domain, env.first, env.freshness);
  }

  /** A retry is called safe only when nothing started, and after any possible effect a fresh observation is demanded. */
  lemma RetryIsSound(rules: Rules, domain: Domain, env: Environment)
    ensures var r := Reconcile(rules, domain, env);
      r.Report? ==>
        && (r.retry == SafeRetry ==> r.effect == NotStarted && !(Sent(rules, domain, env) && Lands(env.update)))
        && (r.retry == FreshObservation <==> r.outcome == PossibleEffectAmbiguity)
        && (r.effect != NotStarted && r.outcome != Reconciled ==> r.retry == FreshObservation)
  {
    DecisionsReportNoEffect(rules, domain, env.first, env.freshness);
  }

  /** The artifact is governed, needs exactly this update, and is still fresh. */
  ghost predicate Calls(rules: Rules, domain: Domain, env: Environment, prepared: Prepared) {
    env.first.ReadOk? && env.freshness.None? && NeedsUpdate(rules, domain, env.first.reading, prepared)
  }

  /** The effect was refused in front, by a failure that may pass. */
  ghost predicate FailsInFront(rules: Rules, domain: Domain, env: Environment) {
    if env.first.ReadError? then Transient(env.first.error)
    else
      || (SourceUnavailable in env.first.reading.governance && !IsMarked(domain, env.first.reading))
      || (env.freshness.Some? && Transient(env.freshness.value) && exists p :: NeedsUpdate(rules, domain, env.first.reading, p))
  }

  /**
   What each report means for the artifact and the answers that were received. Reconciled is left to ReconciledIff, and
   everything that is none of these is blocked.
   */
  lemma ReportMeans(rules: Rules, domain: Domain, env: Environment)
    ensures var r, called := Reconcile(rules, domain, env), exists p :: Calls(rules, domain, env, p);
      && (r == UNCHANGED <==> env.first.ReadOk? && NeedsNothing(rules, domain, env.first.reading))
      && (r == SAFE_RETRY <==> FailsInFront(rules, domain, env) || (called && env.update == RefusedStale))
      && (r == Thrown <==>
            if env.first.ReadError? then env.first.error == Unknown
            else env.freshness.Some? && Unclassified(env.freshness.value) && exists p :: NeedsUpdate(rules, domain, env.first.reading, p))
      && (r == Report(PossibleEffectAmbiguity, Possible, FreshObservation) <==> called && env.update.Lost?)
      && (r == Report(PossibleEffectAmbiguity, Applied, FreshObservation) <==> called && env.update == Accepted && r != RECONCILED)
      && (r in {UNCHANGED, SAFE_RETRY, Thrown, BLOCKED, RECONCILED} || r.outcome == PossibleEffectAmbiguity)
  {
    hide Decide, NeedsUpdate, NeedsNothing, Verified, IsMarked;
    DecisionMeans(rules, domain, env.first, env.freshness);
    forall p ensures Decide(rules, domain, env.first, env.freshness) == Send(p) <==> Calls(rules, domain, env, p) {
      SendIff(rules, domain, env, p);
    }
  }

  /**
   Reconciled means: an accepted update, and a reread that succeeded, whose template selection is governed, on which nothing is left
   to do, which is current, and which differs in nothing from what was prepared.
   */
  lemma ReconciledIff(rules: Rules, domain: Domain, env: Environment)
    ensures var d := Decide(rules, domain, env.first, env.freshness);
      Reconcile(rules, domain, env) == RECONCILED <==>
        && d.Send? && env.update == Accepted && env.second.ReadOk?
        && (HasMarker(domain, env.second.reading) || Inferred(env.second.reading)) && env.second.reading.contract.Some?
        && rules.route(domain, env.second.reading) == NothingToDo && rules.current(domain, env.second.reading)
        && !rules.diff(domain, env.second.reading, d.prepared).changed
    ensures Reconcile(rules, domain, env) == RECONCILED ==>
      Verified(rules, domain, env.second.reading, Decide(rules, domain, env.first, env.freshness).prepared)
  {
    DecisionsReportNoEffect(rules, domain, env.first, env.freshness);
  }

  /** What may be sent changes the artifact and keeps its meaning, as far as the difference rules see. */
  lemma SentIsSemanticallyNeutral(rules: Rules, domain: Domain, env: Environment)
    requires Sent(rules, domain, env)
    ensures env.first.ReadOk? && env.freshness.None?
    ensures var d, r := Decide(rules, domain, env.first, env.freshness), env.first.reading;
      && (HasMarker(domain, r) || Inferred(r) || r.governance == [])
      && exists basis :: (basis == r || (basis == r.(parsed := true) && CoverageAdmitted(r.recovered.coverage)))
           && rules.prepare(domain, basis) == Some(d.prepared) && rules.diff(domain, basis, d.prepared) == Diff(true, false)
  {
    var r := env.first.reading;
    var recovery := RecoverMarked(rules, domain, r);
    var basis := if recovery.RecoveredRead? then recovery.reading else r;
    assert rules.prepare(domain, basis) == Some(Decide(rules, domain, env.first, env.freshness).prepared);
  }

  lemma CompleteCoverageIsAdmitted(covered: seq<bool>, blank: seq<bool>, decoded: bool, c: Coverage.Coverage)
    requires |covered| == |blank| && Coverage.Exact(covered, blank, decoded, c)
    ensures CoverageAdmitted(c) <==> c.complete
    ensures CoverageAdmitted(c) ==> forall i :: 0 <= i < |covered| ==> covered[i] || blank[i]
  {
    var unmatched := Coverage.UnmatchedUpTo(covered, blank, |covered|);
    if c.complete {
      assert unmatched == {};
      forall i | 0 <= i < |covered| ensures covered[i] || blank[i] {
        assert i + 1 !in unmatched;
        assert Coverage.Unmatched(covered, blank, i + 1) <==> !covered[i] && !blank[i];
      }
    }
  }

  /** A recovered artifact has every non-blank source line accounted for, and no meaning changed. */
  lemma RecoveryLosesNothing(rules: Rules, domain: Domain, r: Reading, covered: seq<bool>, blank: seq<bool>, decoded: bool)
    requires RecoverMarked(rules, domain, r).RecoveredRead?
    requires |covered| == |blank| && Coverage.Exact(covered, blank, decoded, r.recovered.coverage)
    ensures decoded && forall i :: 0 <= i < |covered| ==> covered[i] || blank[i]
    ensures var candidate := RecoverMarked(rules, domain, r).reading;
      && candidate == r.(parsed := true) && rules.prepare(domain, candidate).Some?
      && !rules.diff(domain, candidate, rules.prepare(domain, candidate).value).semantic
    ensures HasMarker(domain, r) && DiagnosticsAdmitted(r.contract.value, r.recovered.diagnostics)
  {
    CompleteCoverageIsAdmitted(covered, blank, decoded, r.recovered.coverage);
  }

  // ---- sequences of executions on one artifact -------------------------------------------------------------------

  /** The standings a sequence of executions passes through. */
  function StandingAfter(rules: Rules, domain: Domain, s: Standing, envs: seq<Environment>, n: nat): Standing
    requires n <= |envs|
  {
    if n == 0 then s else After(rules, domain, StandingAfter(rules, domain, s, envs, n - 1), envs[n - 1])
  }

  function ReportOf(rules: Rules, domain: Domain, envs: seq<Environment>, i: nat): Result
    requires i < |envs|
  {
    Reconcile(rules, domain, envs[i])
  }

  predicate NoEffectReported(r: Result) { r == Thrown || r.effect == NotStarted }

  /** How many executions reported that an effect was applied or possible. */
  function EffectsReported(rules: Rules, domain: Domain, envs: seq<Environment>, n: nat): nat
    requires n <= |envs|
  {
    if n == 0 then 0
    else EffectsReported(rules, domain, envs, n - 1) + if NoEffectReported(ReportOf(rules, domain, envs, n - 1)) then 0 else 1
  }

  /** An execution that reports no effect leaves the artifact as it was. */
  lemma NoEffectNoChange(rules: Rules, domain: Domain, s: Standing, env: Environment)
    ensures var t := After(rules, domain, s, env);
      && t.landed <= s.landed + (if NoEffectReported(Reconcile(rules, domain, env)) then 0 else 1)
      && s.sent <= t.sent <= s.sent + 1 && t.landed - s.landed <= t.sent - s.sent && s.landed <= t.landed
      && (t.landed == s.landed ==> t.body == s.body)
  {
    EffectIsAccounted(rules, domain, env);
  }

  /**
   Over any sequence of executions, however their outcomes are handled, no landing goes unreported: updates that landed
   are at most those that were reported as applied or possible, and at most those that were sent.
   */
  lemma {:induction false} NoLandingGoesUnreported(rules: Rules, domain: Domain, s: Standing, envs: seq<Environment>, n: nat)
    requires n <= |envs|
    ensures var t := StandingAfter(rules, domain, s, envs, n);
      && s.landed <= t.landed <= s.landed + EffectsReported(rules, domain, envs, n)
      && t.landed - s.landed <= t.sent - s.sent <= n
      && (t.landed == s.landed ==> t.body == s.body)
  {
    if n > 0 {
      NoLandingGoesUnreported(rules, domain, s, envs, n - 1);
      NoEffectNoChange(rules, domain, StandingAfter(rules, domain, s, envs, n - 1), envs[n - 1]);
    }
  }

  /** Where no answer is lost the reports count the landings exactly. */
  lemma {:induction false} LandingsAreReportedExactly(rules: Rules, domain: Domain, s: Standing, envs: seq<Environment>, n: nat)
    requires n <= |envs| && forall i :: 0 <= i < |envs| ==> !envs[i].update.Lost?
    ensures StandingAfter(rules, domain, s, envs, n).landed == s.landed + EffectsReported(rules, domain, envs, n)
  {
    hide Reconcile, Decide;
    if n > 0 {
      LandingsAreReportedExactly(rules, domain, s, envs, n - 1);
      EffectIsAccounted(rules, domain, envs[n - 1]);
    }
  }

  /**
   Retrying only when told that it is safe lands at most one update, and up to the last execution the artifact is
   untouched; when the last report is reconciled the artifact is exactly what that execution prepared.
   */
  lemma {:induction false} SafeRetriesLandOnce(rules: Rules, domain: Domain, s: Standing, envs: seq<Environment>, n: nat)
    requires n <= |envs| && forall i :: 0 <= i < |envs| - 1 ==> Reconcile(rules, domain, envs[i]) == SAFE_RETRY
    ensures var t := StandingAfter(rules, domain, s, envs, n);
      && t.landed <= s.landed + (if n == |envs| > 0 then 1 else 0)
      && (n < |envs| ==> t.body == s.body)
      && (n == |envs| > 0 && ReportOf(rules, domain, envs, n - 1) == RECONCILED ==>
            && Decide(rules, domain, envs[n - 1].first, envs[n - 1].freshness).Send?
            && t.body == Decide(rules, domain, envs[n - 1].first, envs[n - 1].freshness).prepared.body
            && t.landed == s.landed + 1)
  {
    if n > 0 {
      SafeRetriesLandOnce(rules, domain, s, envs, n - 1);
      NoEffectNoChange(rules, domain, StandingAfter(rules, domain, s, envs, n - 1), envs[n - 1]);
      ReconciledIff(rules, domain, envs[n - 1]);
      NoLandingGoesUnreported(rules, domain, s, envs, n - 1);
      if n < |envs| { assert Reconcile(rules, domain, envs[n - 1]) == SAFE_RETRY; }
    }
  }

  /** A reader that reports what stands in the artifact, before and after the update, and no one else edits it. */
  ghost predicate HonestReads(rules: Rules, domain: Domain, s: Standing, envs: seq<Environment>, observe: string -> Reading) {
    forall i :: 0 <= i < |envs| ==>
      && envs[i].first == ReadOk(observe(StandingAfter(rules, domain, s, envs, i).body))
      && (envs[i].second.ReadOk? ==> envs[i].second == ReadOk(observe(StandingAfter(rules, domain, s, envs, i + 1).body)))
  }

  /** A reading that verified is one on which there is nothing to do. */
  lemma VerifiedIsSettled(rules: Rules, domain: Domain, r: Reading, prepared: Prepared, freshness: Option<Error>)
    requires Verified(rules, domain, r, prepared) && r.parsed && SourceUnavailable !in r.governance
    ensures Decide(rules, domain, ReadOk(r), freshness) == Done(UNCHANGED)
  {
  }

  /**
   Reconciled is final: with honest reads, every execution after a reconciled one reports unchanged, sends nothing
   and leaves the prepared body in place, as long as the reread artifact parsed and its governance source can be read.
   */
  lemma {:induction false} ReconciledIsFinal(rules: Rules, domain: Domain, s: Standing, envs: seq<Environment>,
                                             observe: string -> Reading, i: nat, n: nat)
    requires HonestReads(rules, domain, s, envs, observe) && i < n <= |envs|
    requires ReportOf(rules, domain, envs, i) == RECONCILED
    requires var r := observe(StandingAfter(rules, domain, s, envs, i + 1).body); r.parsed && SourceUnavailable !in r.governance
    ensures StandingAfter(rules, domain, s, envs, n) == StandingAfter(rules, domain, s, envs, i + 1)
    ensures n < |envs| ==> ReportOf(rules, domain, envs, n) == UNCHANGED
    decreases n
  {
    hide Decide, Verified, After, StandingAfter, Reconcile;
    if n > i + 1 {
      ReconciledIsFinal(rules, domain, s, envs, observe, i, n - 1);
      LastStep(rules, domain, s, envs, n);
      UnchangedChangesNothing(rules, domain, StandingAfter(rules, domain, s, envs, n - 1), envs[n - 1]);
    }
    if n < |envs| {
      SettledReading(rules, domain, s, envs, observe, i);
      VerifiedIsSettled(rules, domain, observe(StandingAfter(rules, domain, s, envs, i + 1).body),
                        Decide(rules, domain, envs[i].first, envs[i].freshness).prepared, envs[n].freshness);
      DoneIsReported(rules, domain, envs[n]);
    }
  }

  lemma LastStep(rules: Rules, domain: Domain, s: Standing, envs: seq<Environment>, n: nat)
    requires 0 < n <= |envs|
    ensures StandingAfter(rules, domain, s, envs, n) == After(rules, domain, StandingAfter(rules, domain, s, envs, n - 1), envs[n - 1])
  {
  }

  lemma DoneIsReported(rules: Rules, domain: Domain, env: Environment)
    ensures var d := Decide(rules, domain, env.first, env.freshness); d.Done? ==> Reconcile(rules, domain, env) == d.result
  {
  }

  lemma UnchangedChangesNothing(rules: Rules, domain: Domain, s: Standing, env: Environment)
    requires Reconcile(rules, domain, env) == UNCHANGED
    ensures After(rules, domain, s, env) == s
  {
    EffectIsAccounted(rules, domain, env);
    DecisionsReportNoEffect(rules, domain, env.first, env.freshness);
  }

  lemma SettledReading(rules: Rules, domain: Domain, s: Standing, envs: seq<Environment>, observe: string -> Reading, i: nat)
    requires HonestReads(rules, domain, s, envs, observe) && i < |envs| && ReportOf(rules, domain, envs, i) == RECONCILED
    ensures Decide(rules, domain, envs[i].first, envs[i].freshness).Send?
    ensures Verified(rules, domain, observe(StandingAfter(rules, domain, s, envs, i + 1).body),
                     Decide(rules, domain, envs[i].first, envs[i].freshness).prepared)
  {
    hide Decide, Verified, StandingAfter;
    ReconciledIff(rules, domain, envs[i]);
  }
}
