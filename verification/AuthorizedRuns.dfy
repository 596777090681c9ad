/**
 Whole runs at one gate: inputs are minted and executed in any order and any number of times, envelopes made elsewhere are
 tried, and delegates answer as they like. The journal then tells exactly what minted mutations have done.
 */
module AuthorizedRuns {
  import opened Wrappers
  import opened Change
  import opened Projection
  import opened AuthorizedExecution
  import BranchNaming

  ghost predicate Run(states: seq<GateState>, events: seq<Event>) {
    |states| == |events| + 1 && forall i :: 0 <= i < |events| ==> Next(states[i], events[i], states[i + 1])
  }

  /** An execution of an input that was minted here. */
  predicate MintedAttempt(s: GateState, e: Event) { e.Attempt? && e.input in s.issued }

  predicate MintedMutation(s: GateState, e: Event) { MintedAttempt(s, e) && IsMutation(e.input.content.action) }

  /** The calls an event adds to the journal. */
  function Contribution(s: GateState, e: Event): seq<Call> {
    if MintedAttempt(s, e) then RunContent(e.input.content, e.delegates).calls else []
  }

  // ---- the journal -------------------------------------------------------------------------

  function Contributions(states: seq<GateState>, events: seq<Event>, n: nat): seq<Call>
    requires n <= |events| && |states| == |events| + 1
  {
    if n == 0 then [] else Contributions(states, events, n - 1) + Contribution(states[n - 1], events[n - 1])
  }

  /** The journal is what minted executions called, in order: an envelope from elsewhere leaves no trace in it. */
  lemma {:induction false} JournalIsMintedCalls(states: seq<GateState>, events: seq<Event>, n: nat)
    requires Run(states, events) && n <= |events|
    ensures states[n].calls == states[0].calls + Contributions(states, events, n)
  {
    if n == 0 {
      assert states[0].calls + [] == states[0].calls;
    } else {
      JournalIsMintedCalls(states, events, n - 1);
      assert Next(states[n - 1], events[n - 1], states[n]);
      hide RunContent;
      var before, added := Contributions(states, events, n - 1), Contribution(states[n - 1], events[n - 1]);
      assert states[0].calls + (before + added) == states[0].calls + before + added;
      assert states[n - 1].calls + [] == states[n - 1].calls;
    }
  }

  /** Minted here: from the start, or by an event of the run. */
  lemma {:induction false} IssuedMeansMinted(states: seq<GateState>, events: seq<Event>, n: nat, x: Envelope)
    requires Run(states, events) && n <= |events|
    ensures x in states[n].issued <==>
      x in states[0].issued || exists k :: 0 <= k < n && events[k].Minting? && events[k].minted == Some(x)
  {
    if n > 0 {
      IssuedMeansMinted(states, events, n - 1, x);
      hide Admissible, RunContent;
      assert Next(states[n - 1], events[n - 1], states[n]);
    }
  }

  /** An envelope that nobody minted at this gate is refused, reaches no delegate, and changes nothing at all. */
  lemma ForeignEnvelopeIsInert(states: seq<GateState>, events: seq<Event>, i: nat)
    requires Run(states, events) && i < |events| && events[i].Attempt? && events[i].input !in states[0].issued
    requires forall k :: 0 <= k < i && events[k].Minting? ==> events[k].minted != Some(events[i].input)
    ensures states[i + 1] == states[i] && events[i].result == NOT_MINTED && Contribution(states[i], events[i]) == []
  {
    hide RunContent;
    IssuedMeansMinted(states, events, i, events[i].input);
    assert Next(states[i], events[i], states[i + 1]);
  }

  // ---- executions -------------------------------------------------------------------------------

  /** The executor is there and the application identity, if any, is well-formed. */
  predicate Reaches(c: Content, d: Delegates) {
    PortInUse(d).Some? && (AppInUse(d).Some? ==> ValidApp(AppInUse(d).value))
  }

  lemma {:induction false} ExecutionsAdd(a: seq<Call>, b: seq<Call>)
    ensures Executions(a + b) == Executions(a) + Executions(b)
  {
    if a == [] {
      assert a + b == b;
    } else {
      assert (a + b)[1..] == a[1..] + b;
      ExecutionsAdd(a[1..], b);
    }
  }

  lemma ExecutionsOfRun(c: Content, d: Delegates)
    ensures Executions(RunContent(c, d).calls) == if IsMutation(c.action) && Reaches(c, d) then 1 else 0
  {
    Counted(RunContent(c, d).calls);
  }

  function ReachedMutations(states: seq<GateState>, events: seq<Event>, n: nat): nat
    requires n <= |events| && |states| == |events| + 1
  {
    if n == 0 then 0
    else ReachedMutations(states, events, n - 1)
         + if MintedMutation(states[n - 1], events[n - 1]) && Reaches(events[n - 1].input.content, events[n - 1].delegates) then 1 else 0
  }

  /** The executions in the journal are exactly the minted mutations that reached their executor, one each. */
  lemma {:induction false} ExecutionsAreMintedMutations(states: seq<GateState>, events: seq<Event>, n: nat)
    requires Run(states, events) && n <= |events|
    ensures Executions(states[n].calls) == Executions(states[0].calls) + ReachedMutations(states, events, n)
  {
    if n > 0 {
      ExecutionsAreMintedMutations(states, events, n - 1);
      JournalGrows(states, events, n - 1);
      hide RunContent, Reaches, Next;
      var s, e := states[n - 1], events[n - 1];
      ExecutionsAdd(s.calls, Contribution(s, e));
      if MintedAttempt(s, e) { ExecutionsOfRun(e.input.content, e.delegates); }
    }
  }

  lemma JournalGrows(states: seq<GateState>, events: seq<Event>, i: nat)
    requires Run(states, events) && i < |events|
    ensures states[i + 1].calls == states[i].calls + Contribution(states[i], events[i])
  {
    hide RunContent;
    assert Next(states[i], events[i], states[i + 1]);
    assert states[i].calls + [] == states[i].calls;
  }

  lemma {:induction false} JournalOnlyGrows(states: seq<GateState>, events: seq<Event>, i: nat, n: nat)
    requires Run(states, events) && i <= n <= |events|
    ensures states[i].calls <= states[n].calls
    decreases n
  {
    if i < n {
      JournalOnlyGrows(states, events, i, n - 1);
      JournalGrows(states, events, n - 1);
    }
  }

  /** A mutation of the run that was reported as succeeded. */
  predicate SucceededMutation(s: GateState, e: Event) { MintedMutation(s, e) && e.result.Succeeded? }

  /** The call pair at `p` is an execution of this input, followed at once by the reread of its Issue. */
  predicate PairAt(calls: seq<Call>, p: nat, c: Content) {
    p + 1 < |calls| && calls[p] == CallExecute(c.action, IssueOf(c)) && calls[p + 1] == CallRead(IssueOf(c))
  }

  /** Every reported success has its own adjacent execute-and-reread pair, written while that very event ran. */
  lemma SuccessOwnsPair(states: seq<GateState>, events: seq<Event>, i: nat, n: nat) returns (p: nat)
    requires Run(states, events) && i < n <= |events| && SucceededMutation(states[i], events[i])
    ensures |states[i].calls| <= p && p + 2 == |states[i + 1].calls| && PairAt(states[n].calls, p, events[i].input.content)
  {
    var c, d := events[i].input.content, events[i].delegates;
    assert Next(states[i], events[i], states[i + 1]);
    SuccessIsEarned(c, d);
    hide RunContent;
    JournalGrows(states, events, i);
    JournalOnlyGrows(states, events, i + 1, n);
    var added := RunContent(c, d).calls;
    p := |states[i].calls| + |added| - 2;
    assert states[i + 1].calls[p] == added[|added| - 2] && states[i + 1].calls[p + 1] == added[|added| - 1];
  }

  /** Two successes never share a call: the pair of the later one lies wholly behind that of the earlier one. */
  lemma SuccessesShareNothing(states: seq<GateState>, events: seq<Event>, i: nat, j: nat, n: nat) returns (p: nat, q: nat)
    requires Run(states, events) && i < j < n <= |events|
    requires SucceededMutation(states[i], events[i]) && SucceededMutation(states[j], events[j])
    ensures PairAt(states[n].calls, p, events[i].input.content) && PairAt(states[n].calls, q, events[j].input.content)
    ensures p + 1 < q
  {
    hide SucceededMutation, PairAt;
    p := SuccessOwnsPair(states, events, i, n);
    q := SuccessOwnsPair(states, events, j, n);
    JournalOnlyGrows(states, events, i + 1, j);
  }

  // ---- authority ------------------------------------------------------------------------------------

  /**
   At a gate that started empty every success, of whatever operation, goes back to an earlier admissible minting, names
   the Issue that minting was about, and carries verified provenance unless it only showed the Change.
   */
  lemma EverySuccessWasMinted(states: seq<GateState>, events: seq<Event>, i: nat) returns (k: nat)
    requires Run(states, events) && states[0].issued == {} && i < |events|
    requires events[i].Attempt? && events[i].result.Succeeded?
    ensures k < i && events[k].Minting? && events[k].minted == Some(events[i].input)
    ensures events[i].input.content == events[k].content && Admissible(events[k].content)
    ensures events[k].content.provenance.subject.issue == IssueOf(events[k].content)
    ensures events[k].content.action != ChangeShow ==> events[i].result.provenance.stage == Verified
    ensures IsMutation(events[k].content.action) ==> events[k].content.trusted.Some?
  {
    var x := events[i].input;
    IssuedMeansMinted(states, events, i, x);
    assert Next(states[i], events[i], states[i + 1]);
    k :| 0 <= k < i && events[k].Minting? && events[k].minted == Some(x);
    assert Next(states[k], events[k], states[k + 1]);
    MintedBindsOneIssue(x.content);
    if IsMutation(x.content.action) {
      SuccessIsEarned(x.content, events[i].delegates);
    } else if x.content.action == Publish {
      PublishSucceedsIff(x.content, events[i].delegates);
    } else if x.content.action == BranchAdvance {
      AdvanceSucceedsIff(x.content, events[i].delegates);
    }
  }

  /**
   Every success of a publication or a branch advance has its own call in the journal, made while that very event ran, and
   the delegate answered that call with a success.
   */
  lemma DelegatedSuccessOwnsCall(states: seq<GateState>, events: seq<Event>, i: nat, n: nat) returns (p: nat)
    requires Run(states, events) && i < n <= |events| && MintedAttempt(states[i], events[i]) && events[i].result.Succeeded?
    requires events[i].input.content.action in {Publish, BranchAdvance}
    ensures |states[i].calls| == p && p + 1 == |states[i + 1].calls| && p < |states[n].calls|
    ensures if events[i].input.content.action == Publish
            then states[n].calls[p] == CallPublish && PublicationAnswered(events[i].delegates)
            else states[n].calls[p] == CallAdvance && AdvanceAnswered(events[i].delegates)
  {
    var c, d := events[i].input.content, events[i].delegates;
    assert Next(states[i], events[i], states[i + 1]);
    if c.action == Publish { PublishSucceedsIff(c, d); } else { AdvanceSucceedsIff(c, d); }
    hide RunContent;
    JournalGrows(states, events, i);
    JournalOnlyGrows(states, events, i + 1, n);
    p := |states[i].calls|;
    assert states[i + 1].calls[p] == RunContent(c, d).calls[0];
  }

  /** A positive number in plain decimal. */
  ghost predicate Numeral(s: string) { exists n: nat :: n >= 1 && s == Decimal(n) }

  lemma NumeralIff(s: string)
    ensures DecimalId(s) <==> Numeral(s)
  {
    if DecimalId(s) {
      BranchNaming.CanonicalDigits(s);
      assert s == Decimal(BranchNaming.Number(s));
    }
    if n: nat :| n >= 1 && s == Decimal(n) { BranchNaming.DecimalNeverStartsZero(n); }
  }

  /** Whatever was executed or published with success names the application that did it, by two positive numbers. */
  lemma SuccessNamesApp(states: seq<GateState>, events: seq<Event>, i: nat)
    requires Run(states, events) && i < |events| && MintedAttempt(states[i], events[i]) && events[i].result.Succeeded?
    requires IsMutation(events[i].input.content.action) || events[i].input.content.action == Publish
    ensures events[i].result.provenance.app.Some?
    ensures var app := events[i].result.provenance.app.value; Numeral(app.appId) && Numeral(app.installationId)
  {
    hide DecimalId, Numeral;
    var c, d := events[i].input.content, events[i].delegates;
    assert Next(states[i], events[i], states[i + 1]);
    if IsMutation(c.action) { SuccessIsEarned(c, d); } else { PublishSucceedsIff(c, d); }
    NumeralIff(events[i].result.provenance.app.value.appId);
    NumeralIff(events[i].result.provenance.app.value.installationId);
  }

  /** An execution in the journal, at a gate that started empty, was paid for with a capability for that action on that Issue. */
  lemma {:induction false} ExecutionNeedsCapability(states: seq<GateState>, events: seq<Event>, n: nat, p: nat) returns (k: nat)
    requires Run(states, events) && states[0] == GateState({}, []) && n <= |events|
    requires p < |states[n].calls| && states[n].calls[p].CallExecute?
    ensures k < n && events[k].Minting? && events[k].minted.Some? && Admissible(events[k].content)
    ensures Admits(events[k].content.capability, states[n].calls[p].action, states[n].calls[p].issue)
    ensures events[k].content.capability !in {Implement(states[n].calls[p].issue)} || states[n].calls[p].action == ChangeIssue
  {
    JournalGrows(states, events, n - 1);
    if p < |states[n - 1].calls| {
      k := ExecutionNeedsCapability(states, events, n - 1, p);
    } else {
      var x, d := events[n - 1].input, events[n - 1].delegates;
      IssuedMeansMinted(states, events, n - 1, x);
      k :| 0 <= k < n - 1 && events[k].Minting? && events[k].minted == Some(x);
      assert Next(states[k], events[k], states[k + 1]);
      MintedBindsOneIssue(x.content);
      CallsAreOwn(x.content, d, p - |states[n - 1].calls|);
    }
  }

  lemma CallsAreOwn(c: Content, d: Delegates, q: nat)
    requires q < |RunContent(c, d).calls| && RunContent(c, d).calls[q].CallExecute?
    ensures RunContent(c, d).calls[q] == CallExecute(c.action, IssueOf(c)) && IsMutation(c.action)
  {
  }
}
