/**
 Capability execution: one primary request through the gateway, then, only where the
 decision allows it, a single verifier request that reviews the answer.
 */
module Executor {
  import opened Common
  import opened BudgetPolicy
  import opened Gateway

  datatype Band = Low | Medium | High

  datatype Signal = FromText(name: string) | VerifierRan | VerifierAgreed | VerifierDisagreed

  // What can be read off a response text: a confidence band with its signals, and a verifier's verdict.
  datatype Judge = Judge(score: Call -> (Band, seq<Signal>), disagrees: string -> bool)

  datatype CapabilityResult = CapabilityResult(answer: string, confidence: Band, signals: seq<Signal>)

  datatype Execution = Execution(result: Option<CapabilityResult>, calls: seq<Call>)

  // The providers' behaviour during one request.
  datatype World = World(catalog: map<ModelAlias, CatalogEntry>, adapters: set<Provider>, primary: Oracle, verifier: Oracle)
  {
    function RouteFor(blocked: set<Provider>): Route { Route(catalog, adapters, blocked) }
  }

  predicate ShouldVerify(decision: Decision, confidence: Band, capability: Capability) {
    && !decision.verifierMode.NoVerifier?
    && decision.verifierAlias.Some?
    && (decision.verifierMode.Always? || (confidence.Low? && capability in STEM_CAPABILITIES))
  }

  function PrimaryCalls(decision: Decision, blocked: set<Provider>, world: World): seq<Call>
    requires decision.alias.Some?
  {
    RunAliases(world.RouteFor(blocked), AliasList(decision.alias.value, decision.fallback), decision.maxAttempts, world.primary, [])
  }

  function VerifierCalls(decision: Decision, blocked: set<Provider>, world: World): seq<Call>
    requires decision.verifierAlias.Some?
  {
    RunAliases(world.RouteFor(blocked), [decision.verifierAlias.value], 1, world.verifier, [])
  }

  /** The band after review: disagreement always lowers it, agreement only lifts Low to Medium. */
  function Reviewed(confidence: Band, judge: Judge, verdict: Call): (Band, seq<Signal>) {
    if judge.disagrees(verdict.text) then (Low, [VerifierRan, VerifierDisagreed])
    else (if confidence.Low? then Medium else confidence, [VerifierRan, VerifierAgreed])
  }

  function Execute(decision: Decision, capability: Capability, blocked: set<Provider>, judge: Judge, world: World): Execution {
    if !decision.PermitsPaidCall() then Execution(None, [])
    else
      var calls := PrimaryCalls(decision, blocked, world);
      match Successful(calls)
      case None => Execution(None, calls)
      case Some(best) =>
        var (confidence, signals) := judge.score(best);
        if !ShouldVerify(decision, confidence, capability) then
          Execution(Some(CapabilityResult(best.text, confidence, signals)), calls)
        else
          var checks := VerifierCalls(decision, blocked, world);
          match Successful(checks)
          case None => Execution(Some(CapabilityResult(best.text, confidence, signals)), calls + checks)
          case Some(verdict) =>
            var (band, extra) := Reviewed(confidence, judge, verdict);
            Execution(Some(CapabilityResult(best.text, band, signals + extra)), calls + checks)
  }

  class CapabilityExecutor {
    var blocked: set<Provider>

    constructor ()
      ensures blocked == {}
    {
      blocked := {};
    }

    method Run(decision: Decision, capability: Capability, blockedProviders: set<Provider>, judge: Judge, world: World)
      returns (outcome: Execution)
      modifies this
      ensures outcome == Execute(decision, capability, blockedProviders, judge, world)
      ensures blocked == if decision.PermitsPaidCall() then blockedProviders else old(blocked)
    {
      if !decision.PermitsPaidCall() {
        return Execution(None, []);
      }
      blocked := blockedProviders;
      var aliases := AliasList(decision.alias.value, decision.fallback);
      var call, attempts := Invoke(world.RouteFor(blocked), aliases, decision.maxAttempts, world.primary);
      var calls := attempts;
      if call.None? {
        return Execution(None, calls);
      }
      var (confidence, signals) := judge.score(call.value);
      if ShouldVerify(decision, confidence, capability) {
        var verdict, checks := Verify(decision, world);
        calls := calls + checks;
        if verdict.Some? {
          signals := signals + [VerifierRan];
          if judge.disagrees(verdict.value.text) {
            signals := signals + [VerifierDisagreed];
            confidence := Low;
          } else {
            signals := signals + [VerifierAgreed];
            if confidence.Low? {
              confidence := Medium;
            }
          }
          assert signals == judge.score(call.value).1 + Reviewed(judge.score(call.value).0, judge, verdict.value).1;
        }
      }
      return Execution(Some(CapabilityResult(call.value.text, confidence, signals)), calls);
    }

    method Verify(decision: Decision, world: World) returns (verdict: Option<Call>, checks: seq<Call>)
      requires decision.verifierAlias.Some?
      ensures checks == VerifierCalls(decision, blocked, world)
      ensures verdict == Successful(checks)
    {
      verdict, checks := Invoke(world.RouteFor(blocked), [decision.verifierAlias.value], 1, world.verifier);
    }
  }

  function RowBudget(decision: Decision): nat {
    decision.maxAttempts + (if decision.verifierAlias.Some? then 1 else 0)
  }

  /** Every provider call a request can make: none unpermitted, none on a blocked vendor, at most one verifier call. */
  lemma ExecutionIsBounded(decision: Decision, capability: Capability, blocked: set<Provider>, judge: Judge, world: World)
    requires decision.maxAttempts >= 1
    ensures var e := Execute(decision, capability, blocked, judge, world);
            && (!decision.PermitsPaidCall() ==> e.calls == [] && e.result.None?)
            && |e.calls| <= RowBudget(decision)
            && forall i :: 0 <= i < |e.calls| ==> e.calls[i].provider !in blocked
  {
    if decision.PermitsPaidCall() {
      AttemptBudget(world.RouteFor(blocked), AliasList(decision.alias.value, decision.fallback), decision.maxAttempts, world.primary);
      if decision.verifierAlias.Some? {
        AttemptBudget(world.RouteFor(blocked), [decision.verifierAlias.value], 1, world.verifier);
      }
    }
  }

  /**
   A verifier reviews and never replaces: the answer is the primary's own text exactly when
   the primary succeeded, and only the band and the signals depend on the verifier.
   */
  lemma VerifierNeverReplacesTheAnswer(
    decision: Decision, capability: Capability, blocked: set<Provider>, judge: Judge, world: World, verifier: Oracle)
    ensures var e := Execute(decision, capability, blocked, judge, world);
            var other := Execute(decision, capability, blocked, judge, world.(verifier := verifier));
            && (e.result.Some? <==> decision.PermitsPaidCall() && Successful(PrimaryCalls(decision, blocked, world)).Some?)
            && (e.result.Some? ==> e.result.value.answer == Successful(PrimaryCalls(decision, blocked, world)).value.text)
            && (e.result.Some? <==> other.result.Some?)
            && (e.result.Some? ==> e.result.value.answer == other.result.value.answer)
            && (e.result.Some? && VerifierDisagreed in e.result.value.signals
                && VerifierDisagreed !in judge.score(Successful(PrimaryCalls(decision, blocked, world)).value).1
                ==> e.result.value.confidence == Low)
  {
    if decision.PermitsPaidCall() {
      assert PrimaryCalls(decision, blocked, world) == PrimaryCalls(decision, blocked, world.(verifier := verifier));
    }
  }

  /**
   When the verifier is called and what its verdict does: it is called once for an answer, always
   or where a STEM answer came with low confidence, as the decision says; disagreement leaves low
   confidence and agreement lifts low to medium, and nothing else ever changes the band.
   */
  lemma VerdictMovesTheBand(decision: Decision, capability: Capability, blocked: set<Provider>, judge: Judge, world: World)
    requires decision.PermitsPaidCall() && Successful(PrimaryCalls(decision, blocked, world)).Some?
    ensures var e := Execute(decision, capability, blocked, judge, world);
            var primary := PrimaryCalls(decision, blocked, world);
            var (band, signals) := judge.score(primary[|primary| - 1]);
            var asked := decision.verifierAlias.Some? && decision.verifierMode != NoVerifier
              && (decision.verifierMode == OnLowConfidence ==>
                    band == Low && capability in {Math, Physics, Chemistry, HomeworkSolve});
            && e.result.Some?
            && primary <= e.calls && |e.calls| <= |primary| + 1
            && (!(asked && Usable(world, blocked, decision.verifierAlias.value)) ==>
                  e.calls == primary && e.result.value.confidence == band && e.result.value.signals == signals)
            && (asked && Usable(world, blocked, decision.verifierAlias.value) ==>
                  && |e.calls| == |primary| + 1
                  && var verdict := e.calls[|primary|];
                     && verdict.alias == decision.verifierAlias.value && verdict.text == world.verifier(1).text
                     && (if verdict.error != NoError then e.result.value.confidence == band && e.result.value.signals == signals
                         else if judge.disagrees(verdict.text) then
                           e.result.value.confidence == Low && e.result.value.signals == signals + [VerifierRan, VerifierDisagreed]
                         else
                           && e.result.value.confidence == (if band == Low then Medium else band)
                           && e.result.value.signals == signals + [VerifierRan, VerifierAgreed]))
  {
    if decision.verifierAlias.Some? {
      OneAttempt(world.RouteFor(blocked), decision.verifierAlias.value, world.verifier);
    }
  }

  predicate Usable(world: World, blocked: set<Provider>, alias: ModelAlias) {
    world.RouteFor(blocked).Usable(alias)
  }
}
