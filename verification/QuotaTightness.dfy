/**
 How far the daily call limit really gives: the bound of `Quota` is attained, for every
 configuration, every limit and every number of requests in flight.
 */
module QuotaTightness {
  import opened Common
  import opened BudgetPolicy
  import opened Gateway
  import opened Executor
  import opened Quota

  // ---- worlds that bill what a decision allows ------------------------------------------

  function Catalog(entry: CatalogEntry): map<ModelAlias, CatalogEntry> {
    map[CheapText := entry, StandardTutor := entry, AdvancedReasoning := entry, VerifierPrimary := entry]
  }

  predicate CostsNothing(entry: CatalogEntry) {
    entry.inputRate == 0 && entry.outputRate == 0
  }

  const ANSWERED := ProviderResponse("x", 1, 1, NoError)
  const CUT_SHORT := ProviderResponse("", 1, 1, Timeout)

  // Every attempt answers; or the first one is billed and times out.
  function Plain(entry: CatalogEntry): World {
    World(Catalog(entry), {entry.provider}, (attempt: nat) => ANSWERED, (attempt: nat) => ANSWERED)
  }

  function Costly(entry: CatalogEntry): World {
    World(Catalog(entry), {entry.provider}, (attempt: nat) => if attempt == 1 then CUT_SHORT else ANSWERED, (attempt: nat) => ANSWERED)
  }

  const SURE := Judge((call: Call) => (High, []), (text: string) => false)
  const UNSURE := Judge((call: Call) => (Low, []), (text: string) => false)

  /** A decision as the policy takes it for a text request. */
  predicate Taken(d: Decision, capability: Capability) {
    && d.PermitsPaidCall() && d.alias.value in {CheapText, StandardTutor, AdvancedReasoning} && d.maxAttempts == 2
    && (d.fallback.Some? ==> d.fallback == Some(StandardTutor))
    && (d.verifierAlias.Some? ==> d.verifierAlias == Some(VerifierPrimary))
    && (d.verifierMode == if d.verifierAlias.Some? then OnLowConfidence else NoVerifier)
    && (d.verifierAlias.Some? ==> capability in STEM_CAPABILITIES)
  }

  lemma AnswersAtOnce(route: Route, aliases: seq<ModelAlias>, maxAttempts: nat, oracle: Oracle)
    requires |aliases| > 0 && route.Usable(aliases[0]) && oracle(1).error.NoError?
    ensures RunAliases(route, aliases, maxAttempts, oracle, [])
         == [ToCall(oracle(1), route.catalog[aliases[0]], aliases[0], 1)]
  {
    var entry, call := route.catalog[aliases[0]], ToCall(oracle(1), route.catalog[aliases[0]], aliases[0], 1);
    var ceiling := Max(1, maxAttempts - (|aliases| - 1));
    assert TryAlias(entry, aliases[0], ceiling, oracle, []) == [] + [call];
    assert Done([call]);
  }

  lemma AnswersSecond(route: Route, alias: ModelAlias, fallback: Option<ModelAlias>, oracle: Oracle)
    requires route.Usable(alias) && (fallback.Some? ==> route.Usable(fallback.value))
    requires oracle(1).error.Timeout? && oracle(2).error.NoError?
    ensures var last := if fallback.Some? then fallback.value else alias;
            RunAliases(route, AliasList(alias, fallback), 2, oracle, [])
            == [ToCall(oracle(1), route.catalog[alias], alias, 1), ToCall(oracle(2), route.catalog[last], last, 2)]
  {
    var first := ToCall(oracle(1), route.catalog[alias], alias, 1);
    var aliases := AliasList(alias, fallback);
    if fallback.Some? {
      var second := ToCall(oracle(2), route.catalog[fallback.value], fallback.value, 2);
      assert TryAlias(route.catalog[alias], alias, 1, oracle, [first]) == [first];
      assert TryAlias(route.catalog[alias], alias, 1, oracle, []) == [] + [first];
      assert aliases[1..] == [fallback.value];
      assert TryAlias(route.catalog[fallback.value], fallback.value, 2, oracle, [first]) == [first, second];
    } else {
      var second := ToCall(oracle(2), route.catalog[alias], alias, 2);
      assert TryAlias(route.catalog[alias], alias, 2, oracle, [first]) == [first, second];
      assert TryAlias(route.catalog[alias], alias, 2, oracle, []) == TryAlias(route.catalog[alias], alias, 2, oracle, [] + [first]);
    }
  }

  predicate Usual(alias: ModelAlias) {
    alias in {CheapText, StandardTutor, AdvancedReasoning, VerifierPrimary}
  }

  lemma UsualIsUsable(entry: CatalogEntry, alias: ModelAlias)
    requires Usual(alias)
    ensures Plain(entry).RouteFor({}).Usable(alias) && Costly(entry).RouteFor({}).Usable(alias) && Catalog(entry)[alias] == entry
  {
  }

  predicate FreeAndBilled(calls: seq<Call>) {
    forall i :: 0 <= i < |calls| ==> calls[i].cost == 0 && calls[i].Billed()
  }

  lemma FreeCall(entry: CatalogEntry, response: ProviderResponse, alias: ModelAlias, attempt: nat)
    requires CostsNothing(entry) && response.inputTokens == response.outputTokens == 1
    ensures var call := ToCall(response, entry, alias, attempt);
            call.cost == 0 && call.Billed() && call.error == response.error
  {
  }

  /** A request may be billed for one row only. */
  lemma PlainRequestBillsOne(entry: CatalogEntry, d: Decision, capability: Capability)
    requires CostsNothing(entry) && Taken(d, capability)
    ensures var calls := Execute(d, capability, {}, SURE, Plain(entry)).calls; |calls| == 1 && FreeAndBilled(calls)
  {
    UsualIsUsable(entry, d.alias.value);
    var route := Plain(entry).RouteFor({});
    AnswersAtOnce(route, AliasList(d.alias.value, d.fallback), 2, Plain(entry).primary);
    FreeCall(entry, ANSWERED, d.alias.value, 1);
    var call := ToCall(ANSWERED, entry, d.alias.value, 1);
    assert PrimaryCalls(d, {}, Plain(entry)) == [call];
    assert Successful([call]) == Some(call);
    assert !ShouldVerify(d, High, capability);
  }

  lemma CostlyPrimary(entry: CatalogEntry, d: Decision, capability: Capability)
    requires CostsNothing(entry) && Taken(d, capability)
    ensures var calls := PrimaryCalls(d, {}, Costly(entry)); |calls| == 2 && FreeAndBilled(calls) && Successful(calls) == Some(calls[1])
  {
    var last := if d.fallback.Some? then d.fallback.value else d.alias.value;
    UsualIsUsable(entry, d.alias.value);
    UsualIsUsable(entry, last);
    AnswersSecond(Costly(entry).RouteFor({}), d.alias.value, d.fallback, Costly(entry).primary);
    FreeCall(entry, CUT_SHORT, d.alias.value, 1);
    FreeCall(entry, ANSWERED, last, 2);
  }

  lemma CostlyVerifier(entry: CatalogEntry, d: Decision, capability: Capability)
    requires CostsNothing(entry) && Taken(d, capability) && d.verifierAlias.Some?
    ensures var calls := VerifierCalls(d, {}, Costly(entry)); |calls| == 1 && FreeAndBilled(calls)
  {
    UsualIsUsable(entry, VerifierPrimary);
    AnswersAtOnce(Costly(entry).RouteFor({}), [VerifierPrimary], 1, Costly(entry).verifier);
    FreeCall(entry, ANSWERED, VerifierPrimary, 1);
  }

  /** Every call of the primary request and, once it answered with low confidence, of the verifier is made. */
  lemma UnsureMakesAllCalls(d: Decision, capability: Capability, world: World)
    requires Taken(d, capability) && Successful(PrimaryCalls(d, {}, world)).Some?
    ensures Execute(d, capability, {}, UNSURE, world).calls
         == PrimaryCalls(d, {}, world) + if d.verifierAlias.Some? then VerifierCalls(d, {}, world) else []
  {
    assert ShouldVerify(d, Low, capability) <==> d.verifierAlias.Some?;
  }

  /** Whatever was decided, some providers' behaviour bills every row of the decision's budget. */
  lemma CostlyRequestBillsItsBudget(entry: CatalogEntry, d: Decision, capability: Capability)
    requires CostsNothing(entry) && Taken(d, capability)
    ensures var calls := Execute(d, capability, {}, UNSURE, Costly(entry)).calls; |calls| == RowBudget(d) && FreeAndBilled(calls)
  {
    CostlyPrimary(entry, d, capability);
    UnsureMakesAllCalls(d, capability, Costly(entry));
    if d.verifierAlias.Some? {
      CostlyVerifier(entry, d, capability);
    }
  }

  // ---- a ledger of one subject's free rows ------------------------------------------------

  predicate Free(ledger: seq<LedgerRow>, subject: SubjectId) {
    forall i :: 0 <= i < |ledger| ==>
      ledger[i].subject == subject && ledger[i].createdAt == 0 && ledger[i].call.cost == 0 && ledger[i].call.Billed()
  }

  lemma {:induction false} FreeReadings(m: Meter, ledger: seq<LedgerRow>, subject: SubjectId)
    requires Free(ledger, subject)
    ensures Reading(m, ledger, 0) == if m == DailyCalls(subject) then |ledger| else 0
  {
    if |ledger| > 0 {
      assert Free(ledger[1..], subject);
      FreeReadings(m, ledger[1..], subject);
      if m.DailyCalls? && m.subject != subject {
        assert ledger[0].subject == subject;
      }
    }
  }

  lemma {:induction false} FreeRows(calls: seq<Call>, subject: SubjectId, earlier: seq<LedgerRow>)
    requires FreeAndBilled(calls) && Free(earlier, subject)
    ensures Free(earlier + RowsOf(calls, subject, 0), subject)
    ensures |earlier + RowsOf(calls, subject, 0)| == |earlier| + |calls|
  {
  }

  // ---- the run that overshoots --------------------------------------------------------------

  ghost predicate Reaches(c: Config, m: Meter, k: nat, s: State) {
    exists trace: seq<State>, steps: seq<Step> :: IsRun(c, trace, steps) && AtMostInFlight(m, k, trace) && trace[|trace| - 1] == s
  }

  lemma InitIsReached(c: Config, m: Meter, k: nat)
    ensures Reaches(c, m, k, Init)
  {
    var trace, steps: seq<Step> := [Init], [];
    assert Pending(m, Init) == {};
    assert IsRun(c, trace, steps) && AtMostInFlight(m, k, trace);
  }

  lemma RunGrows(c: Config, trace: seq<State>, steps: seq<Step>, step: Step)
    requires IsRun(c, trace, steps) && Enabled(trace[|trace| - 1], step)
    ensures IsRun(c, trace + [Apply(c, trace[|trace| - 1], step)], steps + [step])
  {
    var next := Apply(c, trace[|trace| - 1], step);
    var longer, all := trace + [next], steps + [step];
    forall i | 0 <= i < |all| ensures Enabled(longer[i], all[i]) && longer[i + 1] == Apply(c, longer[i], all[i]) {
      if i < |steps| {
        assert longer[i] == trace[i] && longer[i + 1] == trace[i + 1] && all[i] == steps[i];
      } else {
        assert longer[i] == trace[|trace| - 1] && longer[i + 1] == next && all[i] == step;
      }
    }
  }

  lemma ReachesNext(c: Config, m: Meter, k: nat, s: State, step: Step)
    requires Reaches(c, m, k, s) && Enabled(s, step) && |Pending(m, Apply(c, s, step))| <= k
    ensures Reaches(c, m, k, Apply(c, s, step))
  {
    var trace: seq<State>, steps: seq<Step> :| IsRun(c, trace, steps) && AtMostInFlight(m, k, trace) && trace[|trace| - 1] == s;
    RunGrows(c, trace, steps, step);
    assert AtMostInFlight(m, k, trace + [Apply(c, s, step)]);
  }

  /** The dearest kind of request the plan lets through: one that will be verified, if any may be. */
  ghost function Chosen(plan: Plan): (r: (Capability, Difficulty))
    requires exists capability :: MayUse(plan, capability)
    ensures MayUse(plan, r.0)
    ensures if MayVerify(plan) then r.0 in STEM_CAPABILITIES && r.1.Advanced? else r.1.Simple?
  {
    if MayVerify(plan) then
      var capability :| capability in STEM_CAPABILITIES && MayUse(plan, capability);
      (capability, Advanced)
    else
      var capability :| MayUse(plan, capability);
      (capability, Simple)
  }

  ghost function Asked(c: Config, subject: SubjectId, id: RequestId): Step
    requires MayPay(c, subject)
  {
    var (capability, difficulty) := Chosen(c.plans(subject));
    Admit(id, subject, capability, difficulty, 0, true)
  }

  ghost function TheFlight(c: Config, subject: SubjectId): Flight
    requires MayPay(c, subject)
  {
    Flight(subject, Chosen(c.plans(subject)).0, SelectTier(Seen(c, Init, Asked(c, subject, 0))), {})
  }

  lemma FlightIsTaken(c: Config, subject: SubjectId)
    requires MayPay(c, subject)
    ensures var f := TheFlight(c, subject);
            Taken(f.decision, f.capability) && RowBudget(f.decision) == MostRows(c, subject)
  {
    var seen := Seen(c, Init, Asked(c, subject, 0));
    var d := SelectTier(seen);
    assert d.maxAttempts == 2 && !seen.highStakes;
  }

  /** Time stands still, and the ledger holds n free rows of the subject. */
  predicate Quiet(s: State, subject: SubjectId, n: nat) {
    s.now == 0 && Free(s.ledger, subject) && |s.ledger| == n
  }

  lemma NothingIsBlocked(c: Config, s: State, subject: SubjectId, n: nat, plan: Plan)
    requires Quiet(s, subject, n) && c.limits.failureCircuit >= 1 && !Reached(0, c.limits.providerDailyBudget)
    ensures LoadSnapshot(s.ledger, subject, 0, plan, c.limits).BlockedProviders(c.limits) == {}
  {
    var q := LoadSnapshot(s.ledger, subject, 0, plan, c.limits);
    forall p ensures p !in q.BlockedProviders(c.limits) {
      FreeReadings(ProviderDaily(p), s.ledger, subject);
      FreeReadings(ProviderFailures(p), s.ledger, subject);
    }
  }

  lemma QuietAdmits(c: Config, s: State, subject: SubjectId, n: nat, id: RequestId)
    requires MayPay(c, subject) && c.limits.failureCircuit >= 1
    requires Quiet(s, subject, n) && !Reached(n, c.plans(subject).dailyCallLimit) && id !in s.flights
    ensures Apply(c, s, Asked(c, subject, id)) == s.(flights := s.flights[id := TheFlight(c, subject)])
  {
    var step := Asked(c, subject, id);
    var seen := Seen(c, s, step);
    FreeReadings(DailyCalls(subject), s.ledger, subject);
    FreeReadings(DailySpend(subject), s.ledger, subject);
    FreeReadings(MonthlySpend(subject), s.ledger, subject);
    FreeReadings(SystemDaily, s.ledger, subject);
    FreeReadings(SystemHourly, s.ledger, subject);
    NothingIsBlocked(c, s, subject, n, c.plans(subject));
    PaidIffEveryGatePasses(seen);
    assert Decide(seen) == SelectTier(seen);
    assert SelectTier(seen) == SelectTier(Seen(c, Init, Asked(c, subject, 0)));
  }

  lemma QuietSettles(c: Config, s: State, subject: SubjectId, n: nat, id: RequestId, costly: bool) returns (step: Step)
    requires MayPay(c, subject) && Quiet(s, subject, n)
    requires id in s.flights && s.flights[id] == TheFlight(c, subject)
    ensures Enabled(s, step) && Apply(c, s, step).flights == s.flights - {id}
    ensures Quiet(Apply(c, s, step), subject, n + if costly then MostRows(c, subject) else 1)
  {
    var entry, f := CatalogEntry(OpenAI, "model", 0, 0), s.flights[id];
    FlightIsTaken(c, subject);
    if costly {
      step := Settle(id, UNSURE, Costly(entry));
      CostlyRequestBillsItsBudget(entry, f.decision, f.capability);
    } else {
      step := Settle(id, SURE, Plain(entry));
      PlainRequestBillsOne(entry, f.decision, f.capability);
    }
    FreeRows(Quota.Outcome(s, id, step.judge, step.world).calls, subject, s.ledger);
  }

  /** Exactly the flights numbered lo to hi - 1 are in the air, all of the chosen kind. */
  ghost predicate Airborne(c: Config, s: State, subject: SubjectId, lo: nat, hi: nat)
    requires MayPay(c, subject)
  {
    && lo <= hi
    && (forall id: nat :: id in s.flights <==> lo <= id < hi)
    && (forall id :: id in s.flights ==> s.flights[id] == TheFlight(c, subject))
  }

  lemma {:induction false} NumberedAreFew(ids: set<nat>, lo: nat, hi: nat)
    requires lo <= hi && forall id :: id in ids ==> lo <= id < hi
    ensures |ids| <= hi - lo
    decreases hi
  {
    if lo == hi {
      assert ids == {};
    } else {
      NumberedAreFew(ids - {hi - 1}, lo, hi - 1);
    }
  }

  lemma FewArePending(c: Config, m: Meter, s: State, subject: SubjectId, lo: nat, hi: nat)
    requires MayPay(c, subject) && Airborne(c, s, subject, lo, hi)
    ensures |Pending(m, s)| <= hi - lo
  {
    NumberedAreFew(Pending(m, s), lo, hi);
  }

  /** One request after the other brings the counter to any value below its limit. */
  lemma {:induction false} FillUp(c: Config, subject: SubjectId, k: nat, n: nat) returns (s: State)
    requires MayPay(c, subject) && c.limits.failureCircuit >= 1 && k >= 1
    requires c.plans(subject).dailyCallLimit.Some? && n < c.plans(subject).dailyCallLimit.value
    ensures Reaches(c, DailyCalls(subject), k, s) && Quiet(s, subject, n) && Airborne(c, s, subject, 0, 0)
  {
    var m := DailyCalls(subject);
    if n == 0 {
      InitIsReached(c, m, k);
      s := Init;
    } else {
      var before := FillUp(c, subject, k, n - 1);
      QuietAdmits(c, before, subject, n - 1, 0);
      var flying := Apply(c, before, Asked(c, subject, 0));
      FewArePending(c, m, flying, subject, 0, 1);
      ReachesNext(c, m, k, before, Asked(c, subject, 0));
      var step := QuietSettles(c, flying, subject, n - 1, 0, false);
      s := Apply(c, flying, step);
      FewArePending(c, m, s, subject, 0, 0);
      ReachesNext(c, m, k, flying, step);
    }
  }

  /** With the counter just below its limit, any number of requests is let through at once. */
  lemma {:induction false} TakeOff(c: Config, subject: SubjectId, k: nat, j: nat) returns (s: State)
    requires MayPay(c, subject) && c.limits.failureCircuit >= 1 && 1 <= k && j <= k
    requires c.plans(subject).dailyCallLimit.Some?
    ensures Reaches(c, DailyCalls(subject), k, s)
    ensures Quiet(s, subject, c.plans(subject).dailyCallLimit.value - 1) && Airborne(c, s, subject, 0, j)
  {
    var n, m := c.plans(subject).dailyCallLimit.value - 1, DailyCalls(subject);
    if j == 0 {
      s := FillUp(c, subject, k, n);
    } else {
      var before := TakeOff(c, subject, k, j - 1);
      QuietAdmits(c, before, subject, n, j - 1);
      s := Apply(c, before, Asked(c, subject, j - 1));
      FewArePending(c, m, s, subject, 0, j);
      ReachesNext(c, m, k, before, Asked(c, subject, j - 1));
    }
  }

  lemma OneMore(unit: nat, count: nat)
    requires count >= 1
    ensures unit * (count - 1) + unit == unit * count
  {
  }

  /** Each of them then lands with all the rows it may be billed for. */
  lemma {:induction false} TouchDown(c: Config, subject: SubjectId, k: nat, j: nat) returns (s: State)
    requires MayPay(c, subject) && c.limits.failureCircuit >= 1 && 1 <= k && j <= k
    requires c.plans(subject).dailyCallLimit.Some?
    ensures Reaches(c, DailyCalls(subject), k, s) && Airborne(c, s, subject, j, k)
    ensures Quiet(s, subject, c.plans(subject).dailyCallLimit.value - 1 + MostRows(c, subject) * j)
  {
    if j == 0 {
      s := TakeOff(c, subject, k, k);
    } else {
      var n := c.plans(subject).dailyCallLimit.value - 1 + MostRows(c, subject) * (j - 1);
      var before := TouchDown(c, subject, k, j - 1);
      var step := QuietSettles(c, before, subject, n, j - 1, true);
      OneMore(MostRows(c, subject), j);
      s := Apply(c, before, step);
      FewArePending(c, DailyCalls(subject), s, subject, j, k);
      ReachesNext(c, DailyCalls(subject), k, before, step);
    }
  }

  // ---- the exact bound -----------------------------------------------------------------------

  /** The counter stays within the bound in every state of every run with at most k requests in flight. */
  ghost predicate Bounded(c: Config, m: Meter, k: nat, bound: int) {
    forall trace: seq<State>, steps: seq<Step>, n: nat ::
      IsRun(c, trace, steps) && AtMostInFlight(m, k, trace) && n < |trace| ==> Reading(m, trace[n].ledger, trace[n].now) <= bound
  }

  /** The highest value the counter can take: nothing if nothing is let through, else limit - 1 and k times the most rows. */
  function Peak(c: Config, subject: SubjectId, k: nat): int
    requires c.plans(subject).dailyCallLimit.Some?
  {
    if k == 0 || !MayPay(c, subject) then 0
    else c.plans(subject).dailyCallLimit.value - 1 + MostRows(c, subject) * k
  }

  lemma {:induction false} IdleReadsNothing(c: Config, m: Meter, trace: seq<State>, steps: seq<Step>, n: nat)
    requires Gated(m) && IsRun(c, trace, steps) && n < |trace|
    requires forall i :: 0 <= i < |trace| ==> |Pending(m, trace[i])| == 0
    ensures Reading(m, trace[n].ledger, trace[n].now) == 0
  {
    if n > 0 {
      IdleReadsNothing(c, m, trace, steps, n - 1);
      var s, step := trace[n - 1], steps[n - 1];
      assert Enabled(s, step) && trace[n] == Apply(c, s, step);
      if step.Settle? {
        assert Pending(m, s) == {};
        SettledAddsItsShare(m, s, step.id, step.judge, step.world);
      } else if step.Tick? {
        ReadingFalls(m, s.ledger, s.now, step.to);
      }
    }
  }

  lemma NoneArePending(c: Config, subject: SubjectId, trace: seq<State>, steps: seq<Step>, n: nat)
    requires IsRun(c, trace, steps) && n < |trace| && !MayPay(c, subject)
    ensures |Pending(DailyCalls(subject), trace[n])| == 0
  {
    RunFits(c, trace, steps, n);
    assert Pending(DailyCalls(subject), trace[n]) == {};
  }

  lemma NeverAboveThePeak(c: Config, subject: SubjectId, k: nat, trace: seq<State>, steps: seq<Step>, n: nat)
    requires c.plans(subject).dailyCallLimit.Some?
    requires IsRun(c, trace, steps) && AtMostInFlight(DailyCalls(subject), k, trace) && n < |trace|
    ensures Reading(DailyCalls(subject), trace[n].ledger, trace[n].now) <= Peak(c, subject, k)
  {
    var m := DailyCalls(subject);
    if k == 0 || !MayPay(c, subject) {
      forall i | 0 <= i < |trace| ensures |Pending(m, trace[i])| == 0 {
        if !MayPay(c, subject) {
          NoneArePending(c, subject, trace, steps, i);
        }
      }
      IdleReadsNothing(c, m, trace, steps, n);
    } else {
      EveryRunIsShared(c, subject, trace, steps);
      LimitIsSoftByInFlight(c, m, k, MostRows(c, subject), trace, steps, n);
    }
  }

  lemma PeakIsReached(c: Config, subject: SubjectId, k: nat)
    requires c.plans(subject).dailyCallLimit.Some? && c.limits.failureCircuit >= 1
    ensures !Bounded(c, DailyCalls(subject), k, Peak(c, subject, k) - 1)
  {
    var m, s := DailyCalls(subject), Init;
    InitIsReached(c, m, k);
    if k > 0 && MayPay(c, subject) {
      s := TouchDown(c, subject, k, k);
      FreeReadings(m, s.ledger, subject);
    }
    var trace: seq<State>, steps: seq<Step> :| IsRun(c, trace, steps) && AtMostInFlight(m, k, trace) && trace[|trace| - 1] == s;
    assert Reading(m, trace[|trace| - 1].ledger, trace[|trace| - 1].now) == Peak(c, subject, k);
  }

  /**
   For every configuration, plan, limit and number of requests in flight, the daily call
   counter is bounded by a value if and only if that value is at least the peak.
   */
  lemma CallLimitIsExact(c: Config, subject: SubjectId, k: nat, bound: int)
    requires c.plans(subject).dailyCallLimit.Some? && c.limits.failureCircuit >= 1
    ensures Bounded(c, DailyCalls(subject), k, bound) <==> bound >= Peak(c, subject, k)
  {
    var m := DailyCalls(subject);
    if bound >= Peak(c, subject, k) {
      forall trace: seq<State>, steps: seq<Step>, n: nat | IsRun(c, trace, steps) && AtMostInFlight(m, k, trace) && n < |trace|
        ensures Reading(m, trace[n].ledger, trace[n].now) <= bound
      {
        NeverAboveThePeak(c, subject, k, trace, steps, n);
      }
    } else {
      PeakIsReached(c, subject, k);
      assert bound <= Peak(c, subject, k) - 1;
    }
  }

  /**
   The documented rule, that the limit is soft by at most the number of requests in flight:
   one row for each holds only where nothing is let through at all, and even an overshoot of
   one above the limit for each only for a single request of a subject who is never verified.
   */
  lemma DocumentedBoundHoldsIff(c: Config, subject: SubjectId, k: nat)
    requires c.plans(subject).dailyCallLimit.Some? && c.limits.failureCircuit >= 1
    ensures var limit := c.plans(subject).dailyCallLimit.value;
            && (Bounded(c, DailyCalls(subject), k, Max(0, limit - 1) + k) <==> k == 0 || !MayPay(c, subject))
            && (Bounded(c, DailyCalls(subject), k, Max(0, limit) + k) <==>
                  k == 0 || !MayPay(c, subject) || (k == 1 && !MayVerify(c.plans(subject))))
  {
    var limit := c.plans(subject).dailyCallLimit.value;
    CallLimitIsExact(c, subject, k, Max(0, limit - 1) + k);
    CallLimitIsExact(c, subject, k, Max(0, limit) + k);
  }
}
