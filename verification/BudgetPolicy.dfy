/**
 The cost-aware router: quota counters and a plan in, an execution decision out.
 Every gate that can forbid spending runs before a model tier is picked.
 */
module BudgetPolicy {
  import opened Common

  datatype Provider = OpenAI | Anthropic | Fake

  datatype ModelAlias =
    | CheapText | StandardTutor | AdvancedReasoning | VerifierPrimary
    | VerifierSecondary | Vision | Transcribe | Embedding

  datatype Capability =
    | GeneralTutoring | ExplainConcept | HomeworkSolve | Math | Physics | Chemistry | Biology | Coding
    | WritingFeedback | LanguageHelp | AnswerCheck | GradeWork | PracticeGeneration | TwinProblem
    | Flashcards | Quiz | MockTest | DocumentQa | ImageQa | Revision | StudyPlan | ResearchHelp
    | UnknownCapability

  datatype Difficulty = Simple | Moderate | Advanced

  datatype Outcome =
    | AllowLocalOnly | AllowCheapModel | AllowStandard | AllowAdvanced | AllowWithVerification
    | RequireBrief | RequireConfirmation | RejectPlan | RejectQuota | RejectSize | RejectSystemBudget | FeatureDisabled

  datatype Reason =
    | PlanDisallowsAi | FeatureFlagOff | CapabilityNotInPlan | DailyQuotaExhausted | UserBudgetExhausted
    | UserMonthlyBudgetExhausted | SystemBudgetExhausted | SystemSpendVelocity | ProviderBudgetExhausted
    | ContextTooLarge | ProviderUnhealthy | CapabilityNotAvailable
    | RoutineSimple | RoutineModerate | AdvancedStem | HighStakesMode

  datatype VerifierMode = NoVerifier | OnLowConfidence | Always

  const TEXT_CAPABILITIES: set<Capability> :=
    {GeneralTutoring, ExplainConcept, HomeworkSolve, Math, Physics, Chemistry, Biology, Coding,
     WritingFeedback, LanguageHelp, AnswerCheck}
  const STEM_CAPABILITIES: set<Capability> := {Math, Physics, Chemistry, HomeworkSolve}
  const MAX_CONTEXT_TOKENS := 24_000
  const PROVIDER_FAILURE_CIRCUIT := 5

  datatype Plan = Plan(
    allowsPaidAi: bool, allowedCapabilities: Option<set<Capability>>,
    dailyCallLimit: Option<int>, dailyBudget: Option<int>, monthlyBudget: Option<int>,
    allowsAdvancedModel: bool, allowsVerifier: bool, maxOutputTokens: nat)

  datatype SystemLimits = SystemLimits(
    dailyBudget: Option<int>, hourlyBudget: Option<int>, providerDailyBudget: Option<int>, failureCircuit: int)

  predicate Reached(used: int, limit: Option<int>) {
    limit.Some? && used >= limit.value
  }

  /** Counters read before the decision, each beside the ceiling it is measured against. */
  datatype Snapshot = Snapshot(
    callsToday: nat, dailyCallLimit: Option<int>,
    spendToday: nat, dailyBudget: Option<int>,
    spendThisMonth: nat, monthlyBudget: Option<int>,
    systemSpendToday: nat, systemDailyBudget: Option<int>,
    systemSpendLastHour: nat, systemHourlyBudget: Option<int>,
    providerSpendToday: nat, providerDailyBudget: Option<int>,
    spendByProvider: map<Provider, nat>, failuresByProvider: map<Provider, nat>,
    recentProviderFailures: nat)
  {
    /** Vendors over their daily budget, or failing past the circuit breaker. */
    function BlockedProviders(limits: SystemLimits): (blocked: set<Provider>)
      ensures forall p :: p in blocked <==>
                (p in failuresByProvider && failuresByProvider[p] >= limits.failureCircuit)
                || (p in spendByProvider && Reached(spendByProvider[p], limits.providerDailyBudget))
    {
      var failing := set p | p in failuresByProvider && failuresByProvider[p] >= limits.failureCircuit;
      if limits.providerDailyBudget.None? then failing
      else failing + set p | p in spendByProvider && spendByProvider[p] >= limits.providerDailyBudget.value
    }
  }

  datatype Context = Context(
    plan: Plan, capability: Capability, difficulty: Difficulty, contextTokens: nat,
    quota: Snapshot, aiEnabled: bool, highStakes: bool)

  datatype Decision = Decision(
    outcome: Outcome, reason: Reason, alias: Option<ModelAlias>, fallback: Option<ModelAlias>,
    maxOutputTokens: nat, maxAttempts: nat, verifierMode: VerifierMode, verifierAlias: Option<ModelAlias>)
  {
    predicate PermitsPaidCall() {
      outcome in {AllowCheapModel, AllowStandard, AllowAdvanced, AllowWithVerification} && alias.Some?
    }
  }

  function Reject(outcome: Outcome, reason: Reason): Decision {
    Decision(outcome, reason, None, None, 1024, 2, NoVerifier, None)
  }

  function Decide(ctx: Context): Decision {
    var q := ctx.quota;
    if !ctx.aiEnabled then Reject(FeatureDisabled, FeatureFlagOff)
    else if !ctx.plan.allowsPaidAi then Reject(RejectPlan, PlanDisallowsAi)
    else if ctx.capability !in TEXT_CAPABILITIES then Reject(FeatureDisabled, CapabilityNotAvailable)
    else if ctx.plan.allowedCapabilities.Some? && ctx.capability !in ctx.plan.allowedCapabilities.value then
      Reject(RejectPlan, CapabilityNotInPlan)
    else if Reached(q.systemSpendLastHour, q.systemHourlyBudget) then Reject(RejectSystemBudget, SystemSpendVelocity)
    else if Reached(q.systemSpendToday, q.systemDailyBudget) then Reject(RejectSystemBudget, SystemBudgetExhausted)
    else if Reached(q.providerSpendToday, q.providerDailyBudget) then Reject(RejectSystemBudget, ProviderBudgetExhausted)
    else if Reached(q.spendThisMonth, q.monthlyBudget) then Reject(RejectQuota, UserMonthlyBudgetExhausted)
    else if Reached(q.spendToday, q.dailyBudget) then Reject(RejectQuota, UserBudgetExhausted)
    else if Reached(q.callsToday, q.dailyCallLimit) then Reject(RejectQuota, DailyQuotaExhausted)
    else if q.recentProviderFailures >= PROVIDER_FAILURE_CIRCUIT then Reject(RejectSystemBudget, ProviderUnhealthy)
    else if ctx.contextTokens > MAX_CONTEXT_TOKENS then Reject(RejectSize, ContextTooLarge)
    else SelectTier(ctx)
  }

  function SelectTier(ctx: Context): Decision {
    var stem := ctx.capability in STEM_CAPABILITIES;
    var (alias, tierReason, tierOutcome) :=
      if ctx.difficulty.Advanced? && ctx.plan.allowsAdvancedModel then (AdvancedReasoning, AdvancedStem, AllowAdvanced)
      else if ctx.difficulty.Simple? && !stem then (CheapText, RoutineSimple, AllowCheapModel)
      else (StandardTutor, RoutineModerate, AllowStandard);
    var mode :=
      if !ctx.plan.allowsVerifier then NoVerifier
      else if ctx.highStakes then Always
      else if stem && ctx.difficulty.Advanced? then OnLowConfidence
      else NoVerifier;
    Decision(
      if mode.NoVerifier? then tierOutcome else AllowWithVerification,
      if mode.Always? then HighStakesMode else tierReason,
      Some(alias),
      if alias.AdvancedReasoning? then Some(StandardTutor) else None,
      ctx.plan.maxOutputTokens,
      2,
      mode,
      if mode.NoVerifier? then None else Some(VerifierPrimary))
  }

  /** No ceiling of the snapshot has been reached. */
  predicate UnderEveryCeiling(q: Snapshot) {
    && !Reached(q.callsToday, q.dailyCallLimit)
    && !Reached(q.spendToday, q.dailyBudget)
    && !Reached(q.spendThisMonth, q.monthlyBudget)
    && !Reached(q.systemSpendToday, q.systemDailyBudget)
    && !Reached(q.systemSpendLastHour, q.systemHourlyBudget)
    && !Reached(q.providerSpendToday, q.providerDailyBudget)
    && q.recentProviderFailures < PROVIDER_FAILURE_CIRCUIT
  }

  /** A request may spend if and only if no gate at all stands against it. */
  lemma PaidIffEveryGatePasses(ctx: Context)
    ensures Decide(ctx).PermitsPaidCall() <==>
            && ctx.aiEnabled && ctx.plan.allowsPaidAi && ctx.capability in TEXT_CAPABILITIES
            && (ctx.plan.allowedCapabilities.Some? ==> ctx.capability in ctx.plan.allowedCapabilities.value)
            && UnderEveryCeiling(ctx.quota)
            && ctx.contextTokens <= MAX_CONTEXT_TOKENS
    ensures !Decide(ctx).PermitsPaidCall() ==> Decide(ctx).alias.None? && Decide(ctx).verifierAlias.None?
  {
    var t := SelectTier(ctx);
    assert t.PermitsPaidCall();
  }

  // The reasons for a rejection, in the order in which they are looked for.
  const GATES: seq<Reason> :=
    [FeatureFlagOff, PlanDisallowsAi, CapabilityNotAvailable, CapabilityNotInPlan, SystemSpendVelocity,
     SystemBudgetExhausted, ProviderBudgetExhausted, UserMonthlyBudgetExhausted, UserBudgetExhausted,
     DailyQuotaExhausted, ProviderUnhealthy, ContextTooLarge]

  predicate Spent(used: nat, ceiling: Option<int>) {
    ceiling.Some? && ceiling.value <= used
  }

  /** What each reason says of a request. */
  predicate Stands(reason: Reason, ctx: Context) {
    match reason
    case FeatureFlagOff => !ctx.aiEnabled
    case PlanDisallowsAi => !ctx.plan.allowsPaidAi
    case CapabilityNotAvailable =>
      ctx.capability !in {GeneralTutoring, ExplainConcept, HomeworkSolve, Math, Physics, Chemistry, Biology, Coding,
                          WritingFeedback, LanguageHelp, AnswerCheck}
    case CapabilityNotInPlan => ctx.plan.allowedCapabilities.Some? && ctx.capability !in ctx.plan.allowedCapabilities.value
    case SystemSpendVelocity => Spent(ctx.quota.systemSpendLastHour, ctx.quota.systemHourlyBudget)
    case SystemBudgetExhausted => Spent(ctx.quota.systemSpendToday, ctx.quota.systemDailyBudget)
    case ProviderBudgetExhausted => Spent(ctx.quota.providerSpendToday, ctx.quota.providerDailyBudget)
    case UserMonthlyBudgetExhausted => Spent(ctx.quota.spendThisMonth, ctx.quota.monthlyBudget)
    case UserBudgetExhausted => Spent(ctx.quota.spendToday, ctx.quota.dailyBudget)
    case DailyQuotaExhausted => Spent(ctx.quota.callsToday, ctx.quota.dailyCallLimit)
    case ProviderUnhealthy => ctx.quota.recentProviderFailures >= 5
    case ContextTooLarge => ctx.contextTokens > 24_000
    case _ => false
  }

  function OutcomeFor(reason: Reason): Outcome {
    match reason
    case FeatureFlagOff | CapabilityNotAvailable => FeatureDisabled
    case PlanDisallowsAi | CapabilityNotInPlan => RejectPlan
    case UserMonthlyBudgetExhausted | UserBudgetExhausted | DailyQuotaExhausted => RejectQuota
    case ContextTooLarge => RejectSize
    case _ => RejectSystemBudget
  }

  predicate NoneStands(ctx: Context, n: nat)
    requires n <= |GATES|
  {
    forall j :: 0 <= j < n ==> !Stands(GATES[j], ctx)
  }

  lemma FirstGateDecides(ctx: Context, i: nat)
    requires i < |GATES| && Stands(GATES[i], ctx) && NoneStands(ctx, i)
    ensures Decide(ctx) == Reject(OutcomeFor(GATES[i]), GATES[i])
  {
    assert i > 0 ==> !Stands(GATES[0], ctx);
    assert i > 1 ==> !Stands(GATES[1], ctx);
    assert i > 2 ==> !Stands(GATES[2], ctx);
    assert i > 3 ==> !Stands(GATES[3], ctx);
    assert i > 4 ==> !Stands(GATES[4], ctx);
    assert i > 5 ==> !Stands(GATES[5], ctx);
    assert i > 6 ==> !Stands(GATES[6], ctx);
    assert i > 7 ==> !Stands(GATES[7], ctx);
    assert i > 8 ==> !Stands(GATES[8], ctx);
    assert i > 9 ==> !Stands(GATES[9], ctx);
    assert i > 10 ==> !Stands(GATES[10], ctx);
  }

  lemma NoGateDecides(ctx: Context)
    requires NoneStands(ctx, |GATES|)
    ensures Decide(ctx) == SelectTier(ctx)
  {
    assert !Stands(GATES[0], ctx) && !Stands(GATES[1], ctx) && !Stands(GATES[2], ctx) && !Stands(GATES[3], ctx);
    assert !Stands(GATES[4], ctx) && !Stands(GATES[5], ctx) && !Stands(GATES[6], ctx) && !Stands(GATES[7], ctx);
    assert !Stands(GATES[8], ctx) && !Stands(GATES[9], ctx) && !Stands(GATES[10], ctx) && !Stands(GATES[11], ctx);
  }

  lemma {:induction false} SomeGateIsFirst(ctx: Context, n: nat) returns (i: nat)
    requires n <= |GATES| && !NoneStands(ctx, n)
    ensures i < n && Stands(GATES[i], ctx) && NoneStands(ctx, i)
  {
    if NoneStands(ctx, n - 1) {
      i := n - 1;
    } else {
      i := SomeGateIsFirst(ctx, n - 1);
    }
  }

  /** A request is refused for the first reason that stands against it, and for no other; if none does it is paid for. */
  lemma RefusedForTheFirstReason(ctx: Context, i: nat)
    requires i < |GATES|
    ensures var d := Decide(ctx);
            && (d.reason == GATES[i] <==> Stands(GATES[i], ctx) && NoneStands(ctx, i))
            && (d.reason == GATES[i] ==> d.outcome == OutcomeFor(GATES[i]) && d.alias.None?)
            && (d.PermitsPaidCall() <==> NoneStands(ctx, |GATES|))
  {
    if NoneStands(ctx, |GATES|) {
      NoGateDecides(ctx);
      assert SelectTier(ctx).PermitsPaidCall();
    } else {
      var first := SomeGateIsFirst(ctx, |GATES|);
      FirstGateDecides(ctx, first);
    }
  }

  /** Which model answers, who checks it and how long the answer may be, by difficulty, subject and plan alone. */
  lemma TierByRequest(ctx: Context)
    requires Decide(ctx).PermitsPaidCall()
    ensures var d, stem := Decide(ctx), ctx.capability in {Math, Physics, Chemistry, HomeworkSolve};
            var advanced := ctx.difficulty.Advanced? && ctx.plan.allowsAdvancedModel;
            var cheap := ctx.difficulty.Simple? && !stem;
            && (d.alias == Some(AdvancedReasoning) <==> advanced)
            && (d.alias == Some(CheapText) <==> cheap)
            && (d.alias == Some(StandardTutor) <==> !advanced && !cheap)
            && (d.verifierMode == Always <==> ctx.plan.allowsVerifier && ctx.highStakes)
            && (d.verifierMode == OnLowConfidence <==>
                  ctx.plan.allowsVerifier && !ctx.highStakes && stem && ctx.difficulty.Advanced?)
            && (d.verifierAlias == if d.verifierMode == NoVerifier then None else Some(VerifierPrimary))
            && d.maxOutputTokens == ctx.plan.maxOutputTokens
            && (d.outcome == if d.verifierMode != NoVerifier then AllowWithVerification
                             else if advanced then AllowAdvanced else if cheap then AllowCheapModel else AllowStandard)
            && (d.reason == if d.verifierMode == Always then HighStakesMode
                            else if advanced then AdvancedStem else if cheap then RoutineSimple else RoutineModerate)
  {
    assert Decide(ctx) == SelectTier(ctx);
  }

  /** The shape of every decision: two attempts, a fallback that never escalates, a verifier only by plan. */
  lemma DecisionShape(ctx: Context)
    ensures var d := Decide(ctx);
            && d.maxAttempts == 2
            && (d.fallback.Some? <==> d.alias == Some(AdvancedReasoning))
            && (d.fallback.Some? ==> d.fallback == Some(StandardTutor))
            && (d.alias == Some(AdvancedReasoning) ==> ctx.plan.allowsAdvancedModel && ctx.difficulty.Advanced?)
            && (d.verifierMode.NoVerifier? <==> d.verifierAlias.None?)
            && (d.verifierAlias.Some? ==> ctx.plan.allowsVerifier && d.PermitsPaidCall())
  {
    var t := SelectTier(ctx);
    assert t.maxAttempts == 2;
  }
}
