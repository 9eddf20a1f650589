/**
 The quota read and the ledger it reads.  A limit is a read, not a reservation, so requests
 already in flight between their two transactions may overshoot it: by how much is proved here.
 */
module Quota {
  import opened Common
  import opened BudgetPolicy
  import opened Gateway
  import opened Executor

  type SubjectId = nat
  type Time = nat

  const HOUR: Time := 3_600_000_000
  const DAY: Time := 24 * HOUR
  const MONTH: Time := 30 * DAY
  const FAILURE_WINDOW: Time := HOUR / 6

  datatype LedgerRow = LedgerRow(subject: SubjectId, createdAt: Time, call: Call)

  // One counter of the snapshot.
  datatype Meter =
    | DailyCalls(subject: SubjectId)
    | DailySpend(subject: SubjectId)
    | MonthlySpend(subject: SubjectId)
    | SystemDaily
    | SystemHourly
    | ProviderDaily(provider: Provider)
    | ProviderFailures(provider: Provider)

  function Window(m: Meter): Time {
    match m
    case DailyCalls(_) | DailySpend(_) | SystemDaily | ProviderDaily(_) => DAY
    case MonthlySpend(_) => MONTH
    case SystemHourly => HOUR
    case ProviderFailures(_) => FAILURE_WINDOW
  }

  function Weight(m: Meter, row: LedgerRow, now: Time): nat {
    if row.createdAt < now - Window(m) then 0
    else
      match m
      case DailyCalls(s) => if row.subject == s && row.call.Billed() then 1 else 0
      case DailySpend(s) => if row.subject == s then row.call.cost else 0
      case MonthlySpend(s) => if row.subject == s then row.call.cost else 0
      case SystemDaily => row.call.cost
      case SystemHourly => row.call.cost
      case ProviderDaily(p) => if row.call.provider == p then row.call.cost else 0
      case ProviderFailures(p) => if row.call.provider == p && !row.call.Billed() then 1 else 0
  }

  function Reading(m: Meter, ledger: seq<LedgerRow>, now: Time): nat {
    if |ledger| == 0 then 0 else Weight(m, ledger[0], now) + Reading(m, ledger[1..], now)
  }

  function LoadSnapshot(ledger: seq<LedgerRow>, subject: SubjectId, now: Time, plan: Plan, limits: SystemLimits): Snapshot {
    var active := set row | row in ledger && row.createdAt >= now - DAY :: row.call.provider;
    Snapshot(
      Reading(DailyCalls(subject), ledger, now), plan.dailyCallLimit,
      Reading(DailySpend(subject), ledger, now), plan.dailyBudget,
      Reading(MonthlySpend(subject), ledger, now), plan.monthlyBudget,
      Reading(SystemDaily, ledger, now), limits.dailyBudget,
      Reading(SystemHourly, ledger, now), limits.hourlyBudget,
      0, limits.providerDailyBudget,           // no vendor is named on the text route
      map p | p in active :: Reading(ProviderDaily(p), ledger, now),
      map p | p in active :: Reading(ProviderFailures(p), ledger, now),
      0)
  }

  function RowsOf(calls: seq<Call>, subject: SubjectId, now: Time): seq<LedgerRow> {
    seq(|calls|, i requires 0 <= i < |calls| => LedgerRow(subject, now, calls[i]))
  }

  /** The usage ledger, one row appended per provider attempt. */
  class UsageLedger {
    var rows: seq<LedgerRow>

    constructor ()
      ensures rows == []
    {
      rows := [];
    }

    method RecordModelCall(call: Call, subject: SubjectId, now: Time)
      modifies this
      ensures rows == old(rows) + [LedgerRow(subject, now, call)]
    {
      rows := rows + [LedgerRow(subject, now, call)];
    }

    method RecordExecution(execution: Execution, subject: SubjectId, now: Time)
      modifies this
      ensures rows == old(rows) + RowsOf(execution.calls, subject, now)
    {
      for i := 0 to |execution.calls|
        invariant rows == old(rows) + RowsOf(execution.calls[..i], subject, now)
      {
        RecordModelCall(execution.calls[i], subject, now);
        assert execution.calls[..i + 1] == execution.calls[..i] + [execution.calls[i]];
      }
      assert execution.calls[..|execution.calls|] == execution.calls;
    }
  }

  // ---- the concurrent system ------------------------------------------------

  datatype Config = Config(plans: SubjectId -> Plan, limits: SystemLimits)

  type RequestId = nat

  // A request between its two transactions, carrying what the first one decided.
  datatype Flight = Flight(subject: SubjectId, capability: Capability, decision: Decision, blocked: set<Provider>)

  datatype State = State(now: Time, ledger: seq<LedgerRow>, flights: map<RequestId, Flight>)

  datatype Step =
    | Tick(to: Time)
    | Admit(id: RequestId, subject: SubjectId, capability: Capability, difficulty: Difficulty,
            contextTokens: nat, aiEnabled: bool)
    | Settle(id: RequestId, judge: Judge, world: World)
    | Crash(id: RequestId)

  const Init := State(0, [], map[])

  predicate Enabled(s: State, step: Step) {
    match step
    case Tick(to) => s.now <= to
    case Admit(id, _, _, _, _, _) => id !in s.flights
    case Settle(id, _, _) => id in s.flights
    case Crash(id) => id in s.flights
  }

  function Outcome(s: State, id: RequestId, judge: Judge, world: World): Execution
    requires id in s.flights
  {
    var f := s.flights[id];
    Execute(f.decision, f.capability, f.blocked, judge, world)
  }

  // What a first transaction sees of the ledger.  The text route never asks for high stakes.
  function Seen(c: Config, s: State, step: Step): Context
    requires step.Admit?
  {
    Context(c.plans(step.subject), step.capability, step.difficulty, step.contextTokens,
            LoadSnapshot(s.ledger, step.subject, s.now, c.plans(step.subject), c.limits), step.aiEnabled, false)
  }

  function Apply(c: Config, s: State, step: Step): State
    requires Enabled(s, step)
  {
    match step
    case Tick(to) => s.(now := to)
    case Admit(id, subject, capability, _, _, _) =>
      var seen := Seen(c, s, step);
      if Decide(seen).PermitsPaidCall()
      then s.(flights := s.flights[id := Flight(subject, capability, Decide(seen), seen.quota.BlockedProviders(c.limits))])
      else s
    case Settle(id, judge, world) =>
      s.(ledger := s.ledger + RowsOf(Outcome(s, id, judge, world).calls, s.flights[id].subject, s.now),
         flights := s.flights - {id})
    case Crash(id) => s.(flights := s.flights - {id})
  }

  /** The ceiling of a meter that a text request is gated on. */
  function Limit(c: Config, m: Meter): Option<int> {
    match m
    case DailyCalls(s) => c.plans(s).dailyCallLimit
    case DailySpend(s) => c.plans(s).dailyBudget
    case MonthlySpend(s) => c.plans(s).monthlyBudget
    case SystemDaily => c.limits.dailyBudget
    case SystemHourly => c.limits.hourlyBudget
    case ProviderDaily(_) | ProviderFailures(_) => None
  }

  /** The requests in flight whose rows this meter will count. */
  function Pending(m: Meter, s: State): set<RequestId> {
    match m
    case DailyCalls(x) => set id | id in s.flights && s.flights[id].subject == x
    case DailySpend(x) => set id | id in s.flights && s.flights[id].subject == x
    case MonthlySpend(x) => set id | id in s.flights && s.flights[id].subject == x
    case _ => s.flights.Keys
  }

  function TotalCost(calls: seq<Call>): nat {
    if |calls| == 0 then 0 else calls[0].cost + TotalCost(calls[1..])
  }

  function BilledRows(calls: seq<Call>): nat {
    if |calls| == 0 then 0 else (if calls[0].Billed() then 1 else 0) + BilledRows(calls[1..])
  }

  /** What the calls of one request add to the meters that count it. */
  function Added(m: Meter, calls: seq<Call>): nat {
    if m.DailyCalls? then BilledRows(calls) else TotalCost(calls)
  }

  ghost predicate IsRun(c: Config, trace: seq<State>, steps: seq<Step>) {
    && |trace| == |steps| + 1
    && trace[0] == Init
    && forall i :: 0 <= i < |steps| ==> Enabled(trace[i], steps[i]) && trace[i + 1] == Apply(c, trace[i], steps[i])
  }

  /** At most k requests of the meter in flight at once. */
  ghost predicate AtMostInFlight(m: Meter, k: nat, trace: seq<State>) {
    forall i :: 0 <= i < |trace| ==> |Pending(m, trace[i])| <= k
  }

  /** No settled request of the meter adds more than `share` to it. */
  ghost predicate Shared(m: Meter, share: nat, trace: seq<State>, steps: seq<Step>)
    requires |trace| == |steps| + 1
  {
    forall i :: 0 <= i < |steps| ==> WithinShare(m, share, trace[i], steps[i])
  }

  predicate WithinShare(m: Meter, share: nat, s: State, step: Step) {
    step.Settle? && step.id in Pending(m, s) ==> Added(m, Outcome(s, step.id, step.judge, step.world).calls) <= share
  }

  ghost predicate Inv(c: Config, m: Meter, k: nat, share: nat, s: State) {
    Limit(c, m).Some? ==>
      Reading(m, s.ledger, s.now) + share * |Pending(m, s)| <= Max(0, Limit(c, m).value - 1) + share * k
  }

  // The meters a text request is gated on.
  predicate Gated(m: Meter) {
    !m.ProviderDaily? && !m.ProviderFailures?
  }

  // ---- arithmetic of readings -----------------------------------------------

  lemma {:induction false} ReadingAppend(m: Meter, a: seq<LedgerRow>, b: seq<LedgerRow>, now: Time)
    ensures Reading(m, a + b, now) == Reading(m, a, now) + Reading(m, b, now)
  {
    if |a| == 0 {
      assert a + b == b;
    } else {
      assert (a + b)[1..] == a[1..] + b;
      ReadingAppend(m, a[1..], b, now);
    }
  }

  /** A sliding window only loses rows as time passes. */
  lemma {:induction false} ReadingFalls(m: Meter, ledger: seq<LedgerRow>, now: Time, later: Time)
    requires now <= later
    ensures Reading(m, ledger, later) <= Reading(m, ledger, now)
  {
    if |ledger| > 0 {
      ReadingFalls(m, ledger[1..], now, later);
    }
  }

  /** Fresh rows of one request are read at exactly what they add, by the meters that count them. */
  lemma {:induction false} ReadingOfRows(m: Meter, calls: seq<Call>, subject: SubjectId, now: Time)
    requires Gated(m)
    ensures Reading(m, RowsOf(calls, subject, now), now)
         == if (m.DailyCalls? || m.DailySpend? || m.MonthlySpend?) && m.subject != subject then 0 else Added(m, calls)
  {
    if |calls| > 0 {
      assert RowsOf(calls, subject, now)[1..] == RowsOf(calls[1..], subject, now);
      ReadingOfRows(m, calls[1..], subject, now);
    }
  }

  // ---- what the counters count ------------------------------------------------

  /** What the rows that are counted cost together. */
  function Costs(ledger: seq<LedgerRow>, counted: LedgerRow -> bool): nat {
    if |ledger| == 0 then 0 else (if counted(ledger[0]) then ledger[0].call.cost else 0) + Costs(ledger[1..], counted)
  }

  /** How many rows are counted. */
  function Count(ledger: seq<LedgerRow>, counted: LedgerRow -> bool): nat {
    if |ledger| == 0 then 0 else (if counted(ledger[0]) then 1 else 0) + Count(ledger[1..], counted)
  }

  // Rows that are no older than so many microseconds.
  function Recent(now: Time, age: nat): LedgerRow -> bool {
    (row: LedgerRow) => now - row.createdAt <= age
  }

  function Mine(subject: SubjectId, now: Time, age: nat): LedgerRow -> bool {
    (row: LedgerRow) => row.subject == subject && now - row.createdAt <= age
  }

  // A row is billed when output came back or money was charged, and failed otherwise.
  function MineBilled(subject: SubjectId, now: Time, age: nat): LedgerRow -> bool {
    (row: LedgerRow) => row.subject == subject && now - row.createdAt <= age && (row.call.outputTokens > 0 || row.call.cost > 0)
  }

  function OfProvider(p: Provider, now: Time, age: nat): LedgerRow -> bool {
    (row: LedgerRow) => row.call.provider == p && now - row.createdAt <= age
  }

  function FailedAt(p: Provider, now: Time, age: nat): LedgerRow -> bool {
    (row: LedgerRow) =>
      row.call.provider == p && now - row.createdAt <= age && row.call.outputTokens == 0 && row.call.cost == 0
  }

  lemma {:induction false} ReadsCosts(m: Meter, ledger: seq<LedgerRow>, now: Time, counted: LedgerRow -> bool)
    requires forall row :: Weight(m, row, now) == if counted(row) then row.call.cost else 0
    ensures Reading(m, ledger, now) == Costs(ledger, counted)
  {
    if |ledger| > 0 {
      ReadsCosts(m, ledger[1..], now, counted);
    }
  }

  lemma {:induction false} ReadsCount(m: Meter, ledger: seq<LedgerRow>, now: Time, counted: LedgerRow -> bool)
    requires forall row :: Weight(m, row, now) == if counted(row) then 1 else 0
    ensures Reading(m, ledger, now) == Count(ledger, counted)
  {
    if |ledger| > 0 {
      ReadsCount(m, ledger[1..], now, counted);
    }
  }

  /**
   Every counter is the sum of the costs, or the number, of the rows it names, by their age: an hour, a
   day, thirty days, ten minutes.
   */
  lemma CountersAreSums(ledger: seq<LedgerRow>, subject: SubjectId, p: Provider, now: Time)
    ensures Reading(DailyCalls(subject), ledger, now) == Count(ledger, MineBilled(subject, now, 86_400_000_000))
    ensures Reading(DailySpend(subject), ledger, now) == Costs(ledger, Mine(subject, now, 86_400_000_000))
    ensures Reading(MonthlySpend(subject), ledger, now) == Costs(ledger, Mine(subject, now, 2_592_000_000_000))
    ensures Reading(SystemDaily, ledger, now) == Costs(ledger, Recent(now, 86_400_000_000))
    ensures Reading(SystemHourly, ledger, now) == Costs(ledger, Recent(now, 3_600_000_000))
    ensures Reading(ProviderDaily(p), ledger, now) == Costs(ledger, OfProvider(p, now, 86_400_000_000))
    ensures Reading(ProviderFailures(p), ledger, now) == Count(ledger, FailedAt(p, now, 600_000_000))
  {
    ReadsCount(DailyCalls(subject), ledger, now, MineBilled(subject, now, 86_400_000_000));
    ReadsCosts(DailySpend(subject), ledger, now, Mine(subject, now, 86_400_000_000));
    ReadsCosts(MonthlySpend(subject), ledger, now, Mine(subject, now, 2_592_000_000_000));
    ReadsCosts(SystemDaily, ledger, now, Recent(now, 86_400_000_000));
    ReadsCosts(SystemHourly, ledger, now, Recent(now, 3_600_000_000));
    ReadsCosts(ProviderDaily(p), ledger, now, OfProvider(p, now, 86_400_000_000));
    ReadsCount(ProviderFailures(p), ledger, now, FailedAt(p, now, 600_000_000));
  }

  /** The snapshot holds these sums beside the ceilings they are measured against. */
  lemma SnapshotCounts(ledger: seq<LedgerRow>, subject: SubjectId, now: Time, plan: Plan, limits: SystemLimits)
    ensures var q := LoadSnapshot(ledger, subject, now, plan, limits);
            && q.callsToday == Count(ledger, MineBilled(subject, now, 86_400_000_000)) && q.dailyCallLimit == plan.dailyCallLimit
            && q.spendToday == Costs(ledger, Mine(subject, now, 86_400_000_000)) && q.dailyBudget == plan.dailyBudget
            && q.spendThisMonth == Costs(ledger, Mine(subject, now, 2_592_000_000_000)) && q.monthlyBudget == plan.monthlyBudget
            && q.systemSpendToday == Costs(ledger, Recent(now, 86_400_000_000)) && q.systemDailyBudget == limits.dailyBudget
            && q.systemSpendLastHour == Costs(ledger, Recent(now, 3_600_000_000)) && q.systemHourlyBudget == limits.hourlyBudget
  {
    CountersAreSums(ledger, subject, OpenAI, now);
  }

  predicate UsedToday(p: Provider, ledger: seq<LedgerRow>, now: Time) {
    exists i :: 0 <= i < |ledger| && ledger[i].call.provider == p && now - ledger[i].createdAt <= 86_400_000_000
  }

  /**
   A vendor used today is blocked when it failed too often within ten minutes or cost too much within
   the day; no other is.
   */
  lemma BlockedByTheLedger(ledger: seq<LedgerRow>, subject: SubjectId, now: Time, plan: Plan, limits: SystemLimits, p: Provider)
    ensures p in LoadSnapshot(ledger, subject, now, plan, limits).BlockedProviders(limits) <==>
            && UsedToday(p, ledger, now)
            && (Count(ledger, FailedAt(p, now, 600_000_000)) >= limits.failureCircuit
                || (limits.providerDailyBudget.Some?
                    && Costs(ledger, OfProvider(p, now, 86_400_000_000)) >= limits.providerDailyBudget.value))
  {
    CountersAreSums(ledger, subject, p, now);
    var q := LoadSnapshot(ledger, subject, now, plan, limits);
    assert p in q.spendByProvider <==> UsedToday(p, ledger, now);
  }

  lemma {:induction false} MoreRowsCostMore(ledger: seq<LedgerRow>, some: LedgerRow -> bool, all: LedgerRow -> bool)
    requires forall row :: some(row) ==> all(row)
    ensures Costs(ledger, some) <= Costs(ledger, all)
  {
    if |ledger| > 0 {
      MoreRowsCostMore(ledger[1..], some, all);
    }
  }

  /** A longer span never reads less, and a part never more than the whole. */
  lemma CountersAreOrdered(ledger: seq<LedgerRow>, subject: SubjectId, p: Provider, now: Time)
    ensures Reading(SystemHourly, ledger, now) <= Reading(SystemDaily, ledger, now)
    ensures Reading(DailySpend(subject), ledger, now) <= Reading(MonthlySpend(subject), ledger, now)
    ensures Reading(DailySpend(subject), ledger, now) <= Reading(SystemDaily, ledger, now)
    ensures Reading(ProviderDaily(p), ledger, now) <= Reading(SystemDaily, ledger, now)
  {
    CountersAreSums(ledger, subject, p, now);
    var day := 86_400_000_000;
    MoreRowsCostMore(ledger, Recent(now, 3_600_000_000), Recent(now, day));
    MoreRowsCostMore(ledger, Mine(subject, now, day), Mine(subject, now, 2_592_000_000_000));
    MoreRowsCostMore(ledger, Mine(subject, now, day), Recent(now, day));
    MoreRowsCostMore(ledger, OfProvider(p, now, day), Recent(now, day));
  }

  // ---- the invariant --------------------------------------------------------

  /** A request is let through only while what its subject, and everybody, spent lately is below every ceiling. */
  lemma AdmittedHasNotSpent(c: Config, s: State, step: Step)
    requires step.Admit? && Decide(Seen(c, s, step)).PermitsPaidCall()
    ensures var plan, subject, now := c.plans(step.subject), step.subject, s.now;
            && (plan.dailyCallLimit.Some? ==> Count(s.ledger, MineBilled(subject, now, 86_400_000_000)) < plan.dailyCallLimit.value)
            && (plan.dailyBudget.Some? ==> Costs(s.ledger, Mine(subject, now, 86_400_000_000)) < plan.dailyBudget.value)
            && (plan.monthlyBudget.Some? ==> Costs(s.ledger, Mine(subject, now, 2_592_000_000_000)) < plan.monthlyBudget.value)
            && (c.limits.dailyBudget.Some? ==> Costs(s.ledger, Recent(now, 86_400_000_000)) < c.limits.dailyBudget.value)
            && (c.limits.hourlyBudget.Some? ==> Costs(s.ledger, Recent(now, 3_600_000_000)) < c.limits.hourlyBudget.value)
  {
    PaidIffEveryGatePasses(Seen(c, s, step));
    SnapshotCounts(s.ledger, step.subject, s.now, c.plans(step.subject), c.limits);
  }

  /** A request let through is kept from exactly the vendors that the ledger blocks, by every row it is billed for. */
  lemma BlockedVendorsAreNotPaid(c: Config, s: State, step: Step, t: State, judge: Judge, world: World, p: Provider)
    requires step.Admit? && Enabled(s, step) && Decide(Seen(c, s, step)).PermitsPaidCall()
    requires step.id in t.flights && t.flights[step.id] == Apply(c, s, step).flights[step.id]
    requires UsedToday(p, s.ledger, s.now)
    requires Count(s.ledger, FailedAt(p, s.now, 600_000_000)) >= c.limits.failureCircuit
             || (c.limits.providerDailyBudget.Some?
                 && Costs(s.ledger, OfProvider(p, s.now, 86_400_000_000)) >= c.limits.providerDailyBudget.value)
    ensures forall i :: 0 <= i < |Outcome(t, step.id, judge, world).calls| ==> Outcome(t, step.id, judge, world).calls[i].provider != p
  {
    BlockedByTheLedger(s.ledger, step.subject, s.now, c.plans(step.subject), c.limits, p);
    DecisionShape(Seen(c, s, step));
    var f := t.flights[step.id];
    ExecutionIsBounded(f.decision, f.capability, f.blocked, judge, world);
  }

  /** Whatever was let through found each of its own gated counters below the ceiling. */
  lemma AdmittedBelowLimit(c: Config, m: Meter, s: State, step: Step)
    requires Gated(m) && step.Admit? && Decide(Seen(c, s, step)).PermitsPaidCall()
    requires m.SystemDaily? || m.SystemHourly? || m.subject == step.subject
    ensures !Reached(Reading(m, s.ledger, s.now), Limit(c, m))
  {
    PaidIffEveryGatePasses(Seen(c, s, step));
  }

  lemma ScaledUp(unit: nat, count: nat, bound: nat)
    requires count <= bound
    ensures unit * count <= unit * bound
  {
  }

  lemma AdmitKeepsInv(c: Config, m: Meter, k: nat, share: nat, s: State, step: Step)
    requires Gated(m) && Inv(c, m, k, share, s) && Enabled(s, step) && step.Admit?
    requires |Pending(m, Apply(c, s, step))| <= k
    ensures Inv(c, m, k, share, Apply(c, s, step))
  {
    var t := Apply(c, s, step);
    if Decide(Seen(c, s, step)).PermitsPaidCall() {
      if m.SystemDaily? || m.SystemHourly? || m.subject == step.subject {
        AdmittedBelowLimit(c, m, s, step);
        ScaledUp(share, |Pending(m, t)|, k);
      } else {
        assert Pending(m, t) == Pending(m, s);
      }
    }
  }

  /** A settled request adds what it was billed to the meters that count it, and nothing to the others. */
  lemma SettledAddsItsShare(m: Meter, s: State, id: RequestId, judge: Judge, world: World)
    requires Gated(m) && id in s.flights
    ensures var calls := Outcome(s, id, judge, world).calls;
            Reading(m, s.ledger + RowsOf(calls, s.flights[id].subject, s.now), s.now)
            == Reading(m, s.ledger, s.now) + (if id in Pending(m, s) then Added(m, calls) else 0)
  {
    var calls := Outcome(s, id, judge, world).calls;
    ReadingAppend(m, s.ledger, RowsOf(calls, s.flights[id].subject, s.now), s.now);
    ReadingOfRows(m, calls, s.flights[id].subject, s.now);
  }

  lemma OneFewer(unit: nat, count: nat)
    requires count >= 1
    ensures unit * count == unit * (count - 1) + unit
  {
  }

  lemma LandedIsNotPending(m: Meter, s: State, t: State, id: RequestId)
    requires id in s.flights && t.flights == s.flights - {id}
    ensures |Pending(m, t)| == |Pending(m, s)| - (if id in Pending(m, s) then 1 else 0)
  {
    assert Pending(m, t) == Pending(m, s) - {id};
  }

  lemma LandingKeepsInv(c: Config, m: Meter, k: nat, share: nat, s: State, step: Step)
    requires Gated(m) && Inv(c, m, k, share, s) && Enabled(s, step) && WithinShare(m, share, s, step)
    requires step.Crash? || step.Settle?
    ensures Inv(c, m, k, share, Apply(c, s, step))
  {
    var t := Apply(c, s, step);
    LandedIsNotPending(m, s, t, step.id);
    if step.Settle? {
      SettledAddsItsShare(m, s, step.id, step.judge, step.world);
    }
    if step.id in Pending(m, s) {
      OneFewer(share, |Pending(m, s)|);
    }
  }

  lemma StepKeepsInv(c: Config, m: Meter, k: nat, share: nat, s: State, step: Step)
    requires Gated(m) && Inv(c, m, k, share, s) && Enabled(s, step) && WithinShare(m, share, s, step)
    requires |Pending(m, Apply(c, s, step))| <= k
    ensures Inv(c, m, k, share, Apply(c, s, step))
  {
    if step.Tick? {
      ReadingFalls(m, s.ledger, s.now, step.to);
      assert Pending(m, Apply(c, s, step)) == Pending(m, s);
    } else if step.Admit? {
      AdmitKeepsInv(c, m, k, share, s, step);
    } else {
      LandingKeepsInv(c, m, k, share, s, step);
    }
  }

  lemma {:induction false} RunKeepsInv(c: Config, m: Meter, k: nat, share: nat, trace: seq<State>, steps: seq<Step>, n: nat)
    requires Gated(m) && IsRun(c, trace, steps) && n < |trace|
    requires AtMostInFlight(m, k, trace) && Shared(m, share, trace, steps)
    ensures Inv(c, m, k, share, trace[n])
  {
    if n == 0 {
      InitHasInv(c, m, k, share);
    } else {
      RunKeepsInv(c, m, k, share, trace, steps, n - 1);
      RunTakesStep(c, trace, steps, n);
      RunStaysShared(m, k, share, trace, steps, n);
      StepKeepsInv(c, m, k, share, trace[n - 1], steps[n - 1]);
    }
  }

  lemma InitHasInv(c: Config, m: Meter, k: nat, share: nat)
    ensures Inv(c, m, k, share, Init)
  {
    assert Pending(m, Init) == {};
    assert share * k >= 0;
  }

  lemma RunTakesStep(c: Config, trace: seq<State>, steps: seq<Step>, n: nat)
    requires IsRun(c, trace, steps) && 0 < n < |trace|
    ensures Enabled(trace[n - 1], steps[n - 1]) && trace[n] == Apply(c, trace[n - 1], steps[n - 1])
  {
  }

  lemma RunStaysShared(m: Meter, k: nat, share: nat, trace: seq<State>, steps: seq<Step>, n: nat)
    requires |trace| == |steps| + 1 && 0 < n < |trace|
    requires AtMostInFlight(m, k, trace) && Shared(m, share, trace, steps)
    ensures WithinShare(m, share, trace[n - 1], steps[n - 1]) && |Pending(m, trace[n])| <= k
  {
  }

  /**
   In every reachable state, every gated counter stays below its ceiling plus what the
   requests in flight can still add, `share` being the most that any one of them adds.
   */
  lemma LimitIsSoftByInFlight(c: Config, m: Meter, k: nat, share: nat, trace: seq<State>, steps: seq<Step>, n: nat)
    requires Gated(m) && IsRun(c, trace, steps) && n < |trace|
    requires AtMostInFlight(m, k, trace) && Shared(m, share, trace, steps)
    requires Limit(c, m).Some?
    ensures Reading(m, trace[n].ledger, trace[n].now) <= Max(0, Limit(c, m).value - 1) + share * k
  {
    RunKeepsInv(c, m, k, share, trace, steps, n);
  }

  // ---- how many rows one request can be billed for ---------------------------------

  predicate MayUse(plan: Plan, capability: Capability) {
    capability in TEXT_CAPABILITIES && (plan.allowedCapabilities.Some? ==> capability in plan.allowedCapabilities.value)
  }

  /** The plan and the ceilings let some text request of the subject through, at least while nothing is spent. */
  predicate MayPay(c: Config, subject: SubjectId) {
    var plan := c.plans(subject);
    && plan.allowsPaidAi
    && (exists capability :: MayUse(plan, capability))
    && !Reached(0, plan.dailyCallLimit) && !Reached(0, plan.dailyBudget) && !Reached(0, plan.monthlyBudget)
    && !Reached(0, c.limits.dailyBudget) && !Reached(0, c.limits.hourlyBudget) && !Reached(0, c.limits.providerDailyBudget)
  }

  predicate MayVerify(plan: Plan) {
    plan.allowsVerifier && exists capability :: capability in STEM_CAPABILITIES && MayUse(plan, capability)
  }

  /** The most rows one request of the subject can be billed for: two attempts, and a verifier where it may run. */
  function MostRows(c: Config, subject: SubjectId): nat {
    if !MayPay(c, subject) then 0 else if MayVerify(c.plans(subject)) then 3 else 2
  }

  /** Every flight may write at most the rows its subject's plan allows. */
  predicate FlightsFit(c: Config, s: State) {
    forall id :: id in s.flights ==>
      && s.flights[id].decision.maxAttempts == 2
      && RowBudget(s.flights[id].decision) <= MostRows(c, s.flights[id].subject)
  }

  lemma AdmittedFits(c: Config, s: State, step: Step)
    requires step.Admit? && Decide(Seen(c, s, step)).PermitsPaidCall()
    ensures var d := Decide(Seen(c, s, step)); d.maxAttempts == 2 && RowBudget(d) <= MostRows(c, step.subject)
  {
    var seen := Seen(c, s, step);
    PaidIffEveryGatePasses(seen);
    DecisionShape(seen);
    assert MayUse(c.plans(step.subject), step.capability);
    assert Decide(seen) == SelectTier(seen);
  }

  lemma {:induction false} RunFits(c: Config, trace: seq<State>, steps: seq<Step>, n: nat)
    requires IsRun(c, trace, steps) && n < |trace|
    ensures FlightsFit(c, trace[n])
  {
    if n > 0 {
      RunFits(c, trace, steps, n - 1);
      var s, step := trace[n - 1], steps[n - 1];
      assert Enabled(s, step) && trace[n] == Apply(c, s, step);
      if step.Admit? && Decide(Seen(c, s, step)).PermitsPaidCall() {
        AdmittedFits(c, s, step);
      }
    }
  }

  lemma {:induction false} BilledAreRows(calls: seq<Call>)
    ensures BilledRows(calls) <= |calls|
  {
    if |calls| > 0 {
      BilledAreRows(calls[1..]);
    }
  }

  /** In every run, a request is billed for at most the rows its subject's plan allows: no hypothesis is needed. */
  lemma EveryRunIsShared(c: Config, subject: SubjectId, trace: seq<State>, steps: seq<Step>)
    requires IsRun(c, trace, steps)
    ensures Shared(DailyCalls(subject), MostRows(c, subject), trace, steps)
  {
    var m := DailyCalls(subject);
    forall i | 0 <= i < |steps| ensures WithinShare(m, MostRows(c, subject), trace[i], steps[i]) {
      var s, step := trace[i], steps[i];
      if step.Settle? && step.id in Pending(m, s) {
        var f := s.flights[step.id];
        RunFits(c, trace, steps, i);
        ExecutionIsBounded(f.decision, f.capability, f.blocked, step.judge, step.world);
        BilledAreRows(Outcome(s, step.id, step.judge, step.world).calls);
      }
    }
  }

}
