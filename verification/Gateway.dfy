/**
 The model gateway: one request, an ordered list of aliases, one hard cap on attempts.
 A provider is an arbitrary oracle that gives the response of each numbered attempt.
 */
module Gateway {
  import opened Common
  import opened BudgetPolicy

  datatype ErrorCategory = NoError | Timeout | RateLimit | ServerError | BadRequest | Auth | ContentFilter | Unknown

  predicate Retryable(e: ErrorCategory) {
    e in {Timeout, RateLimit, ServerError}
  }

  datatype ProviderResponse = ProviderResponse(text: string, inputTokens: nat, outputTokens: nat, error: ErrorCategory)

  datatype CatalogEntry = CatalogEntry(provider: Provider, modelId: string, inputRate: nat, outputRate: nat)
  {
    /** Micro-dollars at rates for a thousand tokens, rounded up: the least amount that does not under-report the bill. */
    function CostMicros(inputTokens: nat, outputTokens: nat): (cost: nat)
      ensures 1000 * cost >= inputTokens * inputRate + outputTokens * outputRate > 1000 * (cost - 1)
    {
      var total: int := inputTokens * inputRate + outputTokens * outputRate;
      -((-total) / 1000)
    }
  }

  datatype Call = Call(
    alias: ModelAlias, provider: Provider, modelId: string, text: string,
    inputTokens: nat, outputTokens: nat, error: ErrorCategory, cost: nat, attempt: nat)
  {
    predicate Succeeded() { error.NoError? }

    /** What the quota counts: output came back, or money was charged. */
    predicate Billed() { outputTokens > 0 || cost > 0 }
  }

  function ToCall(response: ProviderResponse, entry: CatalogEntry, alias: ModelAlias, attempt: nat): Call {
    Call(alias, entry.provider, entry.modelId, response.text, response.inputTokens, response.outputTokens,
         response.error, entry.CostMicros(response.inputTokens, response.outputTokens), attempt)
  }

  // The gateway of one request: catalog, adapters, and the vendors it must not be sent to.
  datatype Route = Route(catalog: map<ModelAlias, CatalogEntry>, adapters: set<Provider>, blocked: set<Provider>)
  {
    predicate Usable(alias: ModelAlias) {
      alias in catalog && catalog[alias].provider !in blocked && catalog[alias].provider in adapters
    }
  }

  type Oracle = nat -> ProviderResponse

  /** Attempts on one alias, until success, a non-retryable error or the ceiling. */
  function TryAlias(entry: CatalogEntry, alias: ModelAlias, ceiling: int, oracle: Oracle, sofar: seq<Call>): seq<Call>
    decreases ceiling - |sofar|
  {
    if |sofar| >= ceiling then sofar
    else
      var call := ToCall(oracle(|sofar| + 1), entry, alias, |sofar| + 1);
      if call.Succeeded() || !Retryable(call.error) then sofar + [call]
      else TryAlias(entry, alias, ceiling, oracle, sofar + [call])
  }

  predicate Done(attempts: seq<Call>) {
    attempts != [] && attempts[|attempts| - 1].Succeeded()
  }

  function Max(a: int, b: int): int { if a > b then a else b }

  /** The attempts of a whole request: one attempt stays reserved for each alias still to try. */
  function RunAliases(route: Route, aliases: seq<ModelAlias>, maxAttempts: int, oracle: Oracle, sofar: seq<Call>): seq<Call>
    decreases |aliases|
  {
    if aliases == [] then sofar
    else if !route.Usable(aliases[0]) then RunAliases(route, aliases[1..], maxAttempts, oracle, sofar)
    else
      var ceiling := Max(|sofar| + 1, maxAttempts - (|aliases| - 1));
      var after := TryAlias(route.catalog[aliases[0]], aliases[0], ceiling, oracle, sofar);
      if Done(after) || |after| >= maxAttempts then after
      else RunAliases(route, aliases[1..], maxAttempts, oracle, after)
  }

  function Successful(attempts: seq<Call>): Option<Call> {
    if Done(attempts) then Some(attempts[|attempts| - 1]) else None
  }

  function AliasList(primary: ModelAlias, fallback: Option<ModelAlias>): seq<ModelAlias> {
    [primary] + (if fallback.Some? then [fallback.value] else [])
  }

  /** The nested retry and fallback loop. */
  method Invoke(route: Route, aliases: seq<ModelAlias>, maxAttempts: int, oracle: Oracle)
    returns (call: Option<Call>, attempts: seq<Call>)
    ensures attempts == RunAliases(route, aliases, maxAttempts, oracle, [])
    ensures call == Successful(attempts)
  {
    call, attempts := None, [];
    var index := 0;
    while index < |aliases|
      invariant 0 <= index <= |aliases|
      invariant !Done(attempts)
      invariant RunAliases(route, aliases, maxAttempts, oracle, []) ==
                RunAliases(route, aliases[index..], maxAttempts, oracle, attempts)
    {
      var alias := aliases[index];
      index := index + 1;
      assert aliases[index - 1..][1..] == aliases[index..];
      if alias !in route.catalog {
        continue;
      }
      var entry := route.catalog[alias];
      if entry.provider in route.blocked || entry.provider !in route.adapters {
        continue;
      }
      var remaining := |aliases| - index;
      var ceiling := Max(|attempts| + 1, maxAttempts - remaining);
      ghost var before := attempts;
      while |attempts| < ceiling
        invariant |attempts| <= ceiling
        invariant !Done(attempts)
        invariant TryAlias(entry, alias, ceiling, oracle, before) == TryAlias(entry, alias, ceiling, oracle, attempts)
      {
        var made := ToCall(oracle(|attempts| + 1), entry, alias, |attempts| + 1);
        attempts := attempts + [made];
        if made.Succeeded() {
          return Some(made), attempts;
        }
        if !Retryable(made.error) {
          break;
        }
      }
      assert attempts == TryAlias(entry, alias, ceiling, oracle, before);
      if |attempts| >= maxAttempts {
        return;
      }
    }
  }

  /** Every attempt is numbered, priced from its alias' entry, and on a usable alias of the list. */
  ghost predicate Faithful(route: Route, aliases: seq<ModelAlias>, oracle: Oracle, attempts: seq<Call>) {
    forall i :: 0 <= i < |attempts| ==>
      && attempts[i].alias in aliases
      && route.Usable(attempts[i].alias)
      && attempts[i] == ToCall(oracle(i + 1), route.catalog[attempts[i].alias], attempts[i].alias, i + 1)
  }

  /** The whole response is on record, with the vendor and model that gave it and what it cost at that model's rates. */
  predicate Records(call: Call, response: ProviderResponse, entry: CatalogEntry) {
    && call.provider == entry.provider && call.modelId == entry.modelId
    && call.text == response.text && call.error == response.error
    && call.inputTokens == response.inputTokens && call.outputTokens == response.outputTokens
    && 1000 * call.cost >= response.inputTokens * entry.inputRate + response.outputTokens * entry.outputRate > 1000 * (call.cost - 1)
  }

  ghost predicate OnlyLastSucceeds(attempts: seq<Call>) {
    forall i :: 0 <= i < |attempts| - 1 ==> !attempts[i].Succeeded()
  }

  lemma {:induction false} TryAliasFaithful(
    route: Route, aliases: seq<ModelAlias>, alias: ModelAlias, ceiling: int, oracle: Oracle, sofar: seq<Call>)
    requires route.Usable(alias) && alias in aliases
    requires Faithful(route, aliases, oracle, sofar) && OnlyLastSucceeds(sofar) && !Done(sofar)
    ensures var after := TryAlias(route.catalog[alias], alias, ceiling, oracle, sofar);
            && sofar <= after && |after| <= Max(|sofar|, ceiling)
            && Faithful(route, aliases, oracle, after) && OnlyLastSucceeds(after)
            && (|sofar| < ceiling ==> |after| > |sofar| && after[|sofar|].alias == alias)
    decreases ceiling - |sofar|
  {
    if |sofar| < ceiling {
      var call := ToCall(oracle(|sofar| + 1), route.catalog[alias], alias, |sofar| + 1);
      if !call.Succeeded() && Retryable(call.error) {
        TryAliasFaithful(route, aliases, alias, ceiling, oracle, sofar + [call]);
      }
    }
  }

  lemma {:induction false} RunFaithful(
    route: Route, all: seq<ModelAlias>, k: nat, maxAttempts: int, oracle: Oracle, sofar: seq<Call>)
    requires k <= |all| && (|sofar| < maxAttempts || sofar == [])
    requires Faithful(route, all, oracle, sofar) && OnlyLastSucceeds(sofar) && !Done(sofar)
    ensures var after := RunAliases(route, all[k..], maxAttempts, oracle, sofar);
            sofar <= after && |after| <= Max(maxAttempts, 1) && Faithful(route, all, oracle, after) && OnlyLastSucceeds(after)
    decreases |all| - k
  {
    if k < |all| {
      assert all[k..][1..] == all[k + 1..];
      if !route.Usable(all[k]) {
        RunFaithful(route, all, k + 1, maxAttempts, oracle, sofar);
      } else {
        var ceiling := Max(|sofar| + 1, maxAttempts - (|all| - k - 1));
        TryAliasFaithful(route, all, all[k], ceiling, oracle, sofar);
        var after := TryAlias(route.catalog[all[k]], all[k], ceiling, oracle, sofar);
        if !Done(after) && |after| < maxAttempts {
          RunFaithful(route, all, k + 1, maxAttempts, oracle, after);
        }
      }
    }
  }

  /**
   For any alias list and any provider: attempts never exceed the cap, they are numbered
   1..n, a success is unique and last, and no blocked vendor is ever called.
   */
  lemma AttemptBudget(route: Route, aliases: seq<ModelAlias>, maxAttempts: nat, oracle: Oracle)
    requires maxAttempts >= 1
    ensures var attempts := RunAliases(route, aliases, maxAttempts, oracle, []);
            && |attempts| <= maxAttempts
            && OnlyLastSucceeds(attempts)
            && (forall i :: 0 <= i < |attempts| ==> attempts[i].attempt == i + 1 && attempts[i].provider !in route.blocked)
            && Faithful(route, aliases, oracle, attempts)
            && (forall i :: 0 <= i < |attempts| ==> Records(attempts[i], oracle(i + 1), route.catalog[attempts[i].alias]))
  {
    RunFaithful(route, aliases, 0, maxAttempts, oracle, []);
    assert aliases[0..] == aliases;
  }

  ghost predicate Tried(attempts: seq<Call>, alias: ModelAlias) {
    exists i :: 0 <= i < |attempts| && attempts[i].alias == alias
  }

  ghost predicate AllTried(route: Route, all: seq<ModelAlias>, k: nat, attempts: seq<Call>)
    requires k <= |all|
  {
    forall j :: 0 <= j < k && route.Usable(all[j]) ==> Tried(attempts, all[j])
  }

  lemma OneMoreTried(route: Route, all: seq<ModelAlias>, k: nat, sofar: seq<Call>, after: seq<Call>)
    requires k < |all| && AllTried(route, all, k, sofar) && sofar <= after
    requires route.Usable(all[k]) ==> Tried(after, all[k])
    ensures AllTried(route, all, k + 1, after)
  {
    forall j | 0 <= j < k && route.Usable(all[j])
      ensures Tried(after, all[j])
    {
      var i :| 0 <= i < |sofar| && sofar[i].alias == all[j];
      assert after[i].alias == all[j];
    }
  }

  lemma {:induction false} ReserveHolds(
    route: Route, all: seq<ModelAlias>, k: nat, maxAttempts: int, oracle: Oracle, sofar: seq<Call>)
    requires k <= |all| && |sofar| + (|all| - k) <= maxAttempts
    requires Faithful(route, all, oracle, sofar) && OnlyLastSucceeds(sofar) && !Done(sofar)
    requires AllTried(route, all, k, sofar)
    ensures var after := RunAliases(route, all[k..], maxAttempts, oracle, sofar);
            Done(after) || AllTried(route, all, |all|, after)
    decreases |all| - k
  {
    if k < |all| {
      assert all[k..][1..] == all[k + 1..];
      if !route.Usable(all[k]) {
        OneMoreTried(route, all, k, sofar, sofar);
        ReserveHolds(route, all, k + 1, maxAttempts, oracle, sofar);
      } else {
        var ceiling := Max(|sofar| + 1, maxAttempts - (|all| - k - 1));
        TryAliasFaithful(route, all, all[k], ceiling, oracle, sofar);
        var after := TryAlias(route.catalog[all[k]], all[k], ceiling, oracle, sofar);
        assert after[|sofar|].alias == all[k];
        OneMoreTried(route, all, k, sofar, after);
        if !Done(after) && |after| < maxAttempts {
          ReserveHolds(route, all, k + 1, maxAttempts, oracle, after);
        }
      }
    }
  }

  /** With at least one attempt per alias, every usable alias is tried unless one succeeded before it. */
  lemma EveryUsableAliasIsTried(route: Route, aliases: seq<ModelAlias>, maxAttempts: nat, oracle: Oracle)
    requires maxAttempts >= |aliases|
    ensures var attempts := RunAliases(route, aliases, maxAttempts, oracle, []);
            Successful(attempts).None? ==>
              forall j :: 0 <= j < |aliases| && route.Usable(aliases[j]) ==> Tried(attempts, aliases[j])
  {
    ReserveHolds(route, aliases, 0, maxAttempts, oracle, []);
    assert aliases[0..] == aliases;
  }

  /** No alias repeats after an error that would fail identically again. */
  ghost predicate StopsOnHardError(attempts: seq<Call>) {
    forall i, j :: 0 <= i < j < |attempts| && attempts[i].alias == attempts[j].alias ==> Retryable(attempts[i].error)
  }

  lemma {:induction false} TryAliasStops(entry: CatalogEntry, alias: ModelAlias, ceiling: int, oracle: Oracle, sofar: seq<Call>)
    requires StopsOnHardError(sofar)
    requires forall i :: 0 <= i < |sofar| && sofar[i].alias == alias ==> Retryable(sofar[i].error)
    ensures var after := TryAlias(entry, alias, ceiling, oracle, sofar);
            StopsOnHardError(after) && forall i :: 0 <= i < |after| ==> after[i].alias == alias || after[i] in sofar
    decreases ceiling - |sofar|
  {
    if |sofar| < ceiling {
      var call := ToCall(oracle(|sofar| + 1), entry, alias, |sofar| + 1);
      if !call.Succeeded() && Retryable(call.error) {
        TryAliasStops(entry, alias, ceiling, oracle, sofar + [call]);
      }
    }
  }

  predicate Different(aliases: seq<ModelAlias>) {
    forall i, j :: 0 <= i < j < |aliases| ==> aliases[i] != aliases[j]
  }

  lemma {:induction false} HardErrorIsNotRetried(
    route: Route, aliases: seq<ModelAlias>, maxAttempts: int, oracle: Oracle, sofar: seq<Call>)
    requires Different(aliases)
    requires StopsOnHardError(sofar) && forall i :: 0 <= i < |sofar| ==> sofar[i].alias !in aliases
    ensures StopsOnHardError(RunAliases(route, aliases, maxAttempts, oracle, sofar))
    decreases |aliases|
  {
    if aliases != [] {
      if !route.Usable(aliases[0]) {
        HardErrorIsNotRetried(route, aliases[1..], maxAttempts, oracle, sofar);
      } else {
        var ceiling := Max(|sofar| + 1, maxAttempts - (|aliases| - 1));
        TryAliasStops(route.catalog[aliases[0]], aliases[0], ceiling, oracle, sofar);
        var after := TryAlias(route.catalog[aliases[0]], aliases[0], ceiling, oracle, sofar);
        if !Done(after) && |after| < maxAttempts {
          HardErrorIsNotRetried(route, aliases[1..], maxAttempts, oracle, after);
        }
      }
    }
  }

  /** A request for one alias with one attempt. */
  lemma OneAttempt(route: Route, alias: ModelAlias, oracle: Oracle)
    ensures RunAliases(route, [alias], 1, oracle, [])
         == if route.Usable(alias) then [ToCall(oracle(1), route.catalog[alias], alias, 1)] else []
  {
    var one := [alias];
    assert one[0] == alias && one[1..] == [];
    if route.Usable(alias) {
      var call := ToCall(oracle(1), route.catalog[alias], alias, 1);
      assert TryAlias(route.catalog[alias], alias, 1, oracle, [call]) == [call];
      assert TryAlias(route.catalog[alias], alias, 1, oracle, []) == [] + [call];
    }
  }

  // ---- which alias is called next -----------------------------------------------------------

  predicate GaveUp(call: Call) {
    call.error !in {Timeout, RateLimit, ServerError}
  }

  // One attempt is kept for each alias behind the k-th.
  function CeilingOf(aliases: seq<ModelAlias>, k: nat, maxAttempts: int): int {
    maxAttempts - (|aliases| - 1 - k)
  }

  /** The k-th alias may be called: it is usable, it has not given up, and the aliases behind it keep one attempt each. */
  predicate Open(route: Route, aliases: seq<ModelAlias>, maxAttempts: int, k: nat, sofar: seq<Call>) {
    && k < |aliases| && aliases[k] in route.catalog
    && route.catalog[aliases[k]].provider in route.adapters && route.catalog[aliases[k]].provider !in route.blocked
    && |sofar| < maxAttempts - (|aliases| - 1 - k)
    && forall i :: 0 <= i < |sofar| && sofar[i].alias == aliases[k] ==> !GaveUp(sofar[i])
  }

  predicate NoneOpen(route: Route, aliases: seq<ModelAlias>, maxAttempts: int, k: nat, sofar: seq<Call>) {
    forall h :: 0 <= h < k ==> !Open(route, aliases, maxAttempts, h, sofar)
  }

  /** The alias is the first of the list that may be called. */
  predicate IsNext(route: Route, aliases: seq<ModelAlias>, maxAttempts: int, sofar: seq<Call>, alias: ModelAlias) {
    exists k: nat :: k < |aliases| && NoneOpen(route, aliases, maxAttempts, k, sofar)
      && Open(route, aliases, maxAttempts, k, sofar) && aliases[k] == alias
  }

  ghost predicate InTurn(route: Route, aliases: seq<ModelAlias>, maxAttempts: int, attempts: seq<Call>) {
    forall i :: 0 <= i < |attempts| ==> IsNext(route, aliases, maxAttempts, attempts[..i], attempts[i].alias)
  }

  lemma StaysClosed(route: Route, all: seq<ModelAlias>, maxAttempts: int, k: nat, sofar: seq<Call>, more: seq<Call>)
    requires NoneOpen(route, all, maxAttempts, k, sofar) && sofar <= more
    ensures NoneOpen(route, all, maxAttempts, k, more)
  {
    forall h | 0 <= h < k ensures !Open(route, all, maxAttempts, h, more) {
      if Open(route, all, maxAttempts, h, more) {
        assert forall i :: 0 <= i < |sofar| ==> sofar[i] == more[i];
        assert Open(route, all, maxAttempts, h, sofar);
      }
    }
  }

  lemma OneMoreInTurn(route: Route, all: seq<ModelAlias>, maxAttempts: int, k: nat, sofar: seq<Call>, call: Call)
    requires InTurn(route, all, maxAttempts, sofar) && NoneOpen(route, all, maxAttempts, k, sofar)
    requires Open(route, all, maxAttempts, k, sofar) && call.alias == all[k]
    ensures InTurn(route, all, maxAttempts, sofar + [call])
  {
    var after := sofar + [call];
    forall i | 0 <= i < |after| ensures IsNext(route, all, maxAttempts, after[..i], after[i].alias) {
      assert after[..i] == sofar[..i];
      assert sofar[..|sofar|] == sofar;
    }
  }

  predicate NotCalled(sofar: seq<Call>, aliases: seq<ModelAlias>) {
    forall i :: 0 <= i < |sofar| ==> sofar[i].alias !in aliases
  }

  predicate HasNotGivenUp(sofar: seq<Call>, alias: ModelAlias) {
    forall i :: 0 <= i < |sofar| && sofar[i].alias == alias ==> !GaveUp(sofar[i])
  }

  /** One more call on the alias whose turn it is: it may be called again, or it is closed, or the run is done. */
  lemma OneCallInTurn(route: Route, all: seq<ModelAlias>, k: nat, maxAttempts: int, sofar: seq<Call>, call: Call)
    requires k < |all| && route.Usable(all[k]) && |sofar| < CeilingOf(all, k, maxAttempts)
    requires InTurn(route, all, maxAttempts, sofar) && NoneOpen(route, all, maxAttempts, k, sofar)
    requires HasNotGivenUp(sofar, all[k]) && call.alias == all[k]
    ensures InTurn(route, all, maxAttempts, sofar + [call]) && NoneOpen(route, all, maxAttempts, k, sofar + [call])
    ensures if GaveUp(call) then NoneOpen(route, all, maxAttempts, k + 1, sofar + [call]) else HasNotGivenUp(sofar + [call], all[k])
  {
    OneMoreInTurn(route, all, maxAttempts, k, sofar, call);
    StaysClosed(route, all, maxAttempts, k, sofar, sofar + [call]);
    if GaveUp(call) {
      assert (sofar + [call])[|sofar|] == call;
    }
  }

  lemma {:induction false} TryAliasInTurn(
    route: Route, all: seq<ModelAlias>, k: nat, maxAttempts: int, oracle: Oracle, sofar: seq<Call>)
    requires k < |all| && route.Usable(all[k])
    requires InTurn(route, all, maxAttempts, sofar) && NoneOpen(route, all, maxAttempts, k, sofar)
    requires HasNotGivenUp(sofar, all[k])
    ensures var after := TryAlias(route.catalog[all[k]], all[k], CeilingOf(all, k, maxAttempts), oracle, sofar);
            InTurn(route, all, maxAttempts, after) && (Done(after) || NoneOpen(route, all, maxAttempts, k + 1, after))
    decreases CeilingOf(all, k, maxAttempts) - |sofar|
  {
    if |sofar| < CeilingOf(all, k, maxAttempts) {
      var call := ToCall(oracle(|sofar| + 1), route.catalog[all[k]], all[k], |sofar| + 1);
      OneCallInTurn(route, all, k, maxAttempts, sofar, call);
      if !call.Succeeded() && Retryable(call.error) {
        TryAliasInTurn(route, all, k, maxAttempts, oracle, sofar + [call]);
      }
    }
  }

  lemma {:induction false} TryAliasCalls(entry: CatalogEntry, alias: ModelAlias, ceiling: int, oracle: Oracle, sofar: seq<Call>)
    ensures var after := TryAlias(entry, alias, ceiling, oracle, sofar);
            && (|sofar| <= ceiling ==> |after| <= ceiling)
            && forall i :: 0 <= i < |after| ==> after[i].alias == alias || after[i] in sofar
    decreases ceiling - |sofar|
  {
    if |sofar| < ceiling {
      var call := ToCall(oracle(|sofar| + 1), entry, alias, |sofar| + 1);
      if !call.Succeeded() && Retryable(call.error) {
        TryAliasCalls(entry, alias, ceiling, oracle, sofar + [call]);
      }
    }
  }

  /** One alias of a run that began with an attempt in reserve for each. */
  lemma RunUnfolds(route: Route, all: seq<ModelAlias>, k: nat, maxAttempts: int, oracle: Oracle, sofar: seq<Call>)
    requires k < |all| && |sofar| + (|all| - k) <= maxAttempts
    ensures RunAliases(route, all[k..], maxAttempts, oracle, sofar) ==
            if !route.Usable(all[k]) then RunAliases(route, all[k + 1..], maxAttempts, oracle, sofar)
            else
              var after := TryAlias(route.catalog[all[k]], all[k], CeilingOf(all, k, maxAttempts), oracle, sofar);
              if Done(after) || |after| >= maxAttempts then after
              else RunAliases(route, all[k + 1..], maxAttempts, oracle, after)
  {
    var rest := all[k..];
    assert rest[0] == all[k] && rest[1..] == all[k + 1..];
    assert Max(|sofar| + 1, maxAttempts - (|rest| - 1)) == CeilingOf(all, k, maxAttempts);
  }

  lemma OthersNotCalled(all: seq<ModelAlias>, k: nat, sofar: seq<Call>, after: seq<Call>)
    requires k < |all| && Different(all) && NotCalled(sofar, all[k..])
    requires forall i :: 0 <= i < |after| ==> after[i].alias == all[k] || after[i] in sofar
    ensures NotCalled(after, all[k + 1..])
  {
    forall i | 0 <= i < |after| ensures after[i].alias !in all[k + 1..] {
      if after[i] in sofar {
        assert after[i].alias !in all[k..];
        assert forall j :: k < j < |all| ==> all[j] in all[k..];
      }
    }
  }

  lemma NotCalledYet(all: seq<ModelAlias>, k: nat, sofar: seq<Call>)
    requires k < |all| && NotCalled(sofar, all[k..])
    ensures NotCalled(sofar, all[k + 1..])
    ensures forall i :: 0 <= i < |sofar| ==> sofar[i].alias != all[k]
  {
    assert all[k..][0] == all[k];
    assert forall j :: k < j < |all| ==> all[j] in all[k..];
  }

  /** The run has come to the k-th alias: every alias before it is closed, none from it on was called. */
  ghost predicate AtAlias(route: Route, all: seq<ModelAlias>, maxAttempts: int, k: nat, sofar: seq<Call>) {
    && k <= |all| && |sofar| + (|all| - k) <= maxAttempts
    && NotCalled(sofar, all[k..])
    && InTurn(route, all, maxAttempts, sofar)
    && NoneOpen(route, all, maxAttempts, k, sofar)
  }

  ghost predicate Ended(route: Route, all: seq<ModelAlias>, maxAttempts: int, attempts: seq<Call>) {
    && InTurn(route, all, maxAttempts, attempts)
    && (Done(attempts) || NoneOpen(route, all, maxAttempts, |all|, attempts))
  }

  lemma SkippedInTurn(route: Route, all: seq<ModelAlias>, maxAttempts: int, k: nat, sofar: seq<Call>)
    requires AtAlias(route, all, maxAttempts, k, sofar) && k < |all| && !route.Usable(all[k])
    ensures AtAlias(route, all, maxAttempts, k + 1, sofar)
  {
    NotCalledYet(all, k, sofar);
  }

  lemma AliasIsDone(route: Route, all: seq<ModelAlias>, maxAttempts: int, k: nat, sofar: seq<Call>, after: seq<Call>)
    requires AtAlias(route, all, maxAttempts, k, sofar) && k < |all| && Different(all)
    requires InTurn(route, all, maxAttempts, after) && (Done(after) || NoneOpen(route, all, maxAttempts, k + 1, after))
    requires |after| <= CeilingOf(all, k, maxAttempts)
    requires forall i :: 0 <= i < |after| ==> after[i].alias == all[k] || after[i] in sofar
    ensures if Done(after) || |after| >= maxAttempts then Ended(route, all, maxAttempts, after)
            else AtAlias(route, all, maxAttempts, k + 1, after)
  {
    OthersNotCalled(all, k, sofar, after);
  }

  lemma AliasInTurn(route: Route, all: seq<ModelAlias>, maxAttempts: int, k: nat, oracle: Oracle, sofar: seq<Call>)
    requires AtAlias(route, all, maxAttempts, k, sofar) && k < |all| && route.Usable(all[k]) && Different(all)
    ensures var after := TryAlias(route.catalog[all[k]], all[k], CeilingOf(all, k, maxAttempts), oracle, sofar);
            if Done(after) || |after| >= maxAttempts then Ended(route, all, maxAttempts, after)
            else AtAlias(route, all, maxAttempts, k + 1, after)
  {
    var entry, ceiling := route.catalog[all[k]], CeilingOf(all, k, maxAttempts);
    NotCalledYet(all, k, sofar);
    TryAliasInTurn(route, all, k, maxAttempts, oracle, sofar);
    TryAliasCalls(entry, all[k], ceiling, oracle, sofar);
    AliasIsDone(route, all, maxAttempts, k, sofar, TryAlias(entry, all[k], ceiling, oracle, sofar));
  }

  lemma {:induction false} RunInTurn(
    route: Route, all: seq<ModelAlias>, k: nat, maxAttempts: int, oracle: Oracle, sofar: seq<Call>)
    requires AtAlias(route, all, maxAttempts, k, sofar) && Different(all)
    ensures Ended(route, all, maxAttempts, RunAliases(route, all[k..], maxAttempts, oracle, sofar))
    decreases |all| - k
  {
    if k < |all| {
      RunUnfolds(route, all, k, maxAttempts, oracle, sofar);
      if !route.Usable(all[k]) {
        SkippedInTurn(route, all, maxAttempts, k, sofar);
        RunInTurn(route, all, k + 1, maxAttempts, oracle, sofar);
      } else {
        var after := TryAlias(route.catalog[all[k]], all[k], CeilingOf(all, k, maxAttempts), oracle, sofar);
        AliasInTurn(route, all, maxAttempts, k, oracle, sofar);
        if !Done(after) && |after| < maxAttempts {
          RunInTurn(route, all, k + 1, maxAttempts, oracle, after);
        }
      }
    }
  }

  /**
   The attempts of a request, one by one: each is on the first alias of the list that is usable,
   has not failed for good and leaves an attempt for every alias behind it; and they only end
   with a success or when there is no such alias.
   */
  lemma FirstOpenAliasIsCalled(route: Route, aliases: seq<ModelAlias>, maxAttempts: nat, oracle: Oracle)
    requires maxAttempts >= |aliases| && Different(aliases)
    ensures var attempts := RunAliases(route, aliases, maxAttempts, oracle, []);
            && InTurn(route, aliases, maxAttempts, attempts)
            && (Done(attempts) || NoneOpen(route, aliases, maxAttempts, |aliases|, attempts))
  {
    assert aliases[0..] == aliases;
    assert AtAlias(route, aliases, maxAttempts, 0, []);
    RunInTurn(route, aliases, 0, maxAttempts, oracle, []);
  }
}
