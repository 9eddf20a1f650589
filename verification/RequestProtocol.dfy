/**
 The request protocol as a state machine: any number of workers interleave their first
 transaction, their paid call (no transaction held) and their second transaction over
 one `idempotency_keys` table, and any of them may die at any point.
 */
module RequestProtocol {
  import opened Common
  import opened Idempotency

  type WorkerId = nat

  // A worker that owns a claim and has neither settled nor died.
  datatype Worker = Worker(key: Key, claimedAt: Time, paid: bool)

  datatype Reply = Reply(key: Key, response: Response)

  datatype State = State(
    now: Time,
    rows: Rows,
    live: map<WorkerId, Worker>,
    paid: multiset<Key>,        // paid executions so far, per key
    dead: multiset<Key>,        // claimants that died before settling, per key
    replays: seq<Reply>)        // every stored response handed back to a redelivery

  datatype Step =
    | Tick(to: Time)
    | Tx1(worker: WorkerId, key: Key, intent: Intent)
    | Pay(worker: WorkerId)
    | Tx2(worker: WorkerId, json: string, conversation: Option<nat>)
    | Crash(worker: WorkerId)

  const Init := State(0, map[], map[], multiset{}, multiset{}, [])

  predicate Enabled(s: State, step: Step) {
    match step
    case Tick(to) => s.now <= to
    case Tx1(w, _, _) => w !in s.live
    case Pay(w) => w in s.live && !s.live[w].paid
    case Tx2(w, _, _) => w in s.live
    case Crash(w) => w in s.live
  }

  function Apply(s: State, step: Step): State
    requires Enabled(s, step)
  {
    match step
    case Tick(to) => s.(now := to)
    case Tx1(w, key, intent) =>
      var rows := Tx1Rows(s.rows, key, s.now, intent);
      (match Tx1Outcome(s.rows, key, s.now, intent)
       case Started => s.(rows := rows, live := s.live[w := Worker(key, s.now, false)])
       case Replayed(r) => s.(rows := rows, replays := s.replays + [Reply(key, r)])
       case _ => s.(rows := rows))
    case Pay(w) =>
      var me := s.live[w];
      s.(live := s.live[w := me.(paid := true)], paid := s.paid + multiset{me.key})
    case Tx2(w, json, conversation) =>
      s.(rows := Store(s.rows, s.live[w].key, conversation, Body(json), s.now), live := s.live - {w})
    case Crash(w) =>
      s.(live := s.live - {w}, dead := s.dead + multiset{s.live[w].key})
  }

  ghost predicate IsRun(trace: seq<State>, steps: seq<Step>) {
    && |trace| == |steps| + 1
    && trace[0] == Init
    && forall i :: 0 <= i < |steps| ==> Enabled(trace[i], steps[i]) && trace[i + 1] == Apply(trace[i], steps[i])
  }

  /** The deployment's hypothesis: a live claimant is never older than STALE_CLAIM_AFTER. */
  ghost predicate Timely(s: State) {
    forall w :: w in s.live ==> s.now <= s.live[w].claimedAt + STALE_CLAIM_AFTER
  }

  ghost predicate TimelyRun(trace: seq<State>) {
    forall i :: 0 <= i < |trace| ==> Timely(trace[i])
  }

  /** Some live claimant of the key is older than the takeover age. */
  ghost predicate Overdue(s: State, key: Key) {
    exists v :: v in s.live && s.live[v].key == key && s.live[v].claimedAt + STALE_CLAIM_AFTER < s.now
  }

  ghost predicate Undisturbing(s: State, step: Step) {
    step.Tx1? ==> !Overdue(s, step.key)
  }

  /** All that safety needs: whenever a first transaction comes, no live claimant of its own key is overdue. */
  ghost predicate UndisturbedRun(trace: seq<State>, steps: seq<Step>)
    requires |trace| == |steps| + 1
  {
    forall i :: 0 <= i < |steps| ==> Undisturbing(trace[i], steps[i])
  }

  lemma TimelyRunsAreUndisturbed(trace: seq<State>, steps: seq<Step>)
    requires |trace| == |steps| + 1 && TimelyRun(trace)
    ensures UndisturbedRun(trace, steps)
  {
    forall i | 0 <= i < |steps| ensures Undisturbing(trace[i], steps[i]) {
      assert Timely(trace[i]);
    }
  }

  ghost predicate AtMostOneLive(s: State) {
    forall v, w :: v in s.live && w in s.live && s.live[v].key == s.live[w].key ==> v == w
  }

  ghost predicate PaidByLive(s: State, key: Key) {
    exists w :: w in s.live && s.live[w].key == key && s.live[w].paid
  }

  /** 1 when the key is done or its live claimant has already paid. */
  ghost function Settling(s: State, key: Key): nat {
    if Completed(s.rows, key) || PaidByLive(s, key) then 1 else 0
  }

  /** Each live worker's claim is the one on record, and unfinished. */
  ghost predicate ClaimsHold(s: State) {
    forall w :: w in s.live ==>
      && s.live[w].key in s.rows
      && !Completed(s.rows, s.live[w].key)
      && s.rows[s.live[w].key].claimedAt == s.live[w].claimedAt <= s.now
  }

  ghost predicate PaidOnceButForTheDead(s: State) {
    forall key :: s.paid[key] <= s.dead[key] + Settling(s, key)
  }

  /** Whatever was replayed is what is stored, and what is stored is a response. */
  ghost predicate ReplaysAgree(s: State) {
    && (forall key :: Completed(s.rows, key) ==> s.rows[key].response.Body?)
    && (forall i :: 0 <= i < |s.replays| ==> Replayable(s.rows, s.replays[i].key) == Some(s.replays[i].response))
  }

  ghost predicate Inv(s: State) {
    AtMostOneLive(s) && ClaimsHold(s) && PaidOnceButForTheDead(s) && ReplaysAgree(s)
  }

  /** Every step that takes over no live claimant keeps the invariant and every completed row. */
  lemma StepKeepsInv(s: State, step: Step)
    requires Inv(s) && Enabled(s, step) && Undisturbing(s, step)
    ensures Inv(Apply(s, step))
    ensures forall key :: Completed(s.rows, key) ==> key in Apply(s, step).rows && Apply(s, step).rows[key] == s.rows[key]
  {
    match step
    case Tick(_) =>
    case Tx1(w, key, intent) => Tx1KeepsInv(s, w, key, intent);
    case Pay(w) => PayKeepsInv(s, w);
    case Tx2(w, json, conversation) => Tx2KeepsInv(s, w, json, conversation);
    case Crash(w) => CrashKeepsInv(s, w);
  }

  lemma Tx1KeepsInv(s: State, w: WorkerId, key: Key, intent: Intent)
    requires Inv(s) && !Overdue(s, key) && w !in s.live
    ensures var t := Apply(s, Tx1(w, key, intent));
            Inv(t) && forall k :: Completed(s.rows, k) ==> k in t.rows && t.rows[k] == s.rows[k]
  {
    if !ClaimWins(s.rows, key, s.now) {
      LostClaimKeepsInv(s, w, key, intent);
    } else if intent.Execute? {
      StartKeepsInv(s, w, key);
    } else {
      AnswerKeepsInv(s, w, key, intent);
    }
  }

  lemma LostClaimKeepsInv(s: State, w: WorkerId, key: Key, intent: Intent)
    requires Inv(s) && w !in s.live && !ClaimWins(s.rows, key, s.now)
    ensures var t := Apply(s, Tx1(w, key, intent));
            Inv(t) && t.rows == s.rows
  {
    var t := Apply(s, Tx1(w, key, intent));
    assert t.rows == s.rows && t.live == s.live && t.paid == s.paid && t.dead == s.dead;
    forall k
      ensures t.paid[k] <= t.dead[k] + Settling(t, k)
    {
      StillAccounted(s, t, k);
    }
  }

  /** Where nobody is overdue, a claim that wins finds no live claimant of its key. */
  lemma WinnerIsAlone(s: State, key: Key)
    requires Inv(s) && !Overdue(s, key) && ClaimWins(s.rows, key, s.now)
    ensures forall v :: v in s.live ==> s.live[v].key != key
    ensures !Completed(s.rows, key) && s.paid[key] <= s.dead[key]
  {
  }

  lemma StartKeepsInv(s: State, w: WorkerId, key: Key)
    requires Inv(s) && !Overdue(s, key) && w !in s.live && ClaimWins(s.rows, key, s.now)
    ensures Inv(Apply(s, Tx1(w, key, Execute)))
  {
    WinnerIsAlone(s, key);
    var t := Apply(s, Tx1(w, key, Execute));
    StartedClaimHolds(s, t, w, key);
    forall k
      ensures t.paid[k] <= t.dead[k] + Settling(t, k)
    {
      StillAccounted(s, t, k);
    }
  }

  lemma StartedClaimHolds(s: State, t: State, w: WorkerId, key: Key)
    requires AtMostOneLive(s) && ClaimsHold(s) && ReplaysAgree(s) && !Completed(s.rows, key)
    requires forall v :: v in s.live ==> s.live[v].key != key
    requires t.live == s.live[w := Worker(key, t.now, false)] && t.replays == s.replays && t.now == s.now
    requires key in t.rows && t.rows == s.rows[key := t.rows[key]] && !Completed(t.rows, key) && t.rows[key].claimedAt == t.now
    ensures AtMostOneLive(t) && ClaimsHold(t) && ReplaysAgree(t)
  {
    assert forall k :: k != key ==> (k in t.rows <==> k in s.rows);
  }

  lemma AnswerKeepsInv(s: State, w: WorkerId, key: Key, intent: Intent)
    requires Inv(s) && !Overdue(s, key) && w !in s.live && ClaimWins(s.rows, key, s.now) && intent.Answer?
    ensures Inv(Apply(s, Tx1(w, key, intent)))
  {
    WinnerIsAlone(s, key);
    var t := Apply(s, Tx1(w, key, intent));
    AnsweredKeyIsStored(s, t, key);
    forall k
      ensures t.paid[k] <= t.dead[k] + Settling(t, k)
    {
      StillAccounted(s, t, k);
    }
  }

  lemma AnsweredKeyIsStored(s: State, t: State, key: Key)
    requires AtMostOneLive(s) && ClaimsHold(s) && ReplaysAgree(s) && !Completed(s.rows, key)
    requires forall v :: v in s.live ==> s.live[v].key != key
    requires t.live == s.live && t.replays == s.replays && t.now == s.now
    requires key in t.rows && t.rows == s.rows[key := t.rows[key]] && Completed(t.rows, key) && t.rows[key].response.Body?
    ensures AtMostOneLive(t) && ClaimsHold(t) && ReplaysAgree(t)
  {
    assert forall k :: k != key ==> (k in t.rows <==> k in s.rows);
  }

  /** A step that pays nothing, loses nobody of `key` and completes no less keeps its account. */
  lemma StillAccounted(s: State, t: State, key: Key)
    requires s.paid[key] <= s.dead[key] + Settling(s, key)
    requires t.paid == s.paid && t.dead == s.dead
    requires Completed(s.rows, key) ==> Completed(t.rows, key)
    requires forall v :: v in s.live && s.live[v].key == key ==> v in t.live && t.live[v] == s.live[v]
    ensures t.paid[key] <= t.dead[key] + Settling(t, key)
  {
    LivePaidKept(s, t, key);
  }

  /** Workers of `key` that are still there keep its paid mark. */
  lemma LivePaidKept(s: State, t: State, key: Key)
    requires forall v :: v in s.live && s.live[v].key == key ==> v in t.live && t.live[v] == s.live[v]
    ensures PaidByLive(s, key) ==> PaidByLive(t, key)
  {
    if PaidByLive(s, key) {
      var v :| v in s.live && s.live[v].key == key && s.live[v].paid;
      assert t.live[v].paid;
    }
  }

  lemma PayKeepsInv(s: State, w: WorkerId)
    requires Inv(s) && w in s.live && !s.live[w].paid
    ensures Inv(Apply(s, Pay(w)))
  {
    var t := Apply(s, Pay(w));
    forall k
      ensures t.paid[k] <= t.dead[k] + Settling(t, k)
    {
      if k == s.live[w].key {
        assert t.live[w].paid;
        assert PaidByLive(t, k);
      } else {
        LivePaidKept(s, t, k);
      }
    }
  }

  lemma Tx2KeepsInv(s: State, w: WorkerId, json: string, conversation: Option<nat>)
    requires Inv(s) && w in s.live
    ensures var t := Apply(s, Tx2(w, json, conversation));
            Inv(t) && forall k :: Completed(s.rows, k) ==> k in t.rows && t.rows[k] == s.rows[k]
  {
    var t := Apply(s, Tx2(w, json, conversation));
    forall k
      ensures t.paid[k] <= t.dead[k] + Settling(t, k)
    {
      if k != s.live[w].key {
        LivePaidKept(s, t, k);
      }
    }
  }

  lemma CrashKeepsInv(s: State, w: WorkerId)
    requires Inv(s) && w in s.live
    ensures Inv(Apply(s, Crash(w)))
  {
    var t := Apply(s, Crash(w));
    forall k
      ensures t.paid[k] <= t.dead[k] + Settling(t, k)
    {
      if k != s.live[w].key {
        LivePaidKept(s, t, k);
      }
    }
  }

  lemma {:induction false} RunKeepsInv(trace: seq<State>, steps: seq<Step>, n: nat)
    requires IsRun(trace, steps) && UndisturbedRun(trace, steps) && n < |trace|
    ensures Inv(trace[n])
  {
    if n > 0 {
      RunKeepsInv(trace, steps, n - 1);
      StepKeepsInv(trace[n - 1], steps[n - 1]);
    }
  }

  /** Safety of every undisturbed run, in every state it passes through. */
  lemma UndisturbedRunIsSafe(trace: seq<State>, steps: seq<Step>, n: nat, key: Key)
    requires IsRun(trace, steps) && UndisturbedRun(trace, steps) && n < |trace|
    ensures AtMostOneLive(trace[n])
    ensures trace[n].paid[key] <= 1 + trace[n].dead[key]
    ensures forall i :: 0 <= i < |trace[n].replays| ==>
              Replayable(trace[n].rows, trace[n].replays[i].key) == Some(trace[n].replays[i].response)
  {
    RunKeepsInv(trace, steps, n);
  }

  /** Once completed, a key's row, and so its stored response, never changes again. */
  lemma {:induction false} CompletedIsForever(trace: seq<State>, steps: seq<Step>, i: nat, j: nat, key: Key)
    requires IsRun(trace, steps) && UndisturbedRun(trace, steps) && i <= j < |trace|
    requires Completed(trace[i].rows, key)
    ensures key in trace[j].rows && trace[j].rows[key] == trace[i].rows[key]
    decreases j
  {
    if i < j {
      CompletedIsForever(trace, steps, i, j - 1, key);
      RunKeepsInv(trace, steps, j - 1);
      StepKeepsInv(trace[j - 1], steps[j - 1]);
    }
  }

  /** A redelivery of a completed key is answered with that response, and executes nothing. */
  lemma RedeliveryReplays(trace: seq<State>, steps: seq<Step>, i: nat, j: nat, w: WorkerId, key: Key, intent: Intent)
    requires IsRun(trace, steps) && UndisturbedRun(trace, steps) && i <= j < |trace|
    requires Completed(trace[i].rows, key) && w !in trace[j].live
    ensures var t := Apply(trace[j], Tx1(w, key, intent));
            t == trace[j].(replays := trace[j].replays + [Reply(key, trace[i].rows[key].response)])
  {
    CompletedIsForever(trace, steps, i, j, key);
    RunKeepsInv(trace, steps, j);
    CompletedRowIsReplayed(trace[j].rows, key, key, trace[j].now, intent);
  }

  // ---- what is replayed is what was sent ------------------------------------------------

  /** The step settles the key with this text, and sends it: an immediate answer, or a second transaction. */
  ghost predicate Sends(s: State, step: Step, key: Key, json: string) {
    match step
    case Tx1(_, k, intent) =>
      k == key && intent.Answer? && intent.json == json && Tx1Outcome(s.rows, key, s.now, intent) == Answered(Body(json))
    case Tx2(w, text, _) => w in s.live && s.live[w].key == key && text == json
    case _ => false
  }

  lemma SendingCompletes(s: State, step: Step, key: Key, json: string)
    requires Enabled(s, step) && Sends(s, step, key, json)
    ensures Completed(Apply(s, step).rows, key) && Apply(s, step).rows[key].response == Body(json)
  {
  }

  /**
   Whatever was sent for a key, at once or after a paid call, every redelivery from then on replays,
   and executes nothing.
   */
  lemma SentIsReplayed(
    trace: seq<State>, steps: seq<Step>, i: nat, j: nat, key: Key, json: string, w: WorkerId, again: Intent)
    requires IsRun(trace, steps) && UndisturbedRun(trace, steps) && i < j < |trace|
    requires Sends(trace[i], steps[i], key, json) && w !in trace[j].live
    ensures var t := Apply(trace[j], Tx1(w, key, again));
            t == trace[j].(replays := trace[j].replays + [Reply(key, Body(json))])
  {
    assert Enabled(trace[i], steps[i]) && trace[i + 1] == Apply(trace[i], steps[i]);
    SendingCompletes(trace[i], steps[i], key, json);
    RedeliveryReplays(trace, steps, i + 1, j, w, key, again);
  }

  ghost predicate WasSent(trace: seq<State>, steps: seq<Step>, n: nat, key: Key, response: Response)
    requires n <= |steps| <= |trace|
  {
    exists i, json :: 0 <= i < n && Sends(trace[i], steps[i], key, json) && response == Body(json)
  }

  lemma RowChangesBySending(s: State, step: Step, key: Key)
    requires Enabled(s, step) && Completed(Apply(s, step).rows, key)
    requires !(key in s.rows && Apply(s, step).rows[key] == s.rows[key])
    ensures Apply(s, step).rows[key].response.Body?
    ensures Sends(s, step, key, Apply(s, step).rows[key].response.json)
  {
    assert step.Tx1? || step.Tx2?;
  }

  /** In every run, disturbed or not, a completed row holds a response that some step sent. */
  lemma {:induction false} CompletedWasSent(trace: seq<State>, steps: seq<Step>, n: nat, key: Key)
    requires IsRun(trace, steps) && n < |trace| && Completed(trace[n].rows, key)
    ensures WasSent(trace, steps, n, key, trace[n].rows[key].response)
  {
    assert n > 0;
    var s, step := trace[n - 1], steps[n - 1];
    assert Enabled(s, step) && trace[n] == Apply(s, step);
    if key in s.rows && trace[n].rows[key] == s.rows[key] {
      CompletedWasSent(trace, steps, n - 1, key);
    } else {
      RowChangesBySending(s, step, key);
    }
  }

  /** And nothing is ever replayed that was not sent for its key. */
  lemma {:induction false} OnlyWhatWasSentIsReplayed(trace: seq<State>, steps: seq<Step>, n: nat, k: nat)
    requires IsRun(trace, steps) && n < |trace| && k < |trace[n].replays|
    ensures WasSent(trace, steps, n, trace[n].replays[k].key, trace[n].replays[k].response)
  {
    assert n > 0;
    var s, step := trace[n - 1], steps[n - 1];
    assert Enabled(s, step) && trace[n] == Apply(s, step);
    if k < |s.replays| {
      OnlyWhatWasSentIsReplayed(trace, steps, n - 1, k);
    } else {
      CompletedWasSent(trace, steps, n - 1, step.key);
    }
  }

  /**
   The hypothesis is exactly what a takeover needs: in an invariant state, starting work on
   a key breaks `AtMostOneLive` if and only if a live claimant of that key is overdue.
   */
  lemma TakeoverCollidesIffOverdue(s: State, w: WorkerId, key: Key)
    requires Inv(s) && w !in s.live
    ensures !AtMostOneLive(Apply(s, Tx1(w, key, Execute))) <==> Overdue(s, key)
  {
    var t := Apply(s, Tx1(w, key, Execute));
    if v :| v in s.live && s.live[v].key == key && s.live[v].claimedAt + STALE_CLAIM_AFTER < s.now {
      assert ClaimWins(s.rows, key, s.now);
      assert v in t.live && w in t.live && t.live[v].key == t.live[w].key == key;
    }
  }

  /** After w starts on a key, another live worker of it can settle `first` and then w can settle `second`. */
  ghost predicate TwoSettle(s: State, v: WorkerId, w: WorkerId, key: Key, first: string, second: string) {
    && v != w && v in s.live && w in s.live && s.live[v].key == s.live[w].key == key
    && var once := Apply(s, Tx2(v, first, None));
       && Replayable(once.rows, key) == Some(Body(first))
       && Replayable(Apply(once, Tx2(w, second, None)).rows, key) == Some(Body(second))
  }

  /**
   When a stored response can change: from an invariant state, starting work on a key lets
   two workers settle it one after the other, so that the second changes what the first made
   replayable, if and only if a live claimant of that key is overdue.
   */
  lemma ReplayCanChangeIffOverdue(s: State, w: WorkerId, key: Key, first: string, second: string)
    requires Inv(s) && w !in s.live && first != second
    ensures (exists v :: TwoSettle(Apply(s, Tx1(w, key, Execute)), v, w, key, first, second)) <==> Overdue(s, key)
  {
    var t := Apply(s, Tx1(w, key, Execute));
    if v :| v in s.live && s.live[v].key == key && s.live[v].claimedAt + STALE_CLAIM_AFTER < s.now {
      assert ClaimWins(s.rows, key, s.now);
      TwoLiveSettle(t, v, w, key, first, second);
    }
    if v :| TwoSettle(t, v, w, key, first, second) {
      assert v in s.live && ClaimWins(s.rows, key, s.now);
    }
  }

  lemma TwoLiveSettle(s: State, v: WorkerId, w: WorkerId, key: Key, first: string, second: string)
    requires v != w && v in s.live && w in s.live && s.live[v].key == s.live[w].key == key
    ensures TwoSettle(s, v, w, key, first, second)
  {
  }

  // The interleaving in which an overdue worker is taken over while still alive.
  function OverdueSteps(key: Key, first: string, second: string): seq<Step> {
    [Tx1(0, key, Execute), Pay(0), Tick(STALE_CLAIM_AFTER + 1), Tx1(1, key, Execute), Pay(1),
     Tx2(0, first, None), Tx2(1, second, None)]
  }

  function OverdueState(key: Key, first: string, second: string, i: nat): State
    requires i < 8
  {
    var late := STALE_CLAIM_AFTER + 1;
    var claim, taken := Row(0, None, Empty, None), Row(late, None, Empty, None);
    if i == 0 then Init
    else if i == 1 then State(0, map[key := claim], map[0 := Worker(key, 0, false)], multiset{}, multiset{}, [])
    else if i == 2 then State(0, map[key := claim], map[0 := Worker(key, 0, true)], multiset{key}, multiset{}, [])
    else if i == 3 then State(late, map[key := claim], map[0 := Worker(key, 0, true)], multiset{key}, multiset{}, [])
    else if i == 4 then State(late, map[key := taken], map[0 := Worker(key, 0, true), 1 := Worker(key, late, false)], multiset{key}, multiset{}, [])
    else if i == 5 then State(late, map[key := taken], map[0 := Worker(key, 0, true), 1 := Worker(key, late, true)], multiset{key, key}, multiset{}, [])
    else if i == 6 then State(late, map[key := Row(late, Some(late), Body(first), None)], map[1 := Worker(key, late, true)], multiset{key, key}, multiset{}, [])
    else State(late, map[key := Row(late, Some(late), Body(second), None)], map[], multiset{key, key}, multiset{}, [])
  }

  ghost predicate OverdueStepHolds(key: Key, first: string, second: string, i: nat)
    requires i < 7
  {
    var s, step := OverdueState(key, first, second, i), OverdueSteps(key, first, second)[i];
    Enabled(s, step) && OverdueState(key, first, second, i + 1) == Apply(s, step)
  }

  lemma ClaimsAndTakeover(key: Key, first: string, second: string)
    ensures forall i :: 0 <= i < 4 ==> OverdueStepHolds(key, first, second, i)
  {
  }

  lemma SecondWorkerPays(key: Key, first: string, second: string)
    ensures OverdueStepHolds(key, first, second, 4)
  {
  }

  lemma OverdueWorkerSettles(key: Key, first: string, second: string)
    ensures OverdueStepHolds(key, first, second, 5)
  {
    var late := STALE_CLAIM_AFTER + 1;
    var a, b := Worker(key, 0, true), Worker(key, late, true);
    assert map[0 := a, 1 := b] - {0} == map[1 := b];
    var taken, done := Row(late, None, Empty, None), Row(late, Some(late), Body(first), None);
    assert map[key := taken][key := done] == map[key := done];
  }

  lemma SecondWorkerSettles(key: Key, first: string, second: string)
    ensures OverdueStepHolds(key, first, second, 6)
  {
  }

  lemma OverdueStepsHold(key: Key, first: string, second: string, i: nat)
    requires i < 7
    ensures OverdueStepHolds(key, first, second, i)
  {
    ClaimsAndTakeover(key, first, second);
    SecondWorkerPays(key, first, second);
    OverdueWorkerSettles(key, first, second);
    SecondWorkerSettles(key, first, second);
  }

  /** Without the hypothesis: one overdue worker, two paid executions, a response that changes. */
  lemma OverdueWorkerBreaksReplay(key: Key, first: string, second: string)
    requires first != second
    ensures var trace := seq(8, i requires 0 <= i < 8 => OverdueState(key, first, second, i));
            && IsRun(trace, OverdueSteps(key, first, second))
            && !UndisturbedRun(trace, OverdueSteps(key, first, second))
            && Replayable(trace[6].rows, key) == Some(Body(first))
            && Replayable(trace[7].rows, key) == Some(Body(second))
            && trace[7].paid[key] == 2 && trace[7].dead[key] == 0
  {
    var trace := seq(8, i requires 0 <= i < 8 => OverdueState(key, first, second, i));
    var steps := OverdueSteps(key, first, second);
    forall i | 0 <= i < |steps|
      ensures Enabled(trace[i], steps[i]) && trace[i + 1] == Apply(trace[i], steps[i])
    {
      OverdueStepsHold(key, first, second, i);
    }
    assert 0 in trace[3].live && Overdue(trace[3], key);
    assert !Undisturbing(trace[3], steps[3]);
  }
}
