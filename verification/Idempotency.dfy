/**
 The `idempotency_keys` table: one row per message key.  A claim is an upsert that the
 unique key arbitrates; a stale unfinished claim may be taken over; storing a response
 sets `completedAt`, which is what makes the row replayable.

 Times are microseconds on one shared, non-decreasing clock.
 */
module Idempotency {
  import opened Common

  type Key = string
  type Time = nat

  const STALE_CLAIM_AFTER: Time := 300_000_000

  // `Empty` is the `{}` a fresh claim carries; a stored EventResponse is never empty.
  datatype Response = Empty | Body(json: string)

  datatype Row = Row(claimedAt: Time, completedAt: Option<Time>, response: Response, conversation: Option<nat>)

  type Rows = map<Key, Row>

  predicate Completed(rows: Rows, key: Key) {
    key in rows && rows[key].completedAt.Some?
  }

  /** Does the conditional upsert of `claim_idempotency_key` touch a row? */
  predicate ClaimWins(rows: Rows, key: Key, now: Time) {
    key !in rows || (rows[key].completedAt.None? && rows[key].claimedAt + STALE_CLAIM_AFTER < now)
  }

  function Claim(rows: Rows, key: Key, now: Time): Rows {
    if key !in rows then rows[key := Row(now, None, Empty, None)]
    else if ClaimWins(rows, key, now) then rows[key := rows[key].(claimedAt := now)]
    else rows
  }

  function Replayable(rows: Rows, key: Key): Option<Response> {
    if Completed(rows, key) then Some(rows[key].response) else None
  }

  function Store(rows: Rows, key: Key, conversation: Option<nat>, response: Response, now: Time): Rows {
    if key !in rows then rows[key := Row(now, Some(now), response, conversation)]
    else rows[key := rows[key].(response := response, conversation := conversation, completedAt := Some(now))]
  }

  /** What the first transaction will do once it owns the key. */
  datatype Intent =
    | Execute                                                // a permitted paid call
    | Answer(json: string, conversation: Option<nat>)       // a rejection or a deterministic reply

  datatype Tx1Result =
    | Replayed(response: Response)
    | InFlight
    | Answered(response: Response)
    | Started

  function Tx1Outcome(rows: Rows, key: Key, now: Time, intent: Intent): Tx1Result {
    if ClaimWins(rows, key, now) then
      match intent
      case Execute => Started
      case Answer(json, _) => Answered(Body(json))
    else
      match Replayable(rows, key)
      case Some(Body(json)) => Replayed(Body(json))
      case _ => InFlight
  }

  function Tx1Rows(rows: Rows, key: Key, now: Time, intent: Intent): Rows {
    if ClaimWins(rows, key, now) then
      match intent
      case Execute => Claim(rows, key, now)
      case Answer(json, conversation) => Store(Claim(rows, key, now), key, conversation, Body(json), now)
    else
      rows
  }

  /** The persistence layer, updating its rows in place. */
  class IdempotencyTable {
    var rows: Rows

    constructor ()
      ensures rows == map[]
    {
      rows := map[];
    }

    method ClaimKey(key: Key, now: Time) returns (claimed: bool)
      modifies this
      ensures claimed == ClaimWins(old(rows), key, now)
      ensures rows == Claim(old(rows), key, now)
    {
      claimed := true;
      if key !in rows {
        rows := rows[key := Row(now, None, Empty, None)];
      } else if rows[key].completedAt.None? && rows[key].claimedAt + STALE_CLAIM_AFTER < now {
        rows := rows[key := rows[key].(claimedAt := now)];
      } else {
        claimed := false;
      }
    }

    method LoadResponse(key: Key) returns (stored: Option<Response>)
      ensures stored == Replayable(rows, key)
    {
      stored := None;
      if key in rows && rows[key].completedAt.Some? {
        stored := Some(rows[key].response);
      }
    }

    method StoreResponse(key: Key, conversation: Option<nat>, response: Response, now: Time)
      modifies this
      ensures rows == Store(old(rows), key, conversation, response, now)
    {
      if key in rows {
        rows := rows[key := rows[key].(response := response, conversation := conversation, completedAt := Some(now))];
      } else {
        rows := rows[key := Row(now, Some(now), response, conversation)];
      }
    }

    /** The first transaction: claim, then answer, hand over to the provider call, or replay. */
    method Prepare(key: Key, now: Time, intent: Intent) returns (outcome: Tx1Result)
      modifies this
      ensures outcome == Tx1Outcome(old(rows), key, now, intent)
      ensures rows == Tx1Rows(old(rows), key, now, intent)
      ensures outcome.Answered? || outcome.Replayed? ==> Replayable(rows, key) == Some(outcome.response)
      ensures outcome.Answered? ==> rows[key] == Row(now, Some(now), outcome.response, intent.conversation)
      ensures outcome.Replayed? || outcome.InFlight? ==> rows == old(rows)
      ensures outcome.Started? ==> key in rows && rows[key].claimedAt == now && rows[key].completedAt.None?
    {
      var claimed := ClaimKey(key, now);
      if !claimed {
        var stored := LoadResponse(key);
        if stored.Some? && stored.value.Body? {
          return Replayed(stored.value);
        }
        return InFlight;
      }
      match intent
      case Answer(json, conversation) =>
        StoreResponse(key, conversation, Body(json), now);
        return Answered(Body(json));
      case Execute =>
        return Started;
    }
  }

  /**
   What a first transaction does, read off the row it finds: it takes a key that nobody has, or
   one claimed more than five minutes ago and not finished, and answers then what it was told to.
   */
  lemma OutcomeByRow(rows: Rows, key: Key, now: Time, intent: Intent)
    ensures var outcome := Tx1Outcome(rows, key, now, intent);
            var takes := key !in rows || (rows[key].completedAt.None? && now - rows[key].claimedAt > 300_000_000);
            && (outcome == Started <==> takes && intent == Execute)
            && (outcome.Answered? <==> takes && intent.Answer?)
            && (outcome.Answered? ==> outcome.response == Body(intent.json))
            && (outcome.Replayed? <==> key in rows && rows[key].completedAt.Some? && rows[key].response.Body?)
            && (outcome.Replayed? ==> outcome.response == rows[key].response)
  {
  }

  /** What it answers at once is what it stores: every later delivery of the key is answered with the same. */
  lemma AnswerIsReplayed(rows: Rows, key: Key, now: Time, intent: Intent, later: Time, again: Intent)
    requires Tx1Outcome(rows, key, now, intent).Answered?
    ensures Tx1Outcome(Tx1Rows(rows, key, now, intent), key, later, again)
         == Replayed(Tx1Outcome(rows, key, now, intent).response)
    ensures intent.Answer? && key in Tx1Rows(rows, key, now, intent)
         && Tx1Rows(rows, key, now, intent)[key] == Row(now, Some(now), Body(intent.json), intent.conversation)
  {
  }

  /** Settling completes one row with what it is given, keeps when it was claimed, and touches no other row. */
  lemma SettledRow(rows: Rows, key: Key, conversation: Option<nat>, response: Response, now: Time)
    ensures var after := Store(rows, key, conversation, response, now);
            && after.Keys == rows.Keys + {key}
            && after[key].response == response && after[key].conversation == conversation
            && after[key].completedAt == Some(now)
            && (key in rows ==> after[key].claimedAt == rows[key].claimedAt)
            && forall other :: other in rows && other != key ==> after[other] == rows[other]
  {
  }

  /** A completed row survives every later first transaction untouched, and answers it. */
  lemma CompletedRowIsReplayed(rows: Rows, key: Key, other: Key, now: Time, intent: Intent)
    requires Completed(rows, key) && rows[key].response.Body?
    ensures Tx1Outcome(rows, key, now, intent) == Replayed(rows[key].response)
    ensures Completed(Tx1Rows(rows, other, now, intent), key)
    ensures Tx1Rows(rows, other, now, intent)[key] == rows[key]
  {
    if other == key {
      assert !ClaimWins(rows, key, now);
    }
  }
}
