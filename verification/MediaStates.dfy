/** The media state machine: which moves are allowed, and what every history of moves must look like. */
module MediaStates {
  datatype MediaState =
    | ReceivedReference
    | EntitlementChecked
    | WaitingForBrief
    | BriefReceived
    | FetchQueued
    | Fetched
    | Validated
    | ExtractionPlanned
    | Extracting
    | ReadyForCapability
    | Completed
    | Rejected
    | Failed
    | Expired

  const TERMINAL_STATES: set<MediaState> := {Rejected, Failed, Expired, Completed}

  const ZERO_COST_STATES: set<MediaState> :=
    {ReceivedReference, EntitlementChecked, WaitingForBrief, BriefReceived, Rejected}

  function Allowed(current: MediaState): set<MediaState> {
    match current
    case ReceivedReference => {EntitlementChecked, Rejected, Expired}
    case EntitlementChecked => {WaitingForBrief, BriefReceived, Rejected, Expired}
    case WaitingForBrief => {BriefReceived, Expired, Rejected}
    case BriefReceived => {FetchQueued, Rejected, Expired}
    case FetchQueued => {Fetched, Failed, Expired}
    case Fetched => {Validated, Rejected, Failed}
    case Validated => {ExtractionPlanned, Rejected, Failed}
    case ExtractionPlanned => {Extracting, Failed}
    case Extracting => {ReadyForCapability, Failed}
    case ReadyForCapability => {Completed, Failed, Expired}
    case Completed => {Expired}
    case Rejected => {}
    case Failed => {}
    case Expired => {}
  }

  predicate CanTransition(current: MediaState, target: MediaState) {
    current == target || target in Allowed(current)
  }

  /** The states from which a state can be entered. */
  function Before(target: MediaState): set<MediaState> {
    match target
    case ReceivedReference => {}
    case EntitlementChecked => {ReceivedReference}
    case WaitingForBrief => {EntitlementChecked}
    case BriefReceived => {EntitlementChecked, WaitingForBrief}
    case FetchQueued => {BriefReceived}
    case Fetched => {FetchQueued}
    case Validated => {Fetched}
    case ExtractionPlanned => {Validated}
    case Extracting => {ExtractionPlanned}
    case ReadyForCapability => {Extracting}
    case Completed => {ReadyForCapability}
    case Rejected => {ReceivedReference, EntitlementChecked, WaitingForBrief, BriefReceived, Fetched, Validated}
    case Failed => {FetchQueued, Fetched, Validated, ExtractionPlanned, Extracting, ReadyForCapability}
    case Expired =>
      {ReceivedReference, EntitlementChecked, WaitingForBrief, BriefReceived, FetchQueued, ReadyForCapability, Completed}
  }

  /** Every state is entered from its predecessors only, or by staying in it. */
  lemma EnteredOnlyFrom(current: MediaState, target: MediaState)
    ensures CanTransition(current, target) <==> current == target || current in Before(target)
  {
  }

  /** How far along a state is. */
  function Rank(state: MediaState): nat {
    match state
    case ReceivedReference => 0
    case EntitlementChecked => 1
    case WaitingForBrief => 2
    case BriefReceived => 3
    case FetchQueued => 4
    case Fetched => 5
    case Validated => 6
    case ExtractionPlanned => 7
    case Extracting => 8
    case ReadyForCapability => 9
    case Completed => 10
    case Rejected => 10
    case Failed => 10
    case Expired => 11
  }

  const MAX_RANK := 11

  /** A move that changes the state raises the rank, so no history ever returns to a state it left. */
  lemma ProperMoveRaisesRank(current: MediaState, target: MediaState)
    requires CanTransition(current, target) && current != target
    ensures Rank(current) < Rank(target) <= MAX_RANK
  {
  }

  /** Only three of the four states listed as terminal are: a completed object may still expire. */
  lemma SinksAreTerminalButCompleted(state: MediaState)
    ensures Allowed(state) == {} <==> state in TERMINAL_STATES && state != Completed
  {
    assert Expired in Allowed(Completed);
    if state !in TERMINAL_STATES {
      assert Rejected in Allowed(state) || Failed in Allowed(state);
    }
  }

  // ---- histories ---------------------------------------------------------------

  /** A history of states each of which the machine allows after the one before. */
  predicate Chain(history: seq<MediaState>) {
    |history| > 1 ==>
      && Chain(history[..|history| - 1])
      && CanTransition(history[|history| - 2], history[|history| - 1])
  }

  function ProperMoves(history: seq<MediaState>): nat {
    if |history| <= 1 then 0
    else
      ProperMoves(history[..|history| - 1])
      + (if history[|history| - 2] == history[|history| - 1] then 0 else 1)
  }

  lemma {:induction false} ProperMovesBoundedByRank(history: seq<MediaState>)
    requires |history| > 0 && Chain(history)
    ensures ProperMoves(history) + Rank(history[0]) <= Rank(history[|history| - 1]) <= MAX_RANK
  {
    if |history| > 1 {
      ProperMovesBoundedByRank(history[..|history| - 1]);
    }
  }

  /** No history changes state more than eleven times, and one changes it exactly eleven times. */
  lemma AtMostElevenProperMoves(history: seq<MediaState>)
    requires |history| > 0 && Chain(history)
    ensures ProperMoves(history) <= 11
    ensures var longest := Longest(); Chain(longest) && ProperMoves(longest) == 11
  {
    ProperMovesBoundedByRank(history);
    LongestIsAChain(|Longest()|);
    assert Longest()[..|Longest()|] == Longest();
  }

  function Longest(): seq<MediaState> {
    [ReceivedReference, EntitlementChecked, WaitingForBrief, BriefReceived, FetchQueued, Fetched,
     Validated, ExtractionPlanned, Extracting, ReadyForCapability, Completed, Expired]
  }

  lemma {:induction false} LongestIsAChain(n: nat)
    requires 0 < n <= |Longest()|
    ensures Chain(Longest()[..n]) && ProperMoves(Longest()[..n]) == n - 1
  {
    if n > 1 {
      LongestIsAChain(n - 1);
      assert Longest()[..n][..n - 1] == Longest()[..n - 1];
    }
  }

  lemma ChainGrows(history: seq<MediaState>, next: MediaState)
    requires |history| > 0 && Chain(history) && CanTransition(history[|history| - 1], next)
    ensures Chain(history + [next])
  {
    assert (history + [next])[..|history|] == history;
  }

  /** Reached only after something was fetched, or was about to be. */
  predicate PastTheGate(state: MediaState) {
    state !in ZERO_COST_STATES && state != Expired
  }

  predicate PassedTheGate(history: seq<MediaState>) {
    EntitlementChecked in history && BriefReceived in history && FetchQueued in history
  }

  /** However the machine is driven, no fetched state is reached around the entitlement check or the brief. */
  lemma {:induction false} NoWayAroundTheGate(history: seq<MediaState>)
    requires |history| > 0 && Chain(history) && history[0] == ReceivedReference
    ensures var last := history[|history| - 1];
            && (PastTheGate(last) ==> PassedTheGate(history))
            && (last == BriefReceived ==> EntitlementChecked in history)
            && (last == WaitingForBrief ==> EntitlementChecked in history)
  {
    if |history| > 1 {
      var front := history[..|history| - 1];
      NoWayAroundTheGate(front);
      assert history == front + [history[|history| - 1]];
    }
  }
}
