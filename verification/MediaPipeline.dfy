/**
 One media object under any run of redelivered intake and process steps, each of which
 may be cut short by a crash.
 */
module MediaPipeline {
  import opened Common
  import opened MediaStates
  import opened Text

  const MIN_BRIEF_CHARS := 3

  datatype MessageType = TextMessage | Audio | Image | Pdf | Document | Action | System
  datatype MediaKind = ImageKind | PdfKind | AudioKind | DocumentKind

  // What one intake call is told: allowanceExceeded is the answer of the quota snapshot.
  datatype Message = Message(kind: MessageType, brief: Option<string>, entitled: bool, allowanceExceeded: bool)

  // What the fetch and the local checks make of the bytes.
  datatype Found =
    | NotFound
    | Invalid
    | BadDimensions
    | Readable(kind: MediaKind)
    | BrokenPdf

  function BriefText(m: Message): string {
    if m.brief.None? then "" else m.brief.value
  }

  predicate HasBrief(m: Message) {
    |Strip(BriefText(m))| >= MIN_BRIEF_CHARS
  }

  /** A voice note is its own brief. */
  predicate NeedsBrief(m: Message) {
    m.kind in {Image, Pdf, Document} && !HasBrief(m)
  }

  function DeclaredKind(kind: MessageType): Option<MediaKind> {
    match kind
    case Image => Some(ImageKind)
    case Pdf => Some(PdfKind)
    case Audio => Some(AudioKind)
    case Document => Some(DocumentKind)
    case _ => None
  }

  // ---- the moves each call asks for ---------------------------------------------

  function GateMoves(m: Message): seq<MediaState>
  {
    if m.allowanceExceeded then [Rejected]
    else if NeedsBrief(m) then [WaitingForBrief]
    else [BriefReceived, FetchQueued]
  }

  function IntakeMoves(state: MediaState, m: Message): seq<MediaState> {
    if state != ReceivedReference && state != WaitingForBrief then []
    else if !m.entitled then [Rejected]
    else if state == ReceivedReference then [EntitlementChecked] + GateMoves(m)
    else GateMoves(m)
  }

  predicate Processable(state: MediaState) {
    state == FetchQueued || state == Fetched
  }

  function ProcessMoves(state: MediaState, found: Found): seq<MediaState> {
    if !Processable(state) then []
    else match found
      case NotFound => [Failed]
      case Invalid => [Fetched, Rejected]
      case BadDimensions => [Fetched, Rejected]
      case BrokenPdf => [Fetched, Validated, Rejected]
      case Readable(_) => [Fetched, Validated, ExtractionPlanned, Extracting, ReadyForCapability]
  }

  /**
   Where a call that acts leaves an object: processing makes it ready if and only if the file could
   be read, fails it where nothing was found, and rejects it for a file that is invalid, too large
   in its dimensions or a PDF that cannot be opened; intake queues what passes every gate, holds
   what only lacks its brief, and rejects the rest.
   */
  lemma EndsAsFound(state: MediaState, m: Message, found: Found)
    ensures var moves := ProcessMoves(state, found);
            if state != FetchQueued && state != Fetched then |moves| == 0
            else
              && |moves| > 0
              && var end := moves[|moves| - 1];
                 && (end == ReadyForCapability <==> found.Readable?)
                 && (end == Failed <==> found == NotFound)
                 && (end == Rejected <==> found == Invalid || found == BadDimensions || found == BrokenPdf)
                 && (moves[0] == Fetched <==> found != NotFound)
    ensures var moves, text := IntakeMoves(state, m), if m.brief.Some? then m.brief.value else "";
            if state != ReceivedReference && state != WaitingForBrief then |moves| == 0
            else
              && |moves| > 0
              && var end, lacking := moves[|moves| - 1], m.kind in {Image, Pdf, Document} && |Strip(text)| < 3;
                 && (end == FetchQueued <==> m.entitled && !m.allowanceExceeded && !lacking)
                 && (end == WaitingForBrief <==> m.entitled && !m.allowanceExceeded && lacking)
                 && (end == Rejected <==> !m.entitled || m.allowanceExceeded)
  {
  }

  predicate Legal(state: MediaState, moves: seq<MediaState>)
    decreases |moves|
  {
    |moves| == 0 || (CanTransition(state, moves[0]) && Legal(moves[0], moves[1..]))
  }

  /** Whatever state a redelivery finds, every move it asks for is one the machine allows. */
  lemma MovesAreLegal(state: MediaState, m: Message, found: Found)
    ensures Legal(state, IntakeMoves(state, m))
    ensures Legal(state, ProcessMoves(state, found))
  {
    var intake, process := IntakeMoves(state, m), ProcessMoves(state, found);
    LegalIfAdjacent(state, intake);
    LegalIfAdjacent(state, process);
  }

  lemma {:induction false} LegalIfAdjacent(state: MediaState, moves: seq<MediaState>)
    requires |moves| > 0 ==> CanTransition(state, moves[0])
    requires forall i :: 0 < i < |moves| ==> CanTransition(moves[i - 1], moves[i])
    ensures Legal(state, moves)
    decreases |moves|
  {
    if |moves| > 0 {
      var rest := moves[1..];
      assert forall i :: 0 < i < |rest| ==> rest[i] == moves[i + 1] && rest[i - 1] == moves[i];
      LegalIfAdjacent(moves[0], rest);
    }
  }

  // ---- runs ------------------------------------------------------------------------

  // A call of which the first `done` row updates survive; a crash loses the later ones.
  datatype Event =
    | Intake(message: Message, done: nat)
    | Process(found: Found, done: nat)

  const ALL := 6

  datatype World = World(
    history: seq<MediaState>,
    brief: Option<string>,
    admitted: Option<Message>,
    job: bool,
    jobsCreated: nat,
    fetches: nat)
  {
    function State(): MediaState
      requires |history| > 0
    {
      history[|history| - 1]
    }
  }

  function Fresh(): World {
    World([ReceivedReference], None, None, false, 0, 0)
  }

  function Take(moves: seq<MediaState>, n: nat): seq<MediaState> {
    if n < |moves| then moves[..n] else moves
  }

  function Step(w: World, e: Event): World
    requires |w.history| > 0
  {
    match e
    case Intake(m, done) =>
      var moves := Take(IntakeMoves(w.State(), m), done);
      var briefed := BriefReceived in moves;
      var enqueues := FetchQueued in moves && done > |moves|;
      w.(history := w.history + moves,
         brief := if briefed then Some(BriefText(m)) else w.brief,
         admitted := if briefed then Some(m) else w.admitted,
         job := w.job || enqueues,
         jobsCreated := w.jobsCreated + if enqueues && !w.job then 1 else 0)
    case Process(found, done) =>
      w.(history := w.history + Take(ProcessMoves(w.State(), found), done),
         fetches := w.fetches + if Processable(w.State()) then 1 else 0)
  }

  function Run(events: seq<Event>): (w: World)
    ensures |w.history| > 0
  {
    if |events| == 0 then Fresh() else Step(Run(events[..|events| - 1]), events[|events| - 1])
  }

  /** The gates a message must have passed for its attachment to be worked on. */
  predicate Admissible(m: Message) {
    m.entitled && !m.allowanceExceeded && !NeedsBrief(m)
  }

  predicate Inv(w: World) {
    && |w.history| > 0
    && w.history[0] == ReceivedReference
    && Chain(w.history)
    && (w.State() == BriefReceived || PastTheGate(w.State()) || w.fetches > 0 || w.job ==> w.admitted.Some?)
    && (w.admitted.Some? ==> Admissible(w.admitted.value) && w.brief == Some(BriefText(w.admitted.value)))
    && (w.job ==> Rank(w.State()) >= Rank(FetchQueued))
    && w.jobsCreated == if w.job then 1 else 0
  }

  lemma {:induction false} LegalMovesExtendChain(history: seq<MediaState>, moves: seq<MediaState>)
    requires |history| > 0 && Chain(history) && Legal(history[|history| - 1], moves)
    ensures Chain(history + moves)
    ensures Rank(history[|history| - 1]) <= Rank((history + moves)[|history + moves| - 1])
    decreases |moves|
  {
    if |moves| == 0 {
      assert history + moves == history;
    } else {
      ChainGrows(history, moves[0]);
      LegalMovesExtendChain(history + [moves[0]], moves[1..]);
      assert history + moves == (history + [moves[0]]) + moves[1..];
    }
  }

  lemma {:induction false} TakeIsLegal(state: MediaState, moves: seq<MediaState>, n: nat)
    requires Legal(state, moves)
    ensures Legal(state, Take(moves, n))
    decreases |moves|
  {
    if 0 < n < |moves| {
      TakeIsLegal(moves[0], moves[1..], n - 1);
      assert Take(moves, n)[1..] == Take(moves[1..], n - 1);
    }
  }

  /** Where an intake call leaves the state, and that it admits a message exactly when it attaches its brief. */
  lemma IntakeEnds(state: MediaState, m: Message, done: nat)
    ensures var moves := Take(IntakeMoves(state, m), done);
            var last := if |moves| == 0 then state else moves[|moves| - 1];
            && (BriefReceived in moves ==> Admissible(m))
            && (last != state && (last == BriefReceived || PastTheGate(last)) ==> BriefReceived in moves)
            && (FetchQueued in moves ==> last == FetchQueued && BriefReceived in moves)
            && (|moves| > 0 ==> state == ReceivedReference || state == WaitingForBrief)
  {
  }

  lemma IntakeKeepsInv(w: World, m: Message, done: nat)
    requires Inv(w)
    ensures Inv(Step(w, Intake(m, done)))
  {
    var moves := Take(IntakeMoves(w.State(), m), done);
    MovesAreLegal(w.State(), m, NotFound);
    TakeIsLegal(w.State(), IntakeMoves(w.State(), m), done);
    LegalMovesExtendChain(w.history, moves);
    IntakeEnds(w.State(), m, done);
  }

  lemma ProcessKeepsInv(w: World, found: Found, done: nat)
    requires Inv(w)
    ensures Inv(Step(w, Process(found, done)))
  {
    MovesAreLegal(w.State(), Message(System, None, false, false), found);
    TakeIsLegal(w.State(), ProcessMoves(w.State(), found), done);
    LegalMovesExtendChain(w.history, Take(ProcessMoves(w.State(), found), done));
  }

  lemma {:induction false} RunKeepsInv(events: seq<Event>)
    ensures Inv(Run(events))
  {
    if |events| > 0 {
      var w, e := Run(events[..|events| - 1]), events[|events| - 1];
      RunKeepsInv(events[..|events| - 1]);
      match e {
        case Intake(m, done) => IntakeKeepsInv(w, m, done);
        case Process(found, done) => ProcessKeepsInv(w, found, done);
      }
    }
  }

  predicate Delivered(events: seq<Event>, m: Message) {
    exists i :: 0 <= i < |events| && events[i].Intake? && events[i].message == m
  }

  lemma {:induction false} AdmittedWasDelivered(events: seq<Event>)
    ensures var w := Run(events); w.admitted.Some? ==> Delivered(events, w.admitted.value)
  {
    if |events| > 0 {
      var front := events[..|events| - 1];
      AdmittedWasDelivered(front);
      var before, w := Run(front), Run(events);
      if w.admitted.Some? {
        if w.admitted == before.admitted {
          var i :| 0 <= i < |front| && front[i].Intake? && front[i].message == w.admitted.value;
          assert events[i] == front[i];
        } else {
          assert events[|events| - 1].message == w.admitted.value;
        }
      }
    }
  }

  /**
   Over any run of redeliveries and crashes: every move made was allowed, there were at
   most eleven, and at most one job was created.
   */
  lemma AnyRunIsOrderly(events: seq<Event>)
    ensures var w := Run(events);
            Chain(w.history) && ProperMoves(w.history) <= 11 && w.jobsCreated <= 1
  {
    RunKeepsInv(events);
    AtMostElevenProperMoves(Run(events).history);
  }

  /**
   Nothing is fetched for an attachment before some delivered message was entitled, within
   the daily allowance and, unless it was a voice note, came with a brief of three
   characters; and that message's text is the brief on record.
   */
  lemma NoBriefNoFetch(events: seq<Event>)
    requires Run(events).fetches > 0
    ensures exists m ::
      && Delivered(events, m)
      && m.entitled && !m.allowanceExceeded
      && (m.kind in {Image, Pdf, Document} ==> m.brief.Some? && |Strip(m.brief.value)| >= 3)
      && Run(events).brief == Some(if m.brief.Some? then m.brief.value else "")
  {
    RunKeepsInv(events);
    AdmittedWasDelivered(events);
    assert Delivered(events, Run(events).admitted.value);
  }

  lemma FetchIsAdmitted(w: World, e: Event)
    requires Inv(w) && Step(w, e).fetches > w.fetches
    ensures PassedTheGate(w.history) && w.admitted.Some? && Admissible(w.admitted.value)
  {
    NoWayAroundTheGate(w.history);
  }

  /** The gate stands before the fetch, not only before the end of the run. */
  lemma FetchComesAfterTheGate(events: seq<Event>, e: Event)
    requires Run(events + [e]).fetches > Run(events).fetches
    ensures PassedTheGate(Run(events).history)
    ensures Run(events).admitted.Some? && Admissible(Run(events).admitted.value)
  {
    var all := events + [e];
    assert all[..|all| - 1] == events && all[|all| - 1] == e;
    RunKeepsInv(events);
    FetchIsAdmitted(Run(events), e);
  }

  /** Some processed file was found to be like that. */
  predicate SomeFound(events: seq<Event>, like: Found -> bool) {
    exists i :: 0 <= i < |events| && events[i].Process? && like(events[i].found)
  }

  predicate SomeRefused(events: seq<Event>) {
    exists i :: 0 <= i < |events| && events[i].Intake? && (!events[i].message.entitled || events[i].message.allowanceExceeded)
  }

  const IS_READABLE := (found: Found) => found.Readable?
  const IS_MISSING := (found: Found) => found == NotFound
  const IS_UNFIT := (found: Found) => found == Invalid || found == BadDimensions || found == BrokenPdf

  /** What stands in a history has its cause in the run. */
  predicate Caused(history: seq<MediaState>, events: seq<Event>) {
    && (ReadyForCapability in history ==> SomeFound(events, IS_READABLE))
    && (Failed in history ==> SomeFound(events, IS_MISSING))
    && (Rejected in history ==> SomeFound(events, IS_UNFIT) || SomeRefused(events))
  }

  lemma CausesStay(history: seq<MediaState>, events: seq<Event>, e: Event)
    requires Caused(history, events)
    ensures Caused(history, events + [e])
  {
    var all := events + [e];
    assert forall i :: 0 <= i < |events| ==> all[i] == events[i];
  }

  lemma MovesHaveCauses(state: MediaState, e: Event)
    ensures var moves := if e.Intake? then Take(IntakeMoves(state, e.message), e.done) else Take(ProcessMoves(state, e.found), e.done);
            Caused(moves, [e])
  {
    var one := [e];
    assert one[0] == e;
  }

  lemma CausesAdd(history: seq<MediaState>, moves: seq<MediaState>, events: seq<Event>, e: Event)
    requires Caused(history, events) && Caused(moves, [e])
    ensures Caused(history + moves, events + [e])
  {
    var all := events + [e];
    CausesStay(history, events, e);
    assert all[|events|] == e && [e][0] == e;
  }

  /**
   However often a file is redelivered and wherever calls are cut short: an object is only ever
   ready when a processed file could be read, failed when one was not found, and rejected when a
   file was unfit or some message came without entitlement or over the allowance.
   */
  lemma {:induction false} EveryEndHasItsCause(events: seq<Event>)
    ensures Caused(Run(events).history, events)
  {
    if |events| > 0 {
      var front, e := events[..|events| - 1], events[|events| - 1];
      EveryEndHasItsCause(front);
      var w := Run(front);
      var moves := if e.Intake? then Take(IntakeMoves(w.State(), e.message), e.done) else Take(ProcessMoves(w.State(), e.found), e.done);
      MovesHaveCauses(w.State(), e);
      CausesAdd(w.history, moves, front, e);
      assert events == front + [e];
    }
  }

  // ---- the pipeline ------------------------------------------------------------------

  predicate Admits(state: MediaState, m: Message) {
    (state == ReceivedReference || state == WaitingForBrief) && Admissible(m)
  }

  /** A call that runs to its end changes the row as the two methods below promise. */
  lemma WholeCallsAreSteps(w: World, m: Message, found: Found)
    requires |w.history| > 0
    ensures var moves, admits := IntakeMoves(w.State(), m), Admits(w.State(), m);
            Step(w, Intake(m, ALL)) ==
            World(w.history + moves,
                  if admits then Some(BriefText(m)) else w.brief,
                  if admits then Some(m) else w.admitted,
                  w.job || admits,
                  w.jobsCreated + if admits && !w.job then 1 else 0,
                  w.fetches)
    ensures Step(w, Process(found, ALL)) ==
            w.(history := w.history + ProcessMoves(w.State(), found),
               fetches := w.fetches + if Processable(w.State()) then 1 else 0)
  {
  }

  datatype Outcome =
    | Replayed
    | Held
    | Turned(entitlement: bool)
    | Queued(created: bool)
    | Processed(state: MediaState, fetched: bool)

  class MediaRow {
    var state: MediaState
    var brief: Option<string>
    var kind: Option<MediaKind>
    var job: bool
    ghost var history: seq<MediaState>
    ghost var admitted: Option<Message>
    ghost var jobsCreated: nat
    ghost var fetches: nat

    ghost predicate Valid()
      reads this
    {
      |history| > 0 && history[|history| - 1] == state
    }

    constructor ()
      ensures Valid() && World(history, brief, admitted, job, jobsCreated, fetches) == Fresh() && kind == None
    {
      state, brief, kind, job := ReceivedReference, None, None, false;
      history, admitted, jobsCreated, fetches := [ReceivedReference], None, 0, 0;
    }

    // The guard of the machine is the precondition: a caller that verifies is never refused.
    method Transition(target: MediaState)
      requires Valid() && CanTransition(state, target)
      modifies this`state, this`history
      ensures Valid() && state == target && history == old(history) + [target]
    {
      state := target;
      history := history + [target];
    }

    /** Past every gate: record the brief, move on, and create the job unless its key is taken. */
    method Schedule(m: Message) returns (outcome: Outcome)
      requires Valid() && (state == EntitlementChecked || state == WaitingForBrief)
      modifies this`state, this`history, this`brief, this`admitted, this`job, this`jobsCreated
      ensures Valid() && state == FetchQueued && outcome == Queued(!old(job))
      ensures history == old(history) + [BriefReceived, FetchQueued]
      ensures brief == Some(BriefText(m)) && admitted == Some(m)
      ensures job && jobsCreated == old(jobsCreated) + if old(job) then 0 else 1
    {
      Transition(BriefReceived);
      brief, admitted := Some(BriefText(m)), Some(m);
      Transition(FetchQueued);
      var created := !job;
      job, jobsCreated := true, jobsCreated + if created then 1 else 0;
      outcome := Queued(created);
    }

    method Gate(m: Message) returns (outcome: Outcome)
      requires Valid() && (state == EntitlementChecked || state == WaitingForBrief) && m.entitled
      modifies this`state, this`history, this`brief, this`admitted, this`job, this`jobsCreated
      ensures Valid()
      ensures history == old(history) + GateMoves(m)
      ensures if Admissible(m)
              then brief == Some(BriefText(m)) && admitted == Some(m) && job && jobsCreated == old(jobsCreated) + (if old(job) then 0 else 1)
              else brief == old(brief) && admitted == old(admitted) && job == old(job) && jobsCreated == old(jobsCreated)
      ensures outcome == if m.allowanceExceeded then Turned(false) else if NeedsBrief(m) then Held else Queued(!old(job))
    {
      if m.allowanceExceeded {
        Transition(Rejected);
        return Turned(false);
      }
      if NeedsBrief(m) {
        Transition(WaitingForBrief);
        return Held;
      }
      outcome := Schedule(m);
    }

    method Intake(m: Message) returns (outcome: Outcome)
      requires Valid()
      modifies this`state, this`history, this`kind, this`brief, this`admitted, this`job, this`jobsCreated
      ensures Valid()
      ensures history == old(history) + IntakeMoves(old(state), m)
      ensures if Admits(old(state), m)
              then brief == Some(BriefText(m)) && admitted == Some(m) && job && jobsCreated == old(jobsCreated) + (if old(job) then 0 else 1)
              else brief == old(brief) && admitted == old(admitted) && job == old(job) && jobsCreated == old(jobsCreated)
      ensures old(kind).Some? ==> kind == old(kind)
      ensures old(kind).None? ==>
              kind == match m.kind case Image => Some(ImageKind) case Pdf => Some(PdfKind) case Audio => Some(AudioKind)
                                   case Document => Some(DocumentKind) case _ => None
      ensures outcome ==
              if old(state) != ReceivedReference && old(state) != WaitingForBrief then Replayed
              else if !m.entitled then Turned(true)
              else if m.allowanceExceeded then Turned(false)
              else if NeedsBrief(m) then Held
              else Queued(!old(job))
      ensures state == match outcome case Replayed => old(state) case Turned(_) => Rejected case Held => WaitingForBrief
                                     case Queued(_) => FetchQueued case Processed(s, _) => s
    {
      if kind.None? {
        kind := DeclaredKind(m.kind);
      }
      if state != ReceivedReference && state != WaitingForBrief {
        return Replayed;
      }
      if !m.entitled {
        Transition(Rejected);
        return Turned(true);
      }
      if state == ReceivedReference {
        Transition(EntitlementChecked);
        assert old(history) + ([EntitlementChecked] + GateMoves(m)) == history + GateMoves(m);
      }
      outcome := Gate(m);
    }

    method RejectFetched() returns (outcome: Outcome)
      requires Valid() && Processable(state)
      modifies this`state, this`history
      ensures Valid() && state == Rejected
      ensures history == old(history) + [Fetched, Rejected]
      ensures outcome == Processed(Rejected, true)
    {
      Transition(Fetched);
      assert history == old(history) + [Fetched];
      Transition(Rejected);
      outcome := Processed(Rejected, true);
    }

    /** The tail shared by images, voice notes, documents and readable PDFs. */
    method Extract() returns (outcome: Outcome)
      requires Valid() && state == Validated
      modifies this`state, this`history
      ensures Valid() && state == ReadyForCapability
      ensures history == old(history) + [ExtractionPlanned, Extracting, ReadyForCapability]
      ensures outcome == Processed(ReadyForCapability, true)
    {
      Transition(ExtractionPlanned);
      assert history == old(history) + [ExtractionPlanned];
      Transition(Extracting);
      assert history == old(history) + [ExtractionPlanned, Extracting];
      Transition(ReadyForCapability);
      outcome := Processed(ReadyForCapability, true);
    }

    method Process(found: Found) returns (outcome: Outcome)
      requires Valid()
      modifies this`state, this`history, this`fetches, this`kind
      ensures Valid()
      ensures history == old(history) + ProcessMoves(old(state), found)
      ensures fetches == old(fetches) + if Processable(old(state)) then 1 else 0
      ensures outcome == Processed(state, Processable(old(state)) && found != NotFound)
      ensures state == if !Processable(old(state)) then old(state)
                       else match found
                            case NotFound => Failed
                            case Readable(_) => ReadyForCapability
                            case _ => Rejected
      ensures kind == if Processable(old(state)) && (found.Readable? || found.BrokenPdf?)
                      then Some(if found.Readable? then found.kind else PdfKind) else old(kind)
    {
      if state != FetchQueued && state != Fetched {
        return Processed(state, false);
      }
      fetches := fetches + 1;
      if found.NotFound? {
        Transition(Failed);
        return Processed(Failed, false);
      }
      if found.Invalid? || found.BadDimensions? {
        outcome := RejectFetched();
        return;
      }
      Transition(Fetched);
      kind := Some(if found.Readable? then found.kind else PdfKind);
      assert history == old(history) + [Fetched];
      Transition(Validated);
      assert history == old(history) + [Fetched, Validated];
      if found.BrokenPdf? {
        Transition(Rejected);
        return Processed(Rejected, true);
      }
      outcome := Extract();
    }
  }
}
