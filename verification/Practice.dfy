/**
 Spaced repetition (SM-2).  The ease factor is kept in hundredths, where its arithmetic is
 exact; the rounding of an interval may be any rule that rounds to a nearest integer.
 */
module Practice {
  import opened Common
  import opened Sorting

  const MIN_EASE := 130
  const MAX_EASE := 300
  const DEFAULT_EASE := 250
  const FIRST_INTERVAL_DAYS := 1
  const SECOND_INTERVAL_DAYS := 6
  const MAX_INTERVAL_DAYS := 365

  datatype Grade = Again | Hard | Good | Easy

  datatype Card = Card(repetitions: nat, interval: nat, ease: nat, due: Option<int>, lapses: nat)

  const NEW_CARD := Card(0, 0, DEFAULT_EASE, None, 0)

  function Quality(grade: Grade): nat {
    match grade
    case Again => 2
    case Hard => 3
    case Good => 4
    case Easy => 5
  }

  // Rounds a number of hundredths of a day to days.
  type Rounding = nat -> nat

  ghost predicate Nearest(round: Rounding) {
    forall n :: -50 <= 100 * round(n) - n <= 50
  }

  /** Ties go to the even neighbour: the rounding of the code. */
  function HalfEven(n: nat): nat {
    var q, r := n / 100, n % 100;
    if r < 50 || (r == 50 && q % 2 == 0) then q else q + 1
  }

  lemma HalfEvenIsNearest()
    ensures Nearest(HalfEven) && forall n :: n % 100 == 50 ==> HalfEven(n) % 2 == 0
  {
  }

  function Clamp(n: int, low: int, high: int): int
    requires low <= high
  {
    if n < low then low else if n > high then high else n
  }

  function Miss(quality: int): int {
    5 - quality
  }

  function Review(card: Card, grade: Grade, today: int, round: Rounding): Card {
    var quality := Quality(grade);
    if quality < 3 then
      var ease := if card.ease < MIN_EASE + 20 then MIN_EASE else card.ease - 20;
      Card(0, FIRST_INTERVAL_DAYS, ease, Some(today + FIRST_INTERVAL_DAYS), card.lapses + 1)
    else
      var ease := Clamp(card.ease + (10 - Miss(quality) * (8 + Miss(quality) * 2)), MIN_EASE, MAX_EASE);
      var repetitions := card.repetitions + 1;
      var interval :=
        if repetitions == 1 then FIRST_INTERVAL_DAYS
        else if repetitions == 2 then SECOND_INTERVAL_DAYS
        else Clamp(round(card.interval * ease), 0, MAX_INTERVAL_DAYS);
      Card(repetitions, interval, ease, Some(today + interval), card.lapses)
  }

  predicate IsDue(card: Card, today: int) {
    card.due.None? || card.due.value <= today
  }

  /**
   What each grade does.  A lapse takes 20 hundredths off the ease, starts the ladder again and is
   counted; hard takes 14 off, good leaves the ease and easy adds 10; the ease stays between 130 and
   300, and the ladder goes one day, six days, and then the last interval times the ease, a year at most.
   */
  lemma GradesMoveTheCard(card: Card, grade: Grade, today: int, round: Rounding)
    requires 130 <= card.ease <= 300
    ensures var after := Review(card, grade, today, round);
            && (grade == Again ==> after.ease == if card.ease < 150 then 130 else card.ease - 20)
            && (grade == Hard ==> after.ease == if card.ease < 144 then 130 else card.ease - 14)
            && (grade == Good ==> after.ease == card.ease)
            && (grade == Easy ==> after.ease == if card.ease > 290 then 300 else card.ease + 10)
            && after.repetitions == (if grade == Again then 0 else card.repetitions + 1)
            && after.lapses == (if grade == Again then card.lapses + 1 else card.lapses)
            && (after.repetitions <= 1 ==> after.interval == 1)
            && (after.repetitions == 2 ==> after.interval == 6)
            && (after.repetitions > 2 ==>
                  after.interval == if round(card.interval * after.ease) > 365 then 365 else round(card.interval * after.ease))
            && after.due == Some(today + after.interval)
  {
  }

  // ---- histories ------------------------------------------------------------------

  datatype Answer = Answer(grade: Grade, today: int)

  function Reviewed(answers: seq<Answer>, round: Rounding): Card {
    if |answers| == 0 then NEW_CARD
    else
      var last := answers[|answers| - 1];
      Review(Reviewed(answers[..|answers| - 1], round), last.grade, last.today, round)
  }

  /** The least interval after n passes in a row: what a card whose ease is at the floor grows to. */
  function Floor(n: nat): nat {
    if n < 6 then
      if n == 0 then 0 else if n == 1 then 1 else if n == 2 then 6 else if n == 3 then 8 else if n == 4 then 10 else 13
    else if n < 12 then
      if n == 6 then 17 else if n == 7 then 22 else if n == 8 then 29 else if n == 9 then 38 else if n == 10 then 49 else 64
    else if n < 18 then
      if n == 12 then 83 else if n == 13 then 108 else if n == 14 then 140 else if n == 15 then 182 else if n == 16 then 237 else 308
    else MAX_INTERVAL_DAYS
  }

  /** The table grows by the least ease, rounded; no entry grows to a tie. */
  lemma FloorGrows(n: nat)
    requires n >= 2
    ensures Floor(n + 1) == Clamp((MIN_EASE * Floor(n) + 49) / 100, 0, MAX_INTERVAL_DAYS)
    ensures n < 17 ==> Floor(n + 1) == (MIN_EASE * Floor(n) + 50) / 100
  {
  }

  predicate Sound(card: Card) {
    && MIN_EASE <= card.ease <= MAX_EASE
    && card.interval <= MAX_INTERVAL_DAYS
    && (card.repetitions == 1 ==> card.interval == FIRST_INTERVAL_DAYS)
    && (card.repetitions == 2 ==> card.interval == SECOND_INTERVAL_DAYS)
    && card.interval >= Floor(card.repetitions)
    && (card.repetitions >= 2 ==> card.interval >= SECOND_INTERVAL_DAYS)
  }

  lemma GrowthAtLeast(x: nat, ease: nat)
    requires ease >= MIN_EASE
    ensures x * ease >= MIN_EASE * x
  {
    assert x * ease == x * MIN_EASE + x * (ease - MIN_EASE);
  }

  /** The days a rounded growth is at least. */
  lemma RoundedGrowth(x: nat, ease: nat, low: nat, round: Rounding)
    requires Nearest(round) && ease >= MIN_EASE && x >= low
    ensures round(x * ease) >= (MIN_EASE * low + 49) / 100
    ensures x >= 2 ==> round(x * ease) > x
  {
    GrowthAtLeast(x, ease);
    assert -50 <= 100 * round(x * ease) - x * ease;
  }

  lemma ReviewKeepsSound(card: Card, grade: Grade, today: int, round: Rounding)
    requires Nearest(round) && Sound(card)
    ensures Sound(Review(card, grade, today, round))
  {
    var after := Review(card, grade, today, round);
    if after.repetitions > 2 {
      FloorGrows(card.repetitions);
      RoundedGrowth(card.interval, after.ease, Floor(card.repetitions), round);
    }
  }

  lemma {:induction false} HistoriesAreSound(answers: seq<Answer>, round: Rounding)
    requires Nearest(round)
    ensures Sound(Reviewed(answers, round))
  {
    if |answers| > 0 {
      var last := answers[|answers| - 1];
      HistoriesAreSound(answers[..|answers| - 1], round);
      ReviewKeepsSound(Reviewed(answers[..|answers| - 1], round), last.grade, last.today, round);
    }
  }

  predicate Pass(grade: Grade) {
    grade != Again
  }

  predicate AllPasses(answers: seq<Answer>) {
    forall i :: 0 <= i < |answers| ==> Pass(answers[i].grade)
  }

  lemma ReviewedSnoc(answers: seq<Answer>, last: Answer, round: Rounding)
    ensures Reviewed(answers + [last], round) == Review(Reviewed(answers, round), last.grade, last.today, round)
  {
    assert (answers + [last])[..|answers|] == answers;
  }

  lemma {:induction false} PassesCount(history: seq<Answer>, passes: seq<Answer>, round: Rounding)
    requires AllPasses(passes)
    ensures Reviewed(history + passes, round).repetitions == Reviewed(history, round).repetitions + |passes|
  {
    if |passes| == 0 {
      assert history + passes == history;
    } else {
      var front, last := passes[..|passes| - 1], passes[|passes| - 1];
      PassesCount(history, front, round);
      assert history + passes == (history + front) + [last];
      ReviewedSnoc(history + front, last, round);
    }
  }

  /** Over any history: the ease stays between 1.3 and 3.0, and the card comes due exactly when its interval has passed. */
  lemma {:induction false} AnyHistoryIsSound(answers: seq<Answer>, round: Rounding, today: int)
    requires Nearest(round) && |answers| > 0
    ensures var card := Reviewed(answers, round);
            && 130 <= card.ease <= 300
            && 1 <= card.interval <= 365
            && (IsDue(card, today) <==> today >= answers[|answers| - 1].today + card.interval)
  {
    HistoriesAreSound(answers, round);
  }

  function Lapses(answers: seq<Answer>): nat {
    if |answers| == 0 then 0 else Lapses(answers[..|answers| - 1]) + if answers[|answers| - 1].grade == Again then 1 else 0
  }

  /** How many answers at the end are passes. */
  function Streak(answers: seq<Answer>): nat {
    if |answers| == 0 || answers[|answers| - 1].grade == Again then 0 else Streak(answers[..|answers| - 1]) + 1
  }

  /** A card starts with an ease of 2.5 and no due date; over any history it counts its lapses and the passes since the last one. */
  lemma {:induction false} HistoryIsCounted(answers: seq<Answer>, round: Rounding)
    ensures |answers| == 0 ==> Reviewed(answers, round) == Card(0, 0, 250, None, 0)
    ensures Reviewed(answers, round).lapses == Lapses(answers) && Reviewed(answers, round).repetitions == Streak(answers)
  {
    if |answers| > 0 {
      HistoryIsCounted(answers[..|answers| - 1], round);
    }
  }

  /** After any history, a pass that is not the first in its row lengthens the interval, until it is a year. */
  lemma PassLengthens(history: seq<Answer>, pass: Answer, round: Rounding)
    requires Nearest(round) && Pass(pass.grade) && Reviewed(history, round).repetitions >= 1
    ensures var before, after := Reviewed(history, round), Reviewed(history + [pass], round);
            after.interval > before.interval || before.interval == after.interval == 365
  {
    var before := Reviewed(history, round);
    HistoriesAreSound(history, round);
    ReviewedSnoc(history, pass, round);
    var after := Reviewed(history + [pass], round);
    if before.repetitions >= 2 {
      HistoriesAreSound(history + [pass], round);
      RoundedGrowth(before.interval, after.ease, 0, round);
    }
  }

  /** Eighteen passes in a row, whatever their grades and whatever came before, reach the one-year cap. */
  lemma EighteenPassesReachTheCap(history: seq<Answer>, passes: seq<Answer>, round: Rounding)
    requires Nearest(round) && AllPasses(passes) && |passes| >= 18
    ensures Reviewed(history + passes, round).interval == 365
  {
    PassesCount(history, passes, round);
    HistoriesAreSound(history + passes, round);
  }

  // ---- eighteen are needed ------------------------------------------------------------

  function Same(grade: Grade, n: nat): seq<Answer> {
    if n == 0 then [] else Same(grade, n - 1) + [Answer(grade, 0)]
  }

  lemma {:induction false} LapsesReachTheFloor(n: nat, round: Rounding)
    requires n <= 6
    ensures var card := Reviewed(Same(Again, n), round);
            card.ease == DEFAULT_EASE - 20 * n && (n > 0 ==> card.repetitions == 0)
  {
    if n > 0 {
      LapsesReachTheFloor(n - 1, round);
      ReviewedSnoc(Same(Again, n - 1), Answer(Again, 0), round);
    }
  }

  lemma HardPassFollowsTheFloor(card: Card, round: Rounding)
    requires Nearest(round) && card.ease == MIN_EASE && card.repetitions < 17
    requires card.repetitions > 0 ==> card.interval == Floor(card.repetitions)
    ensures var after := Review(card, Hard, 0, round);
            after.ease == MIN_EASE && after.repetitions == card.repetitions + 1 && after.interval == Floor(after.repetitions)
  {
    if card.repetitions >= 2 {
      var grown := card.interval * MIN_EASE;
      FloorGrows(card.repetitions);
      assert -50 <= 100 * round(grown) - grown <= 50;
    }
  }

  lemma {:induction false} HardPassesFollowTheFloor(n: nat, round: Rounding)
    requires Nearest(round) && n <= 17
    ensures var card := Reviewed(Same(Again, 6) + Same(Hard, n), round);
            card.ease == MIN_EASE && card.repetitions == n && (n > 0 ==> card.interval == Floor(n))
  {
    var lapses := Same(Again, 6);
    if n == 0 {
      LapsesReachTheFloor(6, round);
      assert lapses + Same(Hard, 0) == lapses;
    } else {
      HardPassesFollowTheFloor(n - 1, round);
      assert lapses + Same(Hard, n) == (lapses + Same(Hard, n - 1)) + [Answer(Hard, 0)];
      ReviewedSnoc(lapses + Same(Hard, n - 1), Answer(Hard, 0), round);
      HardPassFollowsTheFloor(Reviewed(lapses + Same(Hard, n - 1), round), round);
    }
  }

  /**
   Seventeen are not enough: six lapses and then seventeen hard passes leave the interval at 308 days,
   however ties are rounded.
   */
  lemma SeventeenPassesMayNotReachTheCap(round: Rounding)
    requires Nearest(round)
    ensures Reviewed(Same(Again, 6) + Same(Hard, 17), round).interval == 308
    ensures Reviewed(Same(Again, 6) + Same(Hard, 17), HalfEven).interval == 308
  {
    HardPassesFollowTheFloor(17, round);
    HalfEvenIsNearest();
    HardPassesFollowTheFloor(17, HalfEven);
  }

  // ---- the review queue -------------------------------------------------------------------

  datatype Entry = Entry(key: string, card: Card)

  /** Most overdue first, a card never reviewed before all; among equals, the card that failed more often. */
  predicate Sooner(a: Entry, b: Entry) {
    if a.card.due == b.card.due then a.card.lapses >= b.card.lapses
    else a.card.due.None? || (b.card.due.Some? && a.card.due.value < b.card.due.value)
  }

  lemma SoonerIsPreorder()
    ensures Preorder(Sooner)
  {
  }

  function DueEntries(schedules: seq<Entry>, today: int): seq<Entry> {
    if |schedules| == 0 then []
    else DueEntries(schedules[..|schedules| - 1], today)
         + if IsDue(schedules[|schedules| - 1].card, today) then [schedules[|schedules| - 1]] else []
  }

  method SelectDueCards(schedules: seq<Entry>, today: int, limit: nat) returns (selected: seq<Entry>)
    ensures var queue := Sort(DueEntries(schedules, today), Sooner);
            selected == if limit < |queue| then queue[..limit] else queue
  {
    var due: seq<Entry> := [];
    for i := 0 to |schedules|
      invariant due == DueEntries(schedules[..i], today)
    {
      assert schedules[..i + 1][..i] == schedules[..i];
      if IsDue(schedules[i].card, today) {
        due := due + [schedules[i]];
      }
    }
    assert schedules[..|schedules|] == schedules;
    var queue := Sort(due, Sooner);
    selected := if limit < |queue| then queue[..limit] else queue;
  }

  lemma {:induction false} DueEntriesAre(schedules: seq<Entry>, today: int)
    ensures forall e :: e in DueEntries(schedules, today) <==> e in schedules && IsDue(e.card, today)
  {
    if |schedules| > 0 {
      DueEntriesAre(schedules[..|schedules| - 1], today);
    }
  }

  /** Due no later, a card never reviewed before all; due the same day, it failed at least as often. */
  predicate AsUrgent(a: Card, b: Card) {
    && (a.due.None? || (b.due.Some? && a.due.value <= b.due.value))
    && (a.due == b.due ==> a.lapses >= b.lapses)
  }

  /**
   The queue holds due cards only, the most urgent first, and one is left out only when the queue is
   full of cards as urgent.
   */
  lemma QueueTakesTheMostOverdue(schedules: seq<Entry>, today: int, limit: nat, e: Entry)
    ensures var queue := Sort(DueEntries(schedules, today), Sooner);
            var selected := if limit < |queue| then queue[..limit] else queue;
            && (e in selected ==> e in schedules && (e.card.due.None? || e.card.due.value <= today))
            && (e in schedules && (e.card.due.None? || e.card.due.value <= today) && e !in selected ==>
                  |selected| == limit && forall s :: s in selected ==> AsUrgent(s.card, e.card))
            && (forall i, j :: 0 <= i < j < |selected| ==> AsUrgent(selected[i].card, selected[j].card))
  {
    var due := DueEntries(schedules, today);
    var queue := Sort(due, Sooner);
    var selected := if limit < |queue| then queue[..limit] else queue;
    SoonerIsPreorder();
    DueEntriesAre(schedules, today);
    SortIsSorted(due, Sooner);
    SortMembers(due, Sooner, e);
    if e in queue && e !in selected {
      var j :| 0 <= j < |queue| && queue[j] == e;
      forall s | s in selected ensures AsUrgent(s.card, e.card) {
        var i :| 0 <= i < |selected| && selected[i] == s;
        assert i < j && queue[i] == s && Sooner(s, e);
      }
    }
    forall i, j | 0 <= i < j < |selected| ensures AsUrgent(selected[i].card, selected[j].card) {
      assert Sooner(queue[i], queue[j]);
    }
  }
}
