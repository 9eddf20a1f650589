/**
 Deterministic twins of a parsed problem: new values and a new answer, the same kind of problem.

 Each attempt shifts the numbers of the original by its own offset.  A linear twin is built
 from its root where the original has an integer root, and otherwise by shifting both sides; a
 quadratic twin is built from two different integer roots.  A batch takes the first attempts,
 as many as are wanted within the ceiling.
 */
module TwinGeneration {
  import opened Common
  import opened TwinTemplates
  import TwinRoundTrip

  const MAX_REGENERATION_ATTEMPTS := 8
  const OFFSETS: seq<int> := [1, 2, 3, -1, -2, 4, 5, -3]

  function Offset(attempt: nat): int {
    OFFSETS[attempt % |OFFSETS|]
  }

  // A template the parser can produce.
  predicate Usable(t: Template) {
    t.Linear? ==> t.a != 0
  }

  function Root(t: Template): real
    requires t.Linear? && t.a != 0
  {
    (t.c - t.b) as real / t.a as real
  }

  predicate HasIntegerRoot(t: Template)
    requires t.Linear? && t.a != 0
  {
    (t.c - t.b) % t.a == 0
  }

  /** The root is shifted and the right-hand side derived from it; a fractional root is shifted by other means. */
  function TwinLinear(t: Template, attempt: nat): Template
    requires t.Linear? && t.a != 0
  {
    var offset := Offset(attempt);
    var newB := t.b + offset;
    if HasIntegerRoot(t) then Linear(t.a, newB, t.a * ((t.c - t.b) / t.a + offset) + newB, t.variable)
    else Linear(t.a, newB, t.c + offset * 2, t.variable)
  }

  function Low(t: Template): int
    requires t.Quadratic?
  {
    if t.rootOne <= t.rootTwo then t.rootOne else t.rootTwo
  }

  function High(t: Template): int
    requires t.Quadratic?
  {
    if t.rootOne <= t.rootTwo then t.rootTwo else t.rootOne
  }

  function TwinQuadratic(t: Template, attempt: nat): Template
    requires t.Quadratic?
  {
    var gap := if High(t) - Low(t) < 1 then 1 else High(t) - Low(t);
    var newLow := Low(t) + Offset(attempt);
    Quadratic(newLow, newLow + gap + attempt % 2, t.variable)
  }

  function Twin(t: Template, attempt: nat): Template
    requires Usable(t)
  {
    if t.Linear? then TwinLinear(t, attempt) else TwinQuadratic(t, attempt)
  }

  // What the answer line states; the roots of a quadratic in increasing order.
  datatype Answer = One(root: real) | Two(low: int, high: int)

  function AnswerOf(t: Template): Answer
    requires Usable(t)
  {
    if t.Linear? then One(Root(t)) else Two(Low(t), High(t))
  }

  // ---- what a twin keeps and what it changes ------------------------------------------

  /** The value solves the equation that is printed. */
  predicate Solves(t: Template, x: real) {
    if t.Linear? then t.a as real * x + t.b as real == t.c as real
    else x * x + QuadraticB(t) as real * x + QuadraticC(t) as real == 0.0
  }

  predicate Solved(t: Template, answer: Answer) {
    match answer
    case One(root) => Solves(t, root)
    case Two(low, high) => Solves(t, low as real) && Solves(t, high as real)
  }

  lemma QuotientTimesDivisor(n: int, a: int)
    requires a != 0
    ensures a as real * (n as real / a as real) == n as real
  {
  }

  lemma RootSolves(t: Template)
    requires t.Linear? && t.a != 0
    ensures Solves(t, Root(t))
  {
    QuotientTimesDivisor(t.c - t.b, t.a);
  }

  lemma IntegerRootSolves(r1: int, r2: int, x: int)
    requires x == r1 || x == r2
    ensures x * x + -(r1 + r2) * x + r1 * r2 == 0
  {
    if x == r1 {
      assert -(r1 + r2) * r1 == -(r1 * r1) - r2 * r1;
    } else {
      assert -(r1 + r2) * r2 == -(r1 * r2) - r2 * r2;
    }
  }

  lemma QuadraticRootSolves(t: Template, x: int)
    requires t.Quadratic? && (x == t.rootOne || x == t.rootTwo)
    ensures Solves(t, x as real)
  {
    IntegerRootSolves(t.rootOne, t.rootTwo, x);
    assert (x * x + QuadraticB(t) * x + QuadraticC(t)) as real
        == x as real * x as real + QuadraticB(t) as real * x as real + QuadraticC(t) as real;
  }

  /** The answer stated for a problem satisfies the equation it prints. */
  lemma AnswerSolves(t: Template)
    requires Usable(t)
    ensures Solved(t, AnswerOf(t))
  {
    if t.Linear? {
      RootSolves(t);
    } else {
      QuadraticRootSolves(t, Low(t));
      QuadraticRootSolves(t, High(t));
    }
  }

  /** How far a linear twin's numerator moves. */
  function Shift(t: Template, attempt: nat): int
    requires t.Linear? && t.a != 0
  {
    if HasIntegerRoot(t) then t.a * Offset(attempt) else Offset(attempt)
  }

  lemma TwinLinearShifts(t: Template, attempt: nat)
    requires t.Linear? && t.a != 0
    ensures var twin := TwinLinear(t, attempt); twin.a == t.a && twin.c - twin.b == t.c - t.b + Shift(t, attempt)
  {
    var n, a, offset := t.c - t.b, t.a, Offset(attempt);
    assert a * (n / a + offset) == a * (n / a) + a * offset;
  }

  lemma MultiplesAreFar(a: int, d: int)
    ensures d >= 1 && a > 0 ==> a * d >= a
    ensures d >= 1 && a < 0 ==> a * d <= a
    ensures d <= -1 && a > 0 ==> a * d <= -a
    ensures d <= -1 && a < 0 ==> a * d >= -a
  {
    assert a * d == a + a * (d - 1) == -a + a * (d + 1);
  }

  lemma MultipleOf(n: int, a: int, k: int)
    requires a != 0 && n == a * k
    ensures n % a == 0
  {
    assert n % a == a * (k - n / a);
    MultiplesAreFar(a, k - n / a);
  }

  /** An integer answer stays an integer. */
  lemma IntegerRootStaysInteger(t: Template, attempt: nat)
    requires t.Linear? && t.a != 0 && HasIntegerRoot(t)
    ensures HasIntegerRoot(TwinLinear(t, attempt))
  {
    TwinLinearShifts(t, attempt);
    var q, offset := (t.c - t.b) / t.a, Offset(attempt);
    assert t.c - t.b == t.a * q;
    assert t.c - t.b + t.a * offset == t.a * (q + offset);
    MultipleOf(t.c - t.b + t.a * offset, t.a, q + offset);
  }

  /** A fractional answer stays fractional exactly when the coefficient does not divide the shifted numerator. */
  lemma FractionStaysFractionIff(t: Template, attempt: nat)
    requires t.Linear? && t.a != 0 && !HasIntegerRoot(t)
    ensures !HasIntegerRoot(TwinLinear(t, attempt)) <==> (t.c - t.b + Offset(attempt)) % t.a != 0
  {
    TwinLinearShifts(t, attempt);
  }

  /** It does not always: the first twin of 3x + 4 = 6, whose root is 2/3, is 3x + 5 = 8, whose root is 1. */
  lemma FractionMayBecomeInteger()
    ensures var t := Linear(3, 4, 6, 'x');
            && !HasIntegerRoot(t)
            && TwinLinear(t, 0) == Linear(3, 5, 8, 'x') && Root(TwinLinear(t, 0)) == 1.0
  {
    assert Offset(0) == 1;
  }

  const SHIFTS: seq<int> := [1, 2, 3, -1, -2, 4, 5, -3]

  /**
   The twin of an attempt, in numbers.  An integer answer moves by the attempt's shift and so does the
   constant, and the right-hand side follows; of a fractional answer the constant moves by the shift
   and the right-hand side by twice that; the roots of a quadratic move by it, one apart if they were
   equal and one farther apart at every second attempt.
   */
  lemma TwinsAreShifted(t: Template, attempt: nat)
    requires Usable(t) && attempt < 8
    ensures var twin, shift := Twin(t, attempt), SHIFTS[attempt];
            && twin.Linear? == t.Linear? && twin.variable == t.variable
            && (t.Linear? ==> twin.a == t.a && twin.b == t.b + shift)
            && (t.Linear? && (t.c - t.b) % t.a == 0 ==>
                  && twin.a * ((t.c - t.b) / t.a) + t.b == t.c
                  && twin.a * ((t.c - t.b) / t.a + shift) + twin.b == twin.c)
            && (t.Linear? && (t.c - t.b) % t.a != 0 ==> twin.c == t.c + 2 * shift)
            && (t.Quadratic? ==>
                  && Low(twin) == Low(t) + shift
                  && High(twin) - Low(twin) == (if t.rootOne == t.rootTwo then 1 else High(t) - Low(t)) + attempt % 2)
  {
    assert attempt % 8 == attempt;
  }

  lemma OffsetsDiffer(i: nat, j: nat)
    requires i < MAX_REGENERATION_ATTEMPTS && j < MAX_REGENERATION_ATTEMPTS
    ensures Offset(i) != 0 && (Offset(i) == Offset(j) ==> i == j)
  {
    assert i % 8 == i && j % 8 == j;
  }

  lemma QuotientsDiffer(n: int, k: int, a: int)
    requires a != 0 && n != k
    ensures n as real / a as real != k as real / a as real
  {
    QuotientTimesDivisor(n, a);
    QuotientTimesDivisor(k, a);
  }

  lemma ShiftsDiffer(t: Template, i: nat, j: nat)
    requires t.Linear? && t.a != 0
    requires i < MAX_REGENERATION_ATTEMPTS && j < MAX_REGENERATION_ATTEMPTS
    ensures Shift(t, i) != 0 && (Shift(t, i) == Shift(t, j) ==> i == j)
  {
    OffsetsDiffer(i, j);
    if HasIntegerRoot(t) && Offset(i) != Offset(j) {
      ProductsDiffer(t.a, Offset(i), Offset(j));
    }
    ProductsDiffer(t.a, Offset(i), 0);
  }

  lemma ProductsDiffer(a: int, x: int, y: int)
    requires a != 0 && x != y
    ensures a * x != a * y
  {
    assert a * x - a * y == a * (x - y);
  }

  /** No attempt repeats the original answer, and no two attempts give the same one. */
  lemma AnswersDiffer(t: Template, i: nat, j: nat)
    requires Usable(t) && i < j < MAX_REGENERATION_ATTEMPTS
    ensures AnswerOf(Twin(t, i)) != AnswerOf(t) && AnswerOf(Twin(t, i)) != AnswerOf(Twin(t, j))
  {
    OffsetsDiffer(i, j);
    if t.Linear? {
      var n := t.c - t.b;
      TwinLinearShifts(t, i);
      TwinLinearShifts(t, j);
      ShiftsDiffer(t, i, j);
      QuotientsDiffer(n + Shift(t, i), n, t.a);
      QuotientsDiffer(n + Shift(t, i), n + Shift(t, j), t.a);
    }
  }

  lemma AnswerIsNew(t: Template, i: nat)
    requires Usable(t) && i < MAX_REGENERATION_ATTEMPTS
    ensures AnswerOf(Twin(t, i)) != AnswerOf(t)
  {
    if i + 1 < MAX_REGENERATION_ATTEMPTS {
      AnswersDiffer(t, i, i + 1);
    } else {
      OffsetsDiffer(i, i);
      if t.Linear? {
        TwinLinearShifts(t, i);
        ShiftsDiffer(t, i, i);
        QuotientsDiffer(t.c - t.b + Shift(t, i), t.c - t.b, t.a);
      }
    }
  }

  /** A twin of a quadratic always has two different integer roots. */
  lemma TwinRootsAreDistinct(t: Template, attempt: nat)
    requires t.Quadratic?
    ensures Low(TwinQuadratic(t, attempt)) < High(TwinQuadratic(t, attempt))
  {
  }

  // ---- generating ------------------------------------------------------------------------

  lemma ParsedIsUsable(text: string)
    requires ParseTemplate(text).Ok?
    ensures Usable(ParseTemplate(text).value)
  {
    var quadratic := SearchQuadratic(text);
    if quadratic.Some? {
      assert ParseTemplate(text) == RecoverRoots(quadratic.value);
    }
  }

  /**
   The printed problem is Render of the twin and its answer line AnswerOf.  Succeeds whenever
   the text is recognised, at the first attempt.
   */
  method GenerateTwin(text: string) returns (result: Result<Template, ParseError>)
    ensures ParseTemplate(text).Err? ==> result == Err(ParseTemplate(text).error)
    ensures ParseTemplate(text).Ok? ==> Usable(ParseTemplate(text).value) && result == Ok(Twin(ParseTemplate(text).value, 0))
  {
    var parsed := ParseTemplate(text);
    if parsed.Err? {
      return Err(parsed.error);
    }
    var template := parsed.value;
    ParsedIsUsable(text);
    result := Err(NoTemplate);
    for attempt := 0 to MAX_REGENERATION_ATTEMPTS
      invariant attempt > 0 ==> AnswerOf(Twin(template, 0)) == AnswerOf(template)
    {
      var candidate := Twin(template, attempt);
      if AnswerOf(candidate) == AnswerOf(template) {
        continue;
      }
      AnswerIsNew(template, 0);
      return Ok(candidate);
    }
    AnswerIsNew(template, 0);
    assert false;
  }

  function Wanted(count: int, maxCount: int): nat {
    var least := if count < maxCount then count else maxCount;
    if least < 1 then 1 else least
  }

  function Produced(count: int, maxCount: int): nat {
    if Wanted(count, maxCount) < MAX_REGENERATION_ATTEMPTS then Wanted(count, maxCount) else MAX_REGENERATION_ATTEMPTS
  }

  /** The twins of the first attempts. */
  function Batch(t: Template, n: nat): seq<Template>
    requires Usable(t)
  {
    if n == 0 then [] else Batch(t, n - 1) + [Twin(t, n - 1)]
  }

  predicate Stated(t: Template, n: nat, answer: Answer)
    requires Usable(t)
  {
    exists i :: 0 <= i < n && answer == AnswerOf(Twin(t, i))
  }

  lemma AnswerIsNotStatedYet(t: Template, n: nat)
    requires Usable(t) && n < MAX_REGENERATION_ATTEMPTS
    ensures !Stated(t, n, AnswerOf(Twin(t, n)))
  {
    forall i | 0 <= i < n ensures AnswerOf(Twin(t, n)) != AnswerOf(Twin(t, i)) {
      AnswersDiffer(t, i, n);
    }
  }

  lemma StatedGrows(t: Template, n: nat, answer: Answer)
    requires Usable(t)
    ensures Stated(t, n + 1, answer) <==> Stated(t, n, answer) || answer == AnswerOf(Twin(t, n))
  {
    if Stated(t, n, answer) {
      var i :| 0 <= i < n && answer == AnswerOf(Twin(t, i));
      assert 0 <= i < n + 1;
    }
  }

  predicate AllStated(seen: set<Answer>, t: Template, n: nat)
    requires Usable(t)
  {
    forall a :: a in seen ==> Stated(t, n, a)
  }

  lemma AnswerIsNotSeen(seen: set<Answer>, t: Template, n: nat)
    requires Usable(t) && n < MAX_REGENERATION_ATTEMPTS && AllStated(seen, t, n)
    ensures AnswerOf(Twin(t, n)) !in seen
  {
    AnswerIsNotStatedYet(t, n);
  }

  lemma AllStatedGrows(seen: set<Answer>, t: Template, n: nat)
    requires Usable(t) && AllStated(seen, t, n)
    ensures AllStated(seen, t, n + 1) && AllStated(seen + {AnswerOf(Twin(t, n))}, t, n + 1)
  {
    forall a ensures Stated(t, n + 1, a) <==> Stated(t, n, a) || a == AnswerOf(Twin(t, n)) {
      StatedGrows(t, n, a);
    }
  }

  method GenerateBatch(text: string, count: int, maxCount: int) returns (result: Result<seq<Template>, ParseError>)
    ensures ParseTemplate(text).Err? ==> result == Err(ParseTemplate(text).error)
    ensures ParseTemplate(text).Ok? ==>
              Usable(ParseTemplate(text).value) && result == Ok(Batch(ParseTemplate(text).value, Produced(count, maxCount)))
  {
    var parsed := ParseTemplate(text);
    if parsed.Err? {
      return Err(parsed.error);
    }
    ParsedIsUsable(text);
    var twins := CollectTwins(parsed.value, Wanted(count, maxCount));
    result := Ok(twins);
  }

  method CollectTwins(template: Template, wanted: nat) returns (twins: seq<Template>)
    requires Usable(template)
    ensures twins == Batch(template, if wanted < MAX_REGENERATION_ATTEMPTS then wanted else MAX_REGENERATION_ATTEMPTS)
  {
    twins := [];
    var seen: set<Answer> := {};
    var attempt := 0;
    while attempt < MAX_REGENERATION_ATTEMPTS && |twins| < wanted
      invariant attempt == |twins| && attempt <= MAX_REGENERATION_ATTEMPTS && attempt <= wanted
      invariant twins == Batch(template, attempt)
      invariant AllStated(seen, template, attempt)
    {
      var candidate := Twin(template, attempt);
      AnswerIsNew(template, attempt);
      AnswerIsNotSeen(seen, template, attempt);
      AllStatedGrows(seen, template, attempt);
      if AnswerOf(candidate) != AnswerOf(template) && AnswerOf(candidate) !in seen {
        seen := seen + {AnswerOf(candidate)};
        twins := twins + [candidate];
      }
      attempt := attempt + 1;
    }
  }

  lemma {:induction false} BatchHolds(t: Template, n: nat)
    requires Usable(t)
    ensures |Batch(t, n)| == n && forall i :: 0 <= i < n ==> Batch(t, n)[i] == Twin(t, i)
  {
    if n > 0 {
      BatchHolds(t, n - 1);
    }
  }

  /**
   A batch holds as many twins as were asked for, within the ceiling, but one at least and eight at
   most; with a ceiling of 1 to 8 that is the number asked for, one at least, or the ceiling.
   */
  lemma BatchSizeIsExact(t: Template, count: int, maxCount: int)
    requires Usable(t)
    ensures var within, n := if count < maxCount then count else maxCount, |Batch(t, Produced(count, maxCount))|;
            && n == (if within < 1 then 1 else if within > 8 then 8 else within)
            && (1 <= maxCount <= 8 ==> n == if count < 1 then 1 else if count < maxCount then count else maxCount)
  {
    BatchHolds(t, Produced(count, maxCount));
  }

  /** What every twin promises against the original. */
  predicate IsTwinOf(twin: Template, t: Template)
    requires Usable(t)
  {
    && Usable(twin) && twin.Linear? == t.Linear? && twin.variable == t.variable
    && AnswerOf(twin) != AnswerOf(t)
    && Solved(twin, AnswerOf(twin))
    && (twin.Quadratic? ==> Low(twin) < High(twin))
    && (t.Linear? && HasIntegerRoot(t) ==> HasIntegerRoot(twin))
  }

  lemma TwinsAreTwins(t: Template, i: nat)
    requires Usable(t) && i < MAX_REGENERATION_ATTEMPTS
    ensures IsTwinOf(Twin(t, i), t)
  {
    AnswerIsNew(t, i);
    if t.Linear? {
      TwinLinearShifts(t, i);
      if HasIntegerRoot(t) {
        IntegerRootStaysInteger(t, i);
      }
    }
    AnswerSolves(Twin(t, i));
  }

  /**
   Every member of a batch is a twin with a new answer that solves the equation it prints,
   integer answers stay integers, quadratics have two different integer roots, and no two
   members have the same answer.
   */
  lemma BatchIsSound(t: Template, count: int, maxCount: int)
    requires Usable(t)
    ensures var batch := Batch(t, Produced(count, maxCount));
            && (forall i :: 0 <= i < |batch| ==> IsTwinOf(batch[i], t))
            && (forall i, j :: 0 <= i < j < |batch| ==> AnswerOf(batch[i]) != AnswerOf(batch[j]))
  {
    var n := Produced(count, maxCount);
    var batch := Batch(t, n);
    BatchHolds(t, n);
    forall i | 0 <= i < |batch| ensures IsTwinOf(batch[i], t) {
      TwinsAreTwins(t, i);
    }
    forall i, j | 0 <= i < j < |batch| ensures AnswerOf(batch[i]) != AnswerOf(batch[j]) {
      TwinsAreTwins(t, i);
      TwinsAreTwins(t, j);
      AnswersDiffer(t, i, j);
    }
  }

  /** A printed twin is recognised again as a problem with the same answer. */
  lemma TwinIsAProblemAgain(t: Template, i: nat)
    requires Usable(t) && ('a' <= t.variable <= 'z' || 'A' <= t.variable <= 'Z')
    ensures var parsed := ParseTemplate(Render(Twin(t, i)));
            parsed.Ok? && Usable(parsed.value) && AnswerOf(parsed.value) == AnswerOf(Twin(t, i))
  {
    if t.Linear? {
      TwinLinearShifts(t, i);
      TwinRoundTrip.LinearRoundTrip(Twin(t, i));
    } else {
      TwinRoundTrip.QuadraticRoundTrip(Twin(t, i));
    }
  }
}
