/**
 What the two searches leave out.

 They find their equation anywhere in a text, and what stands before it is not read: a
 coefficient before a quadratic, a constant or a square before a linear equation, and the sign
 between them.  For each of these it is proved what is read instead, and exactly when that is
 harmless.
 */
module TwinMisread {
  import opened Common
  import opened Decimal
  import opened Text
  import opened TwinTemplates
  import opened TwinRoundTrip

  // ---- a leading coefficient before a monic quadratic --------------------------------------

  /** A printed quadratic with any leading coefficient. */
  function ScaledText(n: int, b: int, c: int, variable: char): string {
    Prompted(variable, IntText(n) + MonicBody(b, c, variable))
  }

  lemma {:induction false} SearchSkipsNumber(number: string, body: string)
    requires forall i :: 0 <= i < |number| ==> number[i] == '-' || IsDigit(number[i])
    ensures SearchQuadratic(number + body) == SearchQuadratic(body)
  {
    if |number| == 0 {
      assert number + body == body;
    } else {
      assert (number + body)[1..] == number[1..] + body;
      SearchSkipsNumber(number[1..], body);
    }
  }

  lemma PromptedIsSearched(variable: char, body: string)
    requires IsLetter(variable) && |body| > 0
    ensures SearchQuadratic(Prompted(variable, body)) == SearchQuadratic(body)
  {
    PromptIsPlain(variable);
    SearchSkipsPrompt(PROMPT + [variable], [':'] + ([' '] + body));
    SearchSkipsColon(body);
  }

  /** The leading coefficient is not read: the match starts at the variable. */
  lemma ScaledQuadraticIsFound(n: int, b: int, c: int, variable: char)
    requires IsLetter(variable)
    ensures SearchQuadratic(ScaledText(n, b, c, variable)) == Some(QuadraticMatch(b, c, variable))
  {
    var body := MonicBody(b, c, variable);
    PromptedIsSearched(variable, IntText(n) + body);
    DecimalReadsBack(Abs(n));
    SearchSkipsNumber(IntText(n), body);
    MonicBodyReadsBack(b, c, variable);
    assert |body| > 0;
  }

  lemma ScaledValue(n: int, b: int, c: int, r: int, other: int)
    requires r + other == -b && r * other == c
    ensures n * (r * r) + b * r + c == (n - 1) * (r * r)
  {
    assert b * r == -(r * r) - r * other;
  }

  lemma ProductIsZeroIff(x: int, r: int)
    ensures x * (r * r) == 0 <==> x == 0 || r == 0
  {
    if x != 0 && r != 0 {
      assert r * r != 0;
    }
  }

  lemma BothZeroIff(b: int, c: int, r1: int, r2: int)
    requires r1 + r2 == -b && r1 * r2 == c
    ensures r1 == 0 && r2 == 0 <==> b == 0 && c == 0
  {
    if b == 0 && c == 0 {
      assert r1 * r1 == -(r1 * r2);
      ProductIsZeroIff(1, r1);
    }
  }

  lemma ScaledIsReadAsMonic(n: int, b: int, c: int, variable: char)
    requires IsLetter(variable)
    ensures ParseTemplate(ScaledText(n, b, c, variable)) == RecoverRoots(QuadraticMatch(b, c, variable))
  {
    ScaledQuadraticIsFound(n, b, c, variable);
  }

  predicate Solves(n: int, b: int, c: int, r: int) {
    n * (r * r) + b * r + c == 0
  }

  lemma SolvesScaledIff(n: int, b: int, c: int, r: int, other: int)
    requires r + other == -b && r * other == c
    ensures Solves(n, b, c, r) <==> n == 1 || r == 0
  {
    ScaledValue(n, b, c, r, other);
    ProductIsZeroIff(n - 1, r);
  }

  /**
   Whatever its leading coefficient, a printed quadratic is accepted exactly when the monic
   one has integer roots, and the roots found solve the equation as printed if and only if
   that coefficient is one or the other two are zero.
   */
  lemma RootsSolveThePrintedIff(n: int, b: int, c: int, variable: char)
    requires IsLetter(variable)
    ensures var parsed := ParseTemplate(ScaledText(n, b, c, variable));
            && (parsed.Ok? <==> exists r1, r2 :: HasIntegerRoots(QuadraticMatch(b, c, variable), r1, r2))
            && (parsed.Ok? ==>
                  && parsed.value.Quadratic?
                  && (Solves(n, b, c, parsed.value.rootOne) && Solves(n, b, c, parsed.value.rootTwo)
                      <==> n == 1 || (b == 0 && c == 0)))
  {
    ScaledIsReadAsMonic(n, b, c, variable);
    var m := QuadraticMatch(b, c, variable);
    AcceptedIffIntegerRoots(m);
    var recovered := RecoverRoots(m);
    if recovered.Ok? {
      var r1, r2 := recovered.value.rootOne, recovered.value.rootTwo;
      SolvesScaledIff(n, b, c, r1, r2);
      SolvesScaledIff(n, b, c, r2, r1);
      BothZeroIff(b, c, r1, r2);
    }
  }

  /** The input 2x^2 - 5x + 6 = 0: its roots are given as 3 and 2, and neither solves it. */
  lemma DoubledQuadraticIsMisread()
    ensures ParseTemplate(ScaledText(2, -5, 6, 'x')) == Ok(Quadratic(3, 2, 'x'))
    ensures 2 * (3 * 3) - 5 * 3 + 6 == 9 && 2 * (2 * 2) - 5 * 2 + 6 == 4
  {
    ScaledQuadraticIsFound(2, -5, 6, 'x');
    RootsAreRecovered(Quadratic(3, 2, 'x'));
  }

  // ---- a term before a linear equation ------------------------------------------------------

  /** A further term a v + b = c, printed with its sign. */
  function Trailing(a: int, b: int, c: int, variable: char): string {
    Term(a, [variable] + ([' '] + Term(b, Equals(IntText(c)))))
  }

  /** A constant, and then that term: m + av + b = c. */
  function ShiftedText(m: int, a: int, b: int, c: int, variable: char): string {
    Prompted(variable, IntText(m) + ([' '] + Trailing(a, b, c, variable)))
  }

  /** A square, and then that term: nv^2 + av + b = c. */
  function SquaredText(n: int, a: int, b: int, c: int, variable: char): string {
    Prompted(variable, IntText(n) + SquareThen(a, b, c, variable))
  }

  function SquareThen(a: int, b: int, c: int, variable: char): string {
    [variable] + (['^'] + (['2'] + ([' '] + Trailing(a, b, c, variable))))
  }

  lemma TrailingIsALinearBody(a: int, b: int, c: int, variable: char)
    requires IsLetter(variable)
    ensures Trailing(a, b, c, variable) == [SignChar(a)] + ([' '] + LinearBody(Linear(Abs(a), b, c, variable)))
  {
  }

  lemma SignStartsNoLinear(sign: char, body: string)
    requires (sign == '+' || sign == '-') && |body| > 0 && IsDigit(body[0])
    ensures MatchLinear([sign] + ([' '] + body)).None?
  {
    var s := [sign] + ([' '] + body);
    var unsigned := Skip(s, '-');
    LStripDropsSpace(body);
    assert s[1..] == [' '] + body;
    assert |LeadingDigits(unsigned)| == 0 && AfterDigits(unsigned) == unsigned;
    assert LStrip(s) == s && LStrip(body) == body;
  }

  /** The search reads the magnitude of the coefficient, and not its sign. */
  lemma TrailingIsFound(a: int, b: int, c: int, variable: char)
    requires IsLetter(variable)
    ensures SearchLinear(Trailing(a, b, c, variable)) == Some(LinearMatch(Abs(a), b, c, variable))
  {
    LinearBodyReadsBack(Linear(Abs(a), b, c, variable));
    TrailingIsALinearBody(a, b, c, variable);
    BodyStartsWithDigit(Abs(a), b, c, variable);
    FoundAfterSign(SignChar(a), LinearBody(Linear(Abs(a), b, c, variable)), LinearMatch(Abs(a), b, c, variable));
  }

  lemma BodyStartsWithDigit(a: nat, b: int, c: int, variable: char)
    requires IsLetter(variable)
    ensures var body := LinearBody(Linear(a, b, c, variable)); |body| > 0 && IsDigit(body[0])
  {
    NumberReadsBack(a, [variable] + ([' '] + Term(b, Equals(IntText(c)))));
  }

  lemma FoundAfterSign(sign: char, body: string, found: LinearMatch)
    requires (sign == '+' || sign == '-') && |body| > 0 && IsDigit(body[0]) && MatchLinear(body) == Some(found)
    ensures SearchLinear([sign] + ([' '] + body)) == Some(found)
  {
    SignStartsNoLinear(sign, body);
    SearchSkipsOne(sign, [' '] + body);
    SpaceStartsNoLinear(body);
    SearchSkipsOne(' ', body);
  }

  predicate SignAfterSpace(tail: string) {
    |tail| > 1 && tail[0] == ' ' && (tail[1] == '+' || tail[1] == '-')
  }

  lemma NumberStartsNoLinear(number: string, tail: string)
    requires |number| > 0 && AllDigits(number[1..]) && (number[0] == '-' || IsDigit(number[0])) && SignAfterSpace(tail)
    ensures MatchLinear(number + tail).None?
  {
    var s := number + tail;
    assert tail == [' '] + tail[1..];
    LStripDropsSpace(tail[1..]);
    assert LStrip(tail) == tail[1..];
    if number[0] == '-' {
      assert s[1..] == number[1..] + tail;
      LeadingDigitsStop(number[1..], tail);
      assert AfterDigits(s[1..]) == tail;
    } else {
      LeadingDigitsStop(number, tail);
      assert AfterDigits(s) == tail;
    }
  }

  lemma SpaceBeforeSignStartsNoLinear(tail: string)
    requires SignAfterSpace(tail)
    ensures MatchLinear(tail).None?
  {
    assert tail == [' '] + tail[1..];
    LStripDropsSpace(tail[1..]);
    assert |LeadingDigits(tail)| == 0 && AfterDigits(tail) == tail && Skip(tail, '-') == tail && LStrip(tail) == tail[1..];
  }

  /** No match starts anywhere in the first part. */
  predicate StartsNone(part: string, rest: string) {
    forall i :: 0 <= i < |part| ==> MatchLinear(part[i..] + rest).None?
  }

  lemma SearchSkipsOne(c: char, rest: string)
    requires MatchLinear([c] + rest).None?
    ensures SearchLinear([c] + rest) == SearchLinear(rest)
  {
    assert ([c] + rest)[1..] == rest;
  }

  lemma {:induction false} SearchSkips(part: string, rest: string)
    requires StartsNone(part, rest)
    ensures SearchLinear(part + rest) == SearchLinear(rest)
  {
    if |part| == 0 {
      assert part + rest == rest;
    } else {
      SplitFirst(part, rest);
      StartsNoneInTail(part, rest);
      SearchSkipsOne(part[0], part[1..] + rest);
      SearchSkips(part[1..], rest);
    }
  }

  lemma SplitFirst(part: string, rest: string)
    requires |part| > 0
    ensures part + rest == [part[0]] + (part[1..] + rest)
  {
  }

  lemma StartsNoneInTail(part: string, rest: string)
    requires |part| > 0 && StartsNone(part, rest)
    ensures MatchLinear([part[0]] + (part[1..] + rest)).None? && StartsNone(part[1..], rest)
  {
    var after := part[1..];
    SplitFirst(part, rest);
    assert part[0..] == part;
    forall i | 0 <= i < |after| ensures MatchLinear(after[i..] + rest).None? {
      assert after[i..] == part[i + 1..];
    }
  }

  lemma IntegerPart(m: int, i: nat)
    requires i < |IntText(m)|
    ensures var rest := IntText(m)[i..]; AllDigits(rest[1..]) && (rest[0] == '-' || IsDigit(rest[0]))
  {
    DecimalReadsBack(Abs(m));
  }

  /** Whatever number stands before it, the term is what is found. */
  lemma SearchSkipsInteger(m: int, tail: string)
    requires SignAfterSpace(tail)
    ensures SearchLinear(IntText(m) + tail) == SearchLinear(tail[1..])
  {
    forall i | 0 <= i < |IntText(m)| ensures MatchLinear(IntText(m)[i..] + tail).None? {
      IntegerPart(m, i);
      NumberStartsNoLinear(IntText(m)[i..], tail);
    }
    SearchSkips(IntText(m), tail);
    SearchSkipsSpace(tail);
  }

  lemma SearchSkipsSpace(tail: string)
    requires SignAfterSpace(tail)
    ensures SearchLinear(tail) == SearchLinear(tail[1..])
  {
    assert tail == [' '] + tail[1..];
    SpaceBeforeSignStartsNoLinear(tail);
    SearchSkipsOne(' ', tail[1..]);
  }

  lemma TrailingStart(a: int, b: int, c: int, variable: char)
    requires IsLetter(variable)
    ensures var tail := [' '] + Trailing(a, b, c, variable); SignAfterSpace(tail) && tail[1..] == Trailing(a, b, c, variable)
    ensures PowerFree([' '] + Trailing(a, b, c, variable))
  {
    var right := Term(b, Equals(IntText(c)));
    TermIsPowerFree(c, []);
    TermIsPowerFree(c, IntText(c));
    TermIsPowerFree(b, Equals(IntText(c)));
    PowerFreeAppend([' '], right);
    PowerFreeAppend([variable], [' '] + right);
    TermIsPowerFree(a, [variable] + ([' '] + right));
    PowerFreeAppend([' '], Trailing(a, b, c, variable));
  }

  function Read(a: int, b: int, c: int, variable: char): Result<Template, ParseError> {
    if a == 0 then Err(ZeroCoefficient) else Ok(Linear(Abs(a), b, c, variable))
  }

  /** A constant before the term is dropped, and so is the sign between them. */
  lemma ShiftIsNotRead(m: int, a: int, b: int, c: int, variable: char)
    requires IsLetter(variable)
    ensures ParseTemplate(ShiftedText(m, a, b, c, variable)) == Read(a, b, c, variable)
  {
    var tail := [' '] + Trailing(a, b, c, variable);
    var body := IntText(m) + tail;
    TrailingStart(a, b, c, variable);
    TermIsPowerFree(m, []);
    PowerFreeAppend(IntText(m), tail);
    PowerFreeHoldsNoQuadratic(body);
    IntegerReadsBack(m, tail);
    PromptIsPlain(variable);
    SearchSkipsPrompt(PROMPT + [variable], [':'] + ([' '] + body));
    SearchSkipsColon(body);
    SearchSkipsInteger(m, tail);
    TrailingIsFound(a, b, c, variable);
  }

  /** Only a constant of zero, or one that happens to make up for the lost sign, leaves the root a root of what is printed. */
  lemma ShiftIsHarmlessIff(m: int, a: int, b: int, c: int, x: real)
    requires a != 0 && Abs(a) as real * x + b as real == c as real
    ensures m as real + a as real * x + b as real == c as real <==> m == if a > 0 then 0 else 2 * (c - b)
  {
    if a < 0 {
      assert Abs(a) as real == -(a as real);
      assert a as real * x == b as real - c as real;
    }
  }

  // ---- a square before it ----------------------------------------------------------------------

  lemma LetterThenPowerStartsNoLinear(s: string, number: string, variable: char, rest: string)
    requires s == number + ([variable] + (['^'] + rest)) && IsLetter(variable)
    requires |number| > 0 ==> AllDigits(number[1..]) && (number[0] == '-' || IsDigit(number[0]))
    ensures MatchLinear(s).None?
  {
    var at := [variable] + (['^'] + rest);
    if |number| > 0 && number[0] == '-' {
      assert s[1..] == number[1..] + at;
      LeadingDigitsStop(number[1..], at);
      assert AfterDigits(s[1..]) == at;
    } else if |number| > 0 {
      LeadingDigitsStop(number, at);
      assert AfterDigits(s) == at;
    } else {
      assert s == at && |LeadingDigits(s)| == 0 && AfterDigits(s) == s && Skip(s, '-') == s;
    }
    PowerIsNoRightSide(s, variable, rest);
  }

  lemma PowerIsNoRightSide(s: string, variable: char, rest: string)
    requires AfterDigits(Skip(s, '-')) == [variable] + (['^'] + rest) && IsLetter(variable)
    ensures MatchLinear(s).None?
  {
    var power := ['^'] + rest;
    var at := [variable] + power;
    assert at[1..] == power && LStrip(power) == power;
    assert LStrip(at) == at && Skip(at, '*') == at && at[0] == variable;
  }

  lemma PowerStartsNoLinear(rest: string)
    ensures MatchLinear(['^'] + rest).None?
  {
    var s := ['^'] + rest;
    assert |LeadingDigits(s)| == 0 && AfterDigits(s) == s && Skip(s, '-') == s && LStrip(s) == s;
  }

  lemma SearchSkipsIntegerToPower(n: int, variable: char, rest: string)
    requires IsLetter(variable)
    ensures SearchLinear(IntText(n) + ([variable] + (['^'] + rest))) == SearchLinear(rest)
  {
    var power := ['^'] + rest;
    var at := [variable] + power;
    forall i | 0 <= i < |IntText(n)| ensures MatchLinear(IntText(n)[i..] + at).None? {
      IntegerPart(n, i);
      LetterThenPowerStartsNoLinear(IntText(n)[i..] + at, IntText(n)[i..], variable, rest);
    }
    SearchSkips(IntText(n), at);
    assert [] + at == at;
    LetterThenPowerStartsNoLinear(at, [], variable, rest);
    SearchSkipsOne(variable, power);
    PowerStartsNoLinear(rest);
    SearchSkipsOne('^', rest);
  }

  lemma SquareThenIsFound(n: int, a: int, b: int, c: int, variable: char)
    requires IsLetter(variable)
    ensures SearchLinear(IntText(n) + SquareThen(a, b, c, variable)) == Some(LinearMatch(Abs(a), b, c, variable))
  {
    var tail := [' '] + Trailing(a, b, c, variable);
    TrailingStart(a, b, c, variable);
    SearchSkipsIntegerToPower(n, variable, ['2'] + tail);
    NumberStartsNoLinear(['2'], tail);
    SearchSkipsOne('2', tail);
    SearchSkipsSpace(tail);
    TrailingIsFound(a, b, c, variable);
  }

  lemma NonzeroIsNoZero(c: int)
    requires c != 0
    ensures !StartsWith(IntText(c), '0')
  {
    if c > 0 {
      LeadingDigitIsNoZero(c);
    }
  }

  lemma {:induction false} LeadingDigitIsNoZero(n: nat)
    requires n > 0
    ensures ToDecimal(n)[0] != '0'
  {
    if n >= 10 {
      LeadingDigitIsNoZero(n / 10);
    }
  }

  lemma ConstantIsNotZero(b: int, variable: char, second: int, c: int)
    requires c != 0
    ensures MatchConstant(second, variable, Term(b, Equals(IntText(c)))).None?
  {
    var right := IntText(c);
    TermReadsBack(b, Equals(right));
    NumberReadsBack(Abs(b), Equals(right));
    EqualsReadsBack(right);
    WholeInteger(c);
    NonzeroIsNoZero(c);
  }

  /** With something else than zero on the right there is no quadratic to be found. */
  lemma SquareThenIsNoQuadratic(n: int, a: int, b: int, c: int, variable: char)
    requires IsLetter(variable) && c != 0
    ensures SearchQuadratic(IntText(n) + SquareThen(a, b, c, variable)).None?
  {
    var trailing := Trailing(a, b, c, variable);
    var end := Term(b, Equals(IntText(c)));
    DecimalReadsBack(Abs(n));
    SearchSkipsNumber(IntText(n), SquareThen(a, b, c, variable));
    TermReadsBack(b, Equals(IntText(c)));
    TermReadsBack(a, [variable] + ([' '] + end));
    SquareReadsBack(variable, trailing);
    MiddleReadsBack(a, variable, variable, end);
    ConstantIsNotZero(b, variable, a, c);
    TrailingStart(a, b, c, variable);
    AfterSquareIsNoQuadratic(variable, [' '] + trailing);
  }

  lemma AfterSquareIsNoQuadratic(variable: char, tail: string)
    requires PowerFree(tail)
    requires MatchQuadratic([variable] + (['^'] + (['2'] + tail))).None?
    ensures SearchQuadratic([variable] + (['^'] + (['2'] + tail))).None?
  {
    var two := ['2'] + tail;
    var power := ['^'] + two;
    assert PowerFree(two);
    PowerFreeHoldsNoQuadratic(two);
    assert power[1..] == two && ([variable] + power)[1..] == power;
    assert MatchQuadratic(power).None?;
  }

  /** A square before the term is dropped too, unless the right-hand side is zero. */
  lemma SquareIsNotRead(n: int, a: int, b: int, c: int, variable: char)
    requires IsLetter(variable) && c != 0
    ensures ParseTemplate(SquaredText(n, a, b, c, variable)) == Read(a, b, c, variable)
  {
    var body := IntText(n) + SquareThen(a, b, c, variable);
    IntegerReadsBack(n, SquareThen(a, b, c, variable));
    PromptIsPlain(variable);
    SearchSkipsPrompt(PROMPT + [variable], [':'] + ([' '] + body));
    SearchSkipsColon(body);
    SquareThenIsFound(n, a, b, c, variable);
    SquareThenIsNoQuadratic(n, a, b, c, variable);
  }

  lemma SquareCancels(n: real, a: real, x: real)
    ensures n * (x * x) - 2.0 * a * x == x * (n * x - 2.0 * a)
  {
  }

  /** The root found then solves what is printed only where the square vanishes there, or makes up for the lost sign. */
  lemma SquareIsHarmlessIff(n: int, a: int, b: int, c: int, x: real)
    requires a != 0 && Abs(a) as real * x + b as real == c as real
    ensures n as real * (x * x) + a as real * x + b as real == c as real
            <==> c == b || (if a > 0 then n == 0 else n * (c - b) == 2 * (a * a))
  {
    var k := Abs(a) as real;
    assert x == 0.0 <==> c == b;
    if a > 0 {
      assert a as real == k;
      assert n as real * (x * x) == 0.0 <==> n == 0 || x == 0.0;
    } else {
      assert a as real == -k;
      SquareCancels(n as real, k, x);
      assert k * (n as real * x) == n as real * (k * x);
      assert k * x == (c - b) as real;
    }
  }

  // ---- what stands after a linear equation --------------------------------------------------------

  /** A linear equation, printed with more behind its last number. */
  function FollowedText(t: Template, rest: string): string
    requires t.Linear?
  {
    Prompted(t.variable, FollowedBody(t, rest))
  }

  function FollowedBody(t: Template, rest: string): string
    requires t.Linear?
  {
    IntText(t.a) + ([t.variable] + ([' '] + Term(t.b, Equals(IntText(t.c) + rest))))
  }

  lemma LastNumberIsTaken(c: int, rest: string)
    requires |rest| == 0 || !IsDigit(rest[0])
    ensures var right := IntText(c) + rest;
            && LStrip(right) == right && (StartsWith(right, '-') <==> c < 0)
            && LeadingDigits(Skip(right, '-')) == ToDecimal(Abs(c)) && AllDigits(ToDecimal(Abs(c))) && Value(ToDecimal(Abs(c))) == Abs(c)
  {
    IntegerReadsBack(c, rest);
    NumberReadsBack(Abs(c), rest);
  }

  lemma RightSideWith(a: int, variable: char, b: int, right: string, last: string)
    requires LStrip(right) == right && LeadingDigits(Skip(right, '-')) == last && |last| > 0
    ensures MatchRightSide(a, variable, Term(b, Equals(right)))
         == Some(LinearMatch(a, b, Signed(StartsWith(right, '-'), Value(last)), variable))
  {
    TermReadsBack(b, Equals(right));
    NumberReadsBack(Abs(b), Equals(right));
    RightSideIsTaken(a, variable, Term(b, Equals(right)), ToDecimal(Abs(b)) + Equals(right), ToDecimal(Abs(b)), right, last);
  }

  lemma FollowedRightSide(a: int, variable: char, b: int, c: int, rest: string)
    requires |rest| == 0 || !IsDigit(rest[0])
    ensures MatchRightSide(a, variable, Term(b, Equals(IntText(c) + rest))) == Some(LinearMatch(a, b, c, variable))
  {
    LastNumberIsTaken(c, rest);
    RightSideWith(a, variable, b, IntText(c) + rest, ToDecimal(Abs(c)));
  }

  lemma FollowedBodyReadsBack(t: Template, rest: string)
    requires t.Linear? && IsLetter(t.variable) && (|rest| == 0 || !IsDigit(rest[0]))
    ensures MatchLinear(FollowedBody(t, rest)) == Some(LinearMatch(t.a, t.b, t.c, t.variable))
  {
    var right := Term(t.b, Equals(IntText(t.c) + rest));
    TermReadsBack(t.b, Equals(IntText(t.c) + rest));
    CoefficientReadsBack(t.a, t.variable, right);
    FollowedRightSide(t.a, t.variable, t.b, t.c, rest);
  }

  lemma FollowedBodyIsPowerFree(t: Template, rest: string)
    requires t.Linear? && IsLetter(t.variable) && PowerFree(rest)
    ensures PowerFree(FollowedBody(t, rest))
  {
    var last := IntText(t.c) + rest;
    var right := Term(t.b, Equals(last));
    TermIsPowerFree(t.c, []);
    PowerFreeAppend(IntText(t.c), rest);
    TermIsPowerFree(t.c, last);
    TermIsPowerFree(t.b, Equals(last));
    TermIsPowerFree(t.a, []);
    PowerFreeAppend([' '], right);
    PowerFreeAppend([t.variable], [' '] + right);
    PowerFreeAppend(IntText(t.a), [t.variable] + ([' '] + right));
  }

  /** Whatever follows the last number, as long as it holds no power, is not read. */
  lemma RestIsNotRead(t: Template, rest: string)
    requires t.Linear? && IsLetter(t.variable) && PowerFree(rest) && (|rest| == 0 || !IsDigit(rest[0]))
    ensures ParseTemplate(FollowedText(t, rest)) == if t.a == 0 then Err(ZeroCoefficient) else Ok(t)
  {
    var body := FollowedBody(t, rest);
    IntegerReadsBack(t.a, [t.variable] + ([' '] + Term(t.b, Equals(IntText(t.c) + rest))));
    PromptIsPlain(t.variable);
    SearchSkipsPrompt(PROMPT + [t.variable], [':'] + ([' '] + body));
    SearchSkipsColon(body);
    FollowedBodyIsPowerFree(t, rest);
    PowerFreeHoldsNoQuadratic(body);
    FollowedBodyReadsBack(t, rest);
  }

  /** A further term with the variable on the right, as in av + b = c + dv. */
  function TermRest(d: int, variable: char): string {
    [' '] + Term(d, [variable])
  }

  lemma TermRestIsNotRead(t: Template, d: int)
    requires t.Linear? && IsLetter(t.variable)
    ensures ParseTemplate(FollowedText(t, TermRest(d, t.variable))) == if t.a == 0 then Err(ZeroCoefficient) else Ok(t)
  {
    TermIsPowerFree(d, [t.variable]);
    PowerFreeAppend([' '], Term(d, [t.variable]));
    RestIsNotRead(t, TermRest(d, t.variable));
  }

  /** The root read then solves what is printed if and only if the term has coefficient zero or the root is zero. */
  lemma TermRestIsHarmlessIff(a: int, b: int, c: int, d: int, x: real)
    requires a != 0 && a as real * x + b as real == c as real
    ensures a as real * x + b as real == c as real + d as real * x <==> d == 0 || b == c
  {
    assert x == 0.0 <==> b == c;
    assert d as real * x == 0.0 <==> d == 0 || x == 0.0;
  }

  /** The variable directly behind the last number and a further constant, as in av + b = dv + e, where d is read for c. */
  function SwappedRest(e: int, variable: char): string {
    [variable] + ([' '] + Term(e, []))
  }

  lemma SwappedRestIsNotRead(t: Template, e: int)
    requires t.Linear? && IsLetter(t.variable)
    ensures ParseTemplate(FollowedText(t, SwappedRest(e, t.variable))) == if t.a == 0 then Err(ZeroCoefficient) else Ok(t)
  {
    TermIsPowerFree(e, []);
    PowerFreeAppend([' '], Term(e, []));
    PowerFreeAppend([t.variable], [' '] + Term(e, []));
    RestIsNotRead(t, SwappedRest(e, t.variable));
  }

  /** The root of av + b = d then solves av + b = dv + e if and only if d(a - (d - b)) = ea. */
  lemma SwappedRestIsHarmlessIff(a: int, b: int, d: int, e: int, x: real)
    requires a != 0 && a as real * x + b as real == d as real
    ensures a as real * x + b as real == d as real * x + e as real <==> d * (a - (d - b)) == e * a
  {
    ScaledByCoefficient(a as real, b as real, d as real, e as real, x);
    assert (d * (a - (d - b)) - e * a) as real == d as real * (a as real - (d as real - b as real)) - e as real * a as real;
  }

  lemma ScaledByCoefficient(a: real, b: real, d: real, e: real, x: real)
    requires a != 0.0 && a * x + b == d
    ensures d == d * x + e <==> d * (a - (d - b)) - e * a == 0.0
  {
    var gap := d - d * x - e;
    assert a * gap == d * a - d * (a * x) - e * a;
    assert a * x == d - b;
  }

  /** Decimals of the last number, as in av + b = c.f. */
  function DecimalRest(decimals: string): string {
    ['.'] + decimals
  }

  lemma DecimalRestIsNotRead(t: Template, decimals: string)
    requires t.Linear? && IsLetter(t.variable) && AllDigits(decimals)
    ensures ParseTemplate(FollowedText(t, DecimalRest(decimals))) == if t.a == 0 then Err(ZeroCoefficient) else Ok(t)
  {
    RestIsNotRead(t, DecimalRest(decimals));
  }

  function TenTo(n: nat): nat {
    if n == 0 then 1 else 10 * TenTo(n - 1)
  }

  lemma {:induction false} TenToIsPositive(n: nat)
    ensures TenTo(n) > 0
  {
    if n > 0 {
      TenToIsPositive(n - 1);
    }
  }

  /** The number printed as c and some decimals, a minus before c going for both. */
  function WithDecimals(minus: bool, c: nat, decimals: string): real
    requires AllDigits(decimals)
  {
    TenToIsPositive(|decimals|);
    var size := c as real + Value(decimals) as real / TenTo(|decimals|) as real;
    if minus then -size else size
  }

  /** The root read then solves what is printed if and only if the decimals are zeros. */
  lemma DecimalRestIsHarmlessIff(a: int, b: int, c: int, decimals: string, x: real)
    requires a as real * x + b as real == c as real && AllDigits(decimals)
    ensures a as real * x + b as real == WithDecimals(c < 0, Abs(c), decimals) <==> Value(decimals) == 0
  {
    TenToIsPositive(|decimals|);
    var part := Value(decimals) as real / TenTo(|decimals|) as real;
    assert part == 0.0 <==> Value(decimals) == 0;
    if c < 0 {
      assert Abs(c) as real == -(c as real);
    }
  }
}
