/**
 Printing a template and recognising it again gives the template back.

 Each part of a printed problem is read back on its own: an integer with its sign, a term, the
 equals sign and the right-hand side.  The prompt in front of the equation holds no match,
 because every word of it is followed by another word or by the colon; and a printed linear
 problem holds no quadratic, because it has no power.
 */
module TwinRoundTrip {
  import opened Common
  import opened Decimal
  import opened Text
  import opened TwinTemplates

  lemma LStripDropsSpace(rest: string)
    ensures LStrip([' '] + rest) == LStrip(rest)
  {
    assert ([' '] + rest)[1..] == rest;
  }

  /** A printed number followed by something else is scanned whole. */
  lemma NumberReadsBack(n: nat, rest: string)
    requires |rest| == 0 || !IsDigit(rest[0])
    ensures var s := ToDecimal(n) + rest;
            && LeadingDigits(s) == ToDecimal(n) && AfterDigits(s) == rest && LStrip(s) == s
            && IsDigit(s[0]) && AllDigits(ToDecimal(n)) && Value(LeadingDigits(s)) == n
  {
    DecimalReadsBack(n);
    LeadingDigitsStop(ToDecimal(n), rest);
    assert (ToDecimal(n) + rest)[0] == ToDecimal(n)[0];
  }

  lemma IntegerReadsBack(n: int, rest: string)
    requires |rest| == 0 || !IsDigit(rest[0])
    ensures var s := IntText(n) + rest;
            && (StartsWith(s, '-') <==> n < 0)
            && Skip(s, '-') == ToDecimal(Abs(n)) + rest
            && LStrip(s) == s && (s[0] == '-' || IsDigit(s[0]))
  {
    var number := ToDecimal(Abs(n)) + rest;
    NumberReadsBack(Abs(n), rest);
    if n < 0 {
      assert IntText(n) + rest == ['-'] + number;
      MinusIsSkipped(number);
    } else {
      NoMinusIsSkipped(number);
    }
  }

  lemma MinusIsSkipped(number: string)
    ensures var s := ['-'] + number; StartsWith(s, '-') && Skip(s, '-') == number && LStrip(s) == s
  {
  }

  lemma NoMinusIsSkipped(s: string)
    requires |s| > 0 && IsDigit(s[0])
    ensures !StartsWith(s, '-') && Skip(s, '-') == s && LStrip(s) == s
  {
  }

  /** The start of a term, up to its magnitude. */
  lemma TermReadsBack(n: int, rest: string)
    requires |rest| == 0 || !IsDigit(rest[0])
    ensures var s := Term(n, rest);
            && StartsWithSign(s) && LStrip(s) == s && (s[0] == '-' <==> n < 0)
            && LStrip(s[1..]) == ToDecimal(Abs(n)) + rest
  {
    var number := ToDecimal(Abs(n)) + rest;
    NumberReadsBack(Abs(n), rest);
    assert Term(n, rest)[1..] == [' '] + number;
    LStripDropsSpace(number);
  }

  lemma EqualsReadsBack(rest: string)
    ensures var s := LStrip(Equals(rest));
            StartsWith(s, '=') && LStrip(s[1..]) == LStrip(rest)
  {
    LStripDropsSpace(['='] + ([' '] + rest));
    assert (['='] + ([' '] + rest))[1..] == [' '] + rest;
    LStripDropsSpace(rest);
  }

  // ---- linear -------------------------------------------------------------------

  lemma WholeInteger(n: int)
    ensures LStrip(IntText(n)) == IntText(n) && (StartsWith(IntText(n), '-') <==> n < 0)
    ensures LeadingDigits(Skip(IntText(n), '-')) == ToDecimal(Abs(n))
    ensures AllDigits(ToDecimal(Abs(n))) && Value(ToDecimal(Abs(n))) == Abs(n)
  {
    var none: string := [];
    assert IntText(n) + none == IntText(n) && ToDecimal(Abs(n)) + none == ToDecimal(Abs(n));
    IntegerReadsBack(n, none);
    NumberReadsBack(Abs(n), none);
  }

  lemma RightSideIsTaken(a: int, variable: char, s: string, shift: string, number: string, right: string, last: string)
    requires StartsWithSign(s) && LStrip(s[1..]) == shift
    requires LeadingDigits(shift) == number && |number| > 0 && AfterDigits(shift) == Equals(right)
    requires LStrip(right) == right && LeadingDigits(Skip(right, '-')) == last && |last| > 0
    ensures MatchRightSide(a, variable, s)
         == Some(LinearMatch(a, Signed(s[0] == '-', Value(number)), Signed(StartsWith(right, '-'), Value(last)), variable))
  {
    EqualsReadsBack(right);
  }

  lemma RightSideReadsBack(a: int, variable: char, b: int, c: int)
    ensures MatchRightSide(a, variable, Term(b, Equals(IntText(c)))) == Some(LinearMatch(a, b, c, variable))
  {
    var right, s := IntText(c), Term(b, Equals(IntText(c)));
    TermReadsBack(b, Equals(right));
    NumberReadsBack(Abs(b), Equals(right));
    WholeInteger(c);
    RightSideIsTaken(a, variable, s, ToDecimal(Abs(b)) + Equals(right), ToDecimal(Abs(b)), right, ToDecimal(Abs(c)));
  }

  lemma CoefficientIsTaken(s: string, unsigned: string, number: string, variable: char, right: string)
    requires Skip(s, '-') == unsigned && LeadingDigits(unsigned) == number && |number| > 0
    requires AfterDigits(unsigned) == [variable] + ([' '] + right)
    requires IsLetter(variable) && |right| > 0 && !IsSpace(right[0])
    ensures MatchLinear(s) == MatchRightSide(Signed(StartsWith(s, '-'), Value(number)), variable, right)
  {
    var at := [variable] + ([' '] + right);
    assert at[1..] == [' '] + right;
    LStripDropsSpace(right);
    assert LStrip(right) == right && LStrip(at) == at && Skip(at, '*') == at;
    HeadIsTaken(s, unsigned, number, at, at);
  }

  lemma StarIsSkipped(star: string, at: string)
    requires star == ['*'] + at && |at| > 0 && IsLetter(at[0])
    ensures LStrip(Skip(LStrip(star), '*')) == at
  {
    assert star[1..] == at;
  }

  lemma HeadIsTaken(s: string, unsigned: string, number: string, star: string, at: string)
    requires Skip(s, '-') == unsigned && LeadingDigits(unsigned) == number && |number| > 0 && AfterDigits(unsigned) == star
    requires |at| > 0 && IsLetter(at[0]) && LStrip(Skip(LStrip(star), '*')) == at
    ensures MatchLinear(s) == MatchRightSide(Signed(StartsWith(s, '-'), Value(number)), at[0], LStrip(at[1..]))
  {
  }

  lemma StarIsTaken(s: string, unsigned: string, number: string, at: string, right: string)
    requires Skip(s, '-') == unsigned && LeadingDigits(unsigned) == number && |number| > 0 && AfterDigits(unsigned) == ['*'] + at
    requires |at| > 0 && IsLetter(at[0]) && at[1..] == [' '] + right && |right| > 0 && !IsSpace(right[0])
    ensures MatchLinear(s) == MatchRightSide(Signed(StartsWith(s, '-'), Value(number)), at[0], right)
  {
    StarIsSkipped(['*'] + at, at);
    LStripDropsSpace(right);
    assert LStrip(right) == right;
    HeadIsTaken(s, unsigned, number, ['*'] + at, at);
  }

  /** Whatever follows, a printed coefficient and its variable are taken first. */
  lemma CoefficientReadsBack(a: int, variable: char, right: string)
    requires IsLetter(variable) && |right| > 0 && !IsSpace(right[0])
    ensures MatchLinear(IntText(a) + ([variable] + ([' '] + right))) == MatchRightSide(a, variable, right)
  {
    var rest := [variable] + ([' '] + right);
    IntegerReadsBack(a, rest);
    NumberReadsBack(Abs(a), rest);
    CoefficientIsTaken(IntText(a) + rest, ToDecimal(Abs(a)) + rest, ToDecimal(Abs(a)), variable, right);
  }

  lemma LinearBodyReadsBack(t: Template)
    requires t.Linear? && IsLetter(t.variable)
    ensures MatchLinear(LinearBody(t)) == Some(LinearMatch(t.a, t.b, t.c, t.variable))
  {
    TermReadsBack(t.b, Equals(IntText(t.c)));
    CoefficientReadsBack(t.a, t.variable, Term(t.b, Equals(IntText(t.c))));
    RightSideReadsBack(t.a, t.variable, t.b, t.c);
  }

  // ---- quadratic ------------------------------------------------------------------

  lemma ConstantIsTaken(b: int, variable: char, s: string, constant: string, number: string)
    requires StartsWithSign(s) && LStrip(s[1..]) == constant
    requires LeadingDigits(constant) == number && |number| > 0 && AfterDigits(constant) == Equals(['0'])
    ensures MatchConstant(b, variable, s) == Some(QuadraticMatch(b, Signed(s[0] == '-', Value(number)), variable))
  {
    EqualsReadsBack(['0']);
  }

  lemma ConstantReadsBack(b: int, variable: char, c: int)
    ensures MatchConstant(b, variable, Term(c, Equals(['0']))) == Some(QuadraticMatch(b, c, variable))
  {
    TermReadsBack(c, Equals(['0']));
    NumberReadsBack(Abs(c), Equals(['0']));
    ConstantIsTaken(b, variable, Term(c, Equals(['0'])), ToDecimal(Abs(c)) + Equals(['0']), ToDecimal(Abs(c)));
  }

  lemma MiddleIsTaken(variable: char, letter: char, s: string, middle: string, number: string, end: string)
    requires StartsWithSign(s) && LStrip(s[1..]) == middle
    requires LeadingDigits(middle) == number && |number| > 0 && AfterDigits(middle) == [letter] + ([' '] + end)
    requires IsLetter(letter) && SameLetter(letter, variable) && |end| > 0 && !IsSpace(end[0])
    ensures MatchMiddle(variable, s) == MatchConstant(Signed(s[0] == '-', Value(number)), variable, end)
  {
    var rest := [letter] + ([' '] + end);
    assert rest[1..] == [' '] + end;
    LStripDropsSpace(end);
    assert LStrip(end) == end;
    assert !IsSpace(letter) && LStrip(rest) == rest && Skip(rest, '*') == rest && rest[0] == letter;
  }

  lemma MiddleReadsBack(b: int, variable: char, letter: char, end: string)
    requires IsLetter(letter) && SameLetter(letter, variable) && |end| > 0 && !IsSpace(end[0])
    ensures MatchMiddle(variable, Term(b, [letter] + ([' '] + end))) == MatchConstant(b, variable, end)
  {
    var rest := [letter] + ([' '] + end);
    TermReadsBack(b, rest);
    NumberReadsBack(Abs(b), rest);
    MiddleIsTaken(variable, letter, Term(b, rest), ToDecimal(Abs(b)) + rest, ToDecimal(Abs(b)), end);
  }

  /** The variable of the middle term may be in the other case. */
  lemma OtherCaseReadsBack(b: int, variable: char, other: char, end: string)
    requires 'a' <= variable <= 'z' && 'A' <= other <= 'Z' && variable as int == other as int + 32
    requires |end| > 0 && !IsSpace(end[0])
    ensures MatchMiddle(variable, Term(b, [other] + ([' '] + end))) == MatchConstant(b, variable, end)
    ensures MatchMiddle(other, Term(b, [variable] + ([' '] + end))) == MatchConstant(b, other, end)
  {
    MiddleReadsBack(b, variable, other, end);
    MiddleReadsBack(b, other, variable, end);
  }

  /** A square may be written with two stars. */
  lemma DoubleStarReadsBack(variable: char, middle: string)
    requires IsLetter(variable) && |middle| > 0 && !IsSpace(middle[0])
    ensures MatchQuadratic([variable] + (['*'] + (['*'] + (['2'] + ([' '] + middle))))) == MatchMiddle(variable, middle)
  {
    var two := ['2'] + ([' '] + middle);
    StarsAreSkipped(two);
    assert two[1..] == [' '] + middle;
    LStripDropsSpace(middle);
    assert ([variable] + (['*'] + (['*'] + two)))[1..] == ['*'] + (['*'] + two);
  }

  lemma StarsAreSkipped(two: string)
    ensures var stars := ['*'] + (['*'] + two); LStrip(stars) == stars && AfterPower(stars) == Some(two)
  {
    assert (['*'] + (['*'] + two))[2..] == two;
  }

  /** A coefficient may be joined to its variable by a star. */
  lemma StarReadsBack(a: int, variable: char, right: string)
    requires IsLetter(variable) && |right| > 0 && !IsSpace(right[0])
    ensures MatchLinear(IntText(a) + (['*'] + ([variable] + ([' '] + right)))) == MatchRightSide(a, variable, right)
  {
    var at := [variable] + ([' '] + right);
    var rest := ['*'] + at;
    IntegerReadsBack(a, rest);
    NumberReadsBack(Abs(a), rest);
    StarIsTaken(IntText(a) + rest, ToDecimal(Abs(a)) + rest, ToDecimal(Abs(a)), at, right);
  }

  lemma SquareReadsBack(variable: char, middle: string)
    requires IsLetter(variable) && |middle| > 0 && !IsSpace(middle[0])
    ensures MatchQuadratic([variable] + (['^'] + (['2'] + ([' '] + middle)))) == MatchMiddle(variable, middle)
  {
    var two := ['2'] + ([' '] + middle);
    var power := ['^'] + two;
    assert ([variable] + power)[1..] == power && power[1..] == two && two[1..] == [' '] + middle;
    LStripDropsSpace(middle);
    assert LStrip(middle) == middle && LStrip(two) == two && LStrip(power) == power;
  }

  lemma MonicBodyReadsBack(b: int, c: int, v: char)
    requires IsLetter(v)
    ensures MatchQuadratic(MonicBody(b, c, v)) == Some(QuadraticMatch(b, c, v))
  {
    var end := Term(c, Equals(['0']));
    TermReadsBack(c, Equals(['0']));
    TermReadsBack(b, [v] + ([' '] + end));
    SquareReadsBack(v, Term(b, [v] + ([' '] + end)));
    MiddleReadsBack(b, v, v, end);
    ConstantReadsBack(b, v, c);
  }

  // ---- the prompt ----------------------------------------------------------------------

  /** Letters and spaces, as the words before the colon. */
  predicate Plain(s: string) {
    forall i :: 0 <= i < |s| ==> IsLetter(s[i]) || s[i] == ' '
  }

  lemma {:induction false} StripPlain(u: string, tail: string)
    requires Plain(u) && |tail| > 0 && !IsSpace(tail[0])
    ensures LStrip(u + tail) == LStrip(u) + tail && Plain(LStrip(u))
    ensures |LStrip(u)| == 0 || IsLetter(LStrip(u)[0])
  {
    if |u| == 0 {
      assert u + tail == tail;
    } else {
      assert (u + tail)[1..] == u[1..] + tail;
      if u[0] == ' ' {
        StripPlain(u[1..], tail);
      }
    }
  }

  lemma PromptHoldsNoQuadratic(u: string, tail: string)
    requires Plain(u) && |u| > 0 && StartsWith(tail, ':')
    ensures MatchQuadratic(u + tail).None?
  {
    assert (u + tail)[1..] == u[1..] + tail;
    StripPlain(u[1..], tail);
  }

  /** A linear match cannot start at a letter that is followed by another letter or by the colon. */
  lemma LetterStartsNothing(u: string, tail: string)
    requires Plain(u) && |u| > 0 && IsLetter(u[0]) && StartsWith(tail, ':')
    ensures var at := u + tail; at[0] == u[0] && MatchRightSide(1, at[0], LStrip(at[1..])).None?
  {
    assert (u + tail)[1..] == u[1..] + tail;
    StripPlain(u[1..], tail);
  }

  lemma PromptHoldsNoLinear(u: string, tail: string)
    requires Plain(u) && |u| > 0 && StartsWith(tail, ':')
    ensures MatchLinear(u + tail).None?
  {
    var s, w := u + tail, LStrip(u);
    StripPlain(u, tail);
    assert s[0] == u[0];
    assert |LeadingDigits(s)| == 0 && AfterDigits(s) == s && Skip(s, '-') == s;
    if |w| == 0 {
      assert w + tail == tail;
    } else {
      LetterStartsNothing(w, tail);
    }
  }

  lemma ColonMatchesNothing(body: string)
    ensures MatchLinear([':'] + body).None? && MatchQuadratic([':'] + body).None?
  {
    var s := [':'] + body;
    assert |LeadingDigits(s)| == 0 && AfterDigits(s) == s && Skip(s, '-') == s && LStrip(s) == s;
  }

  lemma {:induction false} SearchSkipsPrompt(u: string, tail: string)
    requires Plain(u) && StartsWith(tail, ':')
    ensures SearchLinear(u + tail) == SearchLinear(tail)
    ensures SearchQuadratic(u + tail) == SearchQuadratic(tail)
  {
    if |u| == 0 {
      assert u + tail == tail;
    } else {
      assert (u + tail)[1..] == u[1..] + tail;
      PromptHoldsNoLinear(u, tail);
      PromptHoldsNoQuadratic(u, tail);
      SearchSkipsPrompt(u[1..], tail);
    }
  }

  lemma SpaceStartsNoLinear(body: string)
    requires |body| > 0 && (body[0] == '-' || IsDigit(body[0]))
    ensures MatchLinear([' '] + body).None?
  {
    var spaced := [' '] + body;
    LStripDropsSpace(body);
    assert |LeadingDigits(spaced)| == 0 && AfterDigits(spaced) == spaced && Skip(spaced, '-') == spaced;
    assert LStrip(spaced) == body && LStrip(body) == body && Skip(body, '*') == body;
  }

  lemma SearchSkipsColon(body: string)
    requires |body| > 0
    ensures SearchQuadratic([':'] + ([' '] + body)) == SearchQuadratic(body)
    ensures body[0] == '-' || IsDigit(body[0]) ==> SearchLinear([':'] + ([' '] + body)) == SearchLinear(body)
  {
    var spaced := [' '] + body;
    ColonMatchesNothing(spaced);
    assert ([':'] + spaced)[1..] == spaced && spaced[1..] == body;
    assert MatchQuadratic(spaced).None?;
    if body[0] == '-' || IsDigit(body[0]) {
      SpaceStartsNoLinear(body);
    }
  }

  // ---- a printed linear problem holds no quadratic ---------------------------------------------

  predicate PowerFree(s: string) {
    forall i :: 0 <= i < |s| ==> s[i] != '^' && s[i] != '*'
  }

  lemma {:induction false} StripKeepsPowerFree(s: string)
    requires PowerFree(s)
    ensures PowerFree(LStrip(s))
  {
    if |s| > 0 && IsSpace(s[0]) {
      StripKeepsPowerFree(s[1..]);
    }
  }

  lemma {:induction false} PowerFreeHoldsNoQuadratic(s: string)
    requires PowerFree(s)
    ensures SearchQuadratic(s).None?
  {
    if |s| > 0 {
      StripKeepsPowerFree(s[1..]);
      assert MatchQuadratic(s).None?;
      PowerFreeHoldsNoQuadratic(s[1..]);
    }
  }

  lemma PowerFreeAppend(a: string, b: string)
    requires PowerFree(a) && PowerFree(b)
    ensures PowerFree(a + b)
  {
  }

  lemma TermIsPowerFree(n: int, rest: string)
    requires PowerFree(rest)
    ensures PowerFree(Term(n, rest)) && PowerFree(Equals(rest)) && PowerFree(IntText(n))
  {
    DecimalReadsBack(Abs(n));
    PowerFreeAppend(ToDecimal(Abs(n)), rest);
  }

  lemma LinearBodyIsPowerFree(t: Template)
    requires t.Linear? && IsLetter(t.variable)
    ensures PowerFree(LinearBody(t))
  {
    var right := Term(t.b, Equals(IntText(t.c)));
    TermIsPowerFree(t.c, []);
    TermIsPowerFree(t.c, IntText(t.c));
    TermIsPowerFree(t.b, Equals(IntText(t.c)));
    TermIsPowerFree(t.a, []);
    PowerFreeAppend([' '], right);
    PowerFreeAppend([t.variable], [' '] + right);
    PowerFreeAppend(IntText(t.a), [t.variable] + ([' '] + right));
  }

  // ---- round trips --------------------------------------------------------------------------------

  lemma PromptIsPlain(variable: char)
    requires IsLetter(variable)
    ensures Plain(PROMPT + [variable])
  {
  }

  lemma PrintedDigits()
    ensures ToDecimal(2) == ['2'] && ToDecimal(3) == ['3'] && ToDecimal(4) == ['4'] && ToDecimal(5) == ['5'] && ToDecimal(6) == ['6']
    ensures ToDecimal(19) == ['1', '9']
  {
    assert ToDecimal(1) == ['1'];
    assert ToDecimal(19) == ToDecimal(1) + ['9'];
  }

  /** What is printed for a linear problem with a negative constant. */
  lemma PrintedLinear()
    ensures LinearBody(Linear(3, -4, 19, 'x')) == "3x - 4 = 19"
    ensures Render(Linear(3, -4, 19, 'x')) == "Solve for x: " + LinearBody(Linear(3, -4, 19, 'x'))
  {
    PrintedDigits();
  }

  /** What is printed for the quadratic with roots 2 and 3. */
  lemma PrintedQuadratic()
    ensures QuadraticBody(Quadratic(2, 3, 'x')) == "x^2 - 5x + 6 = 0"
    ensures Render(Quadratic(2, 3, 'x')) == "Solve for x: " + QuadraticBody(Quadratic(2, 3, 'x'))
  {
    PrintedDigits();
  }

  /** A printed linear problem parses to itself, exactly when its coefficient is not zero. */
  lemma LinearRoundTrip(t: Template)
    requires t.Linear? && ('a' <= t.variable <= 'z' || 'A' <= t.variable <= 'Z')
    ensures ParseTemplate(Render(t)) == if t.a == 0 then Err(ZeroCoefficient) else Ok(t)
  {
    var body := LinearBody(t);
    var tail := [':'] + ([' '] + body);
    PromptIsPlain(t.variable);
    SearchSkipsPrompt(PROMPT + [t.variable], tail);
    IntegerReadsBack(t.a, [t.variable] + ([' '] + Term(t.b, Equals(IntText(t.c)))));
    SearchSkipsColon(body);
    LinearBodyIsPowerFree(t);
    PowerFreeHoldsNoQuadratic(body);
    LinearBodyReadsBack(t);
  }

  function Larger(a: int, b: int): int {
    if a >= b then a else b
  }

  function Smaller(a: int, b: int): int {
    if a >= b then b else a
  }

  function Match(t: Template): QuadraticMatch
    requires t.Quadratic?
  {
    QuadraticMatch(QuadraticB(t), QuadraticC(t), t.variable)
  }

  lemma PrintedQuadraticIsFound(t: Template)
    requires t.Quadratic? && IsLetter(t.variable)
    ensures SearchQuadratic(Render(t)) == Some(Match(t))
  {
    var body := QuadraticBody(t);
    PromptIsPlain(t.variable);
    SearchSkipsPrompt(PROMPT + [t.variable], [':'] + ([' '] + body));
    SearchSkipsColon(body);
    MonicBodyReadsBack(QuadraticB(t), QuadraticC(t), t.variable);
  }

  lemma RootsAreRecovered(t: Template)
    requires t.Quadratic?
    ensures RecoverRoots(Match(t)) == Ok(Quadratic(Larger(t.rootOne, t.rootTwo), Smaller(t.rootOne, t.rootTwo), t.variable))
  {
    assert HasIntegerRoots(Match(t), t.rootOne, t.rootTwo);
    IntegerRootsGiveSquare(Match(t), t.rootOne, t.rootTwo);
    SquareIsRecovered(Match(t), Abs(t.rootOne - t.rootTwo));
  }

  /** A printed integer-root quadratic parses to the same roots, the larger first. */
  lemma QuadraticRoundTrip(t: Template)
    requires t.Quadratic? && ('a' <= t.variable <= 'z' || 'A' <= t.variable <= 'Z')
    ensures ParseTemplate(Render(t)) == Ok(Quadratic(Larger(t.rootOne, t.rootTwo), Smaller(t.rootOne, t.rootTwo), t.variable))
  {
    PrintedQuadraticIsFound(t);
    RootsAreRecovered(t);
  }
}
