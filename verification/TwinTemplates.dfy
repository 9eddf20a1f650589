/**
 Templates of re-parameterisable problems: printing them and recognising them again.

 The regular expressions are leftmost scanners over ASCII letters and digits; after a prefix
 is taken no shorter one could let the rest match, so no backtracking is lost.  A quadratic
 is stored by its roots; reading one back recovers them from the discriminant by integer
 arithmetic.
 */
module TwinTemplates {
  import opened Common
  import opened Decimal
  import opened Text

  predicate IsLetter(c: char) {
    'a' <= c <= 'z' || 'A' <= c <= 'Z'
  }

  predicate SameLetter(a: char, b: char) {
    a == b || (IsLetter(a) && IsLetter(b) && (a as int - b as int == 32 || b as int - a as int == 32))
  }

  datatype Template =
    | Linear(a: int, b: int, c: int, variable: char)
    | Quadratic(rootOne: int, rootTwo: int, variable: char)

  datatype ParseError = ZeroCoefficient | NoRealRoots | RootsAreNotIntegers | CouldNotRecoverRoots | NoTemplate

  // ---- printing ----------------------------------------------------------------

  function Abs(n: int): nat {
    if n >= 0 then n else -n
  }

  function IntText(n: int): string {
    if n < 0 then ['-'] + ToDecimal(Abs(n)) else ToDecimal(Abs(n))
  }

  function SignChar(n: int): char {
    if n >= 0 then '+' else '-'
  }

  const PROMPT := "Solve for "

  // Sign, space, magnitude, and what follows.
  function Term(n: int, rest: string): string {
    [SignChar(n)] + ([' '] + (ToDecimal(Abs(n)) + rest))
  }

  // An equals sign between spaces, and the right-hand side.
  function Equals(rest: string): string {
    [' '] + (['='] + ([' '] + rest))
  }

  function LinearBody(t: Template): string
    requires t.Linear?
  {
    IntText(t.a) + ([t.variable] + ([' '] + Term(t.b, Equals(IntText(t.c)))))
  }

  function QuadraticB(t: Template): int
    requires t.Quadratic?
  {
    -(t.rootOne + t.rootTwo)
  }

  function QuadraticC(t: Template): int
    requires t.Quadratic?
  {
    t.rootOne * t.rootTwo
  }

  function MonicBody(b: int, c: int, variable: char): string {
    [variable] + (['^'] + (['2'] + ([' '] + Term(b, [variable] + ([' '] + Term(c, Equals(['0'])))))))
  }

  function QuadraticBody(t: Template): string
    requires t.Quadratic?
  {
    MonicBody(QuadraticB(t), QuadraticC(t), t.variable)
  }

  function Prompted(variable: char, body: string): string {
    (PROMPT + [variable]) + ([':'] + ([' '] + body))
  }

  function Render(t: Template): string {
    Prompted(t.variable, if t.Linear? then LinearBody(t) else QuadraticBody(t))
  }

  // ---- scanning ----------------------------------------------------------------

  predicate StartsWith(s: string, c: char) {
    |s| > 0 && s[0] == c
  }

  function Skip(s: string, c: char): string {
    if StartsWith(s, c) then s[1..] else s
  }

  predicate StartsWithSign(s: string) {
    StartsWith(s, '+') || StartsWith(s, '-')
  }

  /** What follows the digits at the start. */
  function AfterDigits(s: string): string {
    s[|LeadingDigits(s)|..]
  }

  function Signed(minus: bool, n: int): int {
    if minus then -n else n
  }

  // Coefficient, shift and right-hand side as a linear match reads them; no digits before the variable mean one.
  datatype LinearMatch = LinearMatch(a: int, b: int, c: int, variable: char)

  /** The end of a linear match: sign, number, equals sign, signed number. */
  function MatchRightSide(a: int, variable: char, s: string): Option<LinearMatch> {
    if !StartsWithSign(s) then None
    else
      var shift := LStrip(s[1..]);
      var equals := LStrip(AfterDigits(shift));
      if |LeadingDigits(shift)| == 0 || !StartsWith(equals, '=') then None
      else
        var right := LStrip(equals[1..]);
        var digits := LeadingDigits(Skip(right, '-'));
        if |digits| == 0 then None
        else Some(LinearMatch(a, Signed(s[0] == '-', Value(LeadingDigits(shift))), Signed(StartsWith(right, '-'), Value(digits)), variable))
  }

  function Coefficient(minus: bool, digits: string): int
    requires AllDigits(digits)
  {
    Signed(minus, if |digits| == 0 then 1 else Value(digits))
  }

  function MatchLinear(s: string): Option<LinearMatch> {
    var unsigned := Skip(s, '-');
    var at := LStrip(Skip(LStrip(AfterDigits(unsigned)), '*'));
    if |at| == 0 || !IsLetter(at[0]) then None
    else MatchRightSide(Coefficient(StartsWith(s, '-'), LeadingDigits(unsigned)), at[0], LStrip(at[1..]))
  }

  datatype QuadraticMatch = QuadraticMatch(b: int, c: int, variable: char)

  function MatchConstant(b: int, variable: char, s: string): Option<QuadraticMatch> {
    if !StartsWithSign(s) then None
    else
      var constant := LStrip(s[1..]);
      var equals := LStrip(AfterDigits(constant));
      if |LeadingDigits(constant)| == 0 || !StartsWith(equals, '=') || !StartsWith(LStrip(equals[1..]), '0') then None
      else Some(QuadraticMatch(b, Signed(s[0] == '-', Value(LeadingDigits(constant))), variable))
  }

  function MatchMiddle(variable: char, s: string): Option<QuadraticMatch> {
    if !StartsWithSign(s) then None
    else
      var middle := LStrip(s[1..]);
      var at := LStrip(Skip(LStrip(AfterDigits(middle)), '*'));
      if |LeadingDigits(middle)| == 0 || |at| == 0 || !SameLetter(at[0], variable) then None
      else MatchConstant(Signed(s[0] == '-', Value(LeadingDigits(middle))), variable, LStrip(at[1..]))
  }

  /** What follows a caret or a double star, if one of them comes first. */
  function AfterPower(s: string): Option<string> {
    if StartsWith(s, '^') then Some(s[1..])
    else if |s| > 1 && s[0] == '*' && s[1] == '*' then Some(s[2..])
    else None
  }

  function MatchQuadratic(s: string): Option<QuadraticMatch> {
    if |s| == 0 || !IsLetter(s[0]) then None
    else
      var power := AfterPower(LStrip(s[1..]));
      if power.None? || !StartsWith(LStrip(power.value), '2') then None
      else MatchMiddle(s[0], LStrip(LStrip(power.value)[1..]))
  }

  /** The leftmost match. */
  function SearchQuadratic(s: string): Option<QuadraticMatch> {
    if MatchQuadratic(s).Some? || |s| == 0 then MatchQuadratic(s) else SearchQuadratic(s[1..])
  }

  function SearchLinear(s: string): Option<LinearMatch> {
    if MatchLinear(s).Some? || |s| == 0 then MatchLinear(s) else SearchLinear(s[1..])
  }

  // ---- recovering the roots ---------------------------------------------------------

  /** The integer part of a square root. */
  function SquareRoot(n: nat): (s: nat)
    ensures s * s <= n < (s + 1) * (s + 1)
  {
    if n == 0 then 0
    else
      var s := SquareRoot(n - 1);
      if (s + 1) * (s + 1) <= n then s + 1 else s
  }

  function RecoverRoots(m: QuadraticMatch): Result<Template, ParseError> {
    var discriminant := m.b * m.b - 4 * m.c;
    if discriminant < 0 then Err(NoRealRoots)
    else
      var root := SquareRoot(discriminant);
      if root * root != discriminant then Err(RootsAreNotIntegers)
      else
        var r1, r2 := (-m.b + root) / 2, (-m.b - root) / 2;
        if r1 + r2 != -m.b || r1 * r2 != m.c then Err(CouldNotRecoverRoots)
        else Ok(Quadratic(r1, r2, m.variable))
  }

  function ParseTemplate(text: string): Result<Template, ParseError> {
    var quadratic := SearchQuadratic(text);
    if quadratic.Some? then RecoverRoots(quadratic.value)
    else
      var linear := SearchLinear(text);
      if linear.None? then Err(NoTemplate)
      else if linear.value.a == 0 then Err(ZeroCoefficient)
      else Ok(Linear(linear.value.a, linear.value.b, linear.value.c, linear.value.variable))
  }

  predicate HasIntegerRoots(m: QuadraticMatch, r1: int, r2: int) {
    r1 + r2 == -m.b && r1 * r2 == m.c
  }

  lemma SquareOfSum(r1: int, r2: int)
    ensures (r1 + r2) * (r1 + r2) - 4 * (r1 * r2) == (r1 - r2) * (r1 - r2)
  {
  }

  lemma SquareGrows(a: nat, b: nat)
    requires a < b
    ensures a * a < b * b
  {
    assert b * b == a * a + a * (b - a) + (b - a) * b;
  }

  lemma SquareRootIsUnique(n: nat, s: nat)
    requires s * s == n
    ensures SquareRoot(n) == s
  {
    var r := SquareRoot(n);
    if r < s {
      if r + 1 < s {
        SquareGrows(r + 1, s);
      }
    } else if s < r {
      SquareGrows(s, r);
    }
  }

  lemma OddProduct(p: int, q: int)
    ensures (2 * p + 1) * (2 * q + 1) == 2 * (2 * (p * q) + p + q) + 1
  {
  }

  lemma OddTimesOdd(x: int, y: int)
    requires x % 2 == 1 && y % 2 == 1
    ensures x * y % 2 == 1
  {
    var p, q := x / 2, y / 2;
    OddProduct(p, q);
    assert x == 2 * p + 1 && y == 2 * q + 1;
  }

  lemma DifferenceOfSquares(s: int, b: int)
    ensures (s - b) * (s + b) == s * s - b * b
  {
  }

  lemma SameParity(b: int, s: int, c: int)
    requires s * s == b * b - 4 * c
    ensures (s - b) % 2 == 0
  {
    DifferenceOfSquares(s, b);
    if (s - b) % 2 == 1 {
      OddTimesOdd(s - b, s + b);
    }
  }

  lemma HalvesAreRoots(b: int, s: int, c: int, r1: int, r2: int)
    requires s * s == b * b - 4 * c && 2 * r1 == s - b && 2 * r2 == -(s + b)
    ensures r1 + r2 == -b && r1 * r2 == c
  {
    DifferenceOfSquares(s, b);
    assert (2 * r1) * (2 * r2) == -((s - b) * (s + b));
    assert (2 * r1) * (2 * r2) == 4 * (r1 * r2);
  }

  lemma IntegerRootsGiveSquare(m: QuadraticMatch, r1: int, r2: int)
    requires HasIntegerRoots(m, r1, r2)
    ensures var d := m.b * m.b - 4 * m.c;
            d >= 0 && SquareRoot(d) == Abs(r1 - r2) && SquareRoot(d) * SquareRoot(d) == d
  {
    var b, d, gap := m.b, m.b * m.b - 4 * m.c, Abs(r1 - r2);
    SquareOfSum(r1, r2);
    assert b == -(r1 + r2);
    assert b * b == (r1 + r2) * (r1 + r2);
    assert gap * gap == (r1 - r2) * (r1 - r2);
    SquareRootIsUnique(d, gap);
  }

  lemma SquareIsRecovered(m: QuadraticMatch, root: nat)
    requires m.b * m.b - 4 * m.c >= 0 && SquareRoot(m.b * m.b - 4 * m.c) == root
    requires root * root == m.b * m.b - 4 * m.c
    ensures RecoverRoots(m) == Ok(Quadratic((-m.b + root) / 2, (-m.b - root) / 2, m.variable))
    ensures HasIntegerRoots(m, (-m.b + root) / 2, (-m.b - root) / 2)
  {
    var r1, r2 := (-m.b + root) / 2, (-m.b - root) / 2;
    Halves(m.b, root, m.c);
    HalvesAreRoots(m.b, root, m.c, r1, r2);
  }

  lemma Halves(b: int, root: int, c: int)
    requires root * root == b * b - 4 * c
    ensures 2 * ((-b + root) / 2) == root - b && 2 * ((-b - root) / 2) == -(root + b)
  {
    SameParity(b, root, c);
    assert -b - root == (-b + root) - 2 * root;
  }

  /** For every match: accepted exactly when integer roots exist, and then these are the roots; recovery never fails. */
  lemma AcceptedIffIntegerRoots(m: QuadraticMatch)
    ensures RecoverRoots(m) != Err(CouldNotRecoverRoots)
    ensures RecoverRoots(m).Ok? <==> exists r1, r2 :: HasIntegerRoots(m, r1, r2)
    ensures RecoverRoots(m).Ok? ==> HasIntegerRoots(m, RecoverRoots(m).value.rootOne, RecoverRoots(m).value.rootTwo)
  {
    var discriminant := m.b * m.b - 4 * m.c;
    if r1, r2 :| HasIntegerRoots(m, r1, r2) {
      IntegerRootsGiveSquare(m, r1, r2);
      SquareIsRecovered(m, SquareRoot(discriminant));
    } else if discriminant >= 0 {
      var root := SquareRoot(discriminant);
      if root * root == discriminant {
        SquareIsRecovered(m, root);
      }
    }
  }
}
