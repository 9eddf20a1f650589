/**
 What the two bounds let through.

 The folder knows numbers, signs and four operations.  A number behind a power, a floor
 division or a call is therefore out of its sight, wherever in the expression that stands and
 however large it is; and of the factorials only those are looked at that are spelled as the
 name directly followed by a group.
 */
module LetThrough {
  import opened Common
  import opened Text
  import opened Verification
  import opened Exponents

  // ---- numbers behind what is not folded ----------------------------------------------------

  function PowerOf(x: real, n: nat): real {
    if n == 0 then 1.0 else x * PowerOf(x, n - 1)
  }

  function FactorialOf(n: nat): nat {
    if n == 0 then 1 else n * FactorialOf(n - 1)
  }

  /** Powers with natural exponents and factorials of natural numbers mean what they say. */
  ghost predicate Ordinary(m: Meaning) {
    && (forall x: real, n: nat :: m.power(x, n as real) == Some(PowerOf(x, n)))
    && (forall n: nat :: m.call(FACTORIAL, n as real) == Some(FactorialOf(n) as real))
  }

  lemma {:induction false} TwoToTheN(n: nat)
    ensures PowerOf(2.0, n) >= n as real && PowerOf(2.0, n) >= 1.0
  {
    if n > 0 {
      TwoToTheN(n - 1);
    }
  }

  lemma {:induction false} FactorialIsLarge(n: nat)
    ensures FactorialOf(n) >= n && FactorialOf(n) >= 1
  {
    if n > 0 {
      FactorialIsLarge(n - 1);
      assert n * FactorialOf(n - 1) >= n * 1;
    }
  }

  /** The tree comes to more than the bound, and does not fold. */
  predicate Slips(e: Expr, m: Meaning, bound: real) {
    Fold(e).None? && Value(e, m).Some? && Value(e, m).value > bound
  }

  /** Whatever the bound, a power, a floor division and a call each slip past it for some number. */
  lemma EveryShapeSlips(m: Meaning, bound: real) returns (n: nat)
    requires Ordinary(m)
    ensures Slips(Binary(Power, Number(2.0), Number(n as real)), m, bound)
    ensures Slips(Binary(FloorDiv, Number(n as real), Number(1.0)), m, bound)
    ensures Slips(Call(FACTORIAL, Number(n as real)), m, bound)
  {
    n := if bound < 0.0 then 1 else bound.Floor + 1;
    TwoToTheN(n);
    FactorialIsLarge(n);
    assert (n as real / 1.0).Floor == n;
  }

  /** And what slips stays out of sight: adding to it, scaling it or changing its sign does not make it fold. */
  lemma SlippingIsInherited(e: Expr, op: Op, other: Expr)
    requires !Arithmetic(e)
    ensures Fold(Binary(op, e, other)).None? && Fold(Binary(op, other, e)).None? && Fold(Plus(e)).None? && Fold(Minus(e)).None?
  {
    OnlyArithmeticFolds(Binary(op, e, other));
    OnlyArithmeticFolds(Binary(op, other, e));
    OnlyArithmeticFolds(e);
  }

  // ---- a flat group -------------------------------------------------------------------------------

  predicate IsParenthesis(c: char) {
    c == '(' || c == ')'
  }

  lemma {:induction false} FlatDepth(text: string, start: nat, to: nat)
    requires start < to <= |text| && text[start] == '(' && forall k :: start < k < to ==> !IsParenthesis(text[k])
    ensures Depth(text, start, to) == 1
  {
    if to == start + 1 {
      assert Depth(text, start, start) == 0;
    } else {
      FlatDepth(text, start, to - 1);
    }
  }

  lemma FlatGroupCloses(text: string, start: nat, close: nat)
    requires start < close < |text| && text[start] == '(' && text[close] == ')'
    requires forall k :: start < k < close ==> !IsParenthesis(text[k])
    ensures Closes(text, start, close) && OpensGroup(text, start) && CloseOf(text, start) == close
  {
    forall j | start < j <= close ensures Depth(text, start, j) > 0 {
      FlatDepth(text, start, j);
    }
    FlatDepth(text, start, close);
    assert Depth(text, start, close + 1) == 0;
    CloseIsUnique(text, start, close);
  }

  /** A flat group at the end of a text is taken whole. */
  lemma FlatGroupIsWhole(text: string, start: nat)
    requires start + 1 < |text| && text[start] == '(' && text[|text| - 1] == ')'
    requires forall k :: start < k < |text| - 1 ==> !IsParenthesis(text[k])
    ensures IsOperand(text, start, Some(text[start..])) && TakenWhole(text, start) && Whole(text, start) == Some(text[start..])
  {
    FlatGroupIsTaken(text, start);
    FlatGroupCloses(text, start, |text| - 1);
    NothingContinuesTheEnd(text);
    OperandIsWholeIff(text, start, text[start..]);
  }

  lemma NothingContinuesTheEnd(text: string)
    ensures !Continues(text, |text|)
  {
  }

  lemma FlatGroupIsTaken(text: string, start: nat)
    requires start + 1 < |text| && text[start] == '(' && text[|text| - 1] == ')'
    requires forall k :: start < k < |text| - 1 ==> !IsParenthesis(text[k])
    ensures IsOperand(text, start, Some(text[start..])) && AfterSigns(text, start) == start
  {
    FlatGroupCloses(text, start, |text| - 1);
    assert AfterSigns(text, start) == start;
    NoSigns(text, start, text[start..]);
    var operand := SomeOperand(text, start);
    OperandIsItsSpan(text, start, operand);
    assert text[start..|text|] == text[start..];
  }

  // ---- a power and a floor division inside a group ------------------------------------------------

  predicate IsInnerPower(text: string) {
    && |text| == 11 && text[0] == '2' && text[1] == '*' && text[2] == '*' && text[3] == '(' && text[4] == '1' && text[5] == '*'
    && text[6] == '9' && text[7] == '*' && text[8] == '*' && text[9] == '9' && text[10] == ')'
  }

  lemma InnerPowerOperators(text: string)
    requires IsInnerPower(text)
    ensures Operators(text, 0) == [3, 9]
  {
    NoOperators(text, 9);
    assert Operators(text, 7) == [9] + Operators(text, 9);
    assert Operators(text, 5) == Operators(text, 6) == Operators(text, 7);
    assert Operators(text, 3) == Operators(text, 4) == Operators(text, 5);
    assert Operators(text, 1) == [3] + Operators(text, 3);
  }

  lemma InnerPowerIsFiltered(text: string)
    requires IsInnerPower(text)
    ensures (forall c :: c in text ==> Allowed(c)) && !HasDunder(text) && !HasAccess(text) && !HasChain(text)
  {
    forall i: nat, l: nat | PowerAt(text, i) > 0 && PowerAt(text, l) > 0 ensures !SimpleBetween(text, i + PowerAt(text, i), l) {
      assert i == 1 || i == 7;
      assert l == 1 || l == 7;
      assert i == 1 && l == 7 ==> !IsSimple(text[5]) && !IsSpace(text[5]) && !IsSpace(text[6]);
    }
  }

  lemma NinthPowerOfNine()
    ensures PowerOf(9.0, 9) == 387420489.0
  {
    assert PowerOf(9.0, 3) == 729.0;
    assert PowerOf(9.0, 6) == 531441.0;
  }

  lemma InnerPowerValue(m: Meaning)
    requires Ordinary(m)
    ensures Value(Binary(Mult, Number(1.0), Binary(Power, Number(9.0), Number(9.0))), m) == Some(387420489.0)
  {
    var n: nat := 9;
    NinthPowerOfNine();
    assert m.power(9.0, n as real) == Some(PowerOf(9.0, n));
    var power := Binary(Power, Number(9.0), Number(9.0));
    assert Value(power, m) == Some(387420489.0);
    assert 1.0 * 387420489.0 == 387420489.0;
  }

  lemma InnerPowerSpelled(text: string)
    requires text == "2**(1*9**9)"
    ensures IsInnerPower(text) && text[3..] == "(1*9**9)"
  {
  }

  lemma InnerPowerOperands(text: string)
    requires IsInnerPower(text)
    ensures IsOperand(text, 3, Some(text[3..])) && TakenWhole(text, 3) && Whole(text, 3) == Some(text[3..])
    ensures IsOperand(text, 9, Some(['9']))
  {
    FlatGroupIsWhole(text, 3);
    assert !OpensGroup(text, 9) && text[9..10] == ['9'];
    WordIsTaken(text, 9, 9, 10);
    NoSigns(text, 9, text[9..10]);
  }

  lemma InnerPowerPasses(text: string, parse: Parser)
    requires IsInnerPower(text) && ExponentPasses(text[3..], parse) && ExponentPasses(['9'], parse)
    ensures ExponentsPass(text, parse)
  {
    InnerPowerOperators(text);
    InnerPowerOperands(text);
    OneOperandPasses(text, 3, text[3..], parse);
    OneOperandPasses(text, 9, ['9'], parse);
    TwoOperandsPass(text, 3, 9, parse);
  }

  /** The input 2**(1*9**9): the exponent is taken whole and comes to 387420489, and the text passes. */
  lemma InnerPowerSlips(text: string, parse: Parser, m: Meaning)
    requires text == "2**(1*9**9)" && Ordinary(m) && FoldText(['9'], parse) == Some(9.0)
    requires parse(Strip(text[3..])) == Some(Binary(Mult, Number(1.0), Binary(Power, Number(9.0), Number(9.0))))
    ensures Accepted(text, parse) && TakenWhole(text, 3) && Whole(text, 3) == Some("(1*9**9)")
    ensures Value(parse(Strip(text[3..])).value, m) == Some(387420489.0)
  {
    InnerPowerSpelled(text);
    InnerPowerIsAccepted(text, parse);
    InnerPowerOperands(text);
    InnerPowerValue(m);
  }

  lemma InnerPowerIsAccepted(text: string, parse: Parser)
    requires IsInnerPower(text) && ExponentPasses(text[3..], parse) && ExponentPasses(['9'], parse)
    ensures Accepted(text, parse)
  {
    InnerPowerIsFiltered(text);
    InnerPowerPasses(text, parse);
    NoFactorialsPass(text, parse);
  }

  predicate IsInnerFloor(text: string) {
    && |text| == 12 && text[0] == '2' && text[1] == '*' && text[2] == '*' && text[3] == '('
    && text[4] == text[5] == text[6] == text[7] == '9' && text[8] == '/' && text[9] == '/' && text[10] == '1' && text[11] == ')'
  }

  lemma InnerFloorIsFiltered(text: string)
    requires IsInnerFloor(text)
    ensures Operators(text, 0) == [3]
    ensures (forall c :: c in text ==> Allowed(c)) && !HasDunder(text) && !HasAccess(text) && !HasChain(text)
  {
    NoOperators(text, 3);
    assert Operators(text, 1) == [3] + Operators(text, 3);
    forall i: nat, l: nat | PowerAt(text, i) > 0 && PowerAt(text, l) > 0 ensures !SimpleBetween(text, i + PowerAt(text, i), l) {
      assert i == 1 && l == 1;
    }
  }

  lemma InnerFloorSpelled(text: string)
    requires text == "2**(9999//1)"
    ensures IsInnerFloor(text) && text[3..] == "(9999//1)"
  {
  }

  /** The input 2**(9999//1): the exponent is taken whole and comes to 9999, and the text passes. */
  lemma InnerFloorSlips(text: string, parse: Parser, m: Meaning)
    requires text == "2**(9999//1)"
    requires parse(Strip(text[3..])) == Some(Binary(FloorDiv, Number(9999.0), Number(1.0)))
    ensures Accepted(text, parse) && TakenWhole(text, 3) && Whole(text, 3) == Some("(9999//1)")
    ensures Value(parse(Strip(text[3..])).value, m) == Some(9999.0)
  {
    InnerFloorSpelled(text);
    InnerFloorIsAccepted(text, parse);
    FlatGroupIsWhole(text, 3);
    InnerFloorValue(m);
  }

  lemma InnerFloorIsAccepted(text: string, parse: Parser)
    requires IsInnerFloor(text) && ExponentPasses(text[3..], parse)
    ensures Accepted(text, parse)
  {
    InnerFloorIsFiltered(text);
    InnerFloorPasses(text, parse);
    NoFactorialsPass(text, parse);
  }

  lemma InnerFloorValue(m: Meaning)
    ensures Value(Binary(FloorDiv, Number(9999.0), Number(1.0)), m) == Some(9999.0)
  {
    assert 9999.0 / 1.0 == 9999.0;
  }

  lemma InnerFloorPasses(text: string, parse: Parser)
    requires IsInnerFloor(text) && ExponentPasses(text[3..], parse)
    ensures ExponentsPass(text, parse)
  {
    InnerFloorIsFiltered(text);
    FlatGroupIsWhole(text, 3);
    OneOperandPasses(text, 3, text[3..], parse);
    OneOperatorPasses(text, 3, parse);
  }

  lemma OneOperatorPasses(text: string, a: nat, parse: Parser)
    requires Operators(text, 0) == [a] && PassesAt(text, a, parse)
    ensures ExponentsPass(text, parse)
  {
    var ends := Operators(text, 0);
    forall k | 0 <= k < |ends| ensures PassesAt(text, ends[k], parse) {
    }
  }

  // ---- factorials -----------------------------------------------------------------------------------

  /** The factorials that are looked at: the name, not inside a longer one, and what follows it after spaces. */
  lemma {:induction false} SitesAreNames(text: string, from: nat, at: nat)
    requires from <= |text|
    ensures at in CallSites(text, from) <==>
            exists i: nat :: from <= i && NamedAt(text, i) && at == AfterSpaces(text, i + |FACTORIAL|)
    decreases |text| - from
  {
    if from < |text| {
      SitesAreNames(text, from + 1, at);
    }
  }

  /** Of these, those that are checked: where a balanced group follows, its text is the argument. */
  lemma CheckedFactorialsAre(text: string, parse: Parser)
    ensures FactorialsPass(text, parse) <==>
            forall i: nat, s :: NamedAt(text, i) && IsGroup(text, AfterSpaces(text, i + |FACTORIAL|), s) ==> FactorialPasses(s, parse)
  {
    var sites := CallSites(text, 0);
    if FactorialsPass(text, parse) {
      forall i: nat, s | NamedAt(text, i) && IsGroup(text, AfterSpaces(text, i + |FACTORIAL|), s) ensures FactorialPasses(s, parse) {
        var at := AfterSpaces(text, i + |FACTORIAL|);
        SitesAreNames(text, 0, at);
        var k :| 0 <= k < |sites| && sites[k] == at;
        GroupIsArgument(text, at, s);
      }
    }
    forall k, s | 0 <= k < |sites| && IsArgument(text, sites[k], Some(s))
      ensures exists i: nat :: NamedAt(text, i) && IsGroup(text, AfterSpaces(text, i + |FACTORIAL|), s)
    {
      SitesAreNames(text, 0, sites[k]);
      assert sites[k] in sites;
    }
  }

  lemma GroupIsArgument(text: string, at: nat, group: string)
    requires IsGroup(text, at, group)
    ensures IsArgument(text, at, Some(group))
  {
    var i: nat :| i < |text| && Closes(text, at, i) && group == text[at + 1..i];
    assert OpensGroup(text, at);
  }

  predicate IsNumeral(text: string) {
    forall i :: 0 <= i < |text| ==> '0' <= text[i] <= '9'
  }

  lemma NoPowersAtAll(text: string, parse: Parser)
    requires forall i :: 0 <= i < |text| ==> text[i] != '*' && text[i] != '^'
    ensures ExponentsPass(text, parse) && !HasChain(text)
  {
    NoOperators(text, 0);
  }

  /** A number with a factorial sign is let through, however large it is. */
  lemma PostfixFactorialSlips(numeral: string, parse: Parser)
    requires IsNumeral(numeral) && |numeral| < MAX_EXPRESSION_CHARS
    ensures Accepted(numeral + ['!'], parse)
  {
    var text := numeral + ['!'];
    NoPowersAtAll(text, parse);
    NoFactorialsPass(text, parse);
    forall c | c in text ensures Allowed(c) {
      var i :| 0 <= i < |text| && text[i] == c;
    }
  }

  const NAMED := "(factorial)("

  lemma NamedIs()
    ensures |NAMED| == 12 && NAMED[0] == '(' && NAMED[1..10] == FACTORIAL && NAMED[10] == ')' && NAMED[11] == '('
  {
  }

  lemma ParenthesisedSites(text: string)
    requires |text| > 12 && text[..12] == NAMED && forall i :: 12 <= i < |text| ==> text[i] != 'f'
    ensures CallSites(text, 0) == [10] && text[10] == ')'
  {
    NamedIs();
    assert forall i :: 0 <= i < 12 ==> text[i] == text[..12][i];
    assert text[1..10] == text[..12][1..10] == FACTORIAL;
    assert forall i :: 1 <= i < 10 ==> text[i] == FACTORIAL[i - 1];
    NoCallSites(text, 2);
    NotNamedAt(text, 0);
    assert NamedAt(text, 1) && AfterSpaces(text, 10) == 10;
    assert CallSites(text, 1) == [10] + CallSites(text, 2);
  }

  /** A factorial whose name stands in parentheses is let through, however large its argument is. */
  lemma ParenthesisedFactorialSlips(numeral: string, parse: Parser)
    requires IsNumeral(numeral) && |numeral| + 13 <= MAX_EXPRESSION_CHARS
    ensures Accepted(NAMED + numeral + [')'], parse)
  {
    var text := NAMED + numeral + [')'];
    NamedIs();
    assert text[..12] == NAMED;
    ParenthesisedSites(text);
    ParenthesisedIsFiltered(text);
    NoPowersAtAll(text, parse);
    assert !OpensGroup(text, 10);
  }

  lemma ParenthesisedIsFiltered(text: string)
    requires |text| > 12 && text[..12] == NAMED
    requires forall i :: 12 <= i < |text| ==> '0' <= text[i] <= '9' || text[i] == ')'
    ensures (forall c :: c in text ==> Allowed(c)) && !HasDunder(text) && !HasAccess(text)
    ensures forall i :: 0 <= i < |text| ==> text[i] != '*' && text[i] != '^'
  {
    NamedIs();
    assert forall i :: 0 <= i < 12 ==> text[i] == NAMED[i];
    assert forall i :: 1 <= i < 10 ==> NAMED[i] == FACTORIAL[i - 1];
    forall i | 0 <= i < |text| ensures Allowed(text[i]) && text[i] !in "_.*^" {
    }
  }
}
