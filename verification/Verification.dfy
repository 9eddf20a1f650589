/**
 The filter on an expression before anything is evaluated: the character and pattern checks,
 and the bound on exponents and factorial arguments, with its balanced-group scanner and its
 saturating folder.  Arithmetic is over reals.
 */
module Verification {
  import opened Common
  import opened Text

  const MAX_EXPRESSION_CHARS := 500
  const MAX_EXPONENT := 1000.0
  const MAX_FACTORIAL := 1000.0

  // ---- the balanced group at a position ------------------------------------------------

  /** Opening minus closing parentheses in text[from..to]. */
  function Depth(text: string, from: nat, to: nat): int
    requires from <= to <= |text|
  {
    if from == to then 0
    else Depth(text, from, to - 1) + if text[to - 1] == '(' then 1 else if text[to - 1] == ')' then -1 else 0
  }

  /** The parenthesis opened at start is closed at i, and not before. */
  predicate Closes(text: string, start: nat, i: nat) {
    && start < i < |text| && text[start] == '('
    && Depth(text, start, i + 1) == 0
    && (forall j :: start < j <= i ==> Depth(text, start, j) > 0)
  }

  predicate OpensGroup(text: string, start: nat) {
    exists i: nat :: i < |text| && Closes(text, start, i)
  }

  /** Finds the one position that closes the group, if there is one, and the text between. */
  method Balanced(text: string, start: nat) returns (group: Option<(string, nat)>)
    ensures group.Some? <==> OpensGroup(text, start)
    ensures forall i: nat :: Closes(text, start, i) <==> start < i < |text| && group == Some((text[start + 1..i], i + 1))
  {
    if start >= |text| || text[start] != '(' {
      return None;
    }
    var depth := 0;
    for index := start to |text|
      invariant depth == Depth(text, start, index)
      invariant index > start ==> depth > 0
      invariant forall j :: start < j <= index ==> Depth(text, start, j) > 0
    {
      if text[index] == '(' {
        depth := depth + 1;
      } else if text[index] == ')' {
        depth := depth - 1;
        if depth == 0 {
          assert Closes(text, start, index);
          return Some((text[start + 1..index], index + 1));
        }
      }
    }
    group := None;
  }

  // ---- the folder ------------------------------------------------------------------------

  datatype Op = Add | Sub | Mult | Div | FloorDiv | Power | OtherOp

  // Opaque stands for a name, a call of several arguments and everything else, with the number
  // it comes to, if any.  A caret counts as a power, which is what the parser makes of it.
  datatype Expr =
    | Number(value: real)
    | Opaque(number: Option<real>)
    | Call(name: string, argument: Expr)
    | Plus(operand: Expr)
    | Minus(operand: Expr)
    | Binary(op: Op, left: Expr, right: Expr)

  // What evaluation makes of the nodes that the folder leaves alone.
  datatype Meaning = Meaning(
    power: (real, real) -> Option<real>, call: (string, real) -> Option<real>, other: (real, real) -> Option<real>)

  function Size(x: real): real {
    if x < 0.0 then -x else x
  }

  predicate Folded(op: Op) {
    op == Add || op == Sub || op == Mult || op == Div
  }

  function FoldOp(op: Op, left: real, right: real): Option<real>
    requires Folded(op)
  {
    match op
    case Add => Some(left + right)
    case Sub => Some(left - right)
    case Mult => Some(left * right)
    case Div => if right == 0.0 then None else Some(left / right)
  }

  /** Folds numbers, but stops at the first operand past the ceiling. */
  function Fold(e: Expr): Option<real> {
    match e
    case Number(value) => Some(value)
    case Opaque(_) => None
    case Call(_, _) => None
    case Plus(operand) => Fold(operand)
    case Minus(operand) => var inner := Fold(operand); if inner.None? then None else Some(-inner.value)
    case Binary(op, left, right) =>
      if !Folded(op) then None
      else
        var l, r := Fold(left), Fold(right);
        if l.None? || r.None? then None
        else if Size(l.value) > MAX_EXPONENT || Size(r.value) > MAX_EXPONENT then Some(MAX_EXPONENT + 1.0)
        else FoldOp(op, l.value, r.value)
  }

  function ApplyOp(op: Op, left: real, right: real, m: Meaning): Option<real> {
    match op
    case FloorDiv => if right == 0.0 then None else Some((left / right).Floor as real)
    case Power => m.power(left, right)
    case OtherOp => m.other(left, right)
    case _ => FoldOp(op, left, right)
  }

  /** The number an expression comes to when it is evaluated, powers, floor divisions and calls included. */
  function Value(e: Expr, m: Meaning): Option<real> {
    match e
    case Number(value) => Some(value)
    case Opaque(number) => number
    case Call(name, argument) => var inner := Value(argument, m); if inner.None? then None else m.call(name, inner.value)
    case Plus(operand) => Value(operand, m)
    case Minus(operand) => var inner := Value(operand, m); if inner.None? then None else Some(-inner.value)
    case Binary(op, left, right) =>
      var l, r := Value(left, m), Value(right, m);
      if l.None? || r.None? then None else ApplyOp(op, l.value, r.value, m)
  }

  /** Nothing but numbers, signs and the four operations that are folded. */
  predicate Arithmetic(e: Expr) {
    match e
    case Number(_) => true
    case Opaque(_) => false
    case Call(_, _) => false
    case Plus(operand) => Arithmetic(operand)
    case Minus(operand) => Arithmetic(operand)
    case Binary(op, left, right) => Folded(op) && Arithmetic(left) && Arithmetic(right)
  }

  predicate Within(x: Option<real>) {
    x.Some? && Size(x.value) <= MAX_EXPONENT
  }

  /** Nothing but arithmetic, and every subexpression has a value within the ceiling. */
  predicate Tame(e: Expr, m: Meaning) {
    && Within(Value(e, m))
    && match e
       case Number(_) => true
       case Opaque(_) => false
       case Call(_, _) => false
       case Plus(operand) => Tame(operand, m)
       case Minus(operand) => Tame(operand, m)
       case Binary(op, left, right) => Folded(op) && Tame(left, m) && Tame(right, m)
  }

  /**
   A result within the ceiling is the exact value, and then every subexpression stayed within it; and
   the other way round.
   */
  lemma {:induction false} SmallResultsAreExactIff(e: Expr, m: Meaning)
    ensures Within(Fold(e)) <==> Tame(e, m)
    ensures Within(Fold(e)) ==> Fold(e) == Value(e, m)
  {
    match e {
      case Number(_) =>
      case Opaque(_) =>
      case Call(_, _) =>
      case Plus(operand) => SmallResultsAreExactIff(operand, m);
      case Minus(operand) => SmallResultsAreExactIff(operand, m);
      case Binary(op, left, right) =>
        SmallResultsAreExactIff(left, m);
        SmallResultsAreExactIff(right, m);
    }
  }

  /** What is not arithmetic never folds, wherever in the tree it stands and however large the rest is. */
  lemma {:induction false} OnlyArithmeticFolds(e: Expr)
    ensures Fold(e).Some? ==> Arithmetic(e)
  {
    match e {
      case Number(_) =>
      case Opaque(_) =>
      case Call(_, _) =>
      case Plus(operand) => OnlyArithmeticFolds(operand);
      case Minus(operand) => OnlyArithmeticFolds(operand);
      case Binary(op, left, right) =>
        OnlyArithmeticFolds(left);
        OnlyArithmeticFolds(right);
    }
  }

  lemma {:induction false} ArithmeticValuesFold(e: Expr, m: Meaning)
    requires Arithmetic(e) && Value(e, m).Some?
    ensures Fold(e).Some?
  {
    match e {
      case Number(_) =>
      case Plus(operand) => ArithmeticValuesFold(operand, m);
      case Minus(operand) => ArithmeticValuesFold(operand, m);
      case Binary(op, left, right) =>
        ArithmeticValuesFold(left, m);
        ArithmeticValuesFold(right, m);
        SmallResultsAreExactIff(left, m);
        SmallResultsAreExactIff(right, m);
    }
  }

  /** Of what comes to a number, exactly the arithmetic folds. */
  lemma ValuesFoldIffArithmetic(e: Expr, m: Meaning)
    requires Value(e, m).Some?
    ensures Fold(e).Some? <==> Arithmetic(e)
  {
    OnlyArithmeticFolds(e);
    if Arithmetic(e) {
      ArithmeticValuesFold(e, m);
    }
  }

  /** What comes to a number above the ceiling folds above it if it is arithmetic, and else not at all. */
  lemma LargeValuesFoldLargeIff(e: Expr, m: Meaning)
    requires Value(e, m).Some? && Size(Value(e, m).value) > MAX_EXPONENT
    ensures Fold(e).Some? && Size(Fold(e).value) > MAX_EXPONENT <==> Arithmetic(e)
    ensures Fold(e).None? <==> !Arithmetic(e)
  {
    ValuesFoldIffArithmetic(e, m);
    SmallResultsAreExactIff(e, m);
  }

  /** What the four operations fold to, for operands within the ceiling of 1000; any other operation is not folded. */
  lemma OperationsFold(x: real, y: real, m: Meaning)
    requires -1000.0 <= x <= 1000.0 && -1000.0 <= y <= 1000.0
    ensures Fold(Binary(Add, Number(x), Number(y))) == Some(x + y)
    ensures Fold(Binary(Sub, Number(x), Number(y))) == Some(x - y)
    ensures Fold(Binary(Mult, Number(x), Number(y))) == Some(x * y)
    ensures Fold(Binary(Div, Number(x), Number(y))) == if y == 0.0 then None else Some(x / y)
    ensures Fold(Minus(Number(x))) == Some(-x) && Fold(Plus(Number(x))) == Some(x)
    ensures forall op :: op in {Power, FloorDiv, OtherOp} ==> Fold(Binary(op, Number(x), Number(y))) == None
    ensures Value(Binary(FloorDiv, Number(x), Number(y)), m) == if y == 0.0 then None else Some((x / y).Floor as real)
    ensures Value(Binary(Power, Number(x), Number(y)), m) == m.power(x, y)
  {
    assert FoldOp(Mult, x, y) == Some(x * y) && FoldOp(Div, x, y) == if y == 0.0 then None else Some(x / y);
    assert Fold(Number(x)) == Some(x) && Fold(Number(y)) == Some(y);
  }

  // ---- the operands of a text --------------------------------------------------------------

  /** The positions just after each power operator, scanned from left to right without overlap. */
  function Operators(text: string, from: nat): seq<nat>
    requires from <= |text|
    decreases |text| - from
  {
    if from == |text| then []
    else if from + 1 < |text| && text[from] == '*' && text[from + 1] == '*' then [from + 2] + Operators(text, from + 2)
    else if text[from] == '^' then [from + 1] + Operators(text, from + 1)
    else Operators(text, from + 1)
  }

  /** Two stars stand here. */
  predicate StarsAt(text: string, at: nat) {
    at + 1 < |text| && text[at] == '*' && text[at + 1] == '*'
  }

  /** Just after a caret, or after two stars. */
  predicate BehindPower(text: string, from: nat, p: nat) {
    from < p <= |text| && (text[p - 1] == '^' || (from + 2 <= p && StarsAt(text, p - 2)))
  }

  /** Just after a caret, or after the first two stars of a run. */
  predicate EndsPower(text: string, from: nat, p: nat) {
    BehindPower(text, from, p) && (text[p - 1] == '^' || p - 2 == from || text[p - 3] != '*')
  }

  lemma PowerGoesWith(text: string, from: nat, p: nat)
    requires EndsPower(text, from, p)
    ensures StarsAt(text, from) ==> p == from + 2 || EndsPower(text, from + 2, p)
    ensures !StarsAt(text, from) ==> (p == from + 1 && text[from] == '^') || EndsPower(text, from + 1, p)
  {
  }

  lemma OperatorHere(text: string, from: nat, p: nat)
    requires from < |text|
    ensures StarsAt(text, from) ==> (p in Operators(text, from) <==> p == from + 2 || p in Operators(text, from + 2))
    ensures !StarsAt(text, from) ==>
              (p in Operators(text, from) <==> (text[from] == '^' && p == from + 1) || p in Operators(text, from + 1))
  {
  }

  lemma BehindPowerGoesBack(text: string, from: nat, next: nat, p: nat)
    requires from <= next && BehindPower(text, next, p)
    ensures BehindPower(text, from, p)
  {
  }

  /** Every operator found ends a caret or two stars, and no caret and no first two stars of a run are missed. */
  lemma {:induction false} OperatorsAre(text: string, from: nat, p: nat)
    requires from <= |text|
    ensures p in Operators(text, from) ==> BehindPower(text, from, p)
    ensures EndsPower(text, from, p) ==> p in Operators(text, from)
    decreases |text| - from
  {
    if from < |text| {
      var next := if StarsAt(text, from) then from + 2 else from + 1;
      OperatorHere(text, from, p);
      OperatorsAre(text, next, p);
      if BehindPower(text, next, p) {
        BehindPowerGoesBack(text, from, next, p);
      }
      if EndsPower(text, from, p) {
        PowerGoesWith(text, from, p);
      }
    }
  }

  predicate IsSign(c: char) {
    c == '+' || c == '-'
  }

  // Letters and digits are ASCII: the character check comes first.
  predicate IsNameChar(c: char) {
    'a' <= c <= 'z' || 'A' <= c <= 'Z' || '0' <= c <= '9' || c == '_'
  }

  predicate IsWordChar(c: char) {
    IsNameChar(c) || c == '.'
  }

  /** Only spaces and signs from one position to another, and neither of them there. */
  predicate SignRun(text: string, at: nat, after: nat) {
    && at <= after <= |text|
    && (forall k :: at <= k < after ==> IsSpace(text[k]) || IsSign(text[k]))
    && (after < |text| ==> !IsSpace(text[after]) && !IsSign(text[after]))
  }

  function Signs(text: string, at: nat, after: nat): string
    requires at <= after <= |text|
  {
    if at == after then []
    else Signs(text, at, after - 1) + if IsSign(text[after - 1]) then [text[after - 1]] else []
  }

  predicate WordRun(text: string, from: nat, to: nat) {
    && from <= to <= |text|
    && (forall k :: from <= k < to ==> IsWordChar(text[k]))
    && (to < |text| ==> !IsWordChar(text[to]))
  }

  predicate IsGroup(text: string, after: nat, group: string) {
    exists i: nat :: i < |text| && Closes(text, after, i) && group == text[after + 1..i]
  }

  /** The operand at a position: its signs and a balanced group, or else its signs and a word, or else nothing. */
  ghost predicate IsOperand(text: string, at: nat, operand: Option<string>) {
    exists after: nat :: SignRun(text, at, after) && IsOperandAfter(text, at, after, operand)
  }

  ghost predicate IsOperandAfter(text: string, at: nat, after: nat, operand: Option<string>)
    requires at <= after <= |text|
  {
    var signs := Signs(text, at, after);
    if OpensGroup(text, after) then exists group :: IsGroup(text, after, group) && operand == Some(signs + ['('] + group + [')'])
    else exists end: nat :: WordRun(text, after, end)
           && operand == if end == after then None else Some(signs + text[after..end])
  }

  method SkipSpaces(text: string, from: nat) returns (to: nat)
    requires from <= |text|
    ensures from <= to <= |text| && (to < |text| ==> !IsSpace(text[to]))
    ensures forall k :: from <= k < to ==> IsSpace(text[k])
  {
    to := from;
    while to < |text| && IsSpace(text[to])
      invariant from <= to <= |text|
      invariant forall k :: from <= k < to ==> IsSpace(text[k])
    {
      to := to + 1;
    }
  }

  lemma {:induction false} SpacesAddNoSign(text: string, at: nat, from: nat, to: nat)
    requires at <= from <= to <= |text| && forall k :: from <= k < to ==> IsSpace(text[k])
    ensures Signs(text, at, to) == Signs(text, at, from)
  {
    if from < to {
      SpacesAddNoSign(text, at, from, to - 1);
    }
  }

  predicate OnlySigns(text: string, at: nat, to: nat) {
    at <= to <= |text| && forall k :: at <= k < to ==> IsSpace(text[k]) || IsSign(text[k])
  }

  /** One more sign, and the spaces behind it. */
  lemma TakesSign(text: string, at: nat, after: nat, next: nat)
    requires OnlySigns(text, at, after) && after < next <= |text| && IsSign(text[after])
    requires forall k :: after < k < next ==> IsSpace(text[k])
    ensures OnlySigns(text, at, next) && Signs(text, at, next) == Signs(text, at, after) + [text[after]]
  {
    SpacesAddNoSign(text, at, after + 1, next);
  }

  method TakeSigns(text: string, at: nat) returns (sign: string, after: nat)
    requires at <= |text|
    ensures SignRun(text, at, after) && sign == Signs(text, at, after)
  {
    after := SkipSpaces(text, at);
    SpacesAddNoSign(text, at, at, after);
    sign := [];
    while after < |text| && IsSign(text[after])
      invariant OnlySigns(text, at, after) && (after < |text| ==> !IsSpace(text[after]))
      invariant sign == Signs(text, at, after)
      decreases |text| - after
    {
      sign := sign + [text[after]];
      var next := SkipSpaces(text, after + 1);
      TakesSign(text, at, after, next);
      after := next;
    }
  }

  method TakeOperand(text: string, at: nat) returns (operand: Option<string>)
    requires at <= |text|
    ensures IsOperand(text, at, operand)
  {
    var sign, after := TakeSigns(text, at);
    var group := Balanced(text, after);
    if group.Some? {
      operand := Some(sign + ['('] + group.value.0 + [')']);
      assert IsGroup(text, after, group.value.0);
      assert IsOperandAfter(text, at, after, operand);
      return;
    }
    assert !OpensGroup(text, after);
    var end := after;
    while end < |text| && IsWordChar(text[end])
      invariant after <= end <= |text| && forall k :: after <= k < end ==> IsWordChar(text[k])
    {
      end := end + 1;
    }
    operand := if end > after then Some(sign + text[after..end]) else None;
    assert WordRun(text, after, end);
    assert IsOperandAfter(text, at, after, operand);
  }

  function Present(found: seq<Option<string>>): seq<string> {
    if |found| == 0 then []
    else Present(found[..|found| - 1]) + if found[|found| - 1].Some? then [found[|found| - 1].value] else []
  }

  ghost predicate AreOperands(text: string, ends: seq<nat>, found: seq<Option<string>>) {
    |found| == |ends| && forall k :: 0 <= k < |ends| ==> IsOperand(text, ends[k], found[k])
  }

  lemma {:induction false} OperatorsAreInside(text: string, from: nat)
    requires from <= |text|
    ensures forall k :: 0 <= k < |Operators(text, from)| ==> Operators(text, from)[k] <= |text|
    decreases |text| - from
  {
    if from < |text| {
      if from + 1 < |text| && text[from] == '*' && text[from + 1] == '*' {
        OperatorsAreInside(text, from + 2);
      } else {
        OperatorsAreInside(text, from + 1);
      }
    }
  }

  /** One operand for every power operator that has one, and nothing else. */
  method ExponentOperands(text: string) returns (operands: seq<string>, ghost found: seq<Option<string>>)
    ensures AreOperands(text, Operators(text, 0), found) && operands == Present(found)
  {
    var ends := Operators(text, 0);
    OperatorsAreInside(text, 0);
    operands, found := [], [];
    for k := 0 to |ends|
      invariant |found| == k && operands == Present(found)
      invariant forall j :: 0 <= j < k ==> IsOperand(text, ends[j], found[j])
    {
      var operand := TakeOperand(text, ends[k]);
      assert (found + [operand])[..k] == found;
      found := found + [operand];
      if operand.Some? {
        operands := operands + [operand.value];
      }
    }
  }

  // ---- the arguments of factorial calls ------------------------------------------------------

  const FACTORIAL := "factorial"

  /** The name stands here, and not as the end of a longer one. */
  predicate NamedAt(text: string, at: nat) {
    && at + |FACTORIAL| <= |text|
    && text[at..at + |FACTORIAL|] == FACTORIAL
    && (at > 0 ==> !IsNameChar(text[at - 1]))
  }

  function AfterSpaces(text: string, from: nat): (to: nat)
    requires from <= |text|
    ensures from <= to <= |text| && (to < |text| ==> !IsSpace(text[to]))
    ensures forall k :: from <= k < to ==> IsSpace(text[k])
    decreases |text| - from
  {
    if from < |text| && IsSpace(text[from]) then AfterSpaces(text, from + 1) else from
  }

  /** Where the arguments of each call would begin, from left to right. */
  function CallSites(text: string, from: nat): (sites: seq<nat>)
    requires from <= |text|
    ensures forall k :: 0 <= k < |sites| ==> sites[k] <= |text|
    decreases |text| - from
  {
    if from == |text| then []
    else (if NamedAt(text, from) then [AfterSpaces(text, from + |FACTORIAL|)] else []) + CallSites(text, from + 1)
  }

  ghost predicate IsArgument(text: string, at: nat, argument: Option<string>) {
    if OpensGroup(text, at) then exists group :: IsGroup(text, at, group) && argument == Some(group)
    else argument == None
  }

  ghost predicate AreArguments(text: string, sites: seq<nat>, found: seq<Option<string>>) {
    |found| == |sites| && forall k :: 0 <= k < |sites| ==> IsArgument(text, sites[k], found[k])
  }

  /** One argument for every factorial that is followed by a balanced group, and nothing else. */
  method CallArguments(text: string) returns (arguments: seq<string>, ghost found: seq<Option<string>>)
    ensures AreArguments(text, CallSites(text, 0), found) && arguments == Present(found)
  {
    var sites := CallSites(text, 0);
    arguments, found := [], [];
    for k := 0 to |sites|
      invariant |found| == k && arguments == Present(found)
      invariant forall j :: 0 <= j < k ==> IsArgument(text, sites[j], found[j])
    {
      var group := Balanced(text, sites[k]);
      var argument := if group.Some? then Some(group.value.0) else None;
      if group.Some? {
        assert IsGroup(text, sites[k], group.value.0);
        arguments := arguments + [group.value.0];
      }
      assert (found + [argument])[..k] == found;
      found := found + [argument];
    }
  }

  // ---- the character and pattern checks ------------------------------------------------------

  predicate Allowed(c: char) {
    IsNameChar(c) || IsSpace(c) || c in "+-*/^().,=<>!"
  }

  predicate IsLetterCode(code: int) {
    65 <= code <= 90 || 97 <= code <= 122
  }

  /** What may stand in an expression besides spaces: letters, digits, and the signs listed. */
  lemma OnlyTheseCharacters(c: char)
    requires !IsSpace(c)
    ensures Allowed(c) <==> IsLetterCode(c as int) || 48 <= c as int <= 57 || c in "_+-*/^().,=<>!"
  {
  }

  predicate BlankBetween(text: string, from: nat, to: nat) {
    from <= to <= |text| && forall k :: from <= k < to ==> IsSpace(text[k])
  }

  predicate HasDunder(text: string) {
    exists i: nat :: i + 1 < |text| && text[i] == '_' && text[i + 1] == '_'
  }

  /** A dot after a closing bracket or quote, or before a name, with spaces between at most. */
  predicate AccessAt(text: string, i: nat, j: nat) {
    && i < j < |text| && BlankBetween(text, i + 1, j)
    && ((text[i] in ")]\"'" && text[j] == '.') || (text[i] == '.' && IsNameChar(text[j]) && !('0' <= text[j] <= '9')))
  }

  predicate HasAccess(text: string) {
    exists i: nat, j: nat :: i < |text| && j < |text| && AccessAt(text, i, j)
  }

  /** The length of the power operator at a position, or zero. */
  function PowerAt(text: string, at: nat): nat {
    if at + 1 < |text| && text[at] == '*' && text[at + 1] == '*' then 2 else if at < |text| && text[at] == '^' then 1 else 0
  }

  predicate IsSimple(c: char) {
    IsWordChar(c) || c == '(' || c == ')'
  }

  predicate SimpleAll(text: string, from: nat, to: nat) {
    from <= to <= |text| && forall i :: from <= i < to ==> IsSimple(text[i])
  }

  /** Between two positions only spaces, then word characters and parentheses, then spaces. */
  predicate SimpleBetween(text: string, from: nat, to: nat) {
    exists j: nat, k: nat :: j <= to && k <= to
      && BlankBetween(text, from, j) && SimpleAll(text, j, k) && BlankBetween(text, k, to)
  }

  /** Two power operators with nothing but a simple operand between them. */
  predicate HasChain(text: string) {
    exists i: nat, l: nat :: i < |text| && l < |text|
      && PowerAt(text, i) > 0 && PowerAt(text, l) > 0 && SimpleBetween(text, i + PowerAt(text, i), l)
  }

  // ---- the bound checks --------------------------------------------------------------------

  datatype Rejection =
    | TooLong | IllegalCharacter | Dunder | AttributeAccess | ChainedExponent
    | ExponentTooLarge | FactorialArgumentUnbounded

  // The syntax tree of a fragment, or none where it does not parse.
  type Parser = string -> Option<Expr>

  function FoldText(fragment: string, parse: Parser): Option<real> {
    var tree := parse(Strip(fragment));
    if tree.None? then None else Fold(tree.value)
  }

  predicate ExponentPasses(fragment: string, parse: Parser) {
    var value := FoldText(fragment, parse);
    value.None? || Size(value.value) <= MAX_EXPONENT
  }

  predicate FactorialPasses(fragment: string, parse: Parser) {
    var value := FoldText(fragment, parse);
    value.Some? && Size(value.value) <= MAX_FACTORIAL
  }

  ghost predicate ExponentsPass(text: string, parse: Parser) {
    forall k, s :: 0 <= k < |Operators(text, 0)| && IsOperand(text, Operators(text, 0)[k], Some(s)) ==> ExponentPasses(s, parse)
  }

  ghost predicate FactorialsPass(text: string, parse: Parser) {
    forall k, s :: 0 <= k < |CallSites(text, 0)| && IsArgument(text, CallSites(text, 0)[k], Some(s)) ==> FactorialPasses(s, parse)
  }

  /** No check fails. */
  ghost predicate Accepted(text: string, parse: Parser) {
    && |text| <= MAX_EXPRESSION_CHARS && (forall c :: c in text ==> Allowed(c))
    && !HasDunder(text) && !HasAccess(text) && !HasChain(text)
    && ExponentsPass(text, parse) && FactorialsPass(text, parse)
  }

  /** What counts as an access with nothing between: a dot behind a closing bracket or quote, or before a letter or an underscore. */
  lemma AccessIs(text: string, i: nat)
    requires i + 1 < |text|
    ensures AccessAt(text, i, i + 1) <==>
              || (text[i] in [')', ']', '"', '\''] && text[i + 1] == '.')
              || (text[i] == '.' && (IsLetterCode(text[i + 1] as int) || text[i + 1] == '_'))
  {
  }

  /** A factorial is looked at unless its name ends a longer one. */
  lemma NamedUnlessInsideALongerName(before: char, rest: string)
    ensures NamedAt([before] + ("factorial" + rest), 1) <==>
              !(IsLetterCode(before as int) || 48 <= before as int <= 57 || before == '_')
  {
    var text := [before] + ("factorial" + rest);
    assert text[1..1 + |FACTORIAL|] == FACTORIAL;
  }

  /**
   The bound in numbers: a number of up to 1000 in size passes as an exponent and as a factorial
   argument, and a larger one as neither.
   */
  lemma BoundIsOneThousand(fragment: string, parse: Parser, x: real)
    requires parse(Strip(fragment)) == Some(Number(x))
    ensures ExponentPasses(fragment, parse) <==> -1000.0 <= x <= 1000.0
    ensures FactorialPasses(fragment, parse) <==> -1000.0 <= x <= 1000.0
  {
  }

  /** Never let through: more than 500 characters, two underscores in a row, or a dot before a letter or behind a bracket. */
  lemma NeverAccepted(text: string, parse: Parser, i: nat)
    requires i + 1 < |text|
    requires |text| > 500 || (text[i] == '_' && text[i + 1] == '_')
             || (text[i] == '.' && IsLetterCode(text[i + 1] as int)) || (text[i] == ')' && text[i + 1] == '.')
    ensures !Accepted(text, parse)
  {
    if (text[i] == '.' && IsLetterCode(text[i + 1] as int)) || (text[i] == ')' && text[i + 1] == '.') {
      assert AccessAt(text, i, i + 1);
    }
  }

  lemma SignRunIsUnique(text: string, at: nat, a: nat, b: nat)
    requires SignRun(text, at, a) && SignRun(text, at, b)
    ensures a == b
  {
  }

  lemma OperandIsUnique(text: string, at: nat, a: Option<string>, b: Option<string>)
    requires IsOperand(text, at, a) && IsOperand(text, at, b)
    ensures a == b
  {
    var i: nat :| SignRun(text, at, i) && IsOperandAfter(text, at, i, a);
    var j: nat :| SignRun(text, at, j) && IsOperandAfter(text, at, j, b);
    SignRunIsUnique(text, at, i, j);
    if OpensGroup(text, i) {
      GroupIsUnique(text, i);
    }
  }

  lemma GroupIsUnique(text: string, start: nat)
    ensures forall g, h :: IsGroup(text, start, g) && IsGroup(text, start, h) ==> g == h
  {
    forall i: nat, j: nat | i < |text| && j < |text| && Closes(text, start, i) && Closes(text, start, j) ensures i == j {
    }
  }

  lemma {:induction false} PresentAre(found: seq<Option<string>>, s: string)
    ensures s in Present(found) <==> Some(s) in found
  {
    if |found| > 0 {
      PresentAre(found[..|found| - 1], s);
    }
  }

  /** All exponents of a text pass when all the operands found do, and the other way round. */
  lemma OperandsDecide(text: string, found: seq<Option<string>>, parse: Parser)
    requires AreOperands(text, Operators(text, 0), found)
    ensures ExponentsPass(text, parse) <==> forall s :: s in Present(found) ==> ExponentPasses(s, parse)
  {
    var ends := Operators(text, 0);
    forall s ensures s in Present(found) <==> exists k :: 0 <= k < |ends| && IsOperand(text, ends[k], Some(s)) {
      PresentAre(found, s);
      if Some(s) in found {
        var k :| 0 <= k < |found| && found[k] == Some(s);
        assert IsOperand(text, ends[k], Some(s));
      }
      if k :| 0 <= k < |ends| && IsOperand(text, ends[k], Some(s)) {
        OperandIsUnique(text, ends[k], Some(s), found[k]);
        assert found[k] in found;
      }
    }
  }

  lemma ArgumentsDecide(text: string, found: seq<Option<string>>, parse: Parser)
    requires AreArguments(text, CallSites(text, 0), found)
    ensures FactorialsPass(text, parse) <==> forall s :: s in Present(found) ==> FactorialPasses(s, parse)
  {
    var sites := CallSites(text, 0);
    forall s ensures s in Present(found) <==> exists k :: 0 <= k < |sites| && IsArgument(text, sites[k], Some(s)) {
      PresentAre(found, s);
      if Some(s) in found {
        var k :| 0 <= k < |found| && found[k] == Some(s);
        assert IsArgument(text, sites[k], Some(s));
      }
      if k :| 0 <= k < |sites| && IsArgument(text, sites[k], Some(s)) {
        GroupIsUnique(text, sites[k]);
        assert found[k] in found;
      }
    }
  }

  method AllExponentsPass(operands: seq<string>, parse: Parser) returns (passed: bool)
    ensures passed <==> forall s :: s in operands ==> ExponentPasses(s, parse)
  {
    for i := 0 to |operands|
      invariant forall k :: 0 <= k < i ==> ExponentPasses(operands[k], parse)
    {
      var value := FoldText(operands[i], parse);
      if value.Some? && Size(value.value) > MAX_EXPONENT {
        assert !ExponentPasses(operands[i], parse);
        return false;
      }
    }
    passed := true;
  }

  method AllFactorialsPass(arguments: seq<string>, parse: Parser) returns (passed: bool)
    ensures passed <==> forall s :: s in arguments ==> FactorialPasses(s, parse)
  {
    for i := 0 to |arguments|
      invariant forall k :: 0 <= k < i ==> FactorialPasses(arguments[k], parse)
    {
      var value := FoldText(arguments[i], parse);
      if value.None? || Size(value.value) > MAX_FACTORIAL {
        assert !FactorialPasses(arguments[i], parse);
        return false;
      }
    }
    passed := true;
  }

  /**
   Rejects for the first check that fails: length, characters, patterns; then some power's
   operand that folds above 1000 in size; then some factorial argument that does not fold to
   a number of at most 1000.
   */
  method AssertParseable(text: string, parse: Parser) returns (rejection: Option<Rejection>)
    ensures rejection == if |text| > MAX_EXPRESSION_CHARS then Some(TooLong)
                         else if exists c :: c in text && !Allowed(c) then Some(IllegalCharacter)
                         else if HasDunder(text) then Some(Dunder)
                         else if HasAccess(text) then Some(AttributeAccess)
                         else if HasChain(text) then Some(ChainedExponent)
                         else if !ExponentsPass(text, parse) then Some(ExponentTooLarge)
                         else if !FactorialsPass(text, parse) then Some(FactorialArgumentUnbounded)
                         else None
    ensures rejection.None? <==> Accepted(text, parse)
  {
    if |text| > MAX_EXPRESSION_CHARS {
      return Some(TooLong);
    }
    if exists c :: c in text && !Allowed(c) {
      return Some(IllegalCharacter);
    }
    if HasDunder(text) {
      return Some(Dunder);
    }
    if HasAccess(text) {
      return Some(AttributeAccess);
    }
    if HasChain(text) {
      return Some(ChainedExponent);
    }
    ghost var found: seq<Option<string>>;
    var fragments: seq<string>;
    fragments, found := ExponentOperands(text);
    OperandsDecide(text, found, parse);
    var passed := AllExponentsPass(fragments, parse);
    if !passed {
      return Some(ExponentTooLarge);
    }
    fragments, found := CallArguments(text);
    ArgumentsDecide(text, found, parse);
    passed := AllFactorialsPass(fragments, parse);
    rejection := if passed then None else Some(FactorialArgumentUnbounded);
  }

  /**
   What the checks let through: an operand that does not parse; of those that come to a number,
   one that is not arithmetic, whatever the number, or one that is tame.  A factorial argument
   passes if and only if it parses and is tame.
   */
  lemma PassesIff(fragment: string, parse: Parser, m: Meaning)
    ensures parse(Strip(fragment)).None? ==> ExponentPasses(fragment, parse)
    ensures parse(Strip(fragment)).Some? && Value(parse(Strip(fragment)).value, m).Some? ==>
              (ExponentPasses(fragment, parse) <==>
               !Arithmetic(parse(Strip(fragment)).value) || Tame(parse(Strip(fragment)).value, m))
    ensures FactorialPasses(fragment, parse) <==> parse(Strip(fragment)).Some? && Tame(parse(Strip(fragment)).value, m)
  {
    if parse(Strip(fragment)).Some? {
      var e := parse(Strip(fragment)).value;
      SmallResultsAreExactIff(e, m);
      if Value(e, m).Some? {
        ValuesFoldIffArithmetic(e, m);
      }
    }
  }
}
