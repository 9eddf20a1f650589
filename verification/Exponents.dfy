/**
 How far an exponent reaches by the grammar, against what the textual scan takes of it: signs,
 then an atom with what trails it, then perhaps a further power, which binds to the right.
 */
module Exponents {
  import opened Common
  import opened Text
  import opened Verification

  // ---- tokens ----------------------------------------------------------------------------

  predicate DigitAt(text: string, at: nat) {
    at < |text| && '0' <= text[at] <= '9'
  }

  predicate CharAt(text: string, at: nat, chars: string) {
    at < |text| && text[at] in chars
  }

  /** More digits, with single underscores between them. */
  function DigitsEnd(text: string, at: nat): (end: nat)
    requires at <= |text|
    ensures at <= end <= |text| && forall k :: at <= k < end ==> IsNameChar(text[k])
    decreases |text| - at
  {
    if DigitAt(text, at) then DigitsEnd(text, at + 1)
    else if CharAt(text, at, "_") && DigitAt(text, at + 1) then DigitsEnd(text, at + 2)
    else at
  }

  predicate HexAt(text: string, at: nat) {
    DigitAt(text, at) || CharAt(text, at, "abcdefABCDEF")
  }

  function HexEnd(text: string, at: nat): (end: nat)
    requires at <= |text|
    ensures at <= end <= |text| && forall k :: at <= k < end ==> IsNameChar(text[k])
    decreases |text| - at
  {
    if HexAt(text, at) then HexEnd(text, at + 1)
    else if CharAt(text, at, "_") && HexAt(text, at + 1) then HexEnd(text, at + 2)
    else at
  }

  /** Whole digits and a fraction, either of which may be missing. */
  function MantissaEnd(text: string, at: nat): (end: nat)
    requires DigitAt(text, at) || (CharAt(text, at, ".") && DigitAt(text, at + 1))
    ensures at < end <= |text| && forall k :: at <= k < end ==> IsWordChar(text[k])
  {
    var whole := DigitsEnd(text, at);
    if !CharAt(text, whole, ".") then whole
    else if DigitAt(text, whole + 1) then DigitsEnd(text, whole + 1)
    else whole + 1
  }

  /** An e with digits, the only place where a sign belongs to a number. */
  function ScaleEnd(text: string, at: nat): (end: nat)
    requires at <= |text|
    ensures at <= end <= |text| && forall k :: at <= k < end ==> IsWordChar(text[k]) || IsSign(text[k])
  {
    if !CharAt(text, at, "eE") then at
    else if DigitAt(text, at + 1) then DigitsEnd(text, at + 1)
    else if CharAt(text, at + 1, "+-") && DigitAt(text, at + 2) then DigitsEnd(text, at + 2)
    else at
  }

  function NumberEnd(text: string, at: nat): (end: nat)
    requires DigitAt(text, at) || (CharAt(text, at, ".") && DigitAt(text, at + 1))
    ensures at < end <= |text| && forall k :: at <= k < end ==> IsWordChar(text[k]) || IsSign(text[k])
  {
    if CharAt(text, at, "0") && CharAt(text, at + 1, "xXoObB") && HexAt(text, at + 2) then HexEnd(text, at + 2)
    else
      var end := ScaleEnd(text, MantissaEnd(text, at));
      if CharAt(text, end, "jJ") then end + 1 else end
  }

  function NameEnd(text: string, at: nat): (end: nat)
    requires at <= |text|
    ensures at <= end <= |text| && forall k :: at <= k < end ==> IsNameChar(text[k])
    ensures at < |text| && IsNameChar(text[at]) ==> at < end
    decreases |text| - at
  {
    if at < |text| && IsNameChar(text[at]) then NameEnd(text, at + 1) else at
  }

  predicate StartsNumber(text: string, at: nat) {
    DigitAt(text, at) || (CharAt(text, at, ".") && DigitAt(text, at + 1))
  }

  predicate StartsToken(text: string, at: nat) {
    StartsNumber(text, at) || (at < |text| && IsNameChar(text[at]))
  }

  /** The longest number or name at a position. */
  function TokenEnd(text: string, at: nat): (end: nat)
    requires StartsToken(text, at)
    ensures at < end <= |text| && forall k :: at <= k < end ==> IsWordChar(text[k]) || IsSign(text[k])
  {
    if StartsNumber(text, at) then NumberEnd(text, at) else NameEnd(text, at)
  }

  // ---- the extent by the grammar --------------------------------------------------------------

  ghost function CloseOf(text: string, start: nat): (i: nat)
    requires OpensGroup(text, start)
    ensures Closes(text, start, i) && start < i < |text| && text[i] == ')'
  {
    var i: nat :| i < |text| && Closes(text, start, i);
    assert Depth(text, start, i) > 0 && Depth(text, start, i + 1) == 0;
    i
  }

  /** A factorial sign, and not the beginning of an inequality. */
  predicate BangAt(text: string, at: nat) {
    CharAt(text, at, "!") && !CharAt(text, at + 1, "=")
  }

  function AfterSigns(text: string, at: nat): (after: nat)
    requires at <= |text|
    ensures SignRun(text, at, after)
    decreases |text| - at
  {
    if at < |text| && (IsSpace(text[at]) || IsSign(text[at])) then AfterSigns(text, at + 1) else at
  }

  /** A group, or one number or name. */
  ghost function AtomEnd(text: string, at: nat): (end: Option<nat>)
    ensures end.Some? ==> at < end.value <= |text| && !IsSpace(text[end.value - 1])
  {
    if OpensGroup(text, at) then Some(CloseOf(text, at) + 1)
    else if StartsToken(text, at) then Some(TokenEnd(text, at))
    else None
  }

  /** Calls and factorial signs after an atom; none if a call is never closed. */
  ghost function TrailersEnd(text: string, at: nat): (end: Option<nat>)
    requires 0 < at <= |text| && !IsSpace(text[at - 1])
    ensures end.Some? ==> at <= end.value <= |text| && !IsSpace(text[end.value - 1])
    decreases |text| - at
  {
    var next := AfterSpaces(text, at);
    if CharAt(text, next, "(") then
      if OpensGroup(text, next) then TrailersEnd(text, CloseOf(text, next) + 1) else None
    else if BangAt(text, next) then TrailersEnd(text, next + 1)
    else Some(at)
  }

  ghost function PrimaryEnd(text: string, at: nat): (end: Option<nat>)
    ensures end.Some? ==> at < end.value <= |text| && !IsSpace(text[end.value - 1])
  {
    var atom := AtomEnd(text, at);
    if atom.None? then None else TrailersEnd(text, atom.value)
  }

  /** A primary, and if a power follows, that with its own exponent. */
  ghost function PowerEnd(text: string, at: nat): (end: Option<nat>)
    requires at <= |text|
    ensures end.Some? ==> at < end.value <= |text|
    decreases |text| - at
  {
    var primary := PrimaryEnd(text, at);
    if primary.None? then None
    else
      var next := AfterSpaces(text, primary.value);
      if PowerAt(text, next) == 0 then primary
      else PowerEnd(text, AfterSigns(text, next + PowerAt(text, next)))
  }

  /** The exponent that starts at a position, with its signs, if it is well formed. */
  ghost function Whole(text: string, at: nat): Option<string>
    requires at <= |text|
  {
    var start := AfterSigns(text, at);
    var end := PowerEnd(text, start);
    if end.None? then None else Some(Signs(text, at, start) + text[start..end.value])
  }

  // ---- when the operand taken is the whole exponent ------------------------------------------

  /** A call, a factorial sign or a further power comes next, after spaces at most. */
  predicate Continues(text: string, at: nat)
    requires at <= |text|
  {
    var next := AfterSpaces(text, at);
    CharAt(text, next, "(") || BangAt(text, next) || PowerAt(text, next) > 0
  }

  function WordEnd(text: string, at: nat): (end: nat)
    requires at <= |text|
    ensures WordRun(text, at, end)
    decreases |text| - at
  {
    if at < |text| && IsWordChar(text[at]) then WordEnd(text, at + 1) else at
  }

  /**
   The operand is a group, or a word that is one number or name and all of it, and neither is
   followed by a call, a factorial sign or a further power.
   */
  ghost predicate TakenWhole(text: string, at: nat)
    requires at <= |text|
  {
    var start := AfterSigns(text, at);
    if OpensGroup(text, start) then !Continues(text, CloseOf(text, start) + 1)
    else
      var end := WordEnd(text, start);
      StartsToken(text, start) && TokenEnd(text, start) == end && !Continues(text, end)
  }

  lemma WordRunIsUnique(text: string, from: nat, a: nat, b: nat)
    requires WordRun(text, from, a) && WordRun(text, from, b)
    ensures a == b
  {
  }

  /** Where the operand taken at a position ends. */
  ghost function OperandEnd(text: string, at: nat): (end: nat)
    requires at <= |text|
    ensures AfterSigns(text, at) <= end <= |text|
  {
    var start := AfterSigns(text, at);
    if OpensGroup(text, start) then CloseOf(text, start) + 1 else WordEnd(text, start)
  }

  lemma GroupSpan(text: string, signs: string, start: nat, close: nat)
    requires start < close < |text| && text[start] == '(' && text[close] == ')'
    ensures signs + ['('] + text[start + 1..close] + [')'] == signs + text[start..close + 1]
  {
    assert text[start..close + 1] == ['('] + text[start + 1..close] + [')'];
  }

  lemma OperandIsItsSpan(text: string, at: nat, operand: Option<string>)
    requires at <= |text| && IsOperand(text, at, operand)
    ensures var start, end := AfterSigns(text, at), OperandEnd(text, at);
            operand == if start == end then None else Some(Signs(text, at, start) + text[start..end])
  {
    var start := AfterSigns(text, at);
    var after: nat :| SignRun(text, at, after) && IsOperandAfter(text, at, after, operand);
    SignRunIsUnique(text, at, start, after);
    if OpensGroup(text, start) {
      GroupIsItsSpan(text, at, start, operand);
    } else {
      WordIsItsSpan(text, at, start, operand);
    }
  }

  lemma GroupIsItsSpan(text: string, at: nat, start: nat, operand: Option<string>)
    requires at <= start <= |text| && OpensGroup(text, start) && IsOperandAfter(text, at, start, operand)
    ensures operand == Some(Signs(text, at, start) + text[start..CloseOf(text, start) + 1])
  {
    var close := CloseOf(text, start);
    var group :| IsGroup(text, start, group) && operand == Some(Signs(text, at, start) + ['('] + group + [')']);
    assert IsGroup(text, start, text[start + 1..close]);
    GroupIsUnique(text, start);
    GroupSpan(text, Signs(text, at, start), start, close);
  }

  lemma WordIsItsSpan(text: string, at: nat, start: nat, operand: Option<string>)
    requires at <= start <= |text| && !OpensGroup(text, start) && IsOperandAfter(text, at, start, operand)
    ensures operand == if start == WordEnd(text, start) then None else Some(Signs(text, at, start) + text[start..WordEnd(text, start)])
  {
    var end: nat :| WordRun(text, start, end)
      && operand == if end == start then None else Some(Signs(text, at, start) + text[start..end]);
    WordRunIsUnique(text, start, end, WordEnd(text, start));
  }

  /** A primary ends with its atom unless a call or a factorial sign follows. */
  lemma PowerStopsIff(text: string, at: nat, atom: nat)
    requires at < atom <= |text| && AtomEnd(text, at) == Some(atom)
    ensures PowerEnd(text, at) == Some(atom) <==> !Continues(text, atom)
    ensures PowerEnd(text, at).Some? ==> PowerEnd(text, at).value >= atom
  {
    var next := AfterSpaces(text, atom);
    if CharAt(text, next, "(") || BangAt(text, next) {
      TrailersGoOn(text, atom);
    }
    var primary := PrimaryEnd(text, at);
    if primary.Some? {
      PowerGoesOn(text, at);
    }
  }

  lemma TrailersGoOn(text: string, at: nat)
    requires 0 < at <= |text| && !IsSpace(text[at - 1])
    requires CharAt(text, AfterSpaces(text, at), "(") || BangAt(text, AfterSpaces(text, at))
    ensures TrailersEnd(text, at).Some? ==> TrailersEnd(text, at).value > at
  {
  }

  lemma {:induction false} PowerGoesOn(text: string, at: nat)
    requires at <= |text| && PrimaryEnd(text, at).Some?
    ensures var primary := PrimaryEnd(text, at).value;
            var next := AfterSpaces(text, primary);
            && (PowerAt(text, next) == 0 ==> PowerEnd(text, at) == Some(primary))
            && (PowerAt(text, next) > 0 && PowerEnd(text, at).Some? ==> PowerEnd(text, at).value > primary)
  {
  }

  lemma SpansDiffer(text: string, signs: string, start: nat, a: nat, b: nat)
    requires start <= a <= |text| && start <= b <= |text| && a != b
    ensures signs + text[start..a] != signs + text[start..b]
  {
    assert |signs + text[start..a]| == |signs| + (a - start);
    assert |signs + text[start..b]| == |signs| + (b - start);
  }

  /** The exponent is the operand's span exactly when the operand is an atom and nothing continues it. */
  lemma SpanIsWholeIff(text: string, at: nat)
    requires at <= |text| && OperandEnd(text, at) > AfterSigns(text, at)
    ensures PowerEnd(text, AfterSigns(text, at)) == Some(OperandEnd(text, at)) <==> TakenWhole(text, at)
  {
    var start, end := AfterSigns(text, at), OperandEnd(text, at);
    if OpensGroup(text, start) {
      PowerStopsIff(text, start, end);
    } else if StartsToken(text, start) {
      var atom := TokenEnd(text, start);
      PowerStopsIff(text, start, atom);
      if atom < end {
        WordGoesOn(text, start, atom);
      }
    }
  }

  /** Where a token ends inside a word, nothing that could continue an exponent comes next. */
  lemma WordGoesOn(text: string, start: nat, atom: nat)
    requires start <= |text| && start <= atom < WordEnd(text, start)
    ensures !Continues(text, atom)
  {
    assert IsWordChar(text[atom]);
  }

  /** The operand that is checked is the whole exponent if and only if the text shows no more of it. */
  lemma OperandIsWholeIff(text: string, at: nat, operand: string)
    requires at <= |text| && IsOperand(text, at, Some(operand))
    ensures Whole(text, at) == Some(operand) <==> TakenWhole(text, at)
  {
    var start, end := AfterSigns(text, at), OperandEnd(text, at);
    OperandIsItsSpan(text, at, Some(operand));
    SpanIsWholeIff(text, at);
    var power := PowerEnd(text, start);
    if power.Some? && power.value != end {
      SpansDiffer(text, Signs(text, at, start), start, power.value, end);
    }
  }

  /** Where no operand is taken there is no exponent. */
  lemma NoOperandNoExponent(text: string, at: nat)
    requires at <= |text| && IsOperand(text, at, None)
    ensures Whole(text, at) == None
  {
    OperandIsItsSpan(text, at, None);
  }

  lemma SomeOperand(text: string, at: nat) returns (operand: Option<string>)
    requires at <= |text|
    ensures IsOperand(text, at, operand)
  {
    var start := AfterSigns(text, at);
    var signs := Signs(text, at, start);
    if OpensGroup(text, start) {
      var group := text[start + 1..CloseOf(text, start)];
      operand := Some(signs + ['('] + group + [')']);
      assert IsGroup(text, start, group);
    } else {
      var end := WordEnd(text, start);
      operand := if end == start then None else Some(signs + text[start..end]);
    }
    assert IsOperandAfter(text, at, start, operand);
  }

  lemma WholeIsTaken(text: string, at: nat, whole: string)
    requires at <= |text| && TakenWhole(text, at) && Whole(text, at) == Some(whole)
    ensures IsOperand(text, at, Some(whole))
  {
    var operand := SomeOperand(text, at);
    OperandIsItsSpan(text, at, operand);
    OperandIsWholeIff(text, at, operand.value);
  }

  /**
   An exponent that is taken whole and comes to more than 1000 in size is let through if and only if it
   is not arithmetic.
   */
  lemma WholeExponentPassesIff(text: string, at: nat, parse: Parser, m: Meaning, whole: string)
    requires at <= |text| && TakenWhole(text, at) && Whole(text, at) == Some(whole)
    requires parse(Strip(whole)).Some? && Value(parse(Strip(whole)).value, m).Some?
    requires Size(Value(parse(Strip(whole)).value, m).value) > MAX_EXPONENT
    ensures PassesAt(text, at, parse) <==> !Arithmetic(parse(Strip(whole)).value)
  {
    WholeIsTaken(text, at, whole);
    LargeValuesFoldLargeIff(parse(Strip(whole)).value, m);
    if ExponentPasses(whole, parse) {
      OneOperandPasses(text, at, whole, parse);
    }
  }

  /** In a text that passes, every exponent that is taken whole and is arithmetic comes to at most 1000 in size. */
  lemma PassingBoundsWholeExponents(text: string, parse: Parser, m: Meaning, k: nat, whole: string)
    requires ExponentsPass(text, parse) && k < |Operators(text, 0)|
    requires Operators(text, 0)[k] <= |text|
    requires TakenWhole(text, Operators(text, 0)[k]) && Whole(text, Operators(text, 0)[k]) == Some(whole)
    requires parse(Strip(whole)).Some? && Value(parse(Strip(whole)).value, m).Some? && Arithmetic(parse(Strip(whole)).value)
    ensures Size(Value(parse(Strip(whole)).value, m).value) <= MAX_EXPONENT
  {
    WholeIsTaken(text, Operators(text, 0)[k], whole);
    PassesIff(whole, parse, m);
  }

  /** The number, and not the word, decides only where a sign belongs to it: after a mantissa and an e, before a digit. */
  lemma NumberOutrunsWordIff(text: string, at: nat)
    requires StartsToken(text, at)
    ensures TokenEnd(text, at) > WordEnd(text, at) <==>
            && StartsNumber(text, at)
            && !(CharAt(text, at, "0") && CharAt(text, at + 1, "xXoObB") && HexAt(text, at + 2))
            && var e := MantissaEnd(text, at);
               CharAt(text, e, "eE") && CharAt(text, e + 1, "+-") && DigitAt(text, e + 2)
  {
    WordsRunOn(text, at, TokenEnd(text, at));
    if StartsNumber(text, at) {
      var e := MantissaEnd(text, at);
      if CharAt(text, e, "eE") && CharAt(text, e + 1, "+-") {
        WordsRunOn(text, at, e + 1);
      }
    }
  }

  /** A word reaches as far as its characters do. */
  lemma WordsRunOn(text: string, at: nat, to: nat)
    requires at <= to <= |text|
    ensures WordEnd(text, at) >= to <==> forall k :: at <= k < to ==> IsWordChar(text[k])
  {
  }

  // ---- the chains that are let through ---------------------------------------------------------

  /**
   The pattern for chained powers sees what stands after one operator up to the next thing
   after the primary if and only if the primary has no sign and holds nothing but word
   characters and parentheses.
   */
  lemma ChainIsSeenIff(text: string, at: nat, end: nat)
    requires at <= |text| && PrimaryEnd(text, AfterSigns(text, at)) == Some(end)
    ensures SimpleBetween(text, at, AfterSpaces(text, end)) <==>
            BlankBetween(text, at, AfterSigns(text, at)) && SimpleAll(text, AfterSigns(text, at), end)
  {
    var start, next := AfterSigns(text, at), AfterSpaces(text, end);
    SimpleIffSeen(text, at, start, end, next);
  }

  lemma SimpleIffSeen(text: string, at: nat, start: nat, end: nat, next: nat)
    requires SignRun(text, at, start) && start < end <= next <= |text| && !IsSpace(text[end - 1])
    requires BlankBetween(text, end, next)
    ensures SimpleBetween(text, at, next) <==> BlankBetween(text, at, start) && SimpleAll(text, start, end)
  {
    if j: nat, k: nat :| j <= next && k <= next && BlankBetween(text, at, j) && SimpleAll(text, j, k) && BlankBetween(text, k, next) {
      SeenIsSimple(text, at, start, end, next, j, k);
    }
  }

  lemma SimpleIsNoSpace(c: char)
    requires IsSimple(c)
    ensures !IsSpace(c) && !IsSign(c)
  {
  }

  lemma SeenIsSimple(text: string, at: nat, start: nat, end: nat, next: nat, j: nat, k: nat)
    requires SignRun(text, at, start) && start < end <= next <= |text| && !IsSpace(text[end - 1])
    requires BlankBetween(text, at, j) && SimpleAll(text, j, k) && BlankBetween(text, k, next)
    ensures BlankBetween(text, at, start) && SimpleAll(text, start, end)
  {
    assert !IsSpace(text[start]);
    assert j <= start && end <= k;
    forall h | at <= h < start ensures IsSpace(text[h]) {
      if j <= h {
        SimpleIsNoSpace(text[h]);
      }
    }
  }

  /**
   Where the pattern finds no chain, an exponent that is itself raised has a sign, or holds more than
   words and parentheses.
   */
  lemma ChainsLetThroughAreNotSimple(text: string, i: nat, at: nat, end: nat)
    requires !HasChain(text) && PowerAt(text, i) > 0 && at == i + PowerAt(text, i) <= |text|
    requires PrimaryEnd(text, AfterSigns(text, at)) == Some(end) && PowerAt(text, AfterSpaces(text, end)) > 0
    ensures !(BlankBetween(text, at, AfterSigns(text, at)) && SimpleAll(text, AfterSigns(text, at), end))
  {
    NoChainBetween(text, i, AfterSpaces(text, end));
    ChainIsSeenIff(text, at, end);
  }

  lemma NoChainBetween(text: string, i: nat, l: nat)
    requires !HasChain(text) && PowerAt(text, i) > 0 && PowerAt(text, l) > 0
    ensures !SimpleBetween(text, i + PowerAt(text, i), l)
  {
  }

  // ---- exponents that are cut short --------------------------------------------------------------

  lemma {:induction false} NoOperators(text: string, from: nat)
    requires from <= |text| && forall i :: from <= i < |text| ==> text[i] != '*' && text[i] != '^'
    ensures |Operators(text, from)| == 0
    decreases |text| - from
  {
    if from < |text| {
      NoOperators(text, from + 1);
    }
  }

  lemma {:induction false} NoCallSites(text: string, from: nat)
    requires from <= |text| && forall i :: from <= i < |text| ==> text[i] != 'f'
    ensures |CallSites(text, from)| == 0
    decreases |text| - from
  {
    if from < |text| {
      NotNamedAt(text, from);
      NoCallSites(text, from + 1);
    }
  }

  lemma NotNamedAt(text: string, at: nat)
    requires at < |text| && text[at] != 'f'
    ensures !NamedAt(text, at)
  {
    if at + |FACTORIAL| <= |text| {
      assert text[at..at + |FACTORIAL|][0] == text[at];
    }
  }

  lemma OneOperandPasses(text: string, at: nat, operand: string, parse: Parser)
    requires IsOperand(text, at, Some(operand)) && ExponentPasses(operand, parse)
    ensures PassesAt(text, at, parse)
  {
    forall s | IsOperand(text, at, Some(s)) ensures ExponentPasses(s, parse) {
      OperandIsUnique(text, at, Some(s), Some(operand));
    }
  }

  lemma WordIsTaken(text: string, at: nat, start: nat, end: nat)
    requires SignRun(text, at, start) && !OpensGroup(text, start) && WordRun(text, start, end) && start < end
    ensures IsOperand(text, at, Some(Signs(text, at, start) + text[start..end]))
  {
    assert IsOperandAfter(text, at, start, Some(Signs(text, at, start) + text[start..end]));
  }

  lemma NoSigns(text: string, at: nat, rest: string)
    requires at <= |text|
    ensures Signs(text, at, at) + rest == rest
  {
    assert Signs(text, at, at) == [];
  }

  // A power whose exponent has a sign and is raised again.
  predicate IsSignedChain(text: string) {
    && |text| == 8 && text[0] == '9' && text[1] == '*' && text[2] == '*' && text[3] == '+'
    && text[4] == '9' && text[5] == '*' && text[6] == '*' && text[7] == '9'
  }

  lemma SignedChainOperators(text: string)
    requires IsSignedChain(text)
    ensures Operators(text, 0) == [3, 7]
  {
    NoOperators(text, 7);
    assert Operators(text, 5) == [7] + Operators(text, 7);
    assert Operators(text, 3) == Operators(text, 4) == Operators(text, 5);
    assert Operators(text, 1) == [3] + Operators(text, 3);
  }

  lemma SignedChainIsFiltered(text: string)
    requires IsSignedChain(text)
    ensures (forall c :: c in text ==> Allowed(c)) && !HasDunder(text) && !HasAccess(text) && !HasChain(text)
  {
    forall i: nat, l: nat | PowerAt(text, i) > 0 && PowerAt(text, l) > 0 ensures !SimpleBetween(text, i + PowerAt(text, i), l) {
      assert i == 1 || i == 5;
      assert l == 1 || l == 5;
      assert i == 1 && l == 5 ==> !IsSimple(text[3]) && !IsSpace(text[3]);
    }
  }

  lemma SignedChainOperands(text: string)
    requires IsSignedChain(text)
    ensures IsOperand(text, 3, Some(['+', '9'])) && IsOperand(text, 7, Some(['9']))
  {
    assert !OpensGroup(text, 4) && !OpensGroup(text, 7);
    assert Signs(text, 3, 4) == ['+'];
    assert ['+'] + text[4..5] == ['+', '9'] && text[7..8] == ['9'];
    WordIsTaken(text, 3, 4, 5);
    WordIsTaken(text, 7, 7, 8);
    NoSigns(text, 7, text[7..8]);
  }

  lemma DigitIsAtom(text: string, at: nat)
    requires DigitAt(text, at) && (at + 1 < |text| ==> text[at + 1] == '*')
    ensures AtomEnd(text, at) == Some(at + 1)
  {
    assert !OpensGroup(text, at);
    assert DigitsEnd(text, at) == at + 1;
  }

  lemma SignedChainPowers(text: string)
    requires IsSignedChain(text)
    ensures AfterSigns(text, 3) == 4 && PowerEnd(text, 4) == Some(8)
  {
    DigitIsAtom(text, 4);
    DigitIsAtom(text, 7);
    PowerIsPrimary(text, 7, 8, 8);
    assert TrailersEnd(text, 5) == Some(5) && PrimaryEnd(text, 4) == Some(5);
  }

  lemma SignedChainWhole(text: string)
    requires IsSignedChain(text)
    ensures Whole(text, 3) == Some(text[3..]) && !TakenWhole(text, 3)
  {
    SignedChainPowers(text);
    SignedChainOperands(text);
    assert Signs(text, 3, 4) == ['+'];
    assert ['+'] + text[4..8] == text[3..];
    OperandIsWholeIff(text, 3, ['+', '9']);
  }

  lemma SignedChainPasses(text: string, parse: Parser)
    requires IsSignedChain(text) && ExponentPasses(['+', '9'], parse) && ExponentPasses(['9'], parse)
    ensures ExponentsPass(text, parse)
  {
    SignedChainOperators(text);
    SignedChainOperands(text);
    OneOperandPasses(text, 3, ['+', '9'], parse);
    OneOperandPasses(text, 7, ['9'], parse);
    TwoOperandsPass(text, 3, 7, parse);
  }

  ghost predicate PassesAt(text: string, at: nat, parse: Parser) {
    forall s :: IsOperand(text, at, Some(s)) ==> ExponentPasses(s, parse)
  }

  lemma TwoOperandsPass(text: string, a: nat, b: nat, parse: Parser)
    requires Operators(text, 0) == [a, b] && PassesAt(text, a, parse) && PassesAt(text, b, parse)
    ensures ExponentsPass(text, parse)
  {
    var ends := Operators(text, 0);
    forall k | 0 <= k < |ends| ensures PassesAt(text, ends[k], parse) {
    }
  }

  lemma NoFactorialsPass(text: string, parse: Parser)
    requires forall i :: 0 <= i < |text| ==> text[i] != 'f'
    ensures FactorialsPass(text, parse)
  {
    NoCallSites(text, 0);
  }

  lemma SignedChainSpelled(text: string)
    requires text == "9**+9**9"
    ensures IsSignedChain(text) && text[3..] == "+9**9"
  {
  }

  /**
   The input 9**+9**9: the operand +9 folds to 9 and the text passes, although the exponent,
   +9**9, is far above the bound.
   */
  lemma SignedChainIsCutShort(text: string, parse: Parser)
    requires text == "9**+9**9" && FoldText(['+', '9'], parse) == Some(9.0) && FoldText(['9'], parse) == Some(9.0)
    ensures Accepted(text, parse)
    ensures Whole(text, 3) == Some("+9**9") && !TakenWhole(text, 3)
  {
    SignedChainSpelled(text);
    SignedChainOperators(text);
    SignedChainIsFiltered(text);
    SignedChainWhole(text);
    SignedChainPasses(text, parse);
    NoFactorialsPass(text, parse);
  }

  // A power whose exponent is a number with a signed scale.
  predicate IsSignedScale(text: string) {
    && |text| == 7 && text[0] == '2' && text[1] == '*' && text[2] == '*'
    && text[3] == '9' && text[4] == 'e' && text[5] == '+' && text[6] == '3'
  }

  lemma SignedScaleIsFiltered(text: string)
    requires IsSignedScale(text)
    ensures Operators(text, 0) == [3]
    ensures (forall c :: c in text ==> Allowed(c)) && !HasDunder(text) && !HasAccess(text) && !HasChain(text)
  {
    NoOperators(text, 3);
    assert Operators(text, 1) == [3] + Operators(text, 3);
    forall i: nat, l: nat | PowerAt(text, i) > 0 && PowerAt(text, l) > 0 ensures !SimpleBetween(text, i + PowerAt(text, i), l) {
      assert i == 1 && l == 1;
    }
  }

  lemma SignedScaleOperand(text: string)
    requires IsSignedScale(text)
    ensures IsOperand(text, 3, Some(['9', 'e']))
  {
    assert !OpensGroup(text, 3);
    assert text[3..5] == ['9', 'e'];
    WordIsTaken(text, 3, 3, 5);
    NoSigns(text, 3, text[3..5]);
  }

  lemma SignedScaleAtom(text: string)
    requires IsSignedScale(text)
    ensures AtomEnd(text, 3) == Some(7)
  {
    assert !OpensGroup(text, 3);
    assert DigitsEnd(text, 3) == 4 && MantissaEnd(text, 3) == 4;
    assert DigitsEnd(text, 6) == 7 && ScaleEnd(text, 4) == 7;
  }

  lemma SignedScaleWhole(text: string)
    requires IsSignedScale(text)
    ensures Whole(text, 3) == Some(text[3..]) && !TakenWhole(text, 3)
  {
    SignedScaleAtom(text);
    assert AfterSigns(text, 3) == 3;
    PowerIsPrimary(text, 3, 7, 7);
    NoSigns(text, 3, text[3..7]);
    assert text[3..7] == text[3..];
    SignedScaleOperand(text);
    OperandIsWholeIff(text, 3, ['9', 'e']);
  }

  lemma SignedScaleSpelled(text: string)
    requires text == "2**9e+3"
    ensures IsSignedScale(text) && text[3..] == "9e+3"
  {
  }

  /** The input 2**9e+3: the operand 9e does not parse and the text passes, although the exponent is the number 9000. */
  lemma SignedScaleIsCutShort(text: string, parse: Parser)
    requires text == "2**9e+3" && FoldText(['9', 'e'], parse) == None
    ensures Accepted(text, parse)
    ensures Whole(text, 3) == Some("9e+3") && !TakenWhole(text, 3)
  {
    SignedScaleSpelled(text);
    SignedScaleIsFiltered(text);
    SignedScaleWhole(text);
    SignedScaleOperand(text);
    OneOperandPasses(text, 3, ['9', 'e'], parse);
    NoFactorialsPass(text, parse);
  }

  // A power whose exponent is a call, character by character.
  predicate IsCalledPower(text: string) {
    && |text| == 15 && text[0] == '2' && text[1] == '*' && text[2] == '*'
    && text[3..12] == FACTORIAL && text[12] == '(' && text[13] == '9' && text[14] == ')'
  }

  lemma NameHasLetters(text: string)
    requires IsCalledPower(text)
    ensures forall i :: 3 <= i < 12 ==> 'a' <= text[i] <= 'z'
    ensures forall i :: 4 <= i < 12 ==> text[i] != 'f'
  {
    assert forall i :: 3 <= i < 12 ==> text[i] == text[3..12][i - 3];
  }

  lemma CalledPowerIsFiltered(text: string)
    requires IsCalledPower(text)
    ensures Operators(text, 0) == [3]
    ensures (forall c :: c in text ==> Allowed(c)) && !HasDunder(text) && !HasAccess(text) && !HasChain(text)
  {
    NameHasLetters(text);
    NoOperators(text, 3);
    assert Operators(text, 1) == [3] + Operators(text, 3);
    forall i: nat, l: nat | PowerAt(text, i) > 0 && PowerAt(text, l) > 0 ensures !SimpleBetween(text, i + PowerAt(text, i), l) {
      assert i == 1 && l == 1;
    }
  }

  lemma CalledPowerSites(text: string)
    requires IsCalledPower(text)
    ensures CallSites(text, 0) == [12]
  {
    NameHasLetters(text);
    NoCallSites(text, 4);
    NotNamedAt(text, 0);
    NotNamedAt(text, 1);
    NotNamedAt(text, 2);
    assert NamedAt(text, 3) && AfterSpaces(text, 12) == 12;
    assert CallSites(text, 3) == [12] + CallSites(text, 4);
    assert CallSites(text, 1) == CallSites(text, 2) == CallSites(text, 3);
  }

  lemma CalledPowerGroup(text: string)
    requires IsCalledPower(text)
    ensures Closes(text, 12, 14) && IsGroup(text, 12, ['9']) && OpensGroup(text, 12)
  {
    assert Depth(text, 12, 13) == 1;
    assert Depth(text, 12, 14) == 1;
    assert Depth(text, 12, 15) == 0;
    assert Closes(text, 12, 14);
    assert text[13..14] == ['9'];
  }

  lemma {:induction false} NameReaches(text: string, at: nat, end: nat)
    requires at <= end <= |text| && (forall k :: at <= k < end ==> IsNameChar(text[k])) && (end < |text| ==> !IsNameChar(text[end]))
    ensures NameEnd(text, at) == end
    decreases end - at
  {
    if at < end {
      NameReaches(text, at + 1, end);
    }
  }

  lemma CloseIsUnique(text: string, start: nat, i: nat)
    requires Closes(text, start, i)
    ensures OpensGroup(text, start) && CloseOf(text, start) == i
  {
  }

  lemma CalledPowerOperand(text: string)
    requires IsCalledPower(text)
    ensures IsOperand(text, 3, Some(FACTORIAL)) && !OpensGroup(text, 3) && AfterSigns(text, 3) == 3
  {
    NameHasLetters(text);
    WordIsTaken(text, 3, 3, 12);
    NoSigns(text, 3, text[3..12]);
  }

  lemma CalledPowerTrails(text: string)
    requires IsCalledPower(text)
    ensures TrailersEnd(text, 12) == Some(15)
  {
    CalledPowerGroup(text);
    CloseIsUnique(text, 12, 14);
    assert TrailersEnd(text, 15) == Some(15);
  }

  lemma CalledPowerExtents(text: string)
    requires IsCalledPower(text)
    ensures IsOperand(text, 3, Some(FACTORIAL)) && Whole(text, 3) == Some(text[3..]) && !TakenWhole(text, 3)
  {
    CalledPowerOperand(text);
    NameHasLetters(text);
    NameReaches(text, 3, 12);
    CalledPowerTrails(text);
    PowerIsPrimary(text, 3, 12, 15);
    NoSigns(text, 3, text[3..15]);
    assert text[3..15] == text[3..];
    SpansDiffer(text, [], 3, 12, 15);
    assert [] + text[3..12] == FACTORIAL && [] + text[3..15] == text[3..];
    OperandIsWholeIff(text, 3, FACTORIAL);
  }

  lemma PowerIsPrimary(text: string, at: nat, atom: nat, end: nat)
    requires at < atom <= end <= |text| && AtomEnd(text, at) == Some(atom) && TrailersEnd(text, atom) == Some(end)
    requires PowerAt(text, AfterSpaces(text, end)) == 0
    ensures PowerEnd(text, at) == Some(end)
  {
  }

  lemma CalledPowerSpelled(text: string)
    requires text == "2**factorial(9)"
    ensures IsCalledPower(text) && text[3..] == "factorial(9)"
  {
  }

  /** The input 2**factorial(9): only the name is taken and the text passes, although the exponent is 362880. */
  lemma CalledPowerIsCutShort(text: string, parse: Parser)
    requires text == "2**factorial(9)" && FoldText(FACTORIAL, parse) == None && FoldText(['9'], parse) == Some(9.0)
    ensures Accepted(text, parse)
    ensures Whole(text, 3) == Some("factorial(9)") && !TakenWhole(text, 3)
  {
    CalledPowerSpelled(text);
    CalledPowerIsFiltered(text);
    CalledPowerSites(text);
    CalledPowerGroup(text);
    CalledPowerExtents(text);
    OneOperandPasses(text, 3, FACTORIAL, parse);
    GroupIsUnique(text, 12);
  }
}
