/**
 * The comparison-operator table of the admin rule engine
 * (`ur_check_condition_operator`), over PHP 8 comparison semantics restricted
 * to null, integers and strings, with array and object results on the
 * response side.
 */
module ConditionOperator {
  import opened Strings

  /** A scalar PHP value: `null`, an integer or a string. */
  datatype Scalar = Null | Int(i: int) | Str(s: string)

  /**
   * What a named check can return: a scalar, an array or an object (both with
   * scalar members, keyed by name).
   */
  datatype Value = Plain(v: Scalar) | Arr(fields: map<string, Scalar>) | Obj(fields: map<string, Scalar>)

  /** The eight operator tokens the table understands. */
  const Tokens: set<string> := {"==", "===", "!=", "!==", ">", "<", ">=", "<="}

  function Sign(x: int): int
  {
    if x < 0 then -1 else if x > 0 then 1 else 0
  }

  /** PHP 8 `<=>` between an integer and a string. */
  function IntStringCmp(m: int, t: string): int
  {
    if IsNumeric(t) then Sign(m - NumericValue(t)) else LexCmp(IntToString(m), t)
  }

  /**
   * PHP 8 `<=>` between scalars: null against a string compares "" with it,
   * null against an integer compares truth values, an integer against a
   * numeric string compares numbers and against any other string compares the
   * integer's decimal text, and two strings compare numerically when both are
   * numeric and byte-wise otherwise.
   */
  function CompareScalars(a: Scalar, b: Scalar): (r: int)
    ensures -1 <= r <= 1
  {
    match (a, b)
    case (Null, Null) => 0
    case (Null, Int(n)) => if n == 0 then 0 else -1
    case (Int(m), Null) => if m == 0 then 0 else 1
    case (Null, Str(t)) => if t == "" then 0 else -1
    case (Str(s), Null) => if s == "" then 0 else 1
    case (Int(m), Int(n)) => Sign(m - n)
    case (Int(m), Str(t)) => IntStringCmp(m, t)
    case (Str(s), Int(n)) => -IntStringCmp(n, s)
    case (Str(s), Str(t)) =>
      if IsNumeric(s) && IsNumeric(t) then Sign(NumericValue(s) - NumericValue(t)) else LexCmp(s, t)
  }

  /**
   * PHP 8 `<=>` of an expected scalar against a check's response. Null
   * against an array compares truth values (an empty array is false); an
   * array or an object is greater than anything else.
   */
  function Compare(expected: Scalar, response: Value): (r: int)
    ensures -1 <= r <= 1
  {
    match response
    case Plain(v) => CompareScalars(expected, v)
    case Arr(fields) => if expected == Null && |fields| == 0 then 0 else -1
    case Obj(_) => -1
  }

  /** PHP `===`: same type and same value. */
  predicate Identical(expected: Scalar, response: Value)
  {
    response == Plain(expected)
  }

  /**
   * `ur_check_condition_operator($op, $expected, $response)`: the operator is
   * applied with the expected value on the left; an unknown token is false.
   */
  predicate ConditionMet(op: string, expected: Scalar, response: Value)
  {
    if op == "==" then Compare(expected, response) == 0
    else if op == "===" then Identical(expected, response)
    else if op == "!=" then Compare(expected, response) != 0
    else if op == "!==" then !Identical(expected, response)
    else if op == ">" then Compare(expected, response) > 0
    else if op == "<" then Compare(expected, response) < 0
    else if op == ">=" then Compare(expected, response) >= 0
    else if op == "<=" then Compare(expected, response) <= 0
    else false
  }

  /** Any token outside the table is never met, and the two negated operators negate their partners. */
  lemma OperatorTable(op: string, expected: Scalar, response: Value)
    ensures op !in Tokens ==> !ConditionMet(op, expected, response)
    ensures ConditionMet("!=", expected, response) == !ConditionMet("==", expected, response)
    ensures ConditionMet("!==", expected, response) == !ConditionMet("===", expected, response)
    ensures ConditionMet(">=", expected, response)
            == (ConditionMet(">", expected, response) || ConditionMet("==", expected, response))
    ensures ConditionMet("<=", expected, response)
            == (ConditionMet("<", expected, response) || ConditionMet("==", expected, response))
  {
  }

  /** Exactly one of `<`, `==` and `>` holds for any pair of operands. */
  lemma Trichotomy(expected: Scalar, response: Value)
    ensures ConditionMet("<", expected, response) || ConditionMet("==", expected, response)
            || ConditionMet(">", expected, response)
    ensures !(ConditionMet("<", expected, response) && ConditionMet("==", expected, response))
    ensures !(ConditionMet(">", expected, response) && ConditionMet("==", expected, response))
    ensures !(ConditionMet("<", expected, response) && ConditionMet(">", expected, response))
  {
  }

  /** Every scalar is loosely equal to itself, so `===` implies `==`. */
  lemma StrictImpliesLoose(expected: Scalar, response: Value)
    ensures ConditionMet("===", expected, response) ==> ConditionMet("==", expected, response)
    ensures ConditionMet("!=", expected, response) ==> ConditionMet("!==", expected, response)
  {
    if response == Plain(expected) {
      match expected
      case Null =>
      case Int(_) =>
      case Str(s) =>
        assert LexCmp(s, s) == 0;
    }
  }

  /** PHP 8 comparison of scalars is antisymmetric. */
  lemma {:induction false} CompareScalarsAntisymmetric(a: Scalar, b: Scalar)
    ensures CompareScalars(a, b) == -CompareScalars(b, a)
  {
    match (a, b)
    case (Str(s), Str(t)) =>
      if !(IsNumeric(s) && IsNumeric(t)) {
        LexCmpAntisymmetric(s, t);
      }
    case (_, _) =>
  }

  /**
   * With scalar operands the expected value sits on the left: `>` asks
   * whether the expected value is the greater (so expected 2 against
   * response 1 is met), and swapping the operands turns `e > r` into
   * `r < e` and `e >= r` into `r <= e`.
   */
  lemma ExpectedOnTheLeft(e: Scalar, r: Scalar)
    ensures ConditionMet(">", e, Plain(r)) == (CompareScalars(e, r) > 0)
    ensures ConditionMet("<", e, Plain(r)) == (CompareScalars(e, r) < 0)
    ensures ConditionMet(">", Int(2), Plain(Int(1))) && !ConditionMet(">", Int(1), Plain(Int(2)))
    ensures ConditionMet(">", e, Plain(r)) == ConditionMet("<", r, Plain(e))
    ensures ConditionMet(">=", e, Plain(r)) == ConditionMet("<=", r, Plain(e))
    ensures ConditionMet("==", e, Plain(r)) == ConditionMet("==", r, Plain(e))
  {
    CompareScalarsAntisymmetric(e, r);
  }

  /** On integers the ordering operators are the integer orderings. */
  lemma IntegerOperands(m: int, n: int)
    ensures ConditionMet(">", Int(m), Plain(Int(n))) == (m > n)
    ensures ConditionMet("<", Int(m), Plain(Int(n))) == (m < n)
    ensures ConditionMet(">=", Int(m), Plain(Int(n))) == (m >= n)
    ensures ConditionMet("<=", Int(m), Plain(Int(n))) == (m <= n)
    ensures ConditionMet("==", Int(m), Plain(Int(n))) == (m == n)
  {
  }

  /**
   * An integer and its decimal text are loosely equal but not identical, and
   * two numeric strings compare by value.
   */
  lemma NumericStrings(n: int)
    ensures ConditionMet("==", Str(IntToString(n)), Plain(Int(n)))
    ensures !ConditionMet("===", Str(IntToString(n)), Plain(Int(n)))
    ensures ConditionMet("==", Str("0" + IntToString(n)), Plain(Int(n))) <==> n >= 0
  {
    IntToStringRoundTrip(n);
    var s := "0" + IntToString(n);
    if n >= 0 {
      NatToStringRoundTrip(n);
      assert s[..|s| - 1] == "0" + NatToString(n)[..|NatToString(n)| - 1];
      LeadingZero(NatToString(n));
    } else {
      assert s[1] == '-';
      assert !IsNumeric(s);
      assert IsNumeric(IntToString(n));
    }
  }

  /** A leading zero does not change the value of a digit string. */
  lemma {:induction false} LeadingZero(d: string)
    requires AllDigits(d)
    ensures AllDigits("0" + d) && DigitsValue("0" + d) == DigitsValue(d)
    decreases |d|
  {
    var s := "0" + d;
    if d != [] {
      assert s[..|s| - 1] == "0" + d[..|d| - 1];
      LeadingZero(d[..|d| - 1]);
    }
  }

  /** A missing check compares as "", which is loosely equal to null but not to 0. */
  lemma EmptyStringResponse()
    ensures ConditionMet("==", Null, Plain(Str("")))
    ensures !ConditionMet("===", Null, Plain(Str("")))
    ensures !ConditionMet("==", Int(0), Plain(Str("")))
  {
    assert !IsNumeric("");
    assert IntToString(0) == "0";
  }

  /** An empty array loosely equals null; any array or object is greater than any other scalar. */
  lemma ContainerResponses(e: Scalar, fields: map<string, Scalar>)
    ensures ConditionMet("==", Null, Arr(map[]))
    ensures e != Null ==> ConditionMet("<", e, Arr(fields))
    ensures ConditionMet("<", e, Obj(fields))
  {
  }
}

/**
 * `ur_check_numeric_operator`: find the leftmost match of an optional
 * operator followed by digits in a condition string, then compare.
 */
module NumericOperator {
  import opened Wrappers
  import opened Strings

  /** PHP_INT_MAX on a 64-bit build. */
  const PhpIntMax: int := 0x7fff_ffff_ffff_ffff

  /** A match of `([<>]=?|==|!=|<=|>=)?(\d+)`: the operator group ("" when absent) and the digits. */
  datatype NumericMatch = NumericMatch(op: string, digits: string)

  /** The digits group, greedy, starting at `j`. */
  function DigitsFrom(s: string, j: nat): (d: string)
    requires j <= |s|
    ensures AllDigits(d)
  {
    s[j..DigitRunEnd(s, j)]
  }

  /** An attempt to match the pattern starting exactly at `i`, with the regex's backtracking. */
  function MatchAt(s: string, i: nat): (m: Option<NumericMatch>)
    requires i < |s|
    ensures m.Some? ==> |m.value.digits| >= 1 && AllDigits(m.value.digits)
  {
    if (s[i] == '<' || s[i] == '>') && i + 2 < |s| && s[i + 1] == '=' && IsDigit(s[i + 2]) then
      Some(NumericMatch(s[i..i + 2], DigitsFrom(s, i + 2)))
    else if (s[i] == '<' || s[i] == '>') && i + 1 < |s| && IsDigit(s[i + 1]) then
      Some(NumericMatch([s[i]], DigitsFrom(s, i + 1)))
    else if (s[i] == '=' || s[i] == '!') && i + 2 < |s| && s[i + 1] == '=' && IsDigit(s[i + 2]) then
      Some(NumericMatch(s[i..i + 2], DigitsFrom(s, i + 2)))
    else if IsDigit(s[i]) then
      Some(NumericMatch("", DigitsFrom(s, i)))
    else
      None
  }

  /** The leftmost match at or after `i` (`preg_match` keeps the first one). */
  function FindMatch(s: string, i: nat): (m: Option<NumericMatch>)
    requires i <= |s|
    ensures m.Some? ==> AllDigits(m.value.digits)
    decreases |s| - i
  {
    if i == |s| then None
    else if MatchAt(s, i).Some? then MatchAt(s, i)
    else FindMatch(s, i + 1)
  }

  predicate HasDigit(s: string)
  {
    exists k :: 0 <= k < |s| && IsDigit(s[k])
  }

  lemma {:induction false} FindMatchBeforeDigit(s: string, i: nat, k: nat)
    requires i <= k < |s| && IsDigit(s[k])
    ensures FindMatch(s, i).Some?
    decreases k - i
  {
    if MatchAt(s, i).None? {
      FindMatchBeforeDigit(s, i + 1, k);
    }
  }

  /** `(int)` of a digit string: PHP saturates at PHP_INT_MAX. */
  function ToPhpInt(n: nat): int
  {
    if n > PhpIntMax then PhpIntMax else n
  }

  /**
   * `ur_check_numeric_operator($value, $condition)`: `>`, `>=`, `<`, `<=` and
   * `!=` compare `value OP number`; no operator, or `==`, compares for
   * equality. A condition without any digit has no match, and the source then
   * reads unset capture groups, so it is excluded.
   */
  function CheckNumericOperator(value: int, condition: string): (r: bool)
    requires HasDigit(condition)
  {
    var k :| 0 <= k < |condition| && IsDigit(condition[k]);
    FindMatchBeforeDigit(condition, 0, k);
    var m := FindMatch(condition, 0).value;
    var number := ToPhpInt(DigitsValue(m.digits));
    if m.op == ">" then value > number
    else if m.op == ">=" then value >= number
    else if m.op == "<" then value < number
    else if m.op == "<=" then value <= number
    else if m.op == "!=" then value != number
    else value == number
  }

  lemma MatchOfOperatorAndDigits(op: string, d: string)
    requires op in {"", ">", ">=", "<", "<=", "==", "!="}
    requires |d| >= 1 && AllDigits(d)
    ensures FindMatch(op + d, 0) == Some(NumericMatch(op, d))
  {
    var s := op + d;
    assert s[|op|..] == d;
    assert IsDigit(s[|op|]);
    DigitRunEndOfDigits(s, |op|, |s|);
    assert DigitsFrom(s, |op|) == d;
    if |op| == 2 {
      assert s[0..2] == op;
    } else if |op| == 1 {
      assert [s[0]] == op;
    }
    assert MatchAt(s, 0) == Some(NumericMatch(op, d));
  }

  /**
   * A condition written as an operator followed by a number is read back as
   * that operator and number (saturated to PHP_INT_MAX) and compared with the
   * value on the left; no operator and `==` both mean equality.
   */
  lemma NumericConditionRoundTrip(value: int, op: string, n: nat)
    requires op in {"", ">", ">=", "<", "<=", "==", "!="}
    ensures HasDigit(op + NatToString(n))
    ensures var r := CheckNumericOperator(value, op + NatToString(n));
      && (op == ">" ==> (r <==> value > ToPhpInt(n)))
      && (op == ">=" ==> (r <==> value >= ToPhpInt(n)))
      && (op == "<" ==> (r <==> value < ToPhpInt(n)))
      && (op == "<=" ==> (r <==> value <= ToPhpInt(n)))
      && (op == "!=" ==> (r <==> value != ToPhpInt(n)))
      && (op == "" || op == "==" ==> (r <==> value == ToPhpInt(n)))
  {
    var d := NatToString(n);
    MatchOfOperatorAndDigits(op, d);
    NatToStringRoundTrip(n);
    assert HasDigit(op + d) by { assert IsDigit((op + d)[|op|]); }
  }
}
