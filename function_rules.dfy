/**
 * `ur_check_all_functions`: evaluate a map of named checks, joined by an
 * optional `operator` entry, by counting the checks whose comparison holds.
 */
module FunctionRules {
  import opened Wrappers
  import opened Strings
  import opened ConditionOperator
  import opened Conditions

  /**
   * The definition array stored under a check's name. A field that is absent
   * (or, for `expected_value`, null) is `None` or `Some(Null)`.
   */
  datatype Definition = Definition(
    params: Option<string>,
    expectedValue: Option<Scalar>,
    condition: Option<string>,
    attribute: Option<string>)

  /** The value stored under a key: a plain string (as for `operator`) or a definition array. */
  datatype Body = Token(t: string) | Def(d: Definition)

  /**
   * The callable registry: `function_exists($name)` is membership and
   * `call_user_func_array($name, $params)` is application.
   */
  type Registry = map<string, seq<string> -> Value>

  /** Reading definition fields out of a string finds none of them. */
  function FieldsOf(body: Body): Definition
  {
    match body
    case Token(_) => Definition(None, None, None, None)
    case Def(d) => d
  }

  /** `isset($result[$attr])` / `isset($result->$attr)`: a present, non-null member, else "". */
  function Member(fields: map<string, Scalar>, attribute: string): Value
  {
    if attribute in fields && fields[attribute] != Null then Plain(fields[attribute]) else Plain(Str(""))
  }

  /**
   * `expected_attribute` narrows the result only when it is a non-empty array
   * or an object (an object is never empty in PHP).
   */
  function Narrow(result: Value, attribute: Option<string>): Value
  {
    if attribute.None? then result
    else match result
      case Plain(_) => result
      case Arr(fields) => if |fields| > 0 then Member(fields, attribute.value) else result
      case Obj(fields) => Member(fields, attribute.value)
  }

  /** The comparison one non-operator entry performs, with every default of the source. */
  predicate Satisfied(e: Entry<Body>, registry: Registry)
  {
    var d := FieldsOf(e.body);
    var params := if d.params.Some? then Explode(d.params.value) else [];
    var result := if e.key in registry then registry[e.key](params) else Plain(Str(""));
    var expected := if d.expectedValue.Some? && d.expectedValue.value != Null then d.expectedValue.value else Str("");
    var op := if d.condition.Some? then d.condition.value else "==";
    ConditionMet(op, expected, Narrow(result, d.attribute))
  }

  /** The outcome of each check (every entry but `operator`), in array order. */
  function Outcomes(c: seq<Entry<Body>>, registry: Registry): seq<bool>
  {
    if c == [] then []
    else
      var last := c[|c| - 1];
      Outcomes(c[..|c| - 1], registry) + if last.key != OperatorKey then [Satisfied(last, registry)] else []
  }

  /** The length of `$valid_condition`: one element per satisfied check. */
  function Tally(c: seq<Entry<Body>>, registry: Registry): nat
  {
    Count(Outcomes(c, registry))
  }

  /** The verdict rule of `ur_check_all_functions`, counting as the source does. */
  predicate FunctionsVerdict(c: seq<Entry<Body>>, registry: Registry)
  {
    CountRule(c, Token("AND"), Token("OR"), Outcomes(c, registry))
  }

  /** `ur_check_all_functions($conditions)`. */
  method CheckAllFunctions(conditions: seq<Entry<Body>>, registry: Registry) returns (valid: bool)
    ensures valid == FunctionsVerdict(conditions, registry)
    ensures conditions == [] ==> valid
  {
    valid := false;
    if conditions == [] {
      return true;
    }
    var mainOperator := Token("AND");
    var validCondition: seq<bool> := [];
    for i := 0 to |conditions|
      invariant mainOperator == MainOperator(conditions[..i], Token("AND"))
      invariant |validCondition| == Tally(conditions[..i], registry)
    {
      assert conditions[..i + 1][..i] == conditions[..i];
      var key, value := conditions[i].key, conditions[i].body;
      CountAppend(Outcomes(conditions[..i], registry), Satisfied(conditions[i], registry));
      assert Outcomes(conditions[..i + 1], registry) == Outcomes(conditions[..i], registry)
        + if key != OperatorKey then [Satisfied(conditions[i], registry)] else [];
      if key == OperatorKey {
        assert Outcomes(conditions[..i + 1], registry) == Outcomes(conditions[..i], registry);
        mainOperator := value;
      } else {
        var definition := FieldsOf(value);
        var params: seq<string> := [];
        if definition.params.Some? {
          params := Explode(definition.params.value);
        }
        var result := if key in registry then registry[key](params) else Plain(Str(""));
        var expectedValue := if definition.expectedValue.Some? && definition.expectedValue.value != Null
          then definition.expectedValue.value else Str("");
        var conditionToValidate := if definition.condition.Some? then definition.condition.value else "==";
        var responseValue := result;
        if definition.attribute.Some? {
          var attribute := definition.attribute.value;
          if result.Arr? && |result.fields| > 0 {
            responseValue := Member(result.fields, attribute);
          } else if result.Obj? {
            responseValue := Member(result.fields, attribute);
          }
        }
        assert responseValue == Narrow(result, definition.attribute);
        assert Satisfied(conditions[i], registry) == ConditionMet(conditionToValidate, expectedValue, responseValue);
        if ConditionMet(conditionToValidate, expectedValue, responseValue) {
          validCondition := validCondition + [true];
        }
      }
    }
    assert conditions[..|conditions|] == conditions;
    if mainOperator == Token("AND") && |conditions| - 1 == |validCondition| {
      valid := true;
    } else if mainOperator == Token("OR") && |validCondition| == 1 {
      valid := true;
    }
  }

  // ---------------------------------------------------------------------------
  // What the counting rule means

  lemma {:induction false} OutcomesLength(c: seq<Entry<Body>>, registry: Registry)
    ensures |Outcomes(c, registry)| == Checks(c)
  {
    if c != [] {
      OutcomesLength(c[..|c| - 1], registry);
    }
  }

  /** Without an `operator` entry, the outcomes are those of the entries one by one. */
  lemma {:induction false} NoOperatorOutcomes(c: seq<Entry<Body>>, registry: Registry)
    requires !HasOperator(c)
    ensures |Outcomes(c, registry)| == |c|
    ensures forall i :: 0 <= i < |c| ==> Outcomes(c, registry)[i] == Satisfied(c[i], registry)
  {
    if c != [] {
      var p := c[..|c| - 1];
      assert forall i :: 0 <= i < |p| ==> p[i] == c[i];
      NoOperatorOutcomes(p, registry);
    }
  }

  /** The empty conditions array is vacuously satisfied. */
  lemma EmptyConditions(registry: Registry)
    ensures FunctionsVerdict([], registry)
  {
  }

  /** With an explicit `operator` => `AND`, the verdict holds exactly when every check holds. */
  lemma AndVerdict(c: seq<Entry<Body>>, registry: Registry, k: nat)
    requires KeysDistinct(c) && k < |c| && c[k] == Entry(OperatorKey, Token("AND"))
    ensures FunctionsVerdict(c, registry) <==> false !in Outcomes(c, registry)
  {
    OutcomesLength(c, registry);
    AndRule(c, Token("AND"), Token("OR"), Outcomes(c, registry), k);
  }

  /**
   * Without an `operator` entry the count rule still expects one entry to be
   * the operator: the verdict holds exactly when one check fails, so a
   * non-empty array whose checks all hold is false.
   */
  lemma NoOperatorVerdict(c: seq<Entry<Body>>, registry: Registry)
    requires c != [] && !HasOperator(c)
    ensures FunctionsVerdict(c, registry) <==> multiset(Outcomes(c, registry))[false] == 1
    ensures false !in Outcomes(c, registry) ==> !FunctionsVerdict(c, registry)
  {
    NoOperatorOutcomes(c, registry);
    NoOperatorRule(c, Token("AND"), Token("OR"), Outcomes(c, registry));
  }

  /** With `operator` => `OR`, the verdict holds exactly when one check holds: two is false. */
  lemma OrVerdict(c: seq<Entry<Body>>, registry: Registry, k: nat)
    requires KeysDistinct(c) && k < |c| && c[k] == Entry(OperatorKey, Token("OR"))
    ensures FunctionsVerdict(c, registry) <==> multiset(Outcomes(c, registry))[true] == 1
  {
    OrRule(c, Token("AND"), Token("OR"), Outcomes(c, registry), k);
  }

  /** Any other operator value makes a non-empty array false. */
  lemma OtherOperatorVerdict(c: seq<Entry<Body>>, registry: Registry, k: nat)
    requires KeysDistinct(c) && k < |c| && c[k].key == OperatorKey
    requires c[k].body != Token("AND") && c[k].body != Token("OR")
    ensures !FunctionsVerdict(c, registry)
  {
    OtherOperatorRule(c, Token("AND"), Token("OR"), Outcomes(c, registry), k);
  }

  /**
   * A name with no registered function is compared as "", so with the default
   * operator and no expected value it holds, and against any other expected
   * string it fails.
   */
  lemma MissingFunction(name: string, d: Definition, registry: Registry)
    requires name !in registry && name != OperatorKey
    requires d.condition.None? && d.attribute.None?
    ensures d.expectedValue.None? ==> Satisfied(Entry(name, Def(d)), registry)
    ensures (d.expectedValue.Some? && d.expectedValue.value.Str? && d.expectedValue.value.s != "")
            ==> !Satisfied(Entry(name, Def(d)), registry)
  {
    if d.expectedValue.Some? && d.expectedValue.value.Str? && d.expectedValue.value.s != "" {
      var s := d.expectedValue.value.s;
      assert !IsNumeric("");
      assert LexCmp(s, "") != 0;
    }
  }

  /** The attribute narrows only a non-empty array or an object; anything else is compared whole. */
  lemma NarrowOnlyContainers(result: Value, attribute: string)
    ensures Narrow(result, Some(attribute)) != result ==> result.Obj? || (result.Arr? && |result.fields| > 0)
    ensures result.Obj? || (result.Arr? && |result.fields| > 0) ==>
      Narrow(result, Some(attribute)) == Plain(
        if attribute in result.fields && result.fields[attribute] != Null then result.fields[attribute] else Str(""))
  {
  }
}
