/**
 * What the two rule evaluators share: a conditions array of key => value
 * entries with an optional `operator` entry, and the counting rule that
 * joins the outcomes of the other entries.
 */
module Conditions {

  /** Number of `true` values. */
  function Count(b: seq<bool>): nat
  {
    if b == [] then 0 else Count(b[..|b| - 1]) + if b[|b| - 1] then 1 else 0
  }

  lemma CountAppend(b: seq<bool>, x: bool)
    ensures Count(b + [x]) == Count(b) + if x then 1 else 0
  {
    assert (b + [x])[..|b|] == b;
  }

  /** `Count` is the multiplicity of `true`; the rest are `false`. */
  lemma {:induction false} CountMultiplicity(b: seq<bool>)
    ensures Count(b) == multiset(b)[true]
    ensures |b| - Count(b) == multiset(b)[false]
  {
    if b != [] {
      var p := b[..|b| - 1];
      CountMultiplicity(p);
      assert b == p + [b[|b| - 1]];
      assert multiset(b) == multiset(p) + multiset{b[|b| - 1]};
    }
  }

  /** The tally is at most the length, and reaches it exactly when nothing failed. */
  lemma CountAll(b: seq<bool>)
    ensures Count(b) <= |b|
    ensures Count(b) == |b| <==> false !in b
  {
    CountMultiplicity(b);
  }

  lemma {:induction false} CountConcat(a: seq<bool>, b: seq<bool>)
    ensures Count(a + b) == Count(a) + Count(b)
    decreases |b|
  {
    if b != [] {
      var q := b[..|b| - 1];
      assert (a + b)[..|a + b| - 1] == a + q;
      CountConcat(a, q);
    } else {
      assert a + b == a;
    }
  }

  lemma CountCons(x: bool, b: seq<bool>)
    ensures Count([x] + b) == (if x then 1 else 0) + Count(b)
  {
    CountConcat([x], b);
    assert [x][..0] == [];
  }

  /** One key => value pair of a conditions array, in array order. */
  datatype Entry<B> = Entry(key: string, body: B)

  const OperatorKey: string := "operator"

  /** PHP array keys are unique. */
  predicate KeysDistinct<B>(c: seq<Entry<B>>)
  {
    forall i, j :: 0 <= i < j < |c| ==> c[i].key != c[j].key
  }

  predicate HasOperator<B>(c: seq<Entry<B>>)
  {
    exists i :: 0 <= i < |c| && c[i].key == OperatorKey
  }

  /** Number of entries other than `operator`. */
  function Checks<B>(c: seq<Entry<B>>): nat
  {
    if c == [] then 0 else Checks(c[..|c| - 1]) + if c[|c| - 1].key != OperatorKey then 1 else 0
  }

  /** The value of the last `operator` entry, `dflt` when there is none. */
  function MainOperator<B>(c: seq<Entry<B>>, dflt: B): B
  {
    if c == [] then dflt
    else if c[|c| - 1].key == OperatorKey then c[|c| - 1].body
    else MainOperator(c[..|c| - 1], dflt)
  }

  /**
   * The counting rule: an empty array holds; under `AND` the tally must be
   * one less than the number of entries; under `OR` it must be exactly one.
   */
  predicate CountRule<B(==)>(c: seq<Entry<B>>, andOp: B, orOp: B, outcomes: seq<bool>)
  {
    || c == []
    || (MainOperator(c, andOp) == andOp && |c| - 1 == Count(outcomes))
    || (MainOperator(c, andOp) == orOp && Count(outcomes) == 1)
  }

  /** With unique keys and an `operator` entry, the checks are all entries but one, and it sets the operator. */
  lemma {:induction false} OperatorEntry<B>(c: seq<Entry<B>>, k: nat, dflt: B)
    requires KeysDistinct(c) && k < |c| && c[k].key == OperatorKey
    ensures Checks(c) == |c| - 1
    ensures MainOperator(c, dflt) == c[k].body
  {
    var p := c[..|c| - 1];
    assert forall i :: 0 <= i < |p| ==> p[i] == c[i];
    if k < |c| - 1 {
      OperatorEntry(p, k, dflt);
      assert c[|c| - 1].key != OperatorKey;
    } else {
      NoOperatorEntry(p, dflt);
    }
  }

  /** Without an `operator` entry every entry is a check and the operator is the default. */
  lemma {:induction false} NoOperatorEntry<B>(c: seq<Entry<B>>, dflt: B)
    requires !HasOperator(c)
    ensures Checks(c) == |c|
    ensures MainOperator(c, dflt) == dflt
  {
    if c != [] {
      var p := c[..|c| - 1];
      assert forall i :: 0 <= i < |p| ==> p[i] == c[i];
      NoOperatorEntry(p, dflt);
    }
  }

  /** With `operator` => AND, the rule holds exactly when every check holds. */
  lemma AndRule<B>(c: seq<Entry<B>>, andOp: B, orOp: B, outcomes: seq<bool>, k: nat)
    requires KeysDistinct(c) && k < |c| && c[k] == Entry(OperatorKey, andOp) && andOp != orOp
    requires |outcomes| == Checks(c)
    ensures CountRule(c, andOp, orOp, outcomes) <==> false !in outcomes
  {
    OperatorEntry(c, k, andOp);
    CountMultiplicity(outcomes);
  }

  /** With `operator` => OR, the rule holds exactly when one check holds: two is too many. */
  lemma OrRule<B>(c: seq<Entry<B>>, andOp: B, orOp: B, outcomes: seq<bool>, k: nat)
    requires KeysDistinct(c) && k < |c| && c[k] == Entry(OperatorKey, orOp) && orOp != andOp
    ensures CountRule(c, andOp, orOp, outcomes) <==> multiset(outcomes)[true] == 1
  {
    OperatorEntry(c, k, andOp);
    CountMultiplicity(outcomes);
  }

  /**
   * Without an `operator` entry the rule still expects one entry to be the
   * operator: it holds exactly when one check fails.
   */
  lemma NoOperatorRule<B>(c: seq<Entry<B>>, andOp: B, orOp: B, outcomes: seq<bool>)
    requires c != [] && !HasOperator(c) && |outcomes| == |c| && andOp != orOp
    ensures CountRule(c, andOp, orOp, outcomes) <==> multiset(outcomes)[false] == 1
  {
    NoOperatorEntry(c, andOp);
    CountMultiplicity(outcomes);
  }

  /** Any other operator value makes a non-empty array fail. */
  lemma OtherOperatorRule<B>(c: seq<Entry<B>>, andOp: B, orOp: B, outcomes: seq<bool>, k: nat)
    requires KeysDistinct(c) && k < |c| && c[k].key == OperatorKey
    requires c[k].body != andOp && c[k].body != orOp
    ensures !CountRule(c, andOp, orOp, outcomes)
  {
    OperatorEntry(c, k, andOp);
  }
}
