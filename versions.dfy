/**
 * Version constraints of the product checks: a constraint such as `>=1.2.0`
 * is read with the pattern `([<>!=]=?)(\d+(\.\d+)+)` (leftmost match), and
 * versions are compared the way PHP's `version_compare` compares purely
 * numeric dotted versions.
 */
module Versions {
  import opened Wrappers
  import opened Strings

  /** A purely numeric dotted version, one number per component. */
  type Version = seq<nat>

  /** A shorter version that is a prefix of a longer one is older (`1.2` < `1.2.0`). */
  lemma {:induction false} PrefixIsOlder(a: Version, b: Version)
    requires |a| < |b| && a == b[..|a|]
    ensures SeqCmp(a, b) == -1
    decreases |a|
  {
    if a != [] {
      assert a[1..] == b[1..][..|a| - 1];
      PrefixIsOlder(a[1..], b[1..]);
    }
  }

  /**
   * The operators `version_compare` accepts among those the pattern can
   * capture: all but a lone `!`.
   */
  predicate ValidOperator(op: string)
  {
    op in {"<", "<=", ">", ">=", "==", "=", "!="}
  }

  /**
   * `version_compare($installed, $required, $op)`: installed on the left,
   * compared component by component, a proper prefix being older.
   */
  predicate VersionCompare(installed: Version, required: Version, op: string)
    requires ValidOperator(op)
  {
    var c := SeqCmp(installed, required);
    if op == "<" then c < 0
    else if op == "<=" then c <= 0
    else if op == ">" then c > 0
    else if op == ">=" then c >= 0
    else if op == "==" || op == "=" then c == 0
    else c != 0
  }

  /**
   * `=` and `==` both mean equality and `!=` its negation; swapping the
   * operands turns `<` into `>` and `<=` into `>=`.
   */
  lemma VersionOperators(a: Version, b: Version)
    ensures VersionCompare(a, b, "=") == VersionCompare(a, b, "==") == (a == b)
    ensures VersionCompare(a, b, "!=") == (a != b)
    ensures VersionCompare(a, b, "<") == VersionCompare(b, a, ">")
    ensures VersionCompare(a, b, "<=") == VersionCompare(b, a, ">=")
  {
    SeqCmpAntisymmetric(a, b);
  }

  /** A constraint as the pattern captures it: the operator group and the version group. */
  datatype Constraint = Constraint(op: string, version: Version)

  /** `(\.\d+)*`, greedy, from `k`: the numbers of the groups and where they end. */
  function DotGroups(s: string, k: nat): (g: (seq<nat>, nat))
    requires k <= |s|
    ensures k <= g.1 <= |s|
    ensures g.0 == [] <==> g.1 == k
    decreases |s| - k
  {
    if k + 1 < |s| && s[k] == '.' && IsDigit(s[k + 1]) then
      var e := DigitRunEnd(s, k + 1);
      var rest := DotGroups(s, e);
      ([DigitsValue(s[k + 1..e])] + rest.0, rest.1)
    else ([], k)
  }

  /** `\d+(\.\d+)+` starting exactly at `j`. */
  function DottedAt(s: string, j: nat): (v: Option<Version>)
    requires j <= |s|
    ensures v.Some? ==> |v.value| >= 2
  {
    if j < |s| && IsDigit(s[j]) then
      var e := DigitRunEnd(s, j);
      var g := DotGroups(s, e);
      if g.0 != [] then Some([DigitsValue(s[j..e])] + g.0) else None
    else None
  }

  /** `([<>!=]=?)` followed by a dotted version, starting exactly at `i`. */
  function ConstraintAt(s: string, i: nat): Option<Constraint>
    requires i < |s|
  {
    if s[i] in "<>!=" then
      if i + 1 < |s| && s[i + 1] == '=' && DottedAt(s, i + 2).Some? then
        Some(Constraint(s[i..i + 2], DottedAt(s, i + 2).value))
      else if DottedAt(s, i + 1).Some? then
        Some(Constraint([s[i]], DottedAt(s, i + 1).value))
      else None
    else None
  }

  /** The leftmost match at or after `i`. */
  function FindConstraint(s: string, i: nat): Option<Constraint>
    requires i <= |s|
    decreases |s| - i
  {
    if i == |s| then None
    else if ConstraintAt(s, i).Some? then ConstraintAt(s, i)
    else FindConstraint(s, i + 1)
  }

  /** `preg_match('/([<>!=]=?)(\d+(\.\d+)+)/', $constraint, $matches)`. */
  function ParseConstraint(s: string): Option<Constraint>
  {
    FindConstraint(s, 0)
  }

  /**
   * A constraint the evaluator can use: the pattern matches and its operator
   * is one `version_compare` accepts.
   */
  predicate ReadableConstraint(s: string)
  {
    ParseConstraint(s).Some? && ValidOperator(ParseConstraint(s).value.op)
  }

  /** An installed version string read as a whole: `\d+(\.\d+)*`. */
  function ParseVersion(s: string): Option<Version>
  {
    if |s| > 0 && IsDigit(s[0]) then
      var e := DigitRunEnd(s, 0);
      var g := DotGroups(s, e);
      if g.1 == |s| then Some([DigitsValue(s[..e])] + g.0) else None
    else None
  }

  /** The text of a version: its numbers joined by dots. */
  function RenderVersion(v: Version): string
    requires |v| >= 1
  {
    NatToString(v[0]) + RenderGroups(v[1..])
  }

  function RenderGroups(v: seq<nat>): string
  {
    if v == [] then "" else "." + NatToString(v[0]) + RenderGroups(v[1..])
  }

  lemma HeadTail(v: seq<nat>)
    requires |v| >= 1
    ensures [v[0]] + v[1..] == v
  {
  }

  /** One `\.\d+` group: a dot, then a digit run that stops where the next group starts. */
  lemma OneGroup(p: string, d: string, rest: string)
    requires |d| >= 1 && AllDigits(d)
    requires rest == [] || rest[0] == '.'
    ensures var s := p + "." + d + rest;
      && |p| + 1 < |s| && s[|p|] == '.' && IsDigit(s[|p| + 1])
      && DigitRunEnd(s, |p| + 1) == |p| + 1 + |d|
      && s[|p| + 1..|p| + 1 + |d|] == d
  {
    var s := p + "." + d + rest;
    var e := |p| + 1 + |d|;
    assert s[|p| + 1..e] == d;
    assert s[|p| + 1] == d[0];
    if e < |s| {
      assert s[e] == rest[0];
    }
    DigitRunEndOfDigits(s, |p| + 1, e);
  }

  lemma {:induction false} DotGroupsOfRender(p: string, v: seq<nat>)
    ensures DotGroups(p + RenderGroups(v), |p|) == (v, |p + RenderGroups(v)|)
    decreases |v|
  {
    if v == [] {
      assert p + RenderGroups(v) == p;
    } else {
      var d := NatToString(v[0]);
      var rest := RenderGroups(v[1..]);
      var s := p + RenderGroups(v);
      var q := p + "." + d;
      assert s == p + "." + d + rest;
      assert q + rest == s;
      OneGroup(p, d, rest);
      NatToStringRoundTrip(v[0]);
      DotGroupsOfRender(q, v[1..]);
      assert DotGroups(s, |q|) == (v[1..], |s|);
      HeadTail(v);
    }
  }

  lemma DigitRunOfRender(p: string, v: Version)
    requires |v| >= 1
    ensures var s := p + RenderVersion(v);
      var e := |p| + |NatToString(v[0])|;
      e <= |s| && DigitRunEnd(s, |p|) == e && s[|p|..e] == NatToString(v[0])
      && s == (p + NatToString(v[0])) + RenderGroups(v[1..])
  {
    var d := NatToString(v[0]);
    var s := p + RenderVersion(v);
    var e := |p| + |d|;
    assert s == (p + d) + RenderGroups(v[1..]);
    assert s[|p|..e] == d;
    if e < |s| {
      assert s[e] == '.';
    }
    DigitRunEndOfDigits(s, |p|, e);
  }

  /** Reading back the text of a version gives the version. */
  lemma ParseRenderedVersion(v: Version)
    requires |v| >= 1
    ensures ParseVersion(RenderVersion(v)) == Some(v)
  {
    var s := RenderVersion(v);
    var d := NatToString(v[0]);
    DigitRunOfRender("", v);
    assert "" + s == s;
    assert DigitRunEnd(s, 0) == |d| && s[..|d|] == d;
    assert IsDigit(s[0]) by { assert s[0] == d[0]; }
    DotGroupsOfRender(d, v[1..]);
    assert DotGroups(s, |d|) == (v[1..], |s|);
    NatToStringRoundTrip(v[0]);
    HeadTail(v);
  }

  lemma DottedAtOfRender(p: string, v: Version)
    requires |v| >= 2
    ensures DottedAt(p + RenderVersion(v), |p|) == Some(v)
  {
    var s := p + RenderVersion(v);
    var d := NatToString(v[0]);
    DigitRunOfRender(p, v);
    DotGroupsOfRender(p + d, v[1..]);
    NatToStringRoundTrip(v[0]);
    assert IsDigit(s[|p|]) by { assert s[|p|] == d[0]; }
    HeadTail(v);
  }

  /**
   * A constraint written as a valid operator followed by a version of at
   * least two components is read back as that operator and version.
   */
  lemma ParseRenderedConstraint(op: string, v: Version)
    requires ValidOperator(op) && |v| >= 2
    ensures ParseConstraint(op + RenderVersion(v)) == Some(Constraint(op, v))
  {
    var r := RenderVersion(v);
    var s := op + r;
    DottedAtOfRender(op, v);
    assert IsDigit(r[0]);
    if |op| == 2 {
      assert s[0..2] == op && s[1] == '=';
    } else {
      assert [s[0]] == op && s[1] == r[0];
      assert s[1] != '=';
    }
    assert ConstraintAt(s, 0) == Some(Constraint(op, v));
  }

  /** Installed 1.3.0 satisfies `>=1.2.0`; installed 1.1.0 does not. */
  lemma ConstraintExample()
    ensures ParseConstraint(">=" + RenderVersion([1, 2, 0])) == Some(Constraint(">=", [1, 2, 0]))
    ensures VersionCompare([1, 3, 0], [1, 2, 0], ">=")
    ensures !VersionCompare([1, 1, 0], [1, 2, 0], ">=")
  {
    ParseRenderedConstraint(">=", [1, 2, 0]);
  }
}
