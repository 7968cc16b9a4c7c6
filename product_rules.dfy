/**
 * `ur_check_products_version` and `get_plugin_version`: version constraints
 * on installed plugins (a sub-tree with its own AND/OR operator) and themes
 * (satisfied by the first theme that meets its constraint), tallied per key
 * and joined by the top-level `operator` as in the function checks.
 */
module ProductRules {
  import opened Wrappers
  import opened Strings
  import opened Versions
  import opened Conditions

  /** One entry of `get_plugins()`: the plugin's file path and its Version header. */
  datatype PluginInfo = PluginInfo(file: string, version: string)

  /** Installed plugins, in `get_plugins()` order, and installed themes (slug => Version header). */
  datatype Site = Site(plugins: seq<PluginInfo>, themes: map<string, string>)

  /** The value stored under a key: a string (as for `operator`) or a slug => constraint table. */
  datatype ProductBody = Token(t: string) | Table(entries: seq<(string, string)>)

  // ---------------------------------------------------------------------------
  // Looking up installed versions

  /** The Version header of the first plugin whose file path contains the slug. */
  function PluginVersion(plugins: seq<PluginInfo>, slug: string): (r: Option<string>)
    ensures r.Some? ==> exists i :: 0 <= i < |plugins| && r.value == plugins[i].version
  {
    if plugins == [] then None
    else if Contains(plugins[0].file, slug) then Some(plugins[0].version)
    else
      var r := PluginVersion(plugins[1..], slug);
      assert r.Some? ==> exists i :: 0 <= i < |plugins| && r.value == plugins[i].version by {
        if r.Some? {
          var i :| 0 <= i < |plugins[1..]| && r.value == plugins[1..][i].version;
          assert r.value == plugins[i + 1].version;
        }
      }
      r
  }

  /** The slug lookup finds the first plugin file that contains the slug, and `false` when none does. */
  lemma {:induction false} PluginVersionFirstMatch(plugins: seq<PluginInfo>, slug: string)
    ensures PluginVersion(plugins, slug).None? <==>
      forall i :: 0 <= i < |plugins| ==> !Contains(plugins[i].file, slug)
    ensures PluginVersion(plugins, slug).Some? ==>
      exists i :: 0 <= i < |plugins| && Contains(plugins[i].file, slug)
        && PluginVersion(plugins, slug).value == plugins[i].version
        && forall j :: 0 <= j < i ==> !Contains(plugins[j].file, slug)
  {
    if plugins != [] && !Contains(plugins[0].file, slug) {
      var rest := plugins[1..];
      PluginVersionFirstMatch(rest, slug);
      assert forall i :: 0 <= i < |rest| ==> rest[i] == plugins[i + 1];
      if PluginVersion(rest, slug).Some? {
        var i :| 0 <= i < |rest| && Contains(rest[i].file, slug)
          && PluginVersion(rest, slug).value == rest[i].version
          && forall j :: 0 <= j < i ==> !Contains(rest[j].file, slug);
        assert Contains(plugins[i + 1].file, slug);
        assert forall j :: 0 <= j < i + 1 ==> !Contains(plugins[j].file, slug) by {
          forall j | 0 <= j < i + 1 ensures !Contains(plugins[j].file, slug) {
            if j > 0 { assert plugins[j] == rest[j - 1]; }
          }
        }
      } else {
        assert forall i :: 0 <= i < |plugins| ==> !Contains(plugins[i].file, slug) by {
          forall i | 0 <= i < |plugins| ensures !Contains(plugins[i].file, slug) {
            if i > 0 { assert plugins[i] == rest[i - 1]; }
          }
        }
      }
    }
  }

  /** `get_plugin_version($plugin_slug)`: scan the installed plugins, return on the first match. */
  method GetPluginVersion(plugins: seq<PluginInfo>, slug: string) returns (r: Option<string>)
    ensures r == PluginVersion(plugins, slug)
  {
    for i := 0 to |plugins|
      invariant PluginVersion(plugins[i..], slug) == PluginVersion(plugins, slug)
    {
      assert plugins[i..][1..] == plugins[i + 1..];
      if Contains(plugins[i].file, slug) {
        return Some(plugins[i].version);
      }
    }
    return None;
  }

  /** The installed theme's Version header, or `false` when no such theme exists. */
  function ThemeVersion(site: Site, slug: string): Option<string>
  {
    if slug in site.themes then Some(site.themes[slug]) else None
  }

  // ---------------------------------------------------------------------------
  // One constraint

  /** `empty($version)`: `false`, "" and "0" are empty. */
  predicate EmptyVersion(v: Option<string>)
  {
    v.None? || v.value == "" || v.value == "0"
  }

  /** A Version header the model reads: empty, or a purely numeric dotted version. */
  predicate ReadableVersion(v: string)
  {
    v == "" || ParseVersion(v).Some?
  }

  predicate ReadableSite(site: Site)
  {
    && (forall i :: 0 <= i < |site.plugins| ==> ReadableVersion(site.plugins[i].version))
    && (forall t :: t in site.themes ==> ReadableVersion(site.themes[t]))
  }

  /**
   * An installed version meets a constraint: it is not empty and
   * `version_compare(installed, required, op)` holds, installed on the left.
   */
  predicate Meets(installed: Option<string>, constraint: string)
    requires installed.Some? ==> ReadableVersion(installed.value)
    requires ReadableConstraint(constraint)
  {
    var k := ParseConstraint(constraint).value;
    !EmptyVersion(installed) && VersionCompare(ParseVersion(installed.value).value, k.version, k.op)
  }

  predicate PluginMeets(site: Site, slug: string, constraint: string)
    requires ReadableSite(site) && ReadableConstraint(constraint)
  {
    Meets(PluginVersion(site.plugins, slug), constraint)
  }

  predicate ThemeMeets(site: Site, slug: string, constraint: string)
    requires ReadableSite(site) && ReadableConstraint(constraint)
  {
    Meets(ThemeVersion(site, slug), constraint)
  }

  /** A plugin or theme that is missing, or whose version is empty, never meets its constraint. */
  lemma MissingNeverMeets(site: Site, slug: string, constraint: string)
    requires ReadableSite(site) && ReadableConstraint(constraint)
    ensures EmptyVersion(PluginVersion(site.plugins, slug)) ==> !PluginMeets(site, slug, constraint)
    ensures EmptyVersion(ThemeVersion(site, slug)) ==> !ThemeMeets(site, slug, constraint)
  {
  }

  /** With a readable installed version, meeting a constraint is the version comparison it names. */
  lemma MeetsRendered(installed: Version, op: string, required: Version)
    requires |installed| >= 1 && ValidOperator(op) && |required| >= 2
    requires installed != [0]
    ensures ReadableVersion(RenderVersion(installed)) && ReadableConstraint(op + RenderVersion(required))
    ensures Meets(Some(RenderVersion(installed)), op + RenderVersion(required))
            == VersionCompare(installed, required, op)
  {
    ParseRenderedVersion(installed);
    ParseRenderedConstraint(op, required);
  }

  // ---------------------------------------------------------------------------
  // The `plugins` sub-tree

  /** Readable constraints for every entry the scan compares. */
  predicate ReadablePlugins(entries: seq<(string, string)>)
  {
    forall i :: 0 <= i < |entries| && entries[i].0 != OperatorKey ==> ReadableConstraint(entries[i].1)
  }

  predicate ReadableThemes(entries: seq<(string, string)>)
  {
    forall i :: 0 <= i < |entries| ==> ReadableConstraint(entries[i].1)
  }

  /**
   * Whether the plugin of one `plugins` entry meets its constraint. A
   * constraint the evaluator cannot read counts as not met here; the methods
   * that run the scan require every constraint to be readable.
   */
  predicate EntryMeets(site: Site, e: (string, string))
    requires ReadableSite(site)
  {
    ReadableConstraint(e.1) && PluginMeets(site, e.0, e.1)
  }

  /**
   * The scan over a `plugins` table from a given sub-operator and tally: an
   * `operator` entry changes the sub-operator; a met constraint under `OR` is
   * tallied and stops the scan; under `AND` it is tallied and the scan goes
   * on. Result: the final sub-operator and tally.
   */
  function ScanPlugins(entries: seq<(string, string)>, site: Site, subOp: string, tally: nat): (string, nat)
    requires ReadableSite(site)
    decreases |entries|
  {
    if entries == [] then (subOp, tally)
    else if entries[0].0 == OperatorKey then ScanPlugins(entries[1..], site, entries[0].1, tally)
    else
      var ok := EntryMeets(site, entries[0]);
      if ok && subOp == "OR" then (subOp, tally + 1)
      else if ok && subOp == "AND" then ScanPlugins(entries[1..], site, subOp, tally + 1)
      else ScanPlugins(entries[1..], site, subOp, tally)
  }

  /** The verdict of a `plugins` table, counted as the source does: `count($value) - 1` under AND. */
  predicate PluginsHold(entries: seq<(string, string)>, site: Site)
    requires ReadableSite(site)
  {
    var r := ScanPlugins(entries, site, "AND", 0);
    (r.0 == "AND" && |entries| - 1 == r.1) || (r.0 == "OR" && r.1 == 1)
  }

  /** Whether some theme of a `themes` table meets its constraint. */
  predicate ThemesHit(entries: seq<(string, string)>, site: Site)
    requires ReadableSite(site) && ReadableThemes(entries)
  {
    exists i :: 0 <= i < |entries| && ThemeMeets(site, entries[i].0, entries[i].1)
  }

  /** The outcome of each plugin constraint (every entry but `operator`), in table order. */
  function PluginOutcomes(entries: seq<(string, string)>, site: Site): seq<bool>
    requires ReadableSite(site)
  {
    if entries == [] then []
    else
      (if entries[0].0 != OperatorKey then [EntryMeets(site, entries[0])] else [])
        + PluginOutcomes(entries[1..], site)
  }

  /** A table without an `operator` entry. */
  predicate NoSubOperator(entries: seq<(string, string)>)
  {
    forall i :: 0 <= i < |entries| ==> entries[i].0 != OperatorKey
  }

  /** Some plugin of the table meets its constraint. */
  predicate PluginHit(entries: seq<(string, string)>, site: Site)
    requires ReadableSite(site)
  {
    exists i :: 0 <= i < |entries| && entries[i].0 != OperatorKey && EntryMeets(site, entries[i])
  }

  lemma {:induction false} PluginOutcomesLength(entries: seq<(string, string)>, site: Site)
    requires ReadableSite(site) && NoSubOperator(entries)
    ensures |PluginOutcomes(entries, site)| == |entries|
  {
    if entries != [] {
      assert entries[0].0 != OperatorKey;
      assert forall i :: 0 <= i < |entries| - 1 ==> entries[1..][i] == entries[i + 1];
      PluginOutcomesLength(entries[1..], site);
    }
  }

  /** One plugin entry under `AND`: tallied if met, and the scan goes on. */
  lemma ScanAndStep(entries: seq<(string, string)>, site: Site, t: nat)
    requires ReadableSite(site) && entries != [] && entries[0].0 != OperatorKey
    ensures PluginOutcomes(entries, site) == [EntryMeets(site, entries[0])] + PluginOutcomes(entries[1..], site)
    ensures ScanPlugins(entries, site, "AND", t)
         == ScanPlugins(entries[1..], site, "AND", t + if EntryMeets(site, entries[0]) then 1 else 0)
  {
    assert forall i :: 0 <= i < |entries| - 1 ==> entries[1..][i] == entries[i + 1];
  }

  /** The first plugin entry of a stretch under `AND`, peeled off the scan and the count. */
  lemma ScanAndCons(pre: seq<(string, string)>, rest: seq<(string, string)>, site: Site, t: nat) returns (b: nat)
    requires ReadableSite(site) && NoSubOperator(pre) && pre != []
    ensures NoSubOperator(pre[1..])
    ensures b == if EntryMeets(site, pre[0]) then 1 else 0
    ensures Count(PluginOutcomes(pre, site)) == b + Count(PluginOutcomes(pre[1..], site))
    ensures ScanPlugins(pre + rest, site, "AND", t) == ScanPlugins(pre[1..] + rest, site, "AND", t + b)
  {
    b := if EntryMeets(site, pre[0]) then 1 else 0;
    var e := pre + rest;
    assert e[0] == pre[0] && e[1..] == pre[1..] + rest;
    assert NoSubOperator(pre[1..]) by {
      assert forall i :: 0 <= i < |pre| - 1 ==> pre[1..][i] == pre[i + 1];
    }
    ScanAndStep(e, site, t);
    ScanAndStep(pre, site, t);
    CountCons(EntryMeets(site, pre[0]), PluginOutcomes(pre[1..], site));
  }

  /**
   * Under `AND` the scan never stops early: across a stretch without an
   * `operator` entry it adds one per met constraint.
   */
  lemma {:induction false} ScanUnderAnd(pre: seq<(string, string)>, rest: seq<(string, string)>, site: Site, t: nat)
    requires ReadableSite(site) && NoSubOperator(pre)
    ensures ScanPlugins(pre + rest, site, "AND", t) == ScanPlugins(rest, site, "AND", t + Count(PluginOutcomes(pre, site)))
    decreases |pre|
  {
    if pre == [] {
      assert pre + rest == rest;
    } else {
      var tail := pre[1..];
      var b := ScanAndCons(pre, rest, site, t);
      ScanUnderAnd(tail, rest, site, t + b);
    }
  }

  /** Some plugin of a table without `operator` meets its constraint: the first one, or one of the rest. */
  lemma PluginHitCons(entries: seq<(string, string)>, site: Site)
    requires ReadableSite(site) && NoSubOperator(entries) && entries != []
    ensures PluginHit(entries, site) == (EntryMeets(site, entries[0]) || PluginHit(entries[1..], site))
  {
    var rest := entries[1..];
    assert forall i :: 0 <= i < |rest| ==> rest[i] == entries[i + 1];
    if PluginHit(rest, site) {
      var i :| 0 <= i < |rest| && rest[i].0 != OperatorKey && EntryMeets(site, rest[i]);
      assert entries[i + 1] == rest[i];
    }
    if PluginHit(entries, site) && !EntryMeets(site, entries[0]) {
      var i :| 0 <= i < |entries| && entries[i].0 != OperatorKey && EntryMeets(site, entries[i]);
      assert i > 0 && rest[i - 1] == entries[i];
    }
  }

  /** Under `OR`, across a stretch without an `operator` entry, the scan adds one if some constraint is met. */
  lemma {:induction false} ScanUnderOr(entries: seq<(string, string)>, site: Site, t: nat)
    requires ReadableSite(site) && NoSubOperator(entries)
    ensures ScanPlugins(entries, site, "OR", t) == ("OR", t + if PluginHit(entries, site) then 1 else 0)
  {
    if entries != [] {
      var rest := entries[1..];
      PluginHitCons(entries, site);
      assert entries[0].0 != OperatorKey;
      if !EntryMeets(site, entries[0]) {
        assert NoSubOperator(rest) by {
          assert forall i :: 0 <= i < |rest| ==> rest[i] == entries[i + 1];
        }
        ScanUnderOr(rest, site, t);
        assert ScanPlugins(entries, site, "OR", t) == ScanPlugins(rest, site, "OR", t);
      }
    }
  }

  /** Under any other sub-operator nothing is tallied and the table fails. */
  lemma {:induction false} ScanUnderOther(entries: seq<(string, string)>, site: Site, subOp: string, t: nat)
    requires ReadableSite(site) && NoSubOperator(entries)
    requires subOp != "AND" && subOp != "OR"
    ensures ScanPlugins(entries, site, subOp, t) == (subOp, t)
  {
    if entries != [] {
      assert entries[0].0 != OperatorKey;
      assert forall i :: 0 <= i < |entries| - 1 ==> entries[1..][i] == entries[i + 1];
      ScanUnderOther(entries[1..], site, subOp, t);
    }
  }

  /** The operator entry hands the scan over to its sub-operator, with the tally so far. */
  lemma OperatorHandover(pre: seq<(string, string)>, op: string, post: seq<(string, string)>, site: Site)
    requires ReadableSite(site)
    requires NoSubOperator(pre)
    ensures ScanPlugins(pre + [(OperatorKey, op)] + post, site, "AND", 0)
         == ScanPlugins(post, site, op, Count(PluginOutcomes(pre, site)))
  {
    var rest := [(OperatorKey, op)] + post;
    var c := Count(PluginOutcomes(pre, site));
    assert pre + [(OperatorKey, op)] + post == pre + rest;
    ScanUnderAnd(pre, rest, site, 0);
    assert rest[0] == (OperatorKey, op) && rest[1..] == post;
    assert ScanPlugins(rest, site, "AND", c) == ScanPlugins(post, site, op, c);
  }

  /** Without an `operator` entry a non-empty table holds exactly when one constraint fails. */
  lemma PluginsNoOperatorVerdict(entries: seq<(string, string)>, site: Site)
    requires ReadableSite(site) && NoSubOperator(entries) && entries != []
    ensures PluginsHold(entries, site) <==> multiset(PluginOutcomes(entries, site))[false] == 1
  {
    ScanUnderAnd(entries, [], site, 0);
    assert entries + [] == entries;
    PluginOutcomesLength(entries, site);
    CountMultiplicity(PluginOutcomes(entries, site));
  }

  /** With a sub-operator `AND`, the table holds exactly when every plugin meets its constraint. */
  lemma PluginsAndVerdict(pre: seq<(string, string)>, post: seq<(string, string)>, site: Site)
    requires ReadableSite(site)
    requires NoSubOperator(pre) && NoSubOperator(post)
    ensures PluginsHold(pre + [(OperatorKey, "AND")] + post, site)
        <==> false !in PluginOutcomes(pre, site) && false !in PluginOutcomes(post, site)
  {
    var entries := pre + [(OperatorKey, "AND")] + post;
    OperatorHandover(pre, "AND", post, site);
    var a, b := PluginOutcomes(pre, site), PluginOutcomes(post, site);
    ScanUnderAnd(post, [], site, Count(a));
    assert post + [] == post;
    assert ScanPlugins(entries, site, "AND", 0) == ("AND", Count(a) + Count(b));
    assert |entries| - 1 == |pre| + |post|;
    PluginOutcomesLength(pre, site);
    PluginOutcomesLength(post, site);
    CountAll(a);
    CountAll(b);
  }

  /**
   * With a sub-operator `OR`, the constraints before the `operator` entry are
   * still tallied under `AND`: the table holds exactly when those met, plus
   * one if some later constraint is met, make one.
   */
  lemma PluginsOrVerdict(pre: seq<(string, string)>, post: seq<(string, string)>, site: Site)
    requires ReadableSite(site)
    requires NoSubOperator(pre) && NoSubOperator(post)
    ensures PluginsHold(pre + [(OperatorKey, "OR")] + post, site)
        <==> Count(PluginOutcomes(pre, site)) + (if PluginHit(post, site) then 1 else 0) == 1
    ensures pre == [] ==> (PluginsHold([(OperatorKey, "OR")] + post, site) <==> PluginHit(post, site))
  {
    OperatorHandover(pre, "OR", post, site);
    ScanUnderOr(post, site, Count(PluginOutcomes(pre, site)));
    if pre == [] {
      assert pre + [(OperatorKey, "OR")] + post == [(OperatorKey, "OR")] + post;
    }
  }

  /** Any other sub-operator makes the table fail. */
  lemma PluginsOtherVerdict(pre: seq<(string, string)>, op: string, post: seq<(string, string)>, site: Site)
    requires ReadableSite(site)
    requires NoSubOperator(pre) && NoSubOperator(post) && op != "AND" && op != "OR"
    ensures !PluginsHold(pre + [(OperatorKey, op)] + post, site)
  {
    OperatorHandover(pre, op, post, site);
    ScanUnderOther(post, site, op, Count(PluginOutcomes(pre, site)));
  }

  // ---------------------------------------------------------------------------
  // The top level

  predicate ReadableConditions(c: seq<Entry<ProductBody>>)
  {
    forall i :: 0 <= i < |c| ==>
      && (c[i].key == "plugins" ==> c[i].body.Table? && ReadablePlugins(c[i].body.entries))
      && (c[i].key == "themes" ==> c[i].body.Table? && ReadableThemes(c[i].body.entries))
  }

  /** Whether one top-level key adds a tally: only `plugins` and `themes` can. */
  predicate KeyHolds(e: Entry<ProductBody>, site: Site)
    requires ReadableSite(site)
    requires e.key == "plugins" ==> e.body.Table? && ReadablePlugins(e.body.entries)
    requires e.key == "themes" ==> e.body.Table? && ReadableThemes(e.body.entries)
  {
    if e.key == "plugins" then PluginsHold(e.body.entries, site)
    else if e.key == "themes" then ThemesHit(e.body.entries, site)
    else false
  }

  /** The outcome of each key other than `operator`, in array order. */
  function Outcomes(c: seq<Entry<ProductBody>>, site: Site): seq<bool>
    requires ReadableSite(site) && ReadableConditions(c)
  {
    if c == [] then []
    else
      var last := c[|c| - 1];
      assert ReadableConditions(c[..|c| - 1]) by {
        assert forall i :: 0 <= i < |c| - 1 ==> c[..|c| - 1][i] == c[i];
      }
      Outcomes(c[..|c| - 1], site) + if last.key != OperatorKey then [KeyHolds(last, site)] else []
  }

  /** The verdict rule of `ur_check_products_version`. */
  predicate ProductsVerdict(c: seq<Entry<ProductBody>>, site: Site)
    requires ReadableSite(site) && ReadableConditions(c)
  {
    CountRule(c, Token("AND"), Token("OR"), Outcomes(c, site))
  }

  /** An `operator` entry at position `j` hands the scan its value as the sub-operator. */
  lemma ScanAtOperator(entries: seq<(string, string)>, j: nat, site: Site, subOp: string, t: nat)
    requires ReadableSite(site) && j < |entries| && entries[j].0 == OperatorKey
    ensures ScanPlugins(entries[j..], site, subOp, t) == ScanPlugins(entries[j + 1..], site, entries[j].1, t)
  {
    assert entries[j..][1..] == entries[j + 1..];
  }

  /** A plugin entry at position `j`: tallied if met under `AND` or `OR`, and the scan stops after a tally under `OR`. */
  lemma ScanAtPlugin(entries: seq<(string, string)>, j: nat, site: Site, subOp: string, t: nat)
    requires ReadableSite(site) && j < |entries| && entries[j].0 != OperatorKey
    ensures EntryMeets(site, entries[j]) && subOp == "OR" ==> ScanPlugins(entries[j..], site, subOp, t) == (subOp, t + 1)
    ensures EntryMeets(site, entries[j]) && subOp == "AND" ==>
      ScanPlugins(entries[j..], site, subOp, t) == ScanPlugins(entries[j + 1..], site, subOp, t + 1)
    ensures !EntryMeets(site, entries[j]) || (subOp != "OR" && subOp != "AND") ==>
      ScanPlugins(entries[j..], site, subOp, t) == ScanPlugins(entries[j + 1..], site, subOp, t)
  {
    assert entries[j..][1..] == entries[j + 1..];
  }

  /**
   * The comparison both branches make for one entry: an empty installed
   * version is skipped, otherwise `version_compare` decides. It computes
   * `Meets` and exists only so that the loop bodies of `CheckPlugins` and
   * `CheckThemes` are verified apart from the version comparison.
   */
  method CompareInstalled(installed: Option<string>, constraint: string) returns (ok: bool)
    requires installed.Some? ==> ReadableVersion(installed.value)
    requires ReadableConstraint(constraint)
    ensures ok == Meets(installed, constraint)
    ensures ok ==> !EmptyVersion(installed)
  {
    var matches := ParseConstraint(constraint).value;
    ok := false;
    if !EmptyVersion(installed) {
      ok := VersionCompare(ParseVersion(installed.value).value, matches.version, matches.op);
    }
  }

  /** The `plugins` branch of `ur_check_products_version`: scan the table, then apply its sub-operator. */
  method CheckPlugins(entries: seq<(string, string)>, site: Site) returns (holds: bool)
    requires ReadableSite(site) && ReadablePlugins(entries)
    ensures holds == PluginsHold(entries, site)
  {
    var validPlugins: seq<bool> := [];
    var subOperator := "AND";
    var j := 0;
    while j < |entries|
      invariant 0 <= j <= |entries|
      invariant ScanPlugins(entries[j..], site, subOperator, |validPlugins|) == ScanPlugins(entries, site, "AND", 0)
    {
      var slug, versionToCompare := entries[j].0, entries[j].1;
      if slug == OperatorKey {
        ScanAtOperator(entries, j, site, subOperator, |validPlugins|);
        subOperator := versionToCompare;
      } else {
        ScanAtPlugin(entries, j, site, subOperator, |validPlugins|);
        var pluginVersion := GetPluginVersion(site.plugins, slug);
        var ok := CompareInstalled(pluginVersion, versionToCompare);
        if ok && subOperator == "OR" {
          validPlugins := validPlugins + [ok];
          break;
        } else if ok && subOperator == "AND" {
          validPlugins := validPlugins + [ok];
        }
      }
      j := j + 1;
    }
    holds := false;
    if subOperator == "AND" && |entries| - 1 == |validPlugins| {
      holds := true;
    } else if subOperator == "OR" && |validPlugins| == 1 {
      holds := true;
    }
  }

  /** The `themes` branch of `ur_check_products_version`: stop at the first theme that meets its constraint. */
  method CheckThemes(entries: seq<(string, string)>, site: Site) returns (hit: bool)
    requires ReadableSite(site) && ReadableThemes(entries)
    ensures hit == ThemesHit(entries, site)
  {
    var t := 0;
    while t < |entries|
      invariant 0 <= t <= |entries|
      invariant forall q :: 0 <= q < t ==> !ThemeMeets(site, entries[q].0, entries[q].1)
    {
      var themeSlug, versionToCompare := entries[t].0, entries[t].1;
      var ok := CompareInstalled(ThemeVersion(site, themeSlug), versionToCompare);
      if ok {
        return true;
      }
      t := t + 1;
    }
    return false;
  }

  /**
   * `ur_check_products_version($conditions)`. Every constraint must match the
   * version pattern with an operator `version_compare` accepts: on no match
   * the source reads unset capture groups.
   */
  method CheckProductsVersion(conditions: seq<Entry<ProductBody>>, site: Site) returns (valid: bool)
    requires ReadableSite(site) && ReadableConditions(conditions)
    ensures valid == ProductsVerdict(conditions, site)
    ensures conditions == [] ==> valid
  {
    valid := false;
    if conditions == [] {
      return true;
    }
    var mainOperator := Token("AND");
    var validCondition: seq<bool> := [];
    for i := 0 to |conditions|
      invariant mainOperator == MainOperator(conditions[..i], Token("AND"))
      invariant ReadableConditions(conditions[..i])
      invariant |validCondition| == Count(Outcomes(conditions[..i], site))
    {
      assert conditions[..i + 1][..i] == conditions[..i];
      assert ReadableConditions(conditions[..i + 1]) by {
        assert forall q :: 0 <= q <= i ==> conditions[..i + 1][q] == conditions[q];
      }
      var key, value := conditions[i].key, conditions[i].body;
      ghost var holds := KeyHolds(conditions[i], site);
      CountAppend(Outcomes(conditions[..i], site), holds);
      assert Outcomes(conditions[..i + 1], site) == Outcomes(conditions[..i], site)
        + if key != OperatorKey then [holds] else [];
      if key == OperatorKey {
        assert Outcomes(conditions[..i + 1], site) == Outcomes(conditions[..i], site);
        mainOperator := value;
      } else if key == "plugins" {
        var ok := CheckPlugins(value.entries, site);
        if ok {
          validCondition := validCondition + [true];
        }
      } else if key == "themes" {
        var ok := CheckThemes(value.entries, site);
        if ok {
          validCondition := validCondition + [true];
        }
      }
    }
    assert conditions[..|conditions|] == conditions;
    if mainOperator == Token("AND") && |conditions| - 1 == |validCondition| {
      valid := true;
    } else if mainOperator == Token("OR") && |validCondition| == 1 {
      valid := true;
    }
  }

  // ---------------------------------------------------------------------------
  // What the top-level counting rule means

  lemma {:induction false} OutcomesLength(c: seq<Entry<ProductBody>>, site: Site)
    requires ReadableSite(site) && ReadableConditions(c)
    ensures |Outcomes(c, site)| == Checks(c)
  {
    if c != [] {
      var p := c[..|c| - 1];
      assert forall i :: 0 <= i < |p| ==> p[i] == c[i];
      OutcomesLength(p, site);
    }
  }

  /** Every key other than `operator` contributes its outcome. */
  lemma {:induction false} KeyOutcome(c: seq<Entry<ProductBody>>, j: nat, site: Site)
    requires ReadableSite(site) && ReadableConditions(c)
    requires j < |c| && c[j].key != OperatorKey
    ensures KeyHolds(c[j], site) in Outcomes(c, site)
  {
    var p := c[..|c| - 1];
    assert forall i :: 0 <= i < |p| ==> p[i] == c[i];
    if j < |c| - 1 {
      KeyOutcome(p, j, site);
    }
  }

  /** The empty conditions array is vacuously satisfied. */
  lemma EmptyProducts(site: Site)
    requires ReadableSite(site)
    ensures ProductsVerdict([], site)
  {
  }

  /** With `operator` => `AND`, the verdict holds exactly when every `plugins` and `themes` key holds. */
  lemma ProductsAndVerdict(c: seq<Entry<ProductBody>>, site: Site, k: nat)
    requires ReadableSite(site) && ReadableConditions(c)
    requires KeysDistinct(c) && k < |c| && c[k] == Entry(OperatorKey, Token("AND"))
    ensures ProductsVerdict(c, site) <==> false !in Outcomes(c, site)
  {
    OutcomesLength(c, site);
    AndRule(c, Token("AND"), Token("OR"), Outcomes(c, site), k);
  }

  /**
   * Only `plugins` and `themes` can hold: with `operator` => `AND`, any
   * other key makes the verdict false.
   */
  lemma UnknownKeyFails(c: seq<Entry<ProductBody>>, site: Site, k: nat, j: nat)
    requires ReadableSite(site) && ReadableConditions(c)
    requires KeysDistinct(c) && k < |c| && c[k] == Entry(OperatorKey, Token("AND"))
    requires j < |c| && c[j].key != OperatorKey && c[j].key != "plugins" && c[j].key != "themes"
    ensures !ProductsVerdict(c, site)
  {
    KeyOutcome(c, j, site);
    ProductsAndVerdict(c, site, k);
  }

  /** With `operator` => `OR`, the verdict holds exactly when one key holds. */
  lemma ProductsOrVerdict(c: seq<Entry<ProductBody>>, site: Site, k: nat)
    requires ReadableSite(site) && ReadableConditions(c)
    requires KeysDistinct(c) && k < |c| && c[k] == Entry(OperatorKey, Token("OR"))
    ensures ProductsVerdict(c, site) <==> multiset(Outcomes(c, site))[true] == 1
  {
    OrRule(c, Token("AND"), Token("OR"), Outcomes(c, site), k);
  }

  /** Without an `operator` entry, the verdict holds exactly when one key fails. */
  lemma ProductsNoOperatorVerdict(c: seq<Entry<ProductBody>>, site: Site)
    requires ReadableSite(site) && ReadableConditions(c)
    requires c != [] && !HasOperator(c)
    ensures ProductsVerdict(c, site) <==> multiset(Outcomes(c, site))[false] == 1
  {
    OutcomesLength(c, site);
    NoOperatorEntry(c, Token("AND"));
    NoOperatorRule(c, Token("AND"), Token("OR"), Outcomes(c, site));
  }

  /** Any other operator value makes a non-empty array false. */
  lemma ProductsOtherOperatorVerdict(c: seq<Entry<ProductBody>>, site: Site, k: nat)
    requires ReadableSite(site) && ReadableConditions(c)
    requires KeysDistinct(c) && k < |c| && c[k].key == OperatorKey
    requires c[k].body != Token("AND") && c[k].body != Token("OR")
    ensures !ProductsVerdict(c, site)
  {
    OtherOperatorRule(c, Token("AND"), Token("OR"), Outcomes(c, site), k);
  }
}
