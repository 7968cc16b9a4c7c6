# User Registration admin functions: a Dafny model

This project models the decision logic of the User Registration plugin's
admin helpers (`wp-content/plugins/user-registration/includes/admin/functions-ur-admin.php`):

- the rule engine that decides whether a promotional notice applies:
  - the comparison-operator table;
  - the check that calls named functions and compares their results;
  - the installed-plugin and installed-theme version checks;
  - the numeric-operator check;
- how submitted form settings are grouped by name and saved as post meta;
- the find-or-create routine for the plugin's pages.

The host is given as data:

- a registry of callable functions;
- the installed plugins and themes with their version headers;
- a post-meta table;
- a store of posts and options.

Loops that build arrays step by step are methods with loop invariants,
proved against specification functions. Code that updates the host in place
is a class (`Settings.FormMeta`, `Pages.Store`).

Files:

- `strings.dfy`: digits, PHP numeric strings, byte-wise ordering, `strpos`
  and `explode`.
- `operators.dfy`: PHP 8 comparison over null, integers and strings (with
  array and object responses), the operator table and the numeric-operator
  check.
- `conditions.dfy`: the counting rule shared by the two rule checks.
- `function_rules.dfy`: `ur_check_all_functions`.
- `versions.dfy`: dotted numeric versions, `version_compare` and the
  constraint pattern `([<>!=]=?)(\d+(\.\d+)+)`.
- `product_rules.dfy`: `get_plugin_version` and
  `ur_check_products_version`.
- `settings.dfy`: `ur_format_setting_data` and `ur_update_form_settings`.
- `pages.dfy`: `ur_create_page`.

## Model

| member | source | states |
|---|---|---|
| ConditionOperator.ConditionMet | wp-content/plugins/user-registration/includes/admin/functions-ur-admin.php:763-798 | `ur_check_condition_operator`: the switch on the operator token, each of the eight tokens comparing the expected value (left) with the response (right) under PHP 8 rules, any other token false |
| ConditionOperator.OperatorTable | wp-content/plugins/user-registration/includes/admin/functions-ur-admin.php:767-795 | a token outside the eight listed is never met; `!=` and `!==` are exactly the negations of `==` and `===`; `>=` is `>` or `==`, `<=` is `<` or `==` |
| ConditionOperator.Trichotomy | wp-content/plugins/user-registration/includes/admin/functions-ur-admin.php:780-791 | for any operands exactly one of `<`, `==`, `>` holds |
| ConditionOperator.StrictImpliesLoose | wp-content/plugins/user-registration/includes/admin/functions-ur-admin.php:768-779 | `===` implies `==`, and `!=` implies `!==` |
| ConditionOperator.CompareScalarsAntisymmetric | wp-content/plugins/user-registration/includes/admin/functions-ur-admin.php:768-791 | PHP 8 comparison of two scalars is antisymmetric |
| ConditionOperator.ExpectedOnTheLeft | wp-content/plugins/user-registration/includes/admin/functions-ur-admin.php:768-791 | the expected value is the left operand: `>` holds iff the expected value compares greater than the response (expected 2 against response 1 is met, 1 against 2 is not), `<` iff it compares smaller; swapping operands turns `e > r` into `r < e` and `e >= r` into `r <= e`, and `==` is symmetric |
| ConditionOperator.IntegerOperands | wp-content/plugins/user-registration/includes/admin/functions-ur-admin.php:768-791 | on two integers the operators are the integer comparisons |
| ConditionOperator.NumericStrings | wp-content/plugins/user-registration/includes/admin/functions-ur-admin.php:768-773 | an integer and its decimal text are `==` but not `===`; a leading zero keeps a non-negative number's text `==` to it |
| ConditionOperator.LeadingZero | wp-content/plugins/user-registration/includes/admin/functions-ur-admin.php:768-770 | a leading zero does not change the value of a digit string |
| ConditionOperator.EmptyStringResponse | wp-content/plugins/user-registration/includes/admin/functions-ur-admin.php:768-773 | the response "" is `==` to null but not `===`, and not `==` to 0 (PHP 8) |
| ConditionOperator.ContainerResponses | wp-content/plugins/user-registration/includes/admin/functions-ur-admin.php:768-791 | an empty array is `==` to null; an array is greater than any non-null scalar, an object greater than any scalar |
| NumericOperator.CheckNumericOperator | wp-content/plugins/user-registration/includes/admin/functions-ur-admin.php:807-836 | `ur_check_numeric_operator`: the leftmost match of `([<>]=?\|==\|!=\|<=\|>=)?(\d+)`, its digits cast to int (saturating at PHP_INT_MAX), and the value compared by `>`, `>=`, `<`, `<=`, `!=`, or equality for any other capture |
| NumericOperator.FindMatchBeforeDigit | wp-content/plugins/user-registration/includes/admin/functions-ur-admin.php:809 | the pattern `([<>]=?\|==\|!=\|<=\|>=)?(\d+)` matches every condition that contains a digit |
| NumericOperator.MatchOfOperatorAndDigits | wp-content/plugins/user-registration/includes/admin/functions-ur-admin.php:809-811 | an operator followed by digits is captured as exactly that operator and those digits |
| NumericOperator.NumericConditionRoundTrip | wp-content/plugins/user-registration/includes/admin/functions-ur-admin.php:807-836 | for a condition written as operator plus number, the check is `value OP number` with the number saturated at PHP_INT_MAX; no operator and `==` both mean equality |
| Strings.ImplodeExplode | wp-content/plugins/user-registration/includes/admin/functions-ur-admin.php:641-643 | the pieces `explode(',', params)` yields join back, with commas, to the params string |
| FunctionRules.Satisfied | wp-content/plugins/user-registration/includes/admin/functions-ur-admin.php:640-661 | one entry's check: the comma-exploded params passed to the named function ("" when it does not exist), the response narrowed by `expected_attribute`, then compared with `expected_value` (default "") by `condition_to_validate` (default `==`) |
| Conditions.CountMultiplicity | wp-content/plugins/user-registration/includes/admin/functions-ur-admin.php:664-668 | the tally of satisfied entries is the number of `true` outcomes; the rest are `false` |
| Conditions.OperatorEntry | wp-content/plugins/user-registration/includes/admin/functions-ur-admin.php:635-637 | with unique keys, an `operator` entry sets the operator and leaves `count - 1` entries to check |
| Conditions.NoOperatorEntry | wp-content/plugins/user-registration/includes/admin/functions-ur-admin.php:632-637 | without an `operator` entry every entry is checked and the operator stays `AND` |
| Conditions.AndRule | wp-content/plugins/user-registration/includes/admin/functions-ur-admin.php:664-665 | with `operator` => AND, the counting rule holds iff no check failed |
| Conditions.OrRule | wp-content/plugins/user-registration/includes/admin/functions-ur-admin.php:666-667 | with `operator` => OR, the counting rule holds iff exactly one check held |
| Conditions.NoOperatorRule | wp-content/plugins/user-registration/includes/admin/functions-ur-admin.php:664-665 | without an `operator` entry, the counting rule holds iff exactly one check failed |
| Conditions.OtherOperatorRule | wp-content/plugins/user-registration/includes/admin/functions-ur-admin.php:664-668 | any other operator value makes a non-empty array fail |
| FunctionRules.CheckAllFunctions | wp-content/plugins/user-registration/includes/admin/functions-ur-admin.php:626-670 | the loop's verdict is the counting rule over the outcomes of the non-operator entries, and true for an empty array |
| FunctionRules.OutcomesLength | wp-content/plugins/user-registration/includes/admin/functions-ur-admin.php:635-662 | there is one outcome per non-operator entry |
| FunctionRules.NoOperatorOutcomes | wp-content/plugins/user-registration/includes/admin/functions-ur-admin.php:635-662 | without an `operator` entry, outcome i is entry i's comparison |
| FunctionRules.EmptyConditions | wp-content/plugins/user-registration/includes/admin/functions-ur-admin.php:628-630 | an empty conditions array holds |
| FunctionRules.AndVerdict | wp-content/plugins/user-registration/includes/admin/functions-ur-admin.php:664-665 | with `operator` => AND, the verdict holds iff every check is satisfied |
| FunctionRules.NoOperatorVerdict | wp-content/plugins/user-registration/includes/admin/functions-ur-admin.php:664-665 | without `operator`, the verdict holds iff exactly one check fails, so all checks satisfied gives false |
| FunctionRules.OrVerdict | wp-content/plugins/user-registration/includes/admin/functions-ur-admin.php:666-667 | with `operator` => OR, the verdict holds iff exactly one check is satisfied, so two gives false |
| FunctionRules.OtherOperatorVerdict | wp-content/plugins/user-registration/includes/admin/functions-ur-admin.php:664-668 | any other operator value gives false for a non-empty array |
| FunctionRules.MissingFunction | wp-content/plugins/user-registration/includes/admin/functions-ur-admin.php:644-647 | a name with no function is compared as "": it meets the default `==` with no expected value and fails against a non-empty expected string |
| FunctionRules.NarrowOnlyContainers | wp-content/plugins/user-registration/includes/admin/functions-ur-admin.php:651-658 | `expected_attribute` narrows only a non-empty array or an object, to the member or "" when it is absent or null |
| Versions.ParseConstraint | wp-content/plugins/user-registration/includes/admin/functions-ur-admin.php:704-706 | the leftmost match of `([<>!=]=?)(\d+(\.\d+)+)`: the operator capture and the dotted version capture, or nothing when the pattern does not match |
| Versions.VersionCompare | wp-content/plugins/user-registration/includes/admin/functions-ur-admin.php:709 | `version_compare(installed, required, op)` on numeric versions: component-wise comparison, a proper prefix older, then the relation the operator names |
| Strings.SeqCmpAntisymmetric | wp-content/plugins/user-registration/includes/admin/functions-ur-admin.php:709 | version comparison is antisymmetric |
| Strings.SeqCmpTransitive | wp-content/plugins/user-registration/includes/admin/functions-ur-admin.php:709 | version ordering is transitive |
| Versions.PrefixIsOlder | wp-content/plugins/user-registration/includes/admin/functions-ur-admin.php:709 | a version that is a proper prefix of another is older (`1.2` < `1.2.0`) |
| Versions.VersionOperators | wp-content/plugins/user-registration/includes/admin/functions-ur-admin.php:709 | `=` and `==` are equality, `!=` its negation; swapping operands turns `<` into `>` and `<=` into `>=` |
| Versions.ParseRenderedVersion | wp-content/plugins/user-registration/includes/admin/functions-ur-admin.php:709 | reading back the text of a version gives the version |
| Versions.ParseRenderedConstraint | wp-content/plugins/user-registration/includes/admin/functions-ur-admin.php:704-706 | a constraint written as operator plus a version of two or more components is split into that operator and that version |
| Versions.ConstraintExample | wp-content/plugins/user-registration/includes/admin/functions-ur-admin.php:704-709 | `>=1.2.0` reads as (`>=`, 1.2.0); 1.3.0 meets it and 1.1.0 does not |
| ProductRules.PluginVersionFirstMatch | wp-content/plugins/user-registration/includes/admin/functions-ur-admin.php:848-862 | the slug lookup returns the version of the first plugin whose file path contains the slug, and nothing iff no file path does |
| ProductRules.GetPluginVersion | wp-content/plugins/user-registration/includes/admin/functions-ur-admin.php:848-862 | the loop returns what the first-match lookup returns |
| ProductRules.MissingNeverMeets | wp-content/plugins/user-registration/includes/admin/functions-ur-admin.php:708-709 | a plugin or theme that is missing, or whose version is empty or "0", never meets its constraint |
| ProductRules.MeetsRendered | wp-content/plugins/user-registration/includes/admin/functions-ur-admin.php:704-709 | for an installed version and a written constraint, meeting it is `version_compare(installed, required, op)`, with installed on the left |
| ProductRules.ScanPlugins | wp-content/plugins/user-registration/includes/admin/functions-ur-admin.php:698-719 | the `plugins` loop: an `operator` entry replaces the sub-operator; a met constraint is tallied and ends the loop under OR, is tallied and the loop continues under AND, and is ignored otherwise; the result is the final sub-operator and tally |
| ProductRules.PluginOutcomesLength | wp-content/plugins/user-registration/includes/admin/functions-ur-admin.php:698-719 | a table without `operator` has one outcome per plugin |
| ProductRules.ScanUnderAnd | wp-content/plugins/user-registration/includes/admin/functions-ur-admin.php:713-716 | under AND the scan never stops early and adds one per met constraint |
| ProductRules.PluginHitCons | wp-content/plugins/user-registration/includes/admin/functions-ur-admin.php:710-712 | some plugin meets its constraint iff the first does or one of the rest does |
| ProductRules.ScanUnderOr | wp-content/plugins/user-registration/includes/admin/functions-ur-admin.php:710-712 | under OR the scan stops at the first met constraint, adding at most one |
| ProductRules.ScanUnderOther | wp-content/plugins/user-registration/includes/admin/functions-ur-admin.php:698-719 | under any other sub-operator nothing is tallied |
| ProductRules.OperatorHandover | wp-content/plugins/user-registration/includes/admin/functions-ur-admin.php:699-700 | the plugins before the `operator` entry are tallied under AND, then the scan goes on under the new sub-operator |
| ProductRules.PluginsNoOperatorVerdict | wp-content/plugins/user-registration/includes/admin/functions-ur-admin.php:720-724 | a non-empty table without `operator` holds iff exactly one plugin fails |
| ProductRules.PluginsAndVerdict | wp-content/plugins/user-registration/includes/admin/functions-ur-admin.php:720-721 | with sub-operator AND, the table holds iff every plugin is installed and meets its constraint |
| ProductRules.PluginsOrVerdict | wp-content/plugins/user-registration/includes/admin/functions-ur-admin.php:722-723 | with sub-operator OR, the table holds iff the met plugins before the operator, plus one if a later one is met, make one; with the operator first, iff some plugin meets |
| ProductRules.PluginsOtherVerdict | wp-content/plugins/user-registration/includes/admin/functions-ur-admin.php:720-724 | any other sub-operator makes the table fail |
| ProductRules.CheckPlugins | wp-content/plugins/user-registration/includes/admin/functions-ur-admin.php:690-725 | the `plugins` loop decides what the scan specification decides |
| ProductRules.CheckThemes | wp-content/plugins/user-registration/includes/admin/functions-ur-admin.php:726-742 | the `themes` loop adds a tally iff some theme meets its constraint, stopping at the first |
| ProductRules.CheckProductsVersion | wp-content/plugins/user-registration/includes/admin/functions-ur-admin.php:681-753 | the verdict is the counting rule over the outcomes of the top-level keys, and true for an empty array |
| ProductRules.OutcomesLength | wp-content/plugins/user-registration/includes/admin/functions-ur-admin.php:690-744 | there is one outcome per top-level key other than `operator` |
| ProductRules.KeyOutcome | wp-content/plugins/user-registration/includes/admin/functions-ur-admin.php:693-744 | each non-operator key's outcome is among the outcomes |
| ProductRules.EmptyProducts | wp-content/plugins/user-registration/includes/admin/functions-ur-admin.php:683-685 | an empty conditions array holds |
| ProductRules.ProductsAndVerdict | wp-content/plugins/user-registration/includes/admin/functions-ur-admin.php:746-747 | with `operator` => AND, the verdict holds iff every `plugins` and `themes` key holds |
| ProductRules.UnknownKeyFails | wp-content/plugins/user-registration/includes/admin/functions-ur-admin.php:693-750 | a key other than `plugins`/`themes` never holds but still counts, so under AND it makes the verdict false |
| ProductRules.ProductsOrVerdict | wp-content/plugins/user-registration/includes/admin/functions-ur-admin.php:748-749 | with `operator` => OR, the verdict holds iff exactly one key holds |
| ProductRules.ProductsNoOperatorVerdict | wp-content/plugins/user-registration/includes/admin/functions-ur-admin.php:746-747 | without `operator`, the verdict holds iff exactly one key fails |
| ProductRules.ProductsOtherOperatorVerdict | wp-content/plugins/user-registration/includes/admin/functions-ur-admin.php:746-750 | any other operator value gives false for a non-empty array |
| Settings.GroupAppend | wp-content/plugins/user-registration/includes/admin/functions-ur-admin.php:502-512 | each repeat of a name is one step of the fold: an array gets the value appended, anything else becomes a pair |
| Settings.NamesMembership | wp-content/plugins/user-registration/includes/admin/functions-ur-admin.php:499-517 | a name is listed iff it was submitted, and then it has at least one value |
| Settings.NamesDistinct | wp-content/plugins/user-registration/includes/admin/functions-ur-admin.php:499-517 | no name is listed twice |
| Settings.FormattedNames | wp-content/plugins/user-registration/includes/admin/functions-ur-admin.php:496-533 | one output entry per distinct submitted name: none twice, none missing, none invented |
| Settings.FirstAppearanceOrder | wp-content/plugins/user-registration/includes/admin/functions-ur-admin.php:496-533 | the output follows the order of each name's first appearance |
| Settings.FormattedValues | wp-content/plugins/user-registration/includes/admin/functions-ur-admin.php:499-531 | a name submitted once keeps its value; a name submitted k >= 2 times whose first value is not an array becomes the array of its k values in order |
| Settings.ValuesOfSingle | wp-content/plugins/user-registration/includes/admin/functions-ur-admin.php:499-517 | a name submitted once has exactly that one value |
| Settings.GroupByName | wp-content/plugins/user-registration/includes/admin/functions-ur-admin.php:496-517 | the first loop builds the names in first-appearance order with each name's grouped value |
| Settings.FormatSettingData | wp-content/plugins/user-registration/includes/admin/functions-ur-admin.php:496-533 | the method's output is the grouped settings specification |
| Settings.StripBracketsMeaning | wp-content/plugins/user-registration/includes/admin/functions-ur-admin.php:450-452 | `id[]` is stored under `id`; a name not ending in `[]` is kept |
| Settings.Remap | wp-content/plugins/user-registration/includes/admin/functions-ur-admin.php:443-456 | the re-keying loop: each grouped setting stored under its name with a trailing `[]` removed, a later setting overwriting an earlier one with the same key |
| Settings.RemapLastWriter | wp-content/plugins/user-registration/includes/admin/functions-ur-admin.php:443-456 | an id is re-keyed iff some stripped name equals it, and it holds the value of the last such pair |
| Settings.Written | wp-content/plugins/user-registration/includes/admin/functions-ur-admin.php:467-486 | the field loop: for each configured field id in order, its meta set to the re-keyed value (arrays serialised), left alone when that value is null, or set to "" when no setting has that id |
| Settings.WrittenElsewhere | wp-content/plugins/user-registration/includes/admin/functions-ur-admin.php:467-486 | a meta key that no configured field names keeps its old value |
| Settings.WrittenField | wp-content/plugins/user-registration/includes/admin/functions-ur-admin.php:467-486 | each configured field's meta is its submitted value (arrays serialised), or "" when nothing was submitted under its id, and it is untouched when the pair has no value |
| Settings.FormMeta.UpdateFormSettings | wp-content/plugins/user-registration/includes/admin/functions-ur-admin.php:442-487 | the new meta table is the old one after the field writes over the re-keyed, grouped settings |
| Settings.FormMeta.UpdatePostMeta | wp-content/plugins/user-registration/includes/admin/functions-ur-admin.php:480 | a post-meta write replaces one key and nothing else |
| Pages.Republish | wp-content/plugins/user-registration/includes/admin/functions-ur-admin.php:342-348 | republishing a trashed page makes it visible and keeps what it matches |
| Pages.NewPageMatches | wp-content/plugins/user-registration/includes/admin/functions-ur-admin.php:349-360 | a newly inserted page is visible and matches the slug or content it was created for |
| Pages.Store.CreatePage | wp-content/plugins/user-registration/includes/admin/functions-ur-admin.php:286-368 | a valid stored page is returned with nothing changed; else a visible match is reused, else a trashed match is republished, else a page is inserted under a fresh id; a truthy option is set to the id returned |
| Pages.CreatePageTwice | wp-content/plugins/user-registration/includes/admin/functions-ur-admin.php:286-368 | two calls with the same arguments add at most one page; with a truthy option the second returns the first's id, which the option then holds |

## Left out

- ConditionOperator.Compare: PHP 8 loose comparison is modelled for null,
  integers and strings only. Numeric strings are restricted to
  `-?[0-9]+`, with no whitespace, decimals or exponents. Booleans and
  floats are not modelled. Arrays and objects appear only as responses,
  with scalar members.
- ConditionOperator.Compare: integers are unbounded, and every `-?[0-9]+`
  string is read as an exact integer. PHP integers are 64-bit, and numeric
  text outside that range becomes a float (so `PHP_INT_MAX ==
  "9223372036854775808"` holds in PHP), or two such strings equal as floats
  are compared as bytes. Neither is modelled.
- ConditionOperator.Compare: an object is taken as greater than any scalar.
  PHP instead converts an object compared with an integer to 1, with a
  warning, and compares objects with `__toString` as strings.
- NumericOperator.CheckNumericOperator: the value is an integer. A
  condition with no digit is excluded, because the source then reads unset
  capture groups.
- FunctionRules.Satisfied: registered functions are total maps from
  parameters to a result. PHP call errors and arity mismatches are not
  modelled.
- Versions.VersionCompare: only purely numeric dotted versions are
  compared, with unbounded components. Pre-release suffixes such as
  `-beta`, and the other `version_compare` rules, are not modelled.
- Versions.ValidOperator: a lone `!`, which the pattern can capture, is
  excluded, because `version_compare` rejects it.
- ProductRules.CheckProductsVersion: only constraints the pattern matches
  are modelled. On a mismatch the source reads unset capture groups.
- ProductRules.CheckProductsVersion: an installed version must be empty or
  purely numeric.
- ProductRules.CheckProductsVersion: the `plugins` and `themes` values
  must be tables. A string there would make `foreach` fail in PHP.
- ProductRules.EntryMeets: a constraint the pattern does not match counts
  as not met, so the scan lemmas need no readability precondition.
  `CheckPlugins` and `CheckProductsVersion` still require readable
  constraints, so this choice never decides one of their results.
- `get_theme_version` is not part of this model. Installed themes are
  given as a slug => version map.
- `get_plugins()` is given as a list of plugin files and version headers.
- Settings.FormatSettingData: the `user_registration_form_setting_*`
  filters are taken as the identity.
- Settings.FormatSettingData: PHP turns integer-like names into integer
  keys. Since they are read back as text, this is not modelled.
- Settings.FormatSettingData: a pair without a `name` is not modelled.
- Settings.FormMeta.UpdateFormSettings: `sanitize_text_field` and the
  `user_registration_form_settings_save` filter are taken as the
  identity.
- Settings.FormMeta.UpdateFormSettings: `ur_admin_form_settings_fields`
  is not part of this model. The configured field ids are a parameter.
- Settings.MetaOf: `maybe_serialize` is kept abstract. A serialised array
  is stored as its items, not as PHP serialisation text.
- Settings.FormMeta.UpdatePostMeta: WordPress's own guards are not
  modelled. These are refusing an empty meta key or post id 0, and
  skipping an unchanged value.
- Pages.Matches: the SQL `LIKE '%content%'` is a case-sensitive substring
  test. MySQL collation, and `%` or `_` inside the content acting as
  wildcards, are not modelled.
- Pages.Matches: the `post_name` test is exact string equality.
- Pages.Store.CreatePage: the inserted page keeps `post_name` equal to
  the slug as passed. WordPress's `sanitize_title` and
  `wp_unique_post_slug` are not modelled, so a slug such as "My Account",
  or one already taken by a hidden page ("login" becoming "login-2"), is
  stored differently in WordPress.
- Pages.NewPageMatches: the new page matches its slug only because of the
  verbatim `post_name` above.
- Pages.CreatePageTwice: with a falsy option, the at-most-one-page clause
  rests on the verbatim `post_name` above. In WordPress a renamed slug is
  not found by the second call's search, which then inserts again. With a
  truthy option the clause holds regardless, because the option then
  points at the first page.
- Pages.Truthy: an option name is falsy only when it is "" or "0".
  `get_option` also trims whitespace before that test, which is not
  modelled.
- Pages.Store.CreatePage: `LIMIT 1` without `ORDER BY` returns an
  unspecified row, so the model picks any matching row.
- Pages.Store.CreatePage: the `user_registration_create_page_id` filter is
  taken as the identity.
- Pages.Store.CreatePage: options hold integer ids.
- Pages.Store.CreatePage: `wp_insert_post` and `wp_update_post` always
  succeed. Their hooks and other side effects are not modelled, nor are
  the author and comment-status columns.
- Dashboard widgets, reports, data exporters and erasers, settings
  wrappers, activation and update date checks, screen ids and
  notice-dismissal lookups are left out. They are HTML output, raw SQL,
  clock reads or single host calls with no logic of their own.
