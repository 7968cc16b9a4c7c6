/**
 * Saving a form's settings: `ur_format_setting_data` groups the submitted
 * name/value pairs by name, and `ur_update_form_settings` strips a trailing
 * `[]` from each name and writes one post-meta value per configured field.
 */
module Settings {
  import opened Wrappers

  /** A submitted value: absent (null), a string, or an array of values. */
  datatype FieldValue = Null | Text(s: string) | List(items: seq<FieldValue>)

  /** One submitted `array( 'name' => ..., 'value' => ... )` pair. */
  datatype Setting = Setting(name: string, value: FieldValue)

  // ---------------------------------------------------------------------------
  // Grouping by name

  /** One grouping step: an array gets the new value appended, anything else becomes a pair. */
  function Push(current: FieldValue, v: FieldValue): (r: FieldValue)
    ensures r.List?
  {
    if current.List? then List(current.items + [v]) else List([current, v])
  }

  /**
   * The grouped value of the values submitted under one name, in order: a
   * single value is kept as it is; several are gathered in one array, which
   * extends the first value when that is already an array.
   */
  function Grouped(vs: seq<FieldValue>): FieldValue
    requires |vs| >= 1
  {
    if |vs| == 1 then vs[0]
    else if vs[0].List? then List(vs[0].items + vs[1..])
    else List(vs)
  }

  /** Grouping one more value is one step of the source's fold. */
  lemma GroupAppend(vs: seq<FieldValue>, v: FieldValue)
    requires |vs| >= 1
    ensures Grouped(vs + [v]) == Push(Grouped(vs), v)
  {
    var ws := vs + [v];
    if |vs| >= 2 && vs[0].List? {
      assert ws[1..] == vs[1..] + [v];
    }
  }

  /** The distinct names, in order of first appearance. */
  function Names(data: seq<Setting>): seq<string>
  {
    if data == [] then []
    else
      var p := Names(data[..|data| - 1]);
      var n := data[|data| - 1].name;
      if n in p then p else p + [n]
  }

  /** The values submitted under a name, in order. */
  function ValuesOf(data: seq<Setting>, n: string): seq<FieldValue>
  {
    if data == [] then []
    else ValuesOf(data[..|data| - 1], n) + if data[|data| - 1].name == n then [data[|data| - 1].value] else []
  }

  predicate Submitted(data: seq<Setting>, n: string)
  {
    exists i :: 0 <= i < |data| && data[i].name == n
  }

  /** A name is listed exactly when it was submitted, and then it has at least one value. */
  lemma {:induction false} NamesMembership(data: seq<Setting>, n: string)
    ensures n in Names(data) <==> Submitted(data, n)
    ensures n in Names(data) <==> |ValuesOf(data, n)| >= 1
  {
    if data != [] {
      var p := data[..|data| - 1];
      NamesMembership(p, n);
      assert forall i :: 0 <= i < |p| ==> p[i] == data[i];
      if Submitted(data, n) && !Submitted(p, n) {
        assert data[|data| - 1].name == n;
      }
    }
  }

  /** `ur_format_setting_data`, as a function of the submitted pairs. */
  function Formatted(data: seq<Setting>): seq<Setting>
  {
    var names := Names(data);
    NamesHaveValues(data);
    seq(|names|, i requires 0 <= i < |names| => Setting(names[i], Grouped(ValuesOf(data, names[i]))))
  }

  lemma NamesHaveValues(data: seq<Setting>)
    ensures forall n :: n in Names(data) ==> |ValuesOf(data, n)| >= 1
  {
    forall n | n in Names(data) ensures |ValuesOf(data, n)| >= 1 {
      NamesMembership(data, n);
    }
  }

  lemma {:induction false} NamesDistinct(data: seq<Setting>)
    ensures forall i, j :: 0 <= i < j < |Names(data)| ==> Names(data)[i] != Names(data)[j]
  {
    if data != [] {
      NamesDistinct(data[..|data| - 1]);
    }
  }

  /** One output entry per distinct submitted name: no name twice, none missing, none invented. */
  lemma FormattedNames(data: seq<Setting>)
    ensures var r := Formatted(data);
      && (forall i, j :: 0 <= i < j < |r| ==> r[i].name != r[j].name)
      && (forall i :: 0 <= i < |r| ==> Submitted(data, r[i].name))
      && (forall n :: Submitted(data, n) ==> exists i :: 0 <= i < |r| && r[i].name == n)
  {
    var r := Formatted(data);
    var names := Names(data);
    NamesDistinct(data);
    forall i | 0 <= i < |r| ensures Submitted(data, r[i].name) {
      NamesMembership(data, names[i]);
    }
    forall n | Submitted(data, n) ensures exists i :: 0 <= i < |r| && r[i].name == n {
      NamesMembership(data, n);
      var i :| 0 <= i < |names| && names[i] == n;
      assert r[i].name == n;
    }
  }

  /** The position of the first entry with a given name. */
  function FirstIndex(data: seq<Setting>, n: string): (k: nat)
    requires Submitted(data, n)
    ensures k < |data| && data[k].name == n
    ensures forall q :: 0 <= q < k ==> data[q].name != n
  {
    if data[0].name == n then 0
    else
      var rest := data[1..];
      assert Submitted(rest, n) by {
        var i :| 0 <= i < |data| && data[i].name == n;
        assert rest[i - 1] == data[i];
      }
      var k := FirstIndex(rest, n);
      assert forall q :: 0 < q < k + 1 ==> data[q] == rest[q - 1];
      k + 1
  }

  /** A name whose first entry comes earlier is listed earlier. */
  lemma {:induction false} FirstAppearanceOrder(data: seq<Setting>, i: nat, j: nat)
    requires i < j < |Names(data)|
    ensures Submitted(data, Names(data)[i]) && Submitted(data, Names(data)[j])
    ensures FirstIndex(data, Names(data)[i]) < FirstIndex(data, Names(data)[j])
  {
    var p := data[..|data| - 1];
    var names := Names(data);
    NamesMembership(data, names[i]);
    NamesMembership(data, names[j]);
    assert forall q :: 0 <= q < |p| ==> p[q] == data[q];
    NamesDistinct(data);
    if j < |Names(p)| {
      FirstAppearanceOrder(p, i, j);
      FirstIndexOfPrefix(data, names[i]);
      FirstIndexOfPrefix(data, names[j]);
    } else {
      // names[j] is the last entry's name, seen for the first time.
      assert names[j] == data[|data| - 1].name && names[j] !in Names(p);
      NamesMembership(p, names[j]);
      NamesMembership(p, names[i]);
      FirstIndexOfPrefix(data, names[i]);
      assert FirstIndex(data, names[j]) == |data| - 1;
    }
  }

  /** A name submitted before the last entry has its first entry in the prefix. */
  lemma FirstIndexOfPrefix(data: seq<Setting>, n: string)
    requires data != [] && Submitted(data[..|data| - 1], n)
    ensures Submitted(data, n)
    ensures FirstIndex(data, n) == FirstIndex(data[..|data| - 1], n)
  {
    var p := data[..|data| - 1];
    var k := FirstIndex(p, n);
    assert data[k] == p[k];
    assert forall q :: 0 <= q < k ==> data[q] == p[q];
  }

  /** The values under a name submitted exactly once are that one value. */
  lemma {:induction false} ValuesOfSingle(data: seq<Setting>, i: nat)
    requires i < |data|
    requires forall j :: 0 <= j < |data| && j != i ==> data[j].name != data[i].name
    ensures ValuesOf(data, data[i].name) == [data[i].value]
  {
    var n := data[i].name;
    var p := data[..|data| - 1];
    assert forall q :: 0 <= q < |p| ==> p[q] == data[q];
    if i < |data| - 1 {
      ValuesOfSingle(p, i);
    } else {
      ValuesOfAbsent(p, n);
    }
  }

  lemma {:induction false} ValuesOfAbsent(data: seq<Setting>, n: string)
    requires !Submitted(data, n)
    ensures ValuesOf(data, n) == []
  {
    if data != [] {
      var p := data[..|data| - 1];
      assert forall q :: 0 <= q < |p| ==> p[q] == data[q];
      ValuesOfAbsent(p, n);
    }
  }

  /**
   * What each output entry holds: a name submitted once keeps its value;
   * a name whose first value is not an array and that is submitted k >= 2
   * times becomes the array of its k values, in submission order.
   */
  lemma FormattedValues(data: seq<Setting>, i: nat)
    requires i < |data|
    ensures exists k :: 0 <= k < |Formatted(data)| && Formatted(data)[k].name == data[i].name
    ensures forall k :: 0 <= k < |Formatted(data)| && Formatted(data)[k].name == data[i].name ==>
      var vs := ValuesOf(data, data[i].name);
      && (|vs| == 1 ==> Formatted(data)[k].value == data[i].value)
      && (|vs| >= 2 && !vs[0].List? ==> Formatted(data)[k].value == List(vs))
  {
    var r := Formatted(data);
    var names := Names(data);
    var n := data[i].name;
    var vs := ValuesOf(data, n);
    assert Submitted(data, n);
    NamesMembership(data, n);
    var k0 :| 0 <= k0 < |names| && names[k0] == n;
    assert r[k0].name == n;
    forall k | 0 <= k < |r| && r[k].name == n
      ensures (|vs| == 1 ==> r[k].value == data[i].value) && (|vs| >= 2 && !vs[0].List? ==> r[k].value == List(vs))
    {
      assert r[k].value == Grouped(vs);
      if |vs| == 1 {
        ValuesOfContains(data, i);
      }
    }
  }

  /** Every submitted value appears among the values of its name. */
  lemma {:induction false} ValuesOfContains(data: seq<Setting>, i: nat)
    requires i < |data|
    ensures data[i].value in ValuesOf(data, data[i].name)
  {
    var p := data[..|data| - 1];
    if i < |data| - 1 {
      assert p[i] == data[i];
      ValuesOfContains(p, i);
    }
  }

  lemma NamesStep(data: seq<Setting>, i: nat)
    requires i < |data|
    ensures Names(data[..i + 1]) == if data[i].name in Names(data[..i]) then Names(data[..i]) else Names(data[..i]) + [data[i].name]
    ensures forall n :: ValuesOf(data[..i + 1], n) == ValuesOf(data[..i], n) + if data[i].name == n then [data[i].value] else []
  {
    assert data[..i + 1][..i] == data[..i];
  }

  /** The ordered name => grouped value array after a prefix of the pairs. */
  ghost predicate GroupedSoFar(data: seq<Setting>, keys: seq<string>, keyValue: map<string, FieldValue>)
  {
    && keys == Names(data)
    && (forall n :: n in keyValue <==> n in keys)
    && (forall n :: n in keyValue ==> |ValuesOf(data, n)| >= 1 && keyValue[n] == Grouped(ValuesOf(data, n)))
  }

  /** A repeated name: its grouped value takes one more step of the fold. */
  lemma GroupStepSeen(data: seq<Setting>, i: nat, keys: seq<string>, keyValue: map<string, FieldValue>)
    requires i < |data| && GroupedSoFar(data[..i], keys, keyValue) && data[i].name in keyValue
    ensures GroupedSoFar(data[..i + 1], keys, keyValue[data[i].name := Push(keyValue[data[i].name], data[i].value)])
  {
    var s := data[i];
    NamesStep(data, i);
    GroupAppend(ValuesOf(data[..i], s.name), s.value);
    var kv := keyValue[s.name := Push(keyValue[s.name], s.value)];
    forall n | n in kv ensures |ValuesOf(data[..i + 1], n)| >= 1 && kv[n] == Grouped(ValuesOf(data[..i + 1], n)) {
      if n != s.name {
        assert ValuesOf(data[..i + 1], n) == ValuesOf(data[..i], n);
      }
    }
  }

  /** A new name: it is appended to the keys with its single value. */
  lemma GroupStepNew(data: seq<Setting>, i: nat, keys: seq<string>, keyValue: map<string, FieldValue>)
    requires i < |data| && GroupedSoFar(data[..i], keys, keyValue) && data[i].name !in keyValue
    ensures GroupedSoFar(data[..i + 1], keys + [data[i].name], keyValue[data[i].name := data[i].value])
  {
    var s := data[i];
    NamesStep(data, i);
    NamesMembership(data[..i], s.name);
    var kv := keyValue[s.name := s.value];
    forall n | n in kv ensures |ValuesOf(data[..i + 1], n)| >= 1 && kv[n] == Grouped(ValuesOf(data[..i + 1], n)) {
      if n != s.name {
        assert ValuesOf(data[..i + 1], n) == ValuesOf(data[..i], n);
      } else {
        assert ValuesOf(data[..i + 1], n) == [s.value];
      }
    }
  }

  /**
   * The first loop of `ur_format_setting_data`: fold the pairs into an
   * ordered name => value array, appending repeated names' values.
   */
  method GroupByName(data: seq<Setting>) returns (keys: seq<string>, keyValue: map<string, FieldValue>)
    ensures GroupedSoFar(data, keys, keyValue)
  {
    keys := [];
    keyValue := map[];
    for i := 0 to |data|
      invariant GroupedSoFar(data[..i], keys, keyValue)
    {
      var s := data[i];
      if s.name in keyValue {
        GroupStepSeen(data, i, keys, keyValue);
        keyValue := keyValue[s.name := Push(keyValue[s.name], s.value)];
      } else {
        GroupStepNew(data, i, keys, keyValue);
        keys := keys + [s.name];
        keyValue := keyValue[s.name := s.value];
      }
    }
    assert data[..|data|] == data;
  }

  /**
   * `ur_format_setting_data($setting_data)`: group the pairs by name, then
   * list the groups as pairs in order of first appearance.
   */
  method FormatSettingData(data: seq<Setting>) returns (settings: seq<Setting>)
    ensures settings == Formatted(data)
  {
    var keys, keyValue := GroupByName(data);
    settings := [];
    for j := 0 to |keys|
      invariant |settings| == j
      invariant forall q :: 0 <= q < j ==> settings[q] == Setting(keys[q], keyValue[keys[q]])
    {
      settings := settings + [Setting(keys[j], keyValue[keys[j]])];
    }
  }

  // ---------------------------------------------------------------------------
  // Re-keying by field id

  /** `substr($name, -2) === '[]'`: drop a trailing `[]`. */
  function StripBrackets(name: string): string
  {
    if |name| >= 2 && name[|name| - 2..] == "[]" then name[..|name| - 2] else name
  }

  /** A multi-value name `id[]` is stored under `id`; any other name is kept as it is. */
  lemma StripBracketsMeaning(name: string)
    ensures StripBrackets(name + "[]") == name
    ensures !(|name| >= 2 && name[|name| - 2..] == "[]") ==> StripBrackets(name) == name
  {
    var s := name + "[]";
    assert s[|s| - 2..] == "[]" && s[..|s| - 2] == name;
  }

  /** `$remap_setting_data`: each pair stored under its stripped name, a later pair overwriting. */
  function Remap(settings: seq<Setting>): map<string, FieldValue>
  {
    if settings == [] then map[]
    else
      var last := settings[|settings| - 1];
      Remap(settings[..|settings| - 1])[StripBrackets(last.name) := last.value]
  }

  /** The pair at `i` is the last one whose stripped name is `id`. */
  predicate LastWriter(settings: seq<Setting>, i: nat, id: string)
    requires i < |settings|
  {
    StripBrackets(settings[i].name) == id && forall j :: i < j < |settings| ==> StripBrackets(settings[j].name) != id
  }

  /** The re-keyed value of an id is that of the last pair whose stripped name is the id. */
  lemma {:induction false} RemapLastWriter(settings: seq<Setting>, id: string)
    ensures id in Remap(settings) <==> exists i :: 0 <= i < |settings| && StripBrackets(settings[i].name) == id
    ensures forall i :: 0 <= i < |settings| && LastWriter(settings, i, id) ==> Remap(settings)[id] == settings[i].value
  {
    if settings != [] {
      var p := settings[..|settings| - 1];
      assert forall q :: 0 <= q < |p| ==> p[q] == settings[q];
      RemapLastWriter(p, id);
    }
  }

  // ---------------------------------------------------------------------------
  // Writing post meta

  /** A stored meta value: a string, or a serialised array. */
  datatype MetaValue = MetaText(s: string) | MetaSerialized(items: seq<FieldValue>)

  /** An array value is serialised; a string is stored as it is. */
  function MetaOf(v: FieldValue): MetaValue
    requires v != Null
  {
    match v
    case Text(s) => MetaText(s)
    case List(items) => MetaSerialized(items)
  }

  /** `absint($form_id)`. */
  function AbsInt(i: int): nat
  {
    if i < 0 then -i else i
  }

  /** The meta key written for a configured field: its id, or "" when it has none. */
  function FieldKey(id: Option<string>): string
  {
    if id.Some? then id.value else ""
  }

  /** The write one configured field makes. */
  function WriteField(m: map<(nat, string), MetaValue>, formId: nat, id: Option<string>, remap: map<string, FieldValue>)
    : map<(nat, string), MetaValue>
  {
    if id.Some? && id.value in remap then
      if remap[id.value] != Null then m[(formId, id.value) := MetaOf(remap[id.value])] else m
    else m[(formId, FieldKey(id)) := MetaText("")]
  }

  /** The meta store after the writes of the configured fields, in order. */
  function Written(m: map<(nat, string), MetaValue>, formId: nat, fields: seq<Option<string>>, remap: map<string, FieldValue>)
    : map<(nat, string), MetaValue>
  {
    if fields == [] then m
    else WriteField(Written(m, formId, fields[..|fields| - 1], remap), formId, fields[|fields| - 1], remap)
  }

  /** The configured fields write distinct keys. */
  predicate FieldKeysDistinct(fields: seq<Option<string>>)
  {
    forall i, j :: 0 <= i < j < |fields| ==> FieldKey(fields[i]) != FieldKey(fields[j])
  }

  /** A key no configured field names keeps its old meta. */
  lemma {:induction false} WrittenElsewhere(m: map<(nat, string), MetaValue>, formId: nat, fields: seq<Option<string>>,
                                           remap: map<string, FieldValue>, key: (nat, string))
    requires key.0 != formId || forall i :: 0 <= i < |fields| ==> FieldKey(fields[i]) != key.1
    ensures key in Written(m, formId, fields, remap) <==> key in m
    ensures key in m ==> Written(m, formId, fields, remap)[key] == m[key]
  {
    if fields != [] {
      var p := fields[..|fields| - 1];
      assert forall q :: 0 <= q < |p| ==> p[q] == fields[q];
      WrittenElsewhere(m, formId, p, remap, key);
    }
  }

  /**
   * The meta of each configured field: the submitted value (an array
   * serialised) when one was submitted, "" when nothing was submitted under
   * its id, and the old meta when the submitted pair has no value.
   */
  lemma {:induction false} WrittenField(m: map<(nat, string), MetaValue>, formId: nat, fields: seq<Option<string>>,
                                       remap: map<string, FieldValue>, j: nat)
    requires FieldKeysDistinct(fields) && j < |fields|
    ensures var w := Written(m, formId, fields, remap);
      var id := fields[j];
      && (id.Some? && id.value in remap && remap[id.value] != Null ==> (formId, id.value) in w && w[(formId, id.value)] == MetaOf(remap[id.value]))
      && (id.None? || id.value !in remap ==> (formId, FieldKey(id)) in w && w[(formId, FieldKey(id))] == MetaText(""))
      && (id.Some? && id.value in remap && remap[id.value] == Null ==>
            ((formId, id.value) in w <==> (formId, id.value) in m)
            && ((formId, id.value) in m ==> w[(formId, id.value)] == m[(formId, id.value)]))
  {
    var p := fields[..|fields| - 1];
    assert forall q :: 0 <= q < |p| ==> p[q] == fields[q];
    var key := (formId, FieldKey(fields[j]));
    if j < |fields| - 1 {
      WrittenField(m, formId, p, remap, j);
      assert FieldKey(fields[|fields| - 1]) != key.1;
    } else {
      WrittenElsewhere(m, formId, p, remap, key);
    }
  }

  /** The post-meta table the settings are saved to, keyed by post id and meta key. */
  class FormMeta {
    var meta: map<(nat, string), MetaValue>

    constructor()
      ensures meta == map[]
    {
      meta := map[];
    }

    /** `update_post_meta($post_id, $key, $value)`. */
    method UpdatePostMeta(postId: nat, key: string, value: MetaValue)
      modifies this
      ensures meta == old(meta)[(postId, key) := value]
    {
      meta := meta[(postId, key) := value];
    }

    /**
     * `ur_update_form_settings($setting_data, $form_id)`, with the configured
     * fields' ids (after the settings-save filter) given as `fields`.
     */
    method UpdateFormSettings(settingData: seq<Setting>, formId: int, fields: seq<Option<string>>)
      modifies this
      ensures meta == Written(old(meta), AbsInt(formId), fields, Remap(Formatted(settingData)))
    {
      var formatted := FormatSettingData(settingData);
      var remap: map<string, FieldValue> := map[];
      for i := 0 to |formatted|
        invariant remap == Remap(formatted[..i])
      {
        assert formatted[..i + 1][..i] == formatted[..i];
        var name := formatted[i].name;
        if |name| >= 2 && name[|name| - 2..] == "[]" {
          name := name[..|name| - 2];
        }
        remap := remap[name := formatted[i].value];
      }
      assert formatted[..|formatted|] == formatted;
      var postId := AbsInt(formId);
      for j := 0 to |fields|
        invariant meta == Written(old(meta), postId, fields[..j], remap)
      {
        assert fields[..j + 1][..j] == fields[..j];
        var id := fields[j];
        if id.Some? && id.value in remap {
          var value := remap[id.value];
          if value != Null {
            UpdatePostMeta(postId, id.value, MetaOf(value));
          }
        } else {
          UpdatePostMeta(postId, FieldKey(id), MetaText(""));
        }
      }
      assert fields[..|fields|] == fields;
    }
  }
}
