/** The pure part of settings backup (src/utils/importExport.ts): building
    the export object from the settings object and reading settings back out
    of an imported object. Both sides are JavaScript objects; a setting the
    object lacks reads as `undefined`. */
module ImportExport {
  import opened Wrappers
  import opened JsValue

  /** The seven settings a backup carries, as (export key, setting key). */
  const SettingKeys: seq<(string, string)> := [
    ("fields", "fields"),
    ("customPrompt", "custom_prompt"),
    ("fixedFieldsEnabled", "fixed_fields_enabled"),
    ("customCSS", "custom_css"),
    ("progressColorLow", "progress_color_low"),
    ("progressColorHigh", "progress_color_high"),
    ("language", "language")
  ]

  ghost const ExportKeys: set<string> := set i | 0 <= i < |SettingKeys| :: SettingKeys[i].0
  ghost const ImportedKeys: set<string> := set i | 0 <= i < |SettingKeys| :: SettingKeys[i].1

  lemma KeySets()
    ensures ExportKeys == {"fields", "customPrompt", "fixedFieldsEnabled", "customCSS",
                           "progressColorLow", "progressColorHigh", "language"}
    ensures ImportedKeys == {"fields", "custom_prompt", "fixed_fields_enabled", "custom_css",
                             "progress_color_low", "progress_color_high", "language"}
  {
    assert SettingKeys[0].0 in ExportKeys && SettingKeys[1].0 in ExportKeys && SettingKeys[2].0 in ExportKeys;
    assert SettingKeys[3].0 in ExportKeys && SettingKeys[4].0 in ExportKeys && SettingKeys[5].0 in ExportKeys;
    assert SettingKeys[6].0 in ExportKeys;
    assert SettingKeys[0].1 in ImportedKeys && SettingKeys[1].1 in ImportedKeys && SettingKeys[2].1 in ImportedKeys;
    assert SettingKeys[3].1 in ImportedKeys && SettingKeys[4].1 in ImportedKeys && SettingKeys[5].1 in ImportedKeys;
    assert SettingKeys[6].1 in ImportedKeys;
  }

  /** `obj.key` on a settings object. */
  function Prop(obj: map<string, Value>, key: string): Value {
    if key in obj then obj[key] else Undefined
  }

  predicate DistinctSources(keys: seq<(string, string)>) {
    forall i, j :: 0 <= i < j < |keys| ==> keys[i].0 != keys[j].0
  }

  /** The settings half of the export object, one export key per row of
      `keys`, each holding the setting it is paired with. */
  function ExportedProps(settings: map<string, Value>, keys: seq<(string, string)>): (m: map<string, Value>)
    requires DistinctSources(keys)
    ensures m.Keys == set i | 0 <= i < |keys| :: keys[i].0
    ensures forall i :: 0 <= i < |keys| ==> m[keys[i].0] == Prop(settings, keys[i].1)
  {
    if |keys| == 0 then map[]
    else
      var n := |keys| - 1;
      assert forall i :: 0 <= i < n ==> keys[..n][i] == keys[i];
      ExportedProps(settings, keys[..n])[keys[n].0 := Prop(settings, keys[n].1)]
  }

  lemma ExportKeysAreNotHeaders()
    ensures "version" !in ExportKeys && "timestamp" !in ExportKeys
  {
    KeySets();
  }

  /** `exportSettings`: the version and timestamp (`Date.now()`, a parameter
      here) plus the seven settings read from `settings`, unchanged. */
  function ExportSettings(settings: map<string, Value>, version: string, timestamp: real): (data: Value)
    ensures data.Object?
    ensures data.props.Keys == {"version", "timestamp"} + ExportKeys
    ensures Get(data, "version") == Str(version) && Get(data, "timestamp") == Num(timestamp)
    ensures forall i :: 0 <= i < |SettingKeys| ==> Get(data, SettingKeys[i].0) == Prop(settings, SettingKeys[i].1)
  {
    ExportKeysAreNotHeaders();
    var props := ExportedProps(settings, SettingKeys);
    assert forall i :: 0 <= i < |SettingKeys| ==> SettingKeys[i].0 in ExportKeys;
    Object(props["version" := Str(version)]["timestamp" := Num(timestamp)])
  }

  datatype ImportResult = ImportResult(valid: bool, error: Option<string>, data: Option<map<string, Value>>)

  const InvalidFormat: string := "無效的資料格式"

  /** Copies `data[from]` to `to` when it is defined. */
  function CopyIfDefined(acc: map<string, Value>, data: Value, from: string, to: string): map<string, Value> {
    if Get(data, from) != Undefined then acc[to := Get(data, from)] else acc
  }

  predicate DistinctTargets(keys: seq<(string, string)>) {
    forall i, j :: 0 <= i < j < |keys| ==> keys[i].1 != keys[j].1
  }

  /** The seven `if (data.x !== undefined)` copies, in order. */
  function CopyDefined(data: Value, keys: seq<(string, string)>): (m: map<string, Value>)
    requires DistinctTargets(keys)
    ensures m.Keys <= set i | 0 <= i < |keys| :: keys[i].1
    ensures forall i :: 0 <= i < |keys| ==> (keys[i].1 in m <==> Get(data, keys[i].0) != Undefined)
    ensures forall i :: 0 <= i < |keys| && keys[i].1 in m ==> m[keys[i].1] == Get(data, keys[i].0)
  {
    if |keys| == 0 then map[]
    else
      var n := |keys| - 1;
      var m := CopyDefined(data, keys[..n]);
      assert forall i :: 0 <= i < n ==> keys[..n][i] == keys[i];
      CopyIfDefined(m, data, keys[n].0, keys[n].1)
  }

  /** `validateImportData`: anything but a (non-null) object is rejected;
      from an object, every defined one of the seven export keys is copied to
      its setting, and nothing else is. */
  function ValidateImportData(data: Value): (r: ImportResult)
    ensures !r.valid <==> !Truthy(data) || !(data.Array? || data.Object? || data.Null?)
    ensures !r.valid ==> r == ImportResult(false, Some(InvalidFormat), None)
    ensures r.valid ==> r.error.None? && r.data.Some?
    ensures r.valid ==> r.data.value.Keys <= ImportedKeys
    ensures r.valid ==> forall i :: 0 <= i < |SettingKeys| ==>
      (SettingKeys[i].1 in r.data.value <==> Get(data, SettingKeys[i].0) != Undefined)
    ensures r.valid ==> forall i :: 0 <= i < |SettingKeys| && SettingKeys[i].1 in r.data.value ==>
      r.data.value[SettingKeys[i].1] == Get(data, SettingKeys[i].0)
  {
    if !Truthy(data) || !(data.Array? || data.Object? || data.Null?) then
      ImportResult(false, Some(InvalidFormat), None)
    else
      ImportResult(true, None, Some(CopyDefined(data, SettingKeys)))
  }

  /** Only arrays and plain objects pass: `null`, `undefined` and every
      primitive are rejected with the format error. */
  lemma ValidIffObject(data: Value)
    ensures ValidateImportData(data).valid <==> data.Array? || data.Object?
  {
  }

  /** Exporting and then importing gives back every setting the settings
      object defines, unchanged, and no other key. */
  lemma ExportImportRoundTrip(settings: map<string, Value>, version: string, timestamp: real)
    ensures var r := ValidateImportData(ExportSettings(settings, version, timestamp));
      && r.valid && r.data.Some?
      && (forall i :: 0 <= i < |SettingKeys| && Prop(settings, SettingKeys[i].1) != Undefined ==>
            SettingKeys[i].1 in r.data.value && r.data.value[SettingKeys[i].1] == settings[SettingKeys[i].1])
      && (forall k :: k in r.data.value ==> k in settings && r.data.value[k] == settings[k])
  {
    var data := ExportSettings(settings, version, timestamp);
    var r := ValidateImportData(data);
    forall k | k in r.data.value ensures k in settings && r.data.value[k] == settings[k] {
      var i :| 0 <= i < |SettingKeys| && SettingKeys[i].1 == k;
    }
  }
}
