/** The settings schema of src/type/settings.ts: the `Field` descriptor and
    the default-filling that parsing a stored settings object performs. Type
    validation is assumed to have succeeded: a raw setting is either absent
    or already of the right type. */
module SettingsSchema {
  import opened Wrappers

  datatype FieldType = NumberType | TextType

  /** A user-defined dynamic field. `id` is the stable key across renames. */
  datatype Field = Field(
    id: string,
    enabled: bool,
    name: string,
    description: string,
    order: real,
    kind: FieldType)

  datatype Language = ZhTW | En

  datatype PanelPosition = Left | Right

  datatype CustomPrompt = CustomPrompt(
    time: Option<string>,
    place: Option<string>,
    weather: Option<string>,
    newsTitle: Option<string>,
    newsContent: Option<string>)

  datatype FixedFieldsEnabled = FixedFieldsEnabled(time: bool, place: bool, weather: bool, news: bool)

  datatype Settings = Settings(
    buttonSelected: bool,
    panelEnabled: bool,
    panelPosition: PanelPosition,
    panelCollapsed: bool,
    fields: seq<Field>,
    language: Language,
    progressColorLow: string,
    progressColorHigh: string,
    debugMode: bool,
    customPrompt: Option<CustomPrompt>,
    fixedFieldsEnabled: FixedFieldsEnabled)

  /** A stored field before defaults: only `type` may be missing. */
  datatype RawField = RawField(
    id: string,
    enabled: bool,
    name: string,
    description: string,
    order: real,
    kind: Option<FieldType>)

  /** A stored settings object before defaults: every key may be missing. */
  datatype RawSettings = RawSettings(
    buttonSelected: Option<bool>,
    panelEnabled: Option<bool>,
    panelPosition: Option<PanelPosition>,
    panelCollapsed: Option<bool>,
    fields: Option<seq<RawField>>,
    language: Option<Language>,
    progressColorLow: Option<string>,
    progressColorHigh: Option<string>,
    debugMode: Option<bool>,
    customPrompt: Option<CustomPrompt>,
    fixedFieldsEnabled: Option<FixedFieldsEnabled>)

  const EmptyRawSettings := RawSettings(None, None, None, None, None, None, None, None, None, None, None)

  const DefaultFixedFieldsEnabled := FixedFieldsEnabled(true, true, true, true)

  /** The two fields a first install starts with; their ids come from
      `crypto.randomUUID()` and are parameters here. */
  function DefaultFields(id0: string, id1: string): (fs: seq<Field>)
    ensures |fs| == 2
    ensures fs[0].id == id0 && fs[1].id == id1
    ensures fs[0].enabled && fs[1].enabled
    ensures fs[0].order == 0.0 && fs[1].order == 1.0
    ensures fs[0].kind == NumberType && fs[1].kind == TextType
    ensures fs[0].name == "好感度" && fs[1].name == "內心話"
  {
    [ Field(id0, true, "好感度", "<char>目前對<user>的好感度,最低為0最高為100, 純數字", 0.0, NumberType),
      Field(id1, true, "內心話", "<char>當前內心第一人稱想法, 100字內", 1.0, TextType) ]
  }

  /** A field whose `type` is missing becomes a number field. */
  function NormalizeField(f: RawField): (r: Field)
    ensures r.id == f.id && r.enabled == f.enabled && r.name == f.name
    ensures r.description == f.description && r.order == f.order
    ensures f.kind.Some? ==> r.kind == f.kind.value
    ensures f.kind.None? ==> r.kind == NumberType
  {
    Field(f.id, f.enabled, f.name, f.description, f.order, f.kind.GetOr(NumberType))
  }

  function NormalizeFields(fs: seq<RawField>): (r: seq<Field>)
    ensures |r| == |fs|
    ensures forall i :: 0 <= i < |fs| ==> r[i] == NormalizeField(fs[i])
  {
    seq(|fs|, i requires 0 <= i < |fs| => NormalizeField(fs[i]))
  }

  /** Parsing a stored settings object: every missing key takes its default,
      every present key is kept; a missing object is parsed as `{}`. */
  function NormalizeSettings(raw: Option<RawSettings>, id0: string, id1: string): (s: Settings)
    ensures var r := raw.GetOr(EmptyRawSettings);
      && (r.buttonSelected.Some? ==> s.buttonSelected == r.buttonSelected.value)
      && (r.panelEnabled.Some? ==> s.panelEnabled == r.panelEnabled.value)
      && (r.panelPosition.Some? ==> s.panelPosition == r.panelPosition.value)
      && (r.panelCollapsed.Some? ==> s.panelCollapsed == r.panelCollapsed.value)
      && (r.language.Some? ==> s.language == r.language.value)
      && (r.progressColorLow.Some? ==> s.progressColorLow == r.progressColorLow.value)
      && (r.progressColorHigh.Some? ==> s.progressColorHigh == r.progressColorHigh.value)
      && (r.debugMode.Some? ==> s.debugMode == r.debugMode.value)
      && s.customPrompt == r.customPrompt
      && (r.fixedFieldsEnabled.Some? ==> s.fixedFieldsEnabled == r.fixedFieldsEnabled.value)
      && (r.fields.Some? ==> s.fields == NormalizeFields(r.fields.value))
    ensures var r := raw.GetOr(EmptyRawSettings);
      && (r.buttonSelected.None? ==> !s.buttonSelected)
      && (r.panelEnabled.None? ==> !s.panelEnabled)
      && (r.panelPosition.None? ==> s.panelPosition == Right)
      && (r.panelCollapsed.None? ==> !s.panelCollapsed)
      && (r.fields.None? ==> s.fields == DefaultFields(id0, id1))
      && (r.language.None? ==> s.language == ZhTW)
      && (r.progressColorLow.None? ==> s.progressColorLow == "#d8b4a0")
      && (r.progressColorHigh.None? ==> s.progressColorHigh == "#a0b4d8")
      && (r.debugMode.None? ==> !s.debugMode)
      && (r.fixedFieldsEnabled.None? ==> s.fixedFieldsEnabled == DefaultFixedFieldsEnabled)
  {
    var r := raw.GetOr(EmptyRawSettings);
    Settings(
      r.buttonSelected.GetOr(false),
      r.panelEnabled.GetOr(false),
      r.panelPosition.GetOr(Right),
      r.panelCollapsed.GetOr(false),
      if r.fields.Some? then NormalizeFields(r.fields.value) else DefaultFields(id0, id1),
      r.language.GetOr(ZhTW),
      r.progressColorLow.GetOr("#d8b4a0"),
      r.progressColorHigh.GetOr("#a0b4d8"),
      r.debugMode.GetOr(false),
      r.customPrompt,
      r.fixedFieldsEnabled.GetOr(DefaultFixedFieldsEnabled))
  }

  /** What the defaults are: an empty stored object yields them all. */
  lemma DefaultsOfEmptySettings(id0: string, id1: string)
    ensures var s := NormalizeSettings(None, id0, id1);
      && !s.buttonSelected && !s.panelEnabled && !s.panelCollapsed && !s.debugMode
      && s.panelPosition == Right && s.language == ZhTW
      && s.fields == DefaultFields(id0, id1)
      && s.progressColorLow == "#d8b4a0" && s.progressColorHigh == "#a0b4d8"
      && s.customPrompt.None?
      && s.fixedFieldsEnabled == FixedFieldsEnabled(true, true, true, true)
  {
  }

  /** The stored form of a complete settings value: every key present. */
  function ToRaw(s: Settings): RawSettings {
    RawSettings(
      Some(s.buttonSelected), Some(s.panelEnabled), Some(s.panelPosition), Some(s.panelCollapsed),
      Some(seq(|s.fields|, i requires 0 <= i < |s.fields| =>
        var f := s.fields[i]; RawField(f.id, f.enabled, f.name, f.description, f.order, Some(f.kind)))),
      Some(s.language), Some(s.progressColorLow), Some(s.progressColorHigh), Some(s.debugMode),
      s.customPrompt, Some(s.fixedFieldsEnabled))
  }

  /** Normalizing is idempotent: re-parsing a saved, already normalized
      settings value gives it back, whatever ids a fresh default would use. */
  lemma NormalizeIdempotent(raw: Option<RawSettings>, id0: string, id1: string, id2: string, id3: string)
    ensures var s := NormalizeSettings(raw, id0, id1);
      NormalizeSettings(Some(ToRaw(s)), id2, id3) == s
  {
    var s := NormalizeSettings(raw, id0, id1);
    var t := NormalizeSettings(Some(ToRaw(s)), id2, id3);
    assert t.fields == s.fields;
  }
}
