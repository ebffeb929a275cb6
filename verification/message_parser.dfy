/** The status-block pipeline of src/messageParser.ts: extracting the fenced
    block from one message, mapping the decoded value onto fixed and
    user-defined fields, and choosing the message to read from the chat. */
module MessageParser {
  import opened Wrappers
  import opened JsString
  import opened JsValue
  import Fence
  import opened SettingsSchema
  import opened StatusData

  // ---------------------------------------------------------------------
  // Block extraction (`parseMinguCodeBlock`)
  // ---------------------------------------------------------------------

  /** The decoded block of one message text, or `None` when the text is
      empty, holds no block, or the decoder rejects the trimmed capture. */
  function ParseCodeBlock(rt: Runtime, text: string): (r: Option<Value>)
    ensures text == "" ==> r.None?
    ensures (forall p, c, e :: !Fence.IsMatch(text, p, c, e)) ==> r.None?
    ensures forall p, c, e :: text != "" && Fence.Preferred(text, p, c, e) ==>
      r == rt.decodeYaml(Trim(text[c..e]))
  {
    if text == "" then None
    else
      match Fence.FindBlock(text)
      case None => None
      case Some((p, c, e)) =>
        assert forall p', c', e' :: Fence.Preferred(text, p', c', e') ==> p' == p && c' == c && e' == e by {
          forall p', c', e' | Fence.Preferred(text, p', c', e') ensures p' == p && c' == c && e' == e {
            Fence.PreferredUnique(text, p, c, e, p', c', e');
          }
        }
        rt.decodeYaml(Trim(text[c..e]))
  }

  // ---------------------------------------------------------------------
  // Fixed fields: ordered fallback chains
  // ---------------------------------------------------------------------

  /** The keys tried, in order, for each fixed attribute. A path reads a
      nested mapping (`rawData['news']?.['title']`). */
  const DatePaths: seq<seq<string>> := [["time"], ["時間"], ["date"]]
  const LocationPaths: seq<seq<string>> := [["place"], ["地點"], ["location"]]
  const WeatherPaths: seq<seq<string>> := [["weather"], ["天氣"]]
  const NewsTitlePaths: seq<seq<string>> := [["news", "title"], ["新聞", "標題"]]
  const NewsContentPaths: seq<seq<string>> := [["news", "content"], ["新聞", "內文"]]

  function Lookup(v: Value, path: seq<string>): Value
    decreases |path|
  {
    if |path| == 0 then v else Lookup(Get(v, path[0]), path[1..])
  }

  function Candidates(raw: Value, paths: seq<seq<string>>): (cs: seq<Value>)
    ensures |cs| == |paths|
    ensures forall i :: 0 <= i < |paths| ==> cs[i] == Lookup(raw, paths[i])
  {
    seq(|paths|, i requires 0 <= i < |paths| => Lookup(raw, paths[i]))
  }

  /** `r` is what `c0 || c1 || ... || ''` evaluates to: the first truthy
      candidate, or the empty string when none is truthy. */
  ghost predicate FallbackOf(cands: seq<Value>, r: Value) {
    || (exists i :: 0 <= i < |cands| && Truthy(cands[i]) && r == cands[i]
          && forall j :: 0 <= j < i ==> !Truthy(cands[j]))
    || ((forall i :: 0 <= i < |cands| ==> !Truthy(cands[i])) && r == Str(""))
  }

  function FirstTruthy(cands: seq<Value>): (r: Value)
    ensures FallbackOf(cands, r)
    ensures Truthy(r) || r == Str("")
  {
    if |cands| == 0 then Str("")
    else if Truthy(cands[0]) then cands[0]
    else
      var r := FirstTruthy(cands[1..]);
      FallbackSkipsFalsy(cands, r);
      r
  }

  /** A falsy first candidate is skipped by `||`. */
  lemma FallbackSkipsFalsy(cands: seq<Value>, r: Value)
    requires |cands| > 0 && !Truthy(cands[0])
    requires FallbackOf(cands[1..], r)
    ensures FallbackOf(cands, r)
  {
    var tail := cands[1..];
    assert forall i :: 1 <= i < |cands| ==> cands[i] == tail[i - 1];
    if exists i :: 0 <= i < |tail| && Truthy(tail[i]) && r == tail[i]
                   && forall j :: 0 <= j < i ==> !Truthy(tail[j]) {
      var i :| 0 <= i < |tail| && Truthy(tail[i]) && r == tail[i]
               && forall j :: 0 <= j < i ==> !Truthy(tail[j]);
      assert Truthy(cands[i + 1]) && r == cands[i + 1];
    }
  }

  // ---------------------------------------------------------------------
  // Dynamic fields
  // ---------------------------------------------------------------------

  /** `rawValue.replace(/%$/, '')`: one trailing percent sign removed. */
  function StripTrailingPercent(s: string): (r: string)
    ensures r + "%" == s || (r == s && (|s| == 0 || s[|s| - 1] != '%'))
  {
    if |s| > 0 && s[|s| - 1] == '%' then s[..|s| - 1] else s
  }

  /** A field gets an entry only when it is enabled, has a non-empty name and
      that name is defined in the decoded block. */
  predicate Qualifies(raw: Value, f: Field) {
    f.enabled && f.name != "" && Get(raw, f.name) != Undefined
  }

  /** The type coercion of one field's decoded value. */
  function Coerce(rt: Runtime, f: Field, v: Value): (r: CustomValue)
    ensures f.kind == TextType ==> r == Text(ToStr(rt, v))
    ensures f.kind == NumberType ==> r.Dual? || r == Raw(v)
    ensures r.Dual? ==> (&& f.kind == NumberType
                         && r.dual.display == Trim(ToStr(rt, v))
                         && rt.toNumber(StripTrailingPercent(r.dual.display)) == Some(r.dual.value))
    ensures r.Raw? ==> rt.toNumber(StripTrailingPercent(Trim(ToStr(rt, v)))).None?
  {
    match f.kind
    case NumberType =>
      var rawValue := Trim(ToStr(rt, v));
      var cleanValue := StripTrailingPercent(rawValue);
      (match rt.toNumber(cleanValue)
       case Some(n) => Dual(NumberFieldValue(n, rawValue))
       case None => Raw(v))
    case TextType => Text(ToStr(rt, v))
  }

  /** Field `i` is the last qualifying field with its id: its entry is the
      one left in the map. */
  ghost predicate LastWithId(raw: Value, fields: seq<Field>, i: int) {
    && 0 <= i < |fields|
    && Qualifies(raw, fields[i])
    && forall j :: i < j < |fields| && Qualifies(raw, fields[j]) ==> fields[j].id != fields[i].id
  }

  /** The ids of the fields that qualify. */
  ghost function QualifyingIds(raw: Value, fields: seq<Field>): set<string> {
    set i | 0 <= i < |fields| && Qualifies(raw, fields[i]) :: fields[i].id
  }

  /** The `customFields` loop: fields walked in order, entries keyed by id. */
  function CustomFields(rt: Runtime, raw: Value, fields: seq<Field>): (m: map<string, CustomValue>)
    ensures m.Keys == QualifyingIds(raw, fields)
    ensures forall i :: LastWithId(raw, fields, i) ==>
      m[fields[i].id] == Coerce(rt, fields[i], Get(raw, fields[i].name))
  {
    if |fields| == 0 then map[]
    else
      var n := |fields| - 1;
      var m := CustomFields(rt, raw, fields[..n]);
      var f := fields[n];
      var m' := if Qualifies(raw, f) then m[f.id := Coerce(rt, f, Get(raw, f.name))] else m;
      CustomFieldsStep(rt, raw, fields[..n], f, m, m');
      assert fields[..n] + [f] == fields;
      m'
  }

  /** One iteration of the loop keeps the map's meaning. */
  lemma CustomFieldsStep(rt: Runtime, raw: Value, init: seq<Field>, f: Field,
                         m: map<string, CustomValue>, m': map<string, CustomValue>)
    requires m.Keys == QualifyingIds(raw, init)
    requires forall i :: LastWithId(raw, init, i) ==>
      m[init[i].id] == Coerce(rt, init[i], Get(raw, init[i].name))
    requires m' == if Qualifies(raw, f) then m[f.id := Coerce(rt, f, Get(raw, f.name))] else m
    ensures m'.Keys == QualifyingIds(raw, init + [f])
    ensures forall i :: LastWithId(raw, init + [f], i) ==>
      m'[(init + [f])[i].id] == Coerce(rt, (init + [f])[i], Get(raw, (init + [f])[i].name))
  {
    var fields := init + [f];
    var n := |init|;
    QualifyingIdsStep(raw, init, f);
    forall i | LastWithId(raw, fields, i)
      ensures m'[fields[i].id] == Coerce(rt, fields[i], Get(raw, fields[i].name))
    {
      if i < n {
        LastWithIdOfPrefix(raw, init, f, i);
        assert fields[i] == init[i];
      }
    }
  }

  lemma LastWithIdOfPrefix(raw: Value, init: seq<Field>, f: Field, i: int)
    requires LastWithId(raw, init + [f], i) && i < |init|
    ensures LastWithId(raw, init, i)
    ensures Qualifies(raw, f) ==> f.id != init[i].id
  {
    var fields := init + [f];
    assert fields[i] == init[i];
    assert fields[|init|] == f;
    forall j | i < j < |init| && Qualifies(raw, init[j]) ensures init[j].id != init[i].id {
      assert fields[j] == init[j];
    }
  }

  lemma QualifyingIdsStep(raw: Value, init: seq<Field>, f: Field)
    ensures QualifyingIds(raw, init + [f]) ==
      QualifyingIds(raw, init) + (if Qualifies(raw, f) then {f.id} else {})
  {
    var fields := init + [f];
    assert forall i :: 0 <= i < |init| ==> fields[i] == init[i];
    assert fields[|init|] == f;
  }

  /** With distinct ids (the settings' invariant) every qualifying field's
      entry is its own coerced value. */
  lemma {:induction false} CustomFieldsDistinctIds(rt: Runtime, raw: Value, fields: seq<Field>, i: int)
    requires forall a, b :: 0 <= a < b < |fields| ==> fields[a].id != fields[b].id
    requires 0 <= i < |fields| && Qualifies(raw, fields[i])
    ensures fields[i].id in CustomFields(rt, raw, fields)
    ensures CustomFields(rt, raw, fields)[fields[i].id] == Coerce(rt, fields[i], Get(raw, fields[i].name))
  {
    assert LastWithId(raw, fields, i);
  }

  /** A field that is disabled, unnamed or absent from the block contributes
      nothing, whatever the other fields are. */
  lemma {:induction false} NonQualifyingFieldHasNoEntry(rt: Runtime, raw: Value, fields: seq<Field>, i: int)
    requires forall a, b :: 0 <= a < b < |fields| ==> fields[a].id != fields[b].id
    requires 0 <= i < |fields| && !Qualifies(raw, fields[i])
    ensures fields[i].id !in CustomFields(rt, raw, fields)
  {
  }

  /** A percentage keeps its text for display and its magnitude for the
      progress bar. */
  lemma PercentValueIsDual(rt: Runtime, f: Field)
    requires f.kind == NumberType
    requires rt.toNumber("42") == Some(42.0)
    ensures Coerce(rt, f, Str("42%")) == Dual(NumberFieldValue(42.0, "42%"))
  {
    TrimOfTrimmed("42%");
    PercentStripped();
    CoerceParsed(rt, f, Str("42%"), "42%", 42.0);
  }

  lemma PercentStripped()
    ensures StripTrailingPercent("42%") == "42"
  {
    var clean := StripTrailingPercent("42%");
    assert |clean| == 2 && clean[0] == '4' && clean[1] == '2';
  }

  /** The number branch once the parse is known to succeed. */
  lemma CoerceParsed(rt: Runtime, f: Field, v: Value, t: string, n: real)
    requires f.kind == NumberType
    requires Trim(ToStr(rt, v)) == t && rt.toNumber(StripTrailingPercent(t)) == Some(n)
    ensures Coerce(rt, f, v) == Dual(NumberFieldValue(n, t))
  {
  }

  /** A plain number in a number field is wrapped too: any value that parses
      becomes a dual value, with or without a percent sign. */
  lemma PlainNumberIsDual(rt: Runtime, f: Field)
    requires f.kind == NumberType
    requires rt.numberToString(87.5) == "87.5"
    requires rt.toNumber("87.5") == Some(87.5)
    ensures Coerce(rt, f, Num(87.5)) == Dual(NumberFieldValue(87.5, "87.5"))
  {
    TrimOfTrimmed("87.5");
  }

  /** Text that does not parse as a number is passed through as decoded. */
  lemma NonNumericValueIsRaw(rt: Runtime, f: Field)
    requires f.kind == NumberType
    requires rt.toNumber("high") == None
    ensures Coerce(rt, f, Str("high")) == Raw(Str("high"))
  {
    TrimOfTrimmed("high");
  }

  /** An empty YAML value in a text field is shown as the text `null`. */
  lemma NullInTextField(rt: Runtime, f: Field)
    requires f.kind == TextType
    ensures Coerce(rt, f, Null) == Text("null")
  {
  }

  // ---------------------------------------------------------------------
  // The status record (`processStatusData`)
  // ---------------------------------------------------------------------

  datatype NewsRecord = NewsRecord(title: Value, content: Value)

  datatype StatusRecord = StatusRecord(
    date: Value,
    location: Value,
    weather: Value,
    news: NewsRecord,
    customFields: map<string, CustomValue>)

  function ProcessStatusData(rt: Runtime, raw: Value, fields: seq<Field>): (r: StatusRecord)
    ensures FallbackOf(Candidates(raw, DatePaths), r.date)
    ensures FallbackOf(Candidates(raw, LocationPaths), r.location)
    ensures FallbackOf(Candidates(raw, WeatherPaths), r.weather)
    ensures FallbackOf(Candidates(raw, NewsTitlePaths), r.news.title)
    ensures FallbackOf(Candidates(raw, NewsContentPaths), r.news.content)
    ensures r.customFields.Keys == set i | 0 <= i < |fields| && Qualifies(raw, fields[i]) :: fields[i].id
    ensures forall i :: LastWithId(raw, fields, i) ==>
      r.customFields[fields[i].id] == Coerce(rt, fields[i], Get(raw, fields[i].name))
  {
    StatusRecord(
      FirstTruthy(Candidates(raw, DatePaths)),
      FirstTruthy(Candidates(raw, LocationPaths)),
      FirstTruthy(Candidates(raw, WeatherPaths)),
      NewsRecord(
        FirstTruthy(Candidates(raw, NewsTitlePaths)),
        FirstTruthy(Candidates(raw, NewsContentPaths))),
      CustomFields(rt, raw, fields))
  }

  /** A block carrying only the legacy key for the location still fills it:
      the canonical key is tried first, the localized one next. */
  lemma LegacyLocationKey(rt: Runtime, props: map<string, Value>, fields: seq<Field>)
    requires "place" !in props && "地點" in props && Truthy(props["地點"])
    ensures ProcessStatusData(rt, Object(props), fields).location == props["地點"]
  {
    var cs := Candidates(Object(props), LocationPaths);
    assert cs[0] == Undefined && cs[1] == props["地點"];
    var r := ProcessStatusData(rt, Object(props), fields).location;
  }

  // ---------------------------------------------------------------------
  // Choosing the message (`getLatestAIMessage`, `parseLatestMessage`)
  // ---------------------------------------------------------------------

  /** A chat message as the host stores it. `swipeId` may be missing or out
      of range. */
  datatype Message = Message(
    isUser: bool,
    isSystem: bool,
    mes: string,
    swipes: Option<seq<string>>,
    swipeId: Option<int>)

  predicate IsAI(m: Message) {
    !m.isUser && !m.isSystem
  }

  /** `chat[i]` is the most recent message written by the AI. */
  ghost predicate IsLatestAI(chat: seq<Message>, i: int) {
    && 0 <= i < |chat|
    && IsAI(chat[i])
    && forall j :: i < j < |chat| ==> !IsAI(chat[j])
  }

  /** `message.swipes?.[message.swipe_id]`. */
  function ActiveSwipe(m: Message): Option<string> {
    if m.swipes.Some? && m.swipeId.Some? && 0 <= m.swipeId.value < |m.swipes.value|
    then Some(m.swipes.value[m.swipeId.value])
    else None
  }

  /** The text read from a message: its active swipe when that is a
      non-empty string, otherwise its `mes`. */
  function ActiveText(m: Message): (t: string)
    ensures t == m.mes || (ActiveSwipe(m) == Some(t) && t != "")
    ensures ActiveSwipe(m).Some? && ActiveSwipe(m).value != "" ==> t == ActiveSwipe(m).value
  {
    match ActiveSwipe(m)
    case Some(sw) => if sw != "" then sw else m.mes
    case None => m.mes
  }

  /** What `parseLatestMessage` makes of the chosen message: the status record
      when its block decodes to a truthy value, otherwise nothing. */
  function ParseMessage(rt: Runtime, m: Message, fields: seq<Field>): (r: Option<StatusRecord>)
    ensures r.Some? <==> ParseCodeBlock(rt, ActiveText(m)).Some? && Truthy(ParseCodeBlock(rt, ActiveText(m)).value)
    ensures r.Some? ==> r.value == ProcessStatusData(rt, ParseCodeBlock(rt, ActiveText(m)).value, fields)
  {
    match ParseCodeBlock(rt, ActiveText(m))
    case Some(v) => if Truthy(v) then Some(ProcessStatusData(rt, v, fields)) else None
    case None => None
  }

  /** The backward scan for the most recent AI message. */
  method GetLatestAIMessage(chat: seq<Message>) returns (idx: Option<nat>)
    ensures idx.Some? ==> IsLatestAI(chat, idx.value)
    ensures idx.None? <==> forall i :: 0 <= i < |chat| ==> !IsAI(chat[i])
  {
    if |chat| == 0 {
      return None;
    }
    var i := |chat|;
    while i > 0
      invariant 0 <= i <= |chat|
      invariant forall j :: i <= j < |chat| ==> !IsAI(chat[j])
      decreases i
    {
      i := i - 1;
      if IsAI(chat[i]) {
        return Some(i);
      }
    }
    return None;
  }

  /** `parseLatestMessage`: only the most recent AI message is read. When its
      text has no decodable block the result is `None`; older messages are
      never consulted. */
  method ParseLatestMessage(rt: Runtime, chat: seq<Message>, fields: seq<Field>) returns (r: Option<StatusRecord>)
    ensures forall i :: IsLatestAI(chat, i) ==> r == ParseMessage(rt, chat[i], fields)
    ensures (forall i :: 0 <= i < |chat| ==> !IsAI(chat[i])) ==> r.None?
  {
    var idx := GetLatestAIMessage(chat);
    if idx.None? {
      return None;
    }
    r := ParseMessage(rt, chat[idx.value], fields);
  }

  /** The host callback a message event leads to. */
  datatype StatusCall = OnStatusUpdate(record: StatusRecord) | OnStatusClear

  /** `handleMessageUpdate`: update when a record was parsed, clear otherwise. */
  method HandleMessageUpdate(rt: Runtime, chat: seq<Message>, fields: seq<Field>) returns (call: StatusCall)
    ensures forall i :: IsLatestAI(chat, i) ==>
      (call.OnStatusUpdate? <==> ParseMessage(rt, chat[i], fields).Some?)
    ensures forall i :: IsLatestAI(chat, i) && call.OnStatusUpdate? ==>
      Some(call.record) == ParseMessage(rt, chat[i], fields)
    ensures forall i :: IsLatestAI(chat, i) && call.OnStatusUpdate? ==>
      && ParseCodeBlock(rt, ActiveText(chat[i])).Some?
      && call.record == ProcessStatusData(rt, ParseCodeBlock(rt, ActiveText(chat[i])).value, fields)
    ensures (forall i :: 0 <= i < |chat| ==> !IsAI(chat[i])) ==> call == OnStatusClear
  {
    var data := ParseLatestMessage(rt, chat, fields);
    if data.Some? {
      call := OnStatusUpdate(data.value);
    } else {
      call := OnStatusClear;
    }
  }
}
