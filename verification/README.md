# ST-StatusTracking status-block pipeline, modelled in Dafny

ST-StatusTracking is a SillyTavern extension. When the panel is enabled,
before every generation it injects a prompt that asks the model to end its reply with a fenced
` ```myst ` block of `key: value` lines: time, place, weather, a news item and
the user's own fields. When a reply arrives, the extension finds the latest
assistant message and extracts the first such block. It decodes the block as
YAML and maps the result onto a status record for the panel. If there is no
block, it clears the panel.

The model covers that pipeline and the pure helpers around it:

| module | file | models |
|---|---|---|
| `JsString` | jsstring.dfy | `String.prototype.trim` (the ECMAScript whitespace set), `startsWith`, `Array.prototype.join` |
| `JsValue` | jsvalue.dfy | the decoded JavaScript values; truthiness; `obj[key]`; `String(v)` |
| `Fence` | fence.dfy | the regular expression `` /```myst\s*\n([\s\S]*?)```/ ``: every match it admits, the one it reports, and a search that finds it |
| `MessageParser` | message_parser.dfy | `parseMinguCodeBlock`, `processStatusData`, `getLatestAIMessage`, `parseLatestMessage`, the `handleMessageUpdate` callback |
| `PromptGenerator` | prompt_generator.dfy | the fixed prompt template, `generateStatusPrompt`, and the injection state (`enablePromptInjection`, `disablePromptInjection`, `onGenerationStarted`) |
| `ImportExport` | import_export.dfy | `exportSettings` and `validateImportData` |
| `SettingsSchema` | settings_schema.dfy | the `Field` record and the default filling of the `Settings` schema |
| `StatusData` | status_data.dfy | the status record, its initial value and `clearData` |
| `I18n` | i18n.dfy | `detectSTLanguage`, `currentLanguage`, the zh-TW identity dictionary and `t` |
| `Uuid` | uuid.dfy | the `Math.random` fallback of `generateUUID` |
| `Wrappers` | wrappers.dfy | `Option` |

Some host services are not defined by the repository. These are passed in as
parameters, bundled in `JsValue.Runtime`:
- the YAML decoder (`None` stands for a thrown parse error);
- `Number(string)` (`None` stands for `NaN`);
- number-to-string formatting.

The chat, the host language, `Date.now()` and the random nibbles are plain
arguments. Event-bus callbacks are returned as values: `StatusCall` and
`ExtensionPromptCall` describe the call that would be made.

## Behaviour worth noting

- **Only the newest assistant message is read.** `parseLatestMessage`
  (src/messageParser.ts:124-141) looks at the newest assistant message alone.
  If that message has no block, the result is `null`; older messages are never
  consulted. See `MessageParser.ParseLatestMessage`.
- **The capture is decoded as it stands.** The trimmed capture goes straight
  to the YAML decoder (src/messageParser.ts:22-26), with no rewriting of
  values that start with `*` or `:`.
- **The first truthy key wins.** The fallback chains
  (src/messageParser.ts:53-61) use `||`, so an empty string or `0` under
  `time` falls through to `時間`, not just a missing key. See
  `MessageParser.FirstTruthy`.
- **Every parsable number is wrapped.** A number field whose text parses
  becomes `{value, display}` (src/messageParser.ts:72-84), with or without a
  percent sign: `分數: 87.5` gives `{value: 87.5, display: "87.5"}`, not the
  bare number. See `MessageParser.PlainNumberIsDual`.

## Model

| member | source | states |
|---|---|---|
| `JsString.Trim` | src/messageParser.ts:22 | the trimmed text is a slice of the input whose first and last characters are not whitespace and which drops only whitespace on either side |
| `JsString.TrimIdempotent` | src/messageParser.ts:73 | trimming twice gives the same text as trimming once |
| `JsString.TrimEmptyIffAllSpace` | src/promptGenerator.ts:30 | a description trims to empty exactly when it is all whitespace |
| `JsString.JoinNonEmpty` | src/promptGenerator.ts:26-36 | joining one or more non-empty lines gives a non-empty text, so a field line never vanishes from the join |
| `JsValue.FalsyValues` | src/messageParser.ts:54-137 | the values the `\|\|` chains and `if (!rawData)` treat as false are exactly `undefined`, `null`, `false`, `0` and `''`; arrays and objects, even empty ones, are truthy |
| `JsValue.ToStr` | src/messageParser.ts:73 | `String(v)` returns a string unchanged, renders an empty array as `''` and a one-string array as that string |
| `JsValue.ItemStrs` | src/messageParser.ts:89 | inside an array, `undefined` and `null` elements render as `''` and string elements as themselves |
| `JsValue.StringArrayToStr` | src/messageParser.ts:89 | a decoded list of strings, stored in a text field, becomes the strings joined with commas |
| `JsValue.NullElementRendersEmpty` | src/messageParser.ts:73 | `String(['a', null, 'b'])` is `'a,,b'` |
| `Fence.FindBlock` | src/messageParser.ts:17-18 | the reported match is the one the regular expression prefers: leftmost opener, longest run of whitespace before the last newline it can end at, shortest capture; `None` only when no match exists |
| `Fence.PreferredUnique` | src/messageParser.ts:17 | at most one match is preferred, so the capture is determined by the text |
| `Fence.PreferredCaptureHasNoCloser` | src/messageParser.ts:17 | the lazy capture contains no closing fence |
| `Fence.Capture` | src/messageParser.ts:17-22 | a capture exists exactly when some match exists, and it is the text between the preferred match's newline and its closing fence |
| `Fence.CaptureOfWrapped` | src/messageParser.ts:17-22 | a body without backticks, wrapped as an opener, a newline, the body and a closer after backtick-free text, is captured exactly |
| `Fence.MatchAt` | src/messageParser.ts:17 | from a given opener, returns the preferred whitespace end and closer of every match starting there, or reports none |
| `Fence.FindFrom` | src/messageParser.ts:17-18 | the search from position `p` finds the leftmost match at or after `p`, or proves there is none |
| `MessageParser.ParseCodeBlock` | src/messageParser.ts:13-34 | empty text and text without a block give `null`; otherwise the result is the decoder's verdict on the trimmed capture of the preferred match |
| `MessageParser.FirstTruthy` | src/messageParser.ts:54-59 | an `a \|\| b \|\| c \|\| ''` chain: the first truthy candidate, or `''` when none is truthy |
| `MessageParser.FallbackSkipsFalsy` | src/messageParser.ts:54-59 | a falsy first candidate is skipped and the rest of the chain decides |
| `MessageParser.Candidates` | src/messageParser.ts:54-59 | the candidate values are the lookups of the key paths, in priority order |
| `MessageParser.StripTrailingPercent` | src/messageParser.ts:74 | `replace(/%$/, '')` removes one trailing percent sign and nothing else |
| `MessageParser.Coerce` | src/messageParser.ts:72-90 | a text field stores `String(v)`; a number field stores `{value, display}` when `Number` parses the stripped trimmed text, with `display` the trimmed text, and otherwise the raw value |
| `MessageParser.CoerceParsed` | src/messageParser.ts:73-84 | when the stripped text parses to `n`, the stored value is `{value: n, display: trimmed text}` |
| `MessageParser.PercentValueIsDual` | src/messageParser.ts:73-84 | `"42%"` in a number field becomes `{value: 42, display: "42%"}` |
| `MessageParser.PlainNumberIsDual` | src/messageParser.ts:72-84 | a bare `87.5` in a number field is also wrapped as `{value: 87.5, display: "87.5"}` |
| `MessageParser.NullInTextField` | src/messageParser.ts:89 | an empty YAML value in a text field is stored as the text `null`, since `String(null)` is `'null'` |
| `MessageParser.NonNumericValueIsRaw` | src/messageParser.ts:85-86 | a number field whose text does not parse keeps the raw decoded value |
| `MessageParser.CustomFields` | src/messageParser.ts:64-92 | the keys are the ids of the enabled, named fields present in the block; each maps to the coercion by the last such field with that id |
| `MessageParser.CustomFieldsDistinctIds` | src/messageParser.ts:66-91 | with distinct ids, every qualifying field's entry is its own coerced value |
| `MessageParser.NonQualifyingFieldHasNoEntry` | src/messageParser.ts:67-70 | with distinct ids, a disabled, unnamed or absent field gets no entry |
| `MessageParser.ProcessStatusData` | src/messageParser.ts:42-100 | each fixed attribute is the first truthy value along its key chain (canonical English key, then legacy keys), and the custom fields are as described for `CustomFields` |
| `MessageParser.LegacyLocationKey` | src/messageParser.ts:55 | a block with only the legacy `地點` key gives that value as the location |
| `MessageParser.ActiveText` | src/messageParser.ts:132 | the text is the selected swipe when that swipe exists and is non-empty, and `mes` otherwise |
| `MessageParser.ParseMessage` | src/messageParser.ts:132-140 | a record is produced exactly when the active text holds a block that decodes to a truthy value, and it is `processStatusData` of that decoded value |
| `MessageParser.GetLatestAIMessage` | src/messageParser.ts:105-118 | returns the last message that is neither the user's nor a system one, and `None` exactly when there is none |
| `MessageParser.ParseLatestMessage` | src/messageParser.ts:124-141 | the result is the parse of the latest assistant message alone; `None` when the chat has none |
| `MessageParser.HandleMessageUpdate` | src/messageParser.ts:157-167 | the panel is updated when the latest assistant message has a record, with `processStatusData` of that message's decoded block, and is cleared otherwise |
| `PromptGenerator.TemplateKeysAreParsed` | src/promptGenerator.ts:8-17 | every key the fixed template asks for is one the parser's fallback chains read |
| `PromptGenerator.EnabledFields` | src/promptGenerator.ts:27 | keeps exactly the enabled fields |
| `PromptGenerator.EnabledFieldsAppend` | src/promptGenerator.ts:27 | the filter distributes over concatenation, so field order is kept |
| `PromptGenerator.FieldLine` | src/promptGenerator.ts:28-35 | a field's line is `name: ${description}` when the description is not blank, and `name: ${name的值}` otherwise |
| `PromptGenerator.DynamicLines` | src/promptGenerator.ts:26-35 | one line per enabled field, in order |
| `PromptGenerator.DynamicPromptEmptyIff` | src/promptGenerator.ts:26-41 | the dynamic part is empty exactly when no field is enabled |
| `PromptGenerator.GenerateStatusPrompt` | src/promptGenerator.ts:24-44 | the prompt is the fixed template, then the enabled fields' lines when there are any, then the closing fence |
| `PromptGenerator.PromptBlockIsExtracted` | src/promptGenerator.ts:8-44 | if names and descriptions contain no backticks, parsing the prompt's own block gives back the template body and the dynamic lines |
| `PromptGenerator.EnablePromptInjection` | src/promptGenerator.ts:54-58 | enabling stores the fields and sets the flag |
| `PromptGenerator.DisablePromptInjection` | src/promptGenerator.ts:63-69 | disabling clears the flag, keeps the stored fields and clears the injected prompt |
| `PromptGenerator.OnGenerationStarted` | src/promptGenerator.ts:74-101 | a generation injects the prompt for the stored fields at depth 0 in chat as a system message when enabled, and clears it otherwise |
| `PromptGenerator.ReplayFollowsLastToggle` | src/promptGenerator.ts:47-69 | after any sequence of calls, injection is on exactly when the last toggle was an enable, and the fields are those of the last enable |
| `PromptGenerator.InjectedPromptFollowsLastToggle` | src/promptGenerator.ts:47-101 | the prompt a generation injects is built from the fields of the last enable if that was the last toggle, and is empty otherwise |
| `ImportExport.ExportSettings` | src/utils/importExport.ts:27-44 | the export holds the version, the timestamp and the seven settings under their export names, unchanged |
| `ImportExport.ExportedProps` | src/utils/importExport.ts:33-39 | each export name holds exactly the setting it is paired with, and there are no other names |
| `ImportExport.CopyDefined` | src/utils/importExport.ts:117-144 | a setting is copied exactly when the import defines it, with its value unchanged, and nothing else is copied |
| `ImportExport.ValidateImportData` | src/utils/importExport.ts:96-155 | a falsy or non-object input is rejected with the format error; an object yields exactly its defined settings, renamed to their settings keys |
| `ImportExport.ValidIffObject` | src/utils/importExport.ts:104-106 | the import is accepted exactly for arrays and objects; `null`, `undefined` and every primitive get the format error |
| `ImportExport.ExportImportRoundTrip` | src/utils/importExport.ts:27-155 | importing an export gives back every defined setting unchanged and nothing else |
| `SettingsSchema.DefaultFields` | src/type/settings.ts:45-63 | the two default fields: 好感度 (number, order 0) and 內心話 (text, order 1), both enabled |
| `SettingsSchema.NormalizeField` | src/type/settings.ts:12-19 | a field keeps its given attributes, and its type defaults to `number` |
| `SettingsSchema.NormalizeSettings` | src/type/settings.ts:39-76 | each present key is kept, and each missing key gets its declared default: `false` for the four flags and `debug_mode`, `right`, `zh-TW`, the two default fields, `#d8b4a0`, `#a0b4d8` and every fixed field on |
| `SettingsSchema.DefaultsOfEmptySettings` | src/type/settings.ts:41-76 | a missing settings object yields all the declared defaults: flags off, panel on the right, zh-TW, the two default fields, the two progress colours and every fixed field on |
| `SettingsSchema.NormalizeIdempotent` | src/type/settings.ts:39-76 | normalising an already normalised settings object changes nothing |
| `StatusData.Initial` | src/store/statusData.ts:8-19 | the store starts blank: every text attribute, including `news.type` and `notes`, is empty and there are no custom fields |
| `StatusData.ClearData` | src/store/statusData.ts:22-35 | clearing gives a blank record: every text attribute empty and no custom fields |
| `StatusData.ClearDataIsInitial` | src/store/statusData.ts:8-35 | the cleared record is the initial record, whatever was there before |
| `I18n.DetectSTLanguage` | src/store/i18n.ts:20-33 | English exactly when a non-empty host language not starting with `zh` is present; Chinese otherwise |
| `I18n.ChineseHostsDetected` | src/store/i18n.ts:25-27 | every `zh` host language gives the Chinese interface |
| `I18n.CurrentLanguage` | src/store/i18n.ts:39-48 | a saved `en` is kept; a saved `zh-TW` follows the host |
| `I18n.EnglishIff` | src/store/i18n.ts:20-48 | the interface is English exactly when English was saved or the host asks for a non-Chinese language |
| `I18n.ZhTWDictionary` | src/store/i18n.ts:7-11 | the Chinese dictionary has the English keys, each mapped to itself |
| `I18n.T` | src/store/i18n.ts:51-70 | a non-empty translation is returned when present, and the key itself otherwise |
| `I18n.TIsIdentityInZhTW` | src/store/i18n.ts:7-11 | with the Chinese interface `t` returns its key |
| `I18n.TInEnglish` | src/store/i18n.ts:39-69 | with the English interface, whether saved as `en` or detected from a non-Chinese host under the default `zh-TW`, a translated key gets its translation, and any change comes from `en.json` |
| `I18n.TemplateUsesFirstChunk` | src/store/i18n.ts:53-59 | a tagged template is looked up by its first chunk; interpolated values are ignored |
| `Uuid.Variant` | src/utils/uuid.ts:14 | `(r & 3) \| 8` lies in 8..11 and keeps the low two bits of `r` |
| `Uuid.Fill` | src/utils/uuid.ts:12-16 | the result is as long as the template, keeps its non-placeholder characters, puts a hex digit at each `x` and one of `89ab` at each `y` |
| `Uuid.FillReachesEveryFit` | src/utils/uuid.ts:12-16 | every string of that shape is produced by the nibbles read back off it |
| `Uuid.GenerateUuid` | src/utils/uuid.ts:12-16 | the output is 36 characters, dashes at 8, 13, 18 and 23, `4` at 14, a variant digit at 19 and lower-case hex elsewhere |
| `Uuid.EveryV4IsGenerated` | src/utils/uuid.ts:12-16 | every lower-case version-4 UUID string is a possible output |

## Left out

- The YAML decoder, `Number(string)` and number formatting are parameters. So is `Date.now()`. Their results are whatever the host gives.
- `NaN` and the infinities are not values here. `Number` failing is `None`, which stands for `isNaN`.
- Property lookup on arrays and strings (`length`, indices) and inherited prototype members (`constructor`, ...) is not modelled. Only an object's own keys are visible.
- A message whose `mes` is `undefined` is not modelled. `mes` is a string.
- Logging throughout, the DOM, CSS injection, the Vue/Pinia stores as stateful objects and settings persistence are left out.
- `initMessageListener` and `initPromptInjection` register callbacks on the host event bus, and `initMessageListener` also runs the update once at start-up (src/messageParser.ts:193-194). The registration is left out; the callbacks themselves are modelled.
- `downloadJSON`, `readJSONFile` and `openFileSelector` are browser file I/O and are left out.
- `ImportExport.ValidateImportData`: the `catch` branch is not modelled. It cannot be reached for a decoded JSON value, because the copies only read and write plain properties.
- The version check in `validateImportData` only logs, and is left out.
- `SettingsSchema.NormalizeSettings`: zod's type validation (rejecting wrong types) is not modelled, only its default filling. The random ids of the default fields are parameters.
- The native `crypto.randomUUID` branch of `generateUUID` is left out. The nibbles of `(Math.random() * 16) | 0` are a parameter.
- The repository's entry point calls `enablePromptInjection` with four arguments, while the definition takes one. The `custom_css` setting is also absent from the `Settings` schema. Each definition is modelled as written, with no attempt to reconcile them: import and export work on plain objects.
