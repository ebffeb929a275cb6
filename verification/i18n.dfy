/** The translation store (src/store/i18n.ts): choosing the interface
    language and looking a key up in its dictionary. The English dictionary
    (the bundled `en.json`) and the host's `i18next.language` are
    parameters. */
module I18n {
  import opened Wrappers
  import opened JsString
  import opened JsValue
  import opened SettingsSchema

  /** `detectSTLanguage`: `host` is `window.i18next?.language`, `None`
      when the page has no `window` or no `i18next`. Any `zh` language counts
      as Chinese, any other present one as English, and a missing (or empty,
      hence falsy) one falls back to Chinese. */
  function DetectSTLanguage(host: Option<string>): (l: Language)
    ensures l == En <==> host.Some? && host.value != "" && !StartsWith(host.value, "zh")
  {
    if host.Some? && host.value != "" then
      if StartsWith(host.value, "zh") then ZhTW else En
    else ZhTW
  }

  /** Simplified and traditional Chinese hosts both get the Chinese interface. */
  lemma ChineseHostsDetected(region: string)
    ensures DetectSTLanguage(Some("zh" + region)) == ZhTW
  {
    assert ("zh" + region)[..2] == "zh";
  }

  /** `currentLanguage`: a saved `zh-TW`, which is also the default, defers
      to the host; a saved `en` is kept whatever the host says. */
  function CurrentLanguage(saved: Language, host: Option<string>): (l: Language)
    ensures saved == En ==> l == En
    ensures saved == ZhTW ==> l == DetectSTLanguage(host)
  {
    if saved == ZhTW then DetectSTLanguage(host) else saved
  }

  /** English is shown exactly when it was chosen or the host asks for a
      language that is not Chinese. */
  lemma EnglishIff(saved: Language, host: Option<string>)
    ensures CurrentLanguage(saved, host) == En <==>
      saved == En || (host.Some? && host.value != "" && !StartsWith(host.value, "zh"))
  {
  }

  /** The dictionary built from the keys of `en`: every key translates to
      itself. */
  function ZhTWDictionary(en: map<string, string>): (d: map<string, string>)
    ensures d.Keys == en.Keys
    ensures forall k :: k in d ==> d[k] == k
  {
    map k | k in en.Keys :: k
  }

  /** `translations[lang]`. */
  function Dictionary(en: map<string, string>, lang: Language): map<string, string> {
    if lang == ZhTW then ZhTWDictionary(en) else en
  }

  /** What `t` is called with: a plain string, or the literal chunks of a
      tagged template (there is always at least the first one). */
  datatype TKey = Plain(key: string) | TemplateStrings(first: string, rest: seq<string>)

  /** `finalKey`: a template is looked up by its first chunk only. */
  function FinalKey(k: TKey): string {
    match k
    case Plain(s) => s
    case TemplateStrings(first, _) => first
  }

  /** `t(key, ...values)`: the translation when the dictionary holds a
      non-empty one, the key itself otherwise. */
  function T(en: map<string, string>, saved: Language, host: Option<string>, key: TKey, values: seq<Value>): (r: string)
    ensures var d := Dictionary(en, CurrentLanguage(saved, host));
      && (FinalKey(key) in d && d[FinalKey(key)] != "" ==> r == d[FinalKey(key)])
      && (FinalKey(key) !in d || d[FinalKey(key)] == "" ==> r == FinalKey(key))
  {
    var finalKey := FinalKey(key);
    var dict := Dictionary(en, CurrentLanguage(saved, host));
    if finalKey in dict && dict[finalKey] != "" then dict[finalKey] else finalKey
  }

  /** With the Chinese interface `t` is the identity on keys. */
  lemma TIsIdentityInZhTW(en: map<string, string>, host: Option<string>, key: TKey, values: seq<Value>)
    requires CurrentLanguage(ZhTW, host) == ZhTW
    ensures T(en, ZhTW, host, key, values) == FinalKey(key)
  {
  }

  /** With the English interface, whether chosen or detected from the host,
      a key `en.json` translates gets its translation, and any other key is
      returned unchanged. */
  lemma TInEnglish(en: map<string, string>, saved: Language, host: Option<string>, k: string, values: seq<Value>)
    requires CurrentLanguage(saved, host) == En
    ensures var r := T(en, saved, host, Plain(k), values);
      (r != k ==> k in en && r == en[k]) && (k in en && en[k] != "" ==> r == en[k])
  {
  }

  /** Interpolated values never reach the lookup: a tagged template
      translates like its first chunk on its own. */
  lemma TemplateUsesFirstChunk(en: map<string, string>, saved: Language, host: Option<string>,
                               first: string, rest: seq<string>, values: seq<Value>)
    ensures T(en, saved, host, TemplateStrings(first, rest), values) == T(en, saved, host, Plain(first), [])
  {
  }
}
