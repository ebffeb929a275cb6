/** Prompt assembly and injection (src/promptGenerator.ts): the fixed
    template, the lines added for the user's enabled fields, and the
    enable/disable flag that decides what is injected when a generation
    starts. Host calls are returned as values. */
module PromptGenerator {
  import opened Wrappers
  import opened JsString
  import opened SettingsSchema
  import Fence
  import MessageParser

  // ---------------------------------------------------------------------
  // The fixed template, line by line (long lines are split so that each
  // literal stays short)
  // ---------------------------------------------------------------------

  const Heading: string := "狀態欄:"
  const Instruction: string := "在 所有文字 結束之後必須生成以下代碼塊(含)狀態欄:"
  const NoRepeat: string := "**與上一輪不允許相同**"
  const TimeLine: string := "時間: ${當前時間, 格式為 yyyy年MM月dd日．星期．HH時mm分}"
  const PlaceLine: string := "地點: ${當前劇情地點, 格式為 地點層1．地點層2}"
  const WeatherLine: string := "天氣: ${當前劇情天日或環境溫度, 格式為 文雅形容天氣光線．溫度．天氣}"
  const NewsLine: string := "新聞:"
  const TitleLineHead: string := "  標題: ${當前電視上可能播放的新聞標題。"
  const TitleLineMiddle: string := "可以是社會新聞、研究新聞、科普新聞, "
  const TitleLineTail: string := "需與劇情或者人物相關。帶點幽默微搞笑。}"
  const ContentLine: string := "  內文: ${這則新聞的內文,以新聞語氣100字以內播報。}"
  const TitleLine: string := TitleLineHead + TitleLineMiddle + TitleLineTail

  /** The text before the example block. */
  const TemplatePreamble: string := Heading + "\n" + Instruction + "\n" + NoRepeat + "\n"

  /** The example block's content: the keys the AI is asked to fill. */
  const TemplateBody: string :=
    TimeLine + "\n" + PlaceLine + "\n" + WeatherLine + "\n" + NewsLine + "\n" + TitleLine + "\n" + ContentLine

  /** `FIXED_PROMPT_TEMPLATE`: the preamble, then an open ```myst block. */
  const FixedPromptTemplate: string := TemplatePreamble + Fence.Opener + "\n" + TemplateBody

  lemma PreambleHasNoBacktick()
    ensures Fence.NoBacktick(TemplatePreamble)
  {
    // Each line is checked one character at a time; the empty `if` splits
    // the index range into blocks of 16, so each case has few characters to unfold.
    forall i | 0 <= i < |Heading| ensures Heading[i] != '`' {  }
    forall i | 0 <= i < |Instruction| ensures Instruction[i] != '`' { if i < 16 {} else {} }
    forall i | 0 <= i < |NoRepeat| ensures NoRepeat[i] != '`' {  }
    Fence.NoBacktickConcat(Heading, "\n");
    Fence.NoBacktickConcat(Heading + "\n", Instruction);
    Fence.NoBacktickConcat(Heading + "\n" + Instruction, "\n");
    Fence.NoBacktickConcat(Heading + "\n" + Instruction + "\n", NoRepeat);
    Fence.NoBacktickConcat(Heading + "\n" + Instruction + "\n" + NoRepeat, "\n");
  }

  lemma BodyHasNoBacktick()
    ensures Fence.NoBacktick(TemplateBody)
    ensures TemplateBody[0] == TimeLine[0] == '時'
  {
    // Each line is checked one character at a time; the empty `if` splits
    // the index range into blocks of 16, so each case has few characters to unfold.
    forall i | 0 <= i < |TimeLine| ensures TimeLine[i] != '`' { if i < 16 {} else if i < 32 {} else {} }
    forall i | 0 <= i < |PlaceLine| ensures PlaceLine[i] != '`' { if i < 16 {} else {} }
    forall i | 0 <= i < |WeatherLine| ensures WeatherLine[i] != '`' { if i < 16 {} else if i < 32 {} else {} }
    forall i | 0 <= i < |NewsLine| ensures NewsLine[i] != '`' {  }
    forall i | 0 <= i < |TitleLineHead| ensures TitleLineHead[i] != '`' { if i < 16 {} else {} }
    forall i | 0 <= i < |TitleLineMiddle| ensures TitleLineMiddle[i] != '`' { if i < 16 {} else {} }
    forall i | 0 <= i < |TitleLineTail| ensures TitleLineTail[i] != '`' { if i < 16 {} else {} }
    forall i | 0 <= i < |ContentLine| ensures ContentLine[i] != '`' { if i < 16 {} else {} }
    Fence.NoBacktickConcat(TitleLineHead, TitleLineMiddle);
    Fence.NoBacktickConcat(TitleLineHead + TitleLineMiddle, TitleLineTail);
    var acc := TimeLine;
    Fence.NoBacktickConcat(acc, "\n"); Fence.NoBacktickConcat(acc + "\n", PlaceLine);
    acc := acc + "\n" + PlaceLine;
    Fence.NoBacktickConcat(acc, "\n"); Fence.NoBacktickConcat(acc + "\n", WeatherLine);
    acc := acc + "\n" + WeatherLine;
    Fence.NoBacktickConcat(acc, "\n"); Fence.NoBacktickConcat(acc + "\n", NewsLine);
    acc := acc + "\n" + NewsLine;
    Fence.NoBacktickConcat(acc, "\n"); Fence.NoBacktickConcat(acc + "\n", TitleLine);
    acc := acc + "\n" + TitleLine;
    Fence.NoBacktickConcat(acc, "\n"); Fence.NoBacktickConcat(acc + "\n", ContentLine);
  }

  /** The template asks for exactly the keys the parser's fallback chains
      accept: each line of the example block starts with a key the mapper
      reads for the matching attribute. */
  lemma TemplateKeysAreParsed()
    ensures StartsWith(TimeLine, "時間:") && ["時間"] in MessageParser.DatePaths
    ensures StartsWith(PlaceLine, "地點:") && ["地點"] in MessageParser.LocationPaths
    ensures StartsWith(WeatherLine, "天氣:") && ["天氣"] in MessageParser.WeatherPaths
    ensures NewsLine == "新聞:"
    ensures StartsWith(TitleLine, "  標題:") && ["新聞", "標題"] in MessageParser.NewsTitlePaths
    ensures StartsWith(ContentLine, "  內文:") && ["新聞", "內文"] in MessageParser.NewsContentPaths
  {
    assert TimeLine[0] == '時' && TimeLine[1] == '間' && TimeLine[2] == ':';
    assert WeatherLine[0] == '天' && WeatherLine[1] == '氣' && WeatherLine[2] == ':';
    assert MessageParser.DatePaths[1] == ["時間"];
    assert MessageParser.LocationPaths[1] == ["地點"];
    assert MessageParser.WeatherPaths[1] == ["天氣"];
    assert MessageParser.NewsTitlePaths[1] == ["新聞", "標題"];
    assert MessageParser.NewsContentPaths[1] == ["新聞", "內文"];
    assert TitleLine[..5] == TitleLineHead[..5];
  }

  // ---------------------------------------------------------------------
  // Dynamic lines (`generateStatusPrompt`)
  // ---------------------------------------------------------------------

  /** `fields.filter(f => f.enabled)`. */
  function EnabledFields(fields: seq<Field>): (r: seq<Field>)
    ensures |r| <= |fields|
    ensures forall k :: 0 <= k < |r| ==> r[k].enabled && r[k] in fields
    ensures forall i :: 0 <= i < |fields| && fields[i].enabled ==> fields[i] in r
  {
    if |fields| == 0 then []
    else
      var init := EnabledFields(fields[..|fields| - 1]);
      var f := fields[|fields| - 1];
      assert forall i :: 0 <= i < |fields| - 1 ==> fields[i] == fields[..|fields| - 1][i];
      if f.enabled then init + [f] else init
  }

  /** Filtering distributes over concatenation, so the enabled fields keep
      their relative order. */
  lemma {:induction false} EnabledFieldsAppend(a: seq<Field>, b: seq<Field>)
    ensures EnabledFields(a + b) == EnabledFields(a) + EnabledFields(b)
    decreases |b|
  {
    if |b| == 0 {
      assert a + b == a;
    } else {
      var b' := b[..|b| - 1];
      assert (a + b)[..|a + b| - 1] == a + b';
      EnabledFieldsAppend(a, b');
    }
  }

  /** The line asked for one enabled field: its description as the
      placeholder when that is not blank, otherwise "<name>的值". */
  function FieldLine(f: Field): (line: string)
    ensures StartsWith(line, f.name + ": ${") && line[|line| - 1] == '}'
    ensures Trim(f.description) != "" ==> line == f.name + ": ${" + f.description + "}"
    ensures Trim(f.description) == "" ==> line == f.name + ": ${" + f.name + "的值}"
  {
    if f.description != "" && Trim(f.description) != "" then
      f.name + ": ${" + f.description + "}"
    else
      f.name + ": ${" + f.name + "的值}"
  }

  function DynamicLines(fields: seq<Field>): (lines: seq<string>)
    ensures |lines| == |EnabledFields(fields)|
    ensures forall k :: 0 <= k < |lines| ==> lines[k] == FieldLine(EnabledFields(fields)[k])
  {
    var en := EnabledFields(fields);
    seq(|en|, k requires 0 <= k < |en| => FieldLine(en[k]))
  }

  /** The dynamic part is empty exactly when no field is enabled: every line
      is non-empty. */
  lemma DynamicPromptEmptyIff(fields: seq<Field>)
    ensures Join(DynamicLines(fields), "\n") == "" <==> |EnabledFields(fields)| == 0
  {
    var lines := DynamicLines(fields);
    if |lines| > 0 {
      forall k | 0 <= k < |lines| ensures lines[k] != "" {
        assert StartsWith(lines[k], EnabledFields(fields)[k].name + ": ${");
      }
      JoinNonEmpty(lines, "\n");
    }
  }

  /** The full prompt: the template, the enabled fields' lines in list order
      (if any), and the closing fence. */
  function GenerateStatusPrompt(fields: seq<Field>): (prompt: string)
    ensures StartsWith(prompt, FixedPromptTemplate)
    ensures |prompt| >= |FixedPromptTemplate| + 4 && prompt[|prompt| - 4..] == "\n```"
    ensures |EnabledFields(fields)| == 0 ==> prompt == FixedPromptTemplate + "\n```"
    ensures |EnabledFields(fields)| > 0 ==>
      prompt == FixedPromptTemplate + "\n" + Join(DynamicLines(fields), "\n") + "\n```"
  {
    var dynamicPrompt := Join(DynamicLines(fields), "\n");
    DynamicPromptEmptyIff(fields);
    AssembleShape(FixedPromptTemplate, dynamicPrompt);
    Assemble(FixedPromptTemplate, dynamicPrompt)
  }

  /** The final concatenation: the dynamic part, when non-empty, goes on its
      own lines between the template and the closing fence. */
  function Assemble(template: string, dynamicPrompt: string): string {
    if dynamicPrompt != "" then template + "\n" + dynamicPrompt + "\n```"
    else template + "\n```"
  }

  lemma AssembleShape(template: string, dynamicPrompt: string)
    ensures var prompt := Assemble(template, dynamicPrompt);
      && StartsWith(prompt, template)
      && |prompt| >= |template| + 4 && prompt[|prompt| - 4..] == "\n```"
  {
    var prompt := Assemble(template, dynamicPrompt);
    assert prompt[..|template|] == template;
  }

  /** The joined dynamic lines are backtick-free when the enabled fields'
      names and descriptions are. */
  lemma {:induction false} DynamicLinesHaveNoBacktick(lines: seq<string>)
    requires forall k :: 0 <= k < |lines| ==> Fence.NoBacktick(lines[k])
    ensures Fence.NoBacktick(Join(lines, "\n"))
  {
    if |lines| > 1 {
      DynamicLinesHaveNoBacktick(lines[..|lines| - 1]);
      Fence.NoBacktickConcat(Join(lines[..|lines| - 1], "\n"), "\n");
      Fence.NoBacktickConcat(Join(lines[..|lines| - 1], "\n") + "\n", lines[|lines| - 1]);
    }
  }

  lemma FieldLineHasNoBacktick(f: Field)
    requires Fence.NoBacktick(f.name) && Fence.NoBacktick(f.description)
    ensures Fence.NoBacktick(FieldLine(f))
  {
    Fence.NoBacktickConcat(f.name, ": ${");
    Fence.NoBacktickConcat(f.name + ": ${", f.description);
    Fence.NoBacktickConcat(f.name + ": ${" + f.description, "}");
    Fence.NoBacktickConcat(f.name + ": ${", f.name);
    Fence.NoBacktickConcat(f.name + ": ${" + f.name, "的值}");
  }

  /** The prompt's example block is one the parser extracts: applied to the
      generated prompt, the block pattern captures the fixed keys followed by
      the enabled fields' lines, provided no enabled field's name or
      description contains a backtick. */
  lemma PromptBlockIsExtracted(fields: seq<Field>)
    requires forall f :: f in fields && f.enabled ==>
      Fence.NoBacktick(f.name) && Fence.NoBacktick(f.description)
    ensures |EnabledFields(fields)| == 0 ==>
      Fence.Capture(GenerateStatusPrompt(fields)) == Some(TemplateBody + "\n")
    ensures |EnabledFields(fields)| > 0 ==>
      Fence.Capture(GenerateStatusPrompt(fields)) ==
        Some(TemplateBody + "\n" + Join(DynamicLines(fields), "\n") + "\n")
  {
    PreambleHasNoBacktick();
    BodyHasNoBacktick();
    var lines := DynamicLines(fields);
    var en := EnabledFields(fields);
    forall k | 0 <= k < |lines| ensures Fence.NoBacktick(lines[k]) {
      FieldLineHasNoBacktick(en[k]);
    }
    DynamicLinesHaveNoBacktick(lines);
    DynamicPromptEmptyIff(fields);
    AssembleCapture(TemplatePreamble, TemplateBody, Join(lines, "\n"));
  }

  lemma AssembleCapture(pre: string, body: string, dyn: string)
    requires Fence.NoBacktick(pre) && Fence.NoBacktick(body) && Fence.NoBacktick(dyn)
    requires |body| > 0 && !IsSpace(body[0])
    ensures dyn == "" ==> Fence.Capture(Assemble(pre + Fence.Opener + "\n" + body, dyn)) == Some(body + "\n")
    ensures dyn != "" ==> Fence.Capture(Assemble(pre + Fence.Opener + "\n" + body, dyn)) == Some(body + "\n" + dyn + "\n")
  {
    var head := pre + Fence.Opener + "\n";
    assert "\n```" == "\n" + Fence.Closer;
    Fence.NoBacktickConcat(body, "\n");
    if dyn != "" {
      var x := body + "\n" + dyn + "\n";
      Fence.NoBacktickConcat(body + "\n", dyn);
      Fence.NoBacktickConcat(body + "\n" + dyn, "\n");
      assert Assemble(head + body, dyn) == head + x + Fence.Closer;
      Fence.CaptureOfWrapped(pre, x);
    } else {
      var x := body + "\n";
      assert Assemble(head + body, dyn) == head + x + Fence.Closer;
      Fence.CaptureOfWrapped(pre, x);
    }
  }

  // ---------------------------------------------------------------------
  // Injection flag (`enablePromptInjection`, `disablePromptInjection`,
  // `onGenerationStarted`)
  // ---------------------------------------------------------------------

  const PromptKey: string := "status-tracking-prompt"

  datatype PromptRole = SystemRole

  /** A `setExtensionPrompt` call: always in-chat at depth 0 and excluded
      from world-info scanning; only the generation-time call names a role. */
  datatype ExtensionPromptCall = SetExtensionPrompt(
    key: string, value: string, inChat: bool, depth: int, scan: bool, role: Option<PromptRole>)

  /** The module's two variables: the last fields handed over and the flag. */
  datatype InjectionState = InjectionState(currentFields: seq<Field>, isEnabled: bool)

  const InitialInjection := InjectionState([], false)

  function ClearPromptCall(): ExtensionPromptCall {
    SetExtensionPrompt(PromptKey, "", true, 0, false, None)
  }

  function EnablePromptInjection(st: InjectionState, fields: seq<Field>): (st': InjectionState)
    ensures st'.isEnabled && st'.currentFields == fields
  {
    InjectionState(fields, true)
  }

  /** Disabling clears the injected prompt at once; the remembered fields stay. */
  function DisablePromptInjection(st: InjectionState): (r: (InjectionState, ExtensionPromptCall))
    ensures !r.0.isEnabled && r.0.currentFields == st.currentFields
    ensures r.1.key == PromptKey && r.1.value == ""
  {
    (InjectionState(st.currentFields, false), ClearPromptCall())
  }

  /** At each generation: the empty prompt when disabled, otherwise the prompt
      for the remembered fields, as a system message. */
  function OnGenerationStarted(st: InjectionState): (call: ExtensionPromptCall)
    ensures call.key == PromptKey && call.inChat && call.depth == 0 && !call.scan
    ensures !st.isEnabled ==> call.value == ""
    ensures st.isEnabled ==> call.value == GenerateStatusPrompt(st.currentFields) && call.role == Some(SystemRole)
  {
    if !st.isEnabled then ClearPromptCall()
    else SetExtensionPrompt(PromptKey, GenerateStatusPrompt(st.currentFields), true, 0, false, Some(SystemRole))
  }

  /** The events the module reacts to. */
  datatype InjectionEvent = Enable(fields: seq<Field>) | Disable | GenerationStarted

  function Apply(st: InjectionState, ev: InjectionEvent): InjectionState {
    match ev
    case Enable(fs) => EnablePromptInjection(st, fs)
    case Disable => DisablePromptInjection(st).0
    case GenerationStarted => st
  }

  /** The state after a sequence of events. */
  function Replay(st: InjectionState, events: seq<InjectionEvent>): InjectionState
    decreases |events|
  {
    if |events| == 0 then st else Apply(Replay(st, events[..|events| - 1]), events[|events| - 1])
  }

  /** The most recent enable or disable event, if any. */
  function LastToggle(events: seq<InjectionEvent>): Option<InjectionEvent>
    decreases |events|
  {
    if |events| == 0 then None
    else if !events[|events| - 1].GenerationStarted? then Some(events[|events| - 1])
    else LastToggle(events[..|events| - 1])
  }

  /** From the initial state, the prompt injected at a generation depends only
      on the last toggle: the prompt for the fields of the last enable, or the
      empty string when the last toggle was a disable or there was none. */
  lemma {:induction false} InjectedPromptFollowsLastToggle(events: seq<InjectionEvent>)
    ensures var call := OnGenerationStarted(Replay(InitialInjection, events));
      match LastToggle(events)
      case Some(Enable(fs)) => call.value == GenerateStatusPrompt(fs)
      case _ => call.value == ""
    decreases |events|
  {
    ReplayFollowsLastToggle(events);
  }

  lemma {:induction false} ReplayFollowsLastToggle(events: seq<InjectionEvent>)
    ensures var st := Replay(InitialInjection, events);
      match LastToggle(events)
      case Some(Enable(fs)) => st.isEnabled && st.currentFields == fs
      case _ => !st.isEnabled
    decreases |events|
  {
    if |events| > 0 {
      ReplayFollowsLastToggle(events[..|events| - 1]);
    }
  }
}
