/** What `send_message` decides before anything changes: whether the input is
    sent at all, which check refuses it, and the prompt that goes to the API
    (with the conversation so far in front of it when the follow-up mode of
    main_zhuiwen_mode.py is on). */
module SendRequest {
  import opened PyText
  import opened Editions

  /** The text the key field starts with; sending with it is refused. */
  const PLACEHOLDER_KEY := "Bearer YOUR_API_KEY_HERE"

  /** The models offered; the first is selected at start-up. */
  const MODEL_LIST: seq<string> := [
    "gpt-5.1",
    "gpt-5.1-codex",
    "gemini-3-pro-preview",
    "claude-opus-4-5-20251101-thinking",
    "claude-opus-4-5-20251101",
    "claude-haiku-4-5-20251001"
  ]

  const CODING_SCENARIO := "程序代码助手"

  /** The system prompt of each scenario. Python joins the adjacent literals with
      nothing in between, so the programmer prompt runs its bullet points together. */
  const SYSTEM_PROMPTS: map<string, string> := map[
    CODING_SCENARIO :=
      "You are a professional senior programmer."
      + "- Only answer programming-related questions"
      + "- Code first, explanations concise"
      + "- Follow best practices and design patterns"
      + "- Consider edge cases and error handling",
    "通用Ai助手" := "You are a helpful assistant.",
    "中文/英文互译专家" :=
      "你是一位专业的中文和英文语言专家。"
      + "请给出中英文的双译结果，通过分段显示中文翻译和英文翻译结果。"
  ]

  // ---------------------------------------------------------------------------
  // Validation
  // ---------------------------------------------------------------------------

  /** The checks that refuse a send, in the order they are made. */
  datatype Refusal = NoKey | NoModel | BadScenario | NoSaveDir

  /** The position of a check in the order. */
  function Rank(why: Refusal): nat {
    match why
    case NoKey => 0
    case NoModel => 1
    case BadScenario => 2
    case NoSaveDir => 3
  }

  /** The error dialog shown for each refusal. */
  function Alert(why: Refusal): string {
    match why
    case NoKey => "请先在顶部输入您的 API Key。"
    case NoModel => "请选择一个大模型。"
    case BadScenario => "选择的场景配置无效。"
    case NoSaveDir => "请先通过 '选择文件夹' 按钮设置有效的聊天记录保存路径，才能发送对话。"
  }

  /** Whether a check fails, given the stripped key, the model, the scenario and
      whether a save directory is set and is a directory. */
  predicate Fails(why: Refusal, key: string, model: string, scenario: string, saveDirValid: bool,
                  prompts: map<string, string>) {
    match why
    case NoKey => key == "" || key == PLACEHOLDER_KEY
    case NoModel => model == ""
    case BadScenario => scenario !in prompts || prompts[scenario] == ""
    case NoSaveDir => !saveDirValid
  }

  /** What the API call is started with. */
  datatype Request = Request(prompt: string, key: string, model: string, systemPrompt: string)

  datatype Verdict =
    | Ignore                 // nothing but blanks typed: return without a word
    | Refuse(why: Refusal)   // an error dialog, nothing else happens
    | Accept(req: Request)   // the original (stripped) prompt, before any composition

  /** The checks of `send_message`, in order: a blank input is ignored, then the
      first failing check refuses; only when all pass is the send accepted. */
  function Validate(input: string, keyField: string, model: string, scenario: string, saveDirValid: bool,
                    prompts: map<string, string>): Verdict {
    var prompt := Strip(input);
    var key := Strip(keyField);
    if prompt == "" then Ignore
    else if key == "" || key == PLACEHOLDER_KEY then Refuse(NoKey)
    else if model == "" then Refuse(NoModel)
    else if scenario !in prompts || prompts[scenario] == "" then Refuse(BadScenario)
    else if !saveDirValid then Refuse(NoSaveDir)
    else
      Accept(Request(prompt, key, model, prompts[scenario]))
  }

  /** What the verdict means: blank input is ignored; a refusal names a failing
      check with no failing check before it; a send is accepted exactly when no
      check fails, with the stripped prompt and key and the scenario's system
      prompt. */
  lemma ValidateChecks(input: string, keyField: string, model: string, scenario: string, saveDirValid: bool,
                        prompts: map<string, string>)
    ensures var v := Validate(input, keyField, model, scenario, saveDirValid, prompts);
      && (v.Ignore? <==> Strip(input) == "")
      && (v.Refuse? ==>
            Strip(input) != ""
            && Fails(v.why, Strip(keyField), model, scenario, saveDirValid, prompts)
            && forall w :: Rank(w) < Rank(v.why) ==> !Fails(w, Strip(keyField), model, scenario, saveDirValid, prompts))
      && (v.Accept? <==>
            Strip(input) != "" && forall w :: !Fails(w, Strip(keyField), model, scenario, saveDirValid, prompts))
      && (v.Accept? ==>
            scenario in prompts
            && v.req == Request(Strip(input), Strip(keyField), model, prompts[scenario])
            && v.req.prompt != "" && v.req.key != PLACEHOLDER_KEY && v.req.systemPrompt != "")
  {
  }

  /** The checks are made in rank order: on a non-blank prompt, a failing check
      refuses the send as soon as no check before it fails, whatever the checks
      after it would say. */
  lemma FirstFailureRefuses(input: string, keyField: string, model: string, scenario: string, saveDirValid: bool,
                            prompts: map<string, string>, why: Refusal)
    requires Strip(input) != ""
    requires Fails(why, Strip(keyField), model, scenario, saveDirValid, prompts)
    requires forall w :: Rank(w) < Rank(why) ==> !Fails(w, Strip(keyField), model, scenario, saveDirValid, prompts)
    ensures Validate(input, keyField, model, scenario, saveDirValid, prompts) == Refuse(why)
  {
    assert Rank(NoKey) == 0 && Rank(NoModel) == 1 && Rank(BadScenario) == 2;
  }

  /** The settings the window starts with are refused until a key is typed, and,
      once one is, until a save directory is chosen. */
  lemma StartUpSettingsRefused(input: string, key: string)
    requires Strip(input) != ""
    ensures Validate(input, PLACEHOLDER_KEY, MODEL_LIST[0], CODING_SCENARIO, false, SYSTEM_PROMPTS) == Refuse(NoKey)
    ensures Strip(key) != "" && Strip(key) != PLACEHOLDER_KEY ==>
              Validate(input, key, MODEL_LIST[0], CODING_SCENARIO, false, SYSTEM_PROMPTS) == Refuse(NoSaveDir)
  {
    var p := PLACEHOLDER_KEY;
    assert !IsSpace(p[0]) && !IsSpace(p[|p| - 1]);
    StripUnchanged(p);
    assert SYSTEM_PROMPTS[CODING_SCENARIO] != "" by {
      assert |SYSTEM_PROMPTS[CODING_SCENARIO]| > 0;
    }
  }

  /** Every scenario offered has a non-empty system prompt, so the scenario check
      can only refuse a name that is not offered. */
  lemma ScenariosUsable(scenario: string, key: string, input: string)
    requires scenario in SYSTEM_PROMPTS
    requires Strip(input) != "" && Strip(key) != "" && Strip(key) != PLACEHOLDER_KEY
    ensures Validate(input, key, MODEL_LIST[0], scenario, true, SYSTEM_PROMPTS).Accept?
  {
    assert SYSTEM_PROMPTS.Keys == {CODING_SCENARIO, "通用Ai助手", "中文/英文互译专家"};
    assert |SYSTEM_PROMPTS[scenario]| > 0;
  }

  // ---------------------------------------------------------------------------
  // Follow-up composition (main_zhuiwen_mode.py only)
  // ---------------------------------------------------------------------------

  const PREAMBLE := "接下来的回复请基于之前的聊天记录进行生成，我们之前的聊天记录如下："
  const HISTORY_OPEN := "\n--- 历史聊天记录 ---\n"
  const HISTORY_CLOSE := "\n--- 历史聊天记录结束 ---\n"

  /** Whether the history is put in front of the prompt: only in the follow-up
      edition, and only while its checkbox is ticked. */
  predicate Composes(edition: Edition, continuous: bool) {
    edition == FollowUp && continuous
  }

  /** The prompt sent to the API. */
  function FinalPrompt(edition: Edition, continuous: bool, history: string, original: string): (r: string)
    ensures !Composes(edition, continuous) ==> r == original
    ensures Composes(edition, continuous) ==>
              |r| == |PREAMBLE + HISTORY_OPEN| + |history| + |HISTORY_CLOSE| + |original|
  {
    if Composes(edition, continuous) then PREAMBLE + HISTORY_OPEN + history + HISTORY_CLOSE + original
    else original
  }

  /** The system line shown when the history was composed in; it reports the
      number of characters of history. */
  function ComposedNotice(historyLength: nat): string {
    "\n[系统消息] 追问模式已启用，拼接了 " + NatToString(historyLength) + " 个字符的历史记录。"
  }

  /** Reads the history and the original prompt back out of a composed prompt,
      given the history's length. */
  function Decompose(composed: string, historyLength: nat): Option<(string, string)> {
    var head := |PREAMBLE + HISTORY_OPEN|;
    if |composed| < head + historyLength + |HISTORY_CLOSE| then None
    else if composed[..head] != PREAMBLE + HISTORY_OPEN then None
    else if composed[head + historyLength..head + historyLength + |HISTORY_CLOSE|] != HISTORY_CLOSE then None
    else Some((composed[head..head + historyLength], composed[head + historyLength + |HISTORY_CLOSE|..]))
  }

  /** Nothing is lost in composition: from the composed prompt and the length the
      notice reports, the history and the user's own prompt come back exactly. */
  lemma {:induction false} DecomposeComposed(history: string, original: string)
    ensures Decompose(FinalPrompt(FollowUp, true, history, original), |history|) == Some((history, original))
  {
    var head := PREAMBLE + HISTORY_OPEN;
    var r := FinalPrompt(FollowUp, true, history, original);
    var h := |head|;
    var n := |history|;
    var c := |HISTORY_CLOSE|;
    assert r == head + history + HISTORY_CLOSE + original;
    assert r[..h] == head;
    assert r[h..h + n] == history;
    assert r[h + n..h + n + c] == HISTORY_CLOSE;
    assert r[h + n + c..] == original;
  }

  /** The count in the notice reads back as the history's length. */
  lemma NoticeReportsLength(history: string)
    ensures ComposedNotice(|history|)[|"\n[系统消息] 追问模式已启用，拼接了 "|..|ComposedNotice(|history|)| - |" 个字符的历史记录。"|]
              == NatToString(|history|)
    ensures ParseNat(NatToString(|history|)) == |history|
  {
    ParseNatToString(|history|);
  }
}
