/** The chat window (`AIChatApp`) of either edition, reduced to the state its
    core works on: the settings read at send time, the input box, the output
    widget's runs and bold ranges, the code-block flag, the cached prompt and
    answer, and the records handed to the history file. Each method is one
    handler; a stream's callbacks run in the order the worker queues them. */
module ChatApp {
  import opened PyText
  import opened Editions
  import opened StreamDecoder
  import opened Markup
  import opened SendRequest

  const AI_HEADER := "\n--- AI 助手: ---\n"
  const END_MARK := "\n[对话结束]\n"
  const FILE_SUFFIX := "-chatbot-data.md"

  /** The echo of the user's prompt, with the model and scenario it goes to. */
  function UserEcho(model: string, scenario: string, prompt: string): string {
    "\n--- 用户 (模型: " + model + ", 场景: " + scenario + "): ---\n" + prompt + "\n"
  }

  /** The error line each edition shows when the stream raised. */
  function ErrorText(edition: Edition, f: Failure): string {
    match edition
    case Standard => "\n[API 错误]：" + Message(f) + "\n"
    case FollowUp => "\n[错误信息] API 调用失败或网络错误: " + Message(f) + "\n"
  }

  /** The line shown once a record is written to the day's file. */
  function SavedNotice(date: string): string {
    "\n[系统消息] 对话已保存至文件: " + date + FILE_SUFFIX + "\n"
  }

  /** `get_conversation_history`: the widget's whole text, stripped. */
  function History(display: seq<Run>): string {
    Strip(WidgetText(display))
  }

  /** One conversation appended to the history file. */
  datatype Record = Record(date: string, time: string, model: string, prompt: string, response: string)

  /** The clock and the file system when the record is written: the day as
      `%Y%m%d`, the time as `%H:%M:%S`, and whether appending to the file works. */
  datatype SaveEnv = SaveEnv(date: string, time: string, writeOk: bool)

  /** What a press of the send button leads to. */
  datatype Outcome = Ignored | Declined(alert: string) | Started(req: Request)

  /** Whether a stream that ended this way is saved: always after success; after
      an exception only in the follow-up edition. */
  predicate SavesAfter(edition: Edition, end: StreamEnd) {
    end.Finished? || edition == FollowUp
  }

  class ChatWindow {
    const edition: Edition
    /** `SYSTEM_PROMPT_MAP`: the system prompt of each scenario. */
    const systemPromptMap: map<string, string>

    var apiKey: string
    var selectedModel: string
    var scenario: string
    /** `save_directory` is set and is a directory. */
    var saveDirValid: bool
    /** The follow-up checkbox; only the follow-up edition has and reads it. */
    var continuousMode: bool

    /** The input box and whether it accepts input. */
    var input: string
    var inputEnabled: bool

    /** The output widget: its runs of tagged text and its bold ranges. */
    var display: seq<Run>
    var bold: seq<Span>

    var inCodeBlock: bool
    var currentUserPrompt: string
    var currentAiResponse: string

    /** What has been appended to the history file, in order. */
    var saved: seq<Record>

    constructor(edition: Edition)
      ensures this.edition == edition && systemPromptMap == SYSTEM_PROMPTS
      ensures apiKey == PLACEHOLDER_KEY && selectedModel == MODEL_LIST[0] && scenario == CODING_SCENARIO
      ensures !saveDirValid && continuousMode
      ensures input == "" && inputEnabled
      ensures display == [] && bold == [] && !inCodeBlock
      ensures currentUserPrompt == "" && currentAiResponse == "" && saved == []
    {
      this.edition := edition;
      systemPromptMap := SYSTEM_PROMPTS;
      apiKey := PLACEHOLDER_KEY;
      selectedModel := MODEL_LIST[0];
      scenario := CODING_SCENARIO;
      saveDirValid := false;
      continuousMode := true;
      input := "";
      inputEnabled := true;
      display := [];
      bold := [];
      inCodeBlock := false;
      currentUserPrompt := "";
      currentAiResponse := "";
      saved := [];
    }

    /** `_append_simple_text`. */
    method AppendSimpleText(text: string, tag: Tag)
      modifies this`display
      ensures display == old(display) + [Run(text, tag)]
    {
      display := display + [Run(text, tag)];
    }

    /** The follow-up step of `send_message`: when the mode composes, put the
        conversation so far in front of the prompt and show how long it was;
        otherwise send the prompt as typed and show nothing. */
    method ComposePrompt(original: string) returns (finalPrompt: string)
      modifies this`display
      ensures finalPrompt == FinalPrompt(edition, continuousMode, History(old(display)), original)
      ensures display == old(display)
                + if Composes(edition, continuousMode)
                  then [Run(ComposedNotice(|History(old(display))|), AiResponse)] else []
    {
      finalPrompt := original;
      if Composes(edition, continuousMode) {
        var history := History(display);
        finalPrompt := FinalPrompt(edition, continuousMode, history, original);
        AppendSimpleText(ComposedNotice(|history|), AiResponse);
      }
    }

    /** `send_message`: validate; on acceptance, start the turn. A blank or
        refused send changes nothing. */
    method SendMessage() returns (outcome: Outcome)
      modifies this`display, this`inCodeBlock, this`currentUserPrompt, this`currentAiResponse
      modifies this`input, this`inputEnabled
      ensures var v := Validate(old(input), apiKey, selectedModel, scenario, saveDirValid, systemPromptMap);
              !v.Accept? ==> outcome == (if v.Ignore? then Ignored else Declined(Alert(v.why))) && unchanged(this)
      ensures var v := Validate(old(input), apiKey, selectedModel, scenario, saveDirValid, systemPromptMap);
              v.Accept? ==> outcome == Started(Sent(v.req, old(display))) && Begun(v.req, old(display))
    {
      var v := Validate(input, apiKey, selectedModel, scenario, saveDirValid, systemPromptMap);
      if v.Ignore? {
        return Ignored;
      } else if v.Refuse? {
        return Declined(Alert(v.why));
      }
      var sent := BeginTurn(v.req);
      outcome := Started(sent);
    }

    /** The request handed to the worker: the accepted one, with the prompt the
        follow-up mode composes from the display `before` the send. */
    function Sent(req: Request, before: seq<Run>): Request
      reads this
    {
      req.(prompt := FinalPrompt(edition, continuousMode, History(before), req.prompt))
    }

    /** The state after an accepted send, from the display `before` it: the
        composition notice if any, the echo of the original prompt and the AI
        header are shown; the code-block flag is down; the original prompt and an
        empty answer are cached; the input box is empty and locked. */
    ghost predicate Begun(req: Request, before: seq<Run>)
      reads this
    {
      && display == before
           + (if Composes(edition, continuousMode) then [Run(ComposedNotice(|History(before)|), AiResponse)] else [])
           + [Run(UserEcho(selectedModel, scenario, req.prompt), User), Run(AI_HEADER, AiResponse)]
      && !inCodeBlock && currentUserPrompt == req.prompt && currentAiResponse == ""
      && input == "" && !inputEnabled
    }

    /** The accepted branch of `send_message`: compose, then start the turn. */
    method BeginTurn(req: Request) returns (sent: Request)
      modifies this`display, this`inCodeBlock, this`currentUserPrompt, this`currentAiResponse
      modifies this`input, this`inputEnabled
      ensures sent == Sent(req, old(display)) && Begun(req, old(display))
    {
      var finalPrompt := ComposePrompt(req.prompt);
      StartTurn(req.prompt);
      sent := req.(prompt := finalPrompt);
    }

    /** The rest of `send_message` once the prompt is settled: leave any code
        block, cache the original prompt and an empty answer, lock the input,
        echo the prompt under the AI header and clear the input box. */
    method StartTurn(original: string)
      modifies this`display, this`inCodeBlock, this`currentUserPrompt, this`currentAiResponse
      modifies this`input, this`inputEnabled
      ensures display == old(display) + [Run(UserEcho(selectedModel, scenario, original), User), Run(AI_HEADER, AiResponse)]
      ensures !inCodeBlock && currentUserPrompt == original && currentAiResponse == ""
      ensures input == "" && !inputEnabled
    {
      inCodeBlock := false;
      currentUserPrompt := original;
      currentAiResponse := "";
      inputEnabled := false;
      AppendSimpleText(UserEcho(selectedModel, scenario, original), User);
      AppendSimpleText(AI_HEADER, AiResponse);
      input := "";
    }

    /** `_process_stream_chunk`: a chunk with fences is split on them, each fence
        toggles the flag and is inserted under the new state's tag, and each
        non-empty piece is inserted under the current one; a chunk without a
        fence is inserted whole and may trigger the bold rescan. */
    method ProcessStreamChunk(chunk: string)
      modifies this`display, this`bold, this`inCodeBlock, this`currentAiResponse
      ensures Tagger(display, bold, inCodeBlock, currentAiResponse)
                == Ingest(Tagger(old(display), old(bold), old(inCodeBlock), old(currentAiResponse)), chunk)
    {
      if Contains(chunk, FENCE) {
        FencedChunk(inCodeBlock, chunk);
        SplitJoin(chunk, FENCE);
        TagFences(chunk);
      } else {
        PlainChunk(inCodeBlock, chunk);
        var tag := TagFor(inCodeBlock);
        currentAiResponse := currentAiResponse + chunk;
        display := display + [Run(chunk, tag)];
        if !inCodeBlock && Contains(chunk, BOLD_MARK) {
          ApplyBoldTags();
        }
      }
    }

    /** The fence branch of `_process_stream_chunk`: the pieces of the split and
        the fences between them are shown and added to the answer, the flag
        toggled at each fence. */
    method TagFences(chunk: string)
      modifies this`display, this`inCodeBlock, this`currentAiResponse
      ensures var parts := Split(chunk, FENCE);
              && display == old(display) + PartsRuns(old(inCodeBlock), parts)
              && inCodeBlock == Flip(old(inCodeBlock), |parts| - 1)
              && currentAiResponse == old(currentAiResponse) + Join(parts, FENCE)
    {
      var runs, flag, added := FencePieces(inCodeBlock, Split(chunk, FENCE));
      display := display + runs;
      inCodeBlock := flag;
      currentAiResponse := currentAiResponse + added;
    }

    /** `_apply_bold_tags`: drop every bold range, then tag the group of each
        match of the bold pattern over the widget's whole text. Each match opens
        at the next `**` and closes at the first `**` after it. */
    method ApplyBoldTags()
      modifies this`bold
      ensures bold == BoldSpans(WidgetText(display))
    {
      var text := WidgetText(display);
      bold := [];
      var pos := 0;
      while true
        invariant pos <= |text|
        invariant bold + MatchesFrom(text, pos) == MatchesFrom(text, 0)
        decreases |text| - pos
      {
        MatchesFromFirstMarker(text, pos);
        var opener := NextMarker(text, pos);
        if opener.None? {
          break;
        }
        var closer := NextMarker(text, opener.value + 2);
        if closer.None? {
          break;
        }
        Associative(bold, [Span(opener.value + 2, closer.value)], MatchesFrom(text, closer.value + 2));
        bold := bold + [Span(opener.value + 2, closer.value)];
        pos := closer.value + 2;
      }
    }

    /** `_save_chat_history`: with a valid directory, append the record and queue
        the notice naming the file; a failed write adds nothing to the display.
        The notice is returned rather than shown: it runs after the callbacks the
        worker queued before it. */
    method SaveChatHistory(prompt: string, response: string, model: string, env: SaveEnv)
      returns (notice: Option<string>)
      modifies this`saved
      ensures saveDirValid && env.writeOk ==>
                saved == old(saved) + [Record(env.date, env.time, model, prompt, response)]
                && notice == Some(SavedNotice(env.date))
      ensures !(saveDirValid && env.writeOk) ==> saved == old(saved) && notice == None
    {
      notice := None;
      if !saveDirValid {
        return;
      }
      if env.writeOk {
        saved := saved + [Record(env.date, env.time, model, prompt, response)];
        notice := Some(SavedNotice(env.date));
      }
    }

    /** `_run_api_stream` and the callbacks it queues, run in queue order: every
        delta through `_process_stream_chunk`; then the end mark and the save on
        success, or on an exception the error line (preceded by the save in the
        follow-up edition, whose error line is the intended one of `Epilogue`,
        not the lost one of `EpilogueAsWritten`); the input is unlocked in every
        case. main.py saves
        the prompt it was started with, main_zhuiwen_mode.py the cached one. */
    method RunApiStream(req: Request, resp: Response, parse: string -> Parsed, env: SaveEnv)
      modifies this`display, this`bold, this`inCodeBlock, this`currentAiResponse, this`saved, this`inputEnabled
      ensures var t := IngestAll(Tagger(old(display), old(bold), old(inCodeBlock), old(currentAiResponse)),
                                 Stream(resp, parse, edition).chunks);
              inCodeBlock == t.inCode && currentAiResponse == t.response && bold == t.bold && inputEnabled
      ensures var s := Stream(resp, parse, edition);
              var t := IngestAll(Tagger(old(display), old(bold), old(inCodeBlock), old(currentAiResponse)), s.chunks);
              var writes := SavesAfter(edition, s.end) && saveDirValid && env.writeOk;
              var prompt := if edition == Standard then req.prompt else currentUserPrompt;
              && saved == old(saved) + (if writes then [Record(env.date, env.time, req.model, prompt, t.response)] else [])
              && display == t.display + Epilogue(edition, s.end, writes, env.date)
      ensures var s := Stream(resp, parse, edition);
              && currentAiResponse == old(currentAiResponse) + Concat(s.chunks)
              && inCodeBlock == Flip(old(inCodeBlock), FenceTotal(s.chunks))
    {
      var chunks, end := CallApiStream(resp, parse, edition);
      ghost var t0 := Tagger(display, bold, inCodeBlock, currentAiResponse);
      IngestAllResponse(t0, chunks);
      IngestAllParity(t0, chunks);
      TagChunks(chunks);
      var prompt := if edition == Standard then req.prompt else currentUserPrompt;
      FinishStream(end, prompt, req.model, env);
    }

    /** The deltas of one answer, handed to `_process_stream_chunk` in order. */
    method TagChunks(chunks: seq<string>)
      modifies this`display, this`bold, this`inCodeBlock, this`currentAiResponse
      ensures Tagger(display, bold, inCodeBlock, currentAiResponse)
                == IngestAll(Tagger(old(display), old(bold), old(inCodeBlock), old(currentAiResponse)), chunks)
    {
      ghost var t0 := Tagger(display, bold, inCodeBlock, currentAiResponse);
      var i := 0;
      while i < |chunks|
        invariant 0 <= i <= |chunks|
        invariant Tagger(display, bold, inCodeBlock, currentAiResponse) == IngestAll(t0, chunks[..i])
      {
        TakeOneMore(chunks, i);
        TagNext(t0, chunks[..i], chunks[i]);
        i := i + 1;
      }
      assert chunks[..|chunks|] == chunks;
    }

    /** One more delta: after the deltas `done`, processing `chunk` leaves the
        state of the deltas `done` and then `chunk`. */
    method TagNext(ghost t0: Tagger, ghost done: seq<string>, chunk: string)
      requires Tagger(display, bold, inCodeBlock, currentAiResponse) == IngestAll(t0, done)
      modifies this`display, this`bold, this`inCodeBlock, this`currentAiResponse
      ensures Tagger(display, bold, inCodeBlock, currentAiResponse) == IngestAll(t0, done + [chunk])
    {
      IngestAllSnoc(t0, done, chunk);
      ProcessStreamChunk(chunk);
    }

    /** What the callbacks queued after the last delta do: the end mark and the
        save on success; on an exception the save (follow-up edition only) and
        then the error line; the saved notice, if any, last; the input unlocked. */
    method FinishStream(end: StreamEnd, prompt: string, model: string, env: SaveEnv)
      modifies this`display, this`saved, this`inputEnabled
      ensures var writes := SavesAfter(edition, end) && saveDirValid && env.writeOk;
              && saved == old(saved) + (if writes then [Record(env.date, env.time, model, prompt, currentAiResponse)] else [])
              && display == old(display) + Epilogue(edition, end, writes, env.date)
              && inputEnabled
    {
      var notice := None;
      if end.Finished? {
        AppendSimpleText(END_MARK, AiResponse);
        notice := SaveChatHistory(prompt, currentAiResponse, model, env);
      } else {
        if edition == FollowUp {
          notice := SaveChatHistory(prompt, currentAiResponse, model, env);
        }
        AppendSimpleText(ErrorText(edition, end.failure), ErrorLine);
      }
      if notice.Some? {
        AppendSimpleText(notice.value, AiResponse);
      }
      inputEnabled := true;
    }
  }

  /** The loop of `_process_stream_chunk` over the pieces of a chunk split at
      its fences, from code-block state `inCode`: every piece after the first is
      preceded by a fence that toggles the state and is tagged by the state it
      toggles to; each non-empty piece is tagged by the current state. Returns
      the runs inserted, the final state and the text added to the answer. */
  method FencePieces(inCode: bool, parts: seq<string>) returns (runs: seq<Run>, flag: bool, added: string)
    requires |parts| >= 1
    ensures runs == PartsRuns(inCode, parts)
    ensures flag == Flip(inCode, |parts| - 1)
    ensures added == Join(parts, FENCE)
  {
    flag := inCode;
    runs := [];
    added := "";
    var i := 0;
    while i < |parts|
      invariant 0 <= i <= |parts|
      invariant i == 0 ==> runs == [] && flag == inCode && added == ""
      invariant i > 0 ==> runs == PartsRuns(inCode, parts[..i])
      invariant i > 0 ==> flag == Flip(inCode, i - 1)
      invariant i > 0 ==> added == Join(parts[..i], FENCE)
    {
      if i > 0 {
        NextPiece(inCode, parts, i);
        flag := !flag;
        added := added + FENCE;
        runs := runs + [Run(FENCE, TagFor(flag))];
      } else {
        FirstPiece(inCode, parts);
      }
      if parts[i] != "" {
        added := added + parts[i];
        runs := runs + [Run(parts[i], TagFor(flag))];
      }
      i := i + 1;
    }
    assert parts[..|parts|] == parts;
  }

  /** The lines shown after the last delta, as both editions intend them: the
      end mark or the error line, then the saved notice when the record was
      written. */
  function Epilogue(edition: Edition, end: StreamEnd, written: bool, date: string): seq<Run> {
    (if end.Finished? then [Run(END_MARK, AiResponse)] else [Run(ErrorText(edition, end.failure), ErrorLine)])
      + (if written then [Run(SavedNotice(date), AiResponse)] else [])
  }

  /** The intended lines tell the user how the stream ended: they open with the
      error line exactly when it raised and with the end mark exactly when it
      finished, and the saved notice follows only when the record was written. */
  lemma EpilogueReportsEnd(edition: Edition, end: StreamEnd, written: bool, date: string)
    ensures var r := Epilogue(edition, end, written, date);
      && |r| == (if written then 2 else 1)
      && (r[0].tag == ErrorLine <==> end.Raised?)
      && (end.Raised? ==> r[0].text == ErrorText(edition, end.failure))
      && (r[0] == Run(END_MARK, AiResponse) <==> end.Finished?)
      && (written ==> r[1] == Run(SavedNotice(date), AiResponse))
  {
  }

  /** The lines main_zhuiwen_mode.py actually shows after the last delta. Its
      error callback is a lambda that formats the exception variable only when
      Tk runs it; by then the `except` block has ended and Python has unbound
      that variable, so the callback raises NameError and inserts nothing.
      main.py formats its message inside the block and is not affected. */
  function EpilogueAsWritten(edition: Edition, end: StreamEnd, written: bool, date: string): seq<Run> {
    if edition == FollowUp && end.Raised? then (if written then [Run(SavedNotice(date), AiResponse)] else [])
    else Epilogue(edition, end, written, date)
  }

  /** As written, a follow-up stream that raised leaves no error line: the
      partial answer is followed at most by the saved notice, where the intended
      lines open with the error. */
  lemma FollowUpErrorLineLost(f: Failure, written: bool, date: string)
    ensures forall k :: 0 <= k < |EpilogueAsWritten(FollowUp, Raised(f), written, date)| ==>
              EpilogueAsWritten(FollowUp, Raised(f), written, date)[k].tag != ErrorLine
    ensures Epilogue(FollowUp, Raised(f), written, date)[0].tag == ErrorLine
  {
  }

  /** The first turn of the fence loop of `_process_stream_chunk`, on values:
      the first piece alone, under the current state's tag. */
  lemma FirstPiece(inCode: bool, parts: seq<string>)
    requires |parts| >= 1
    ensures PartsRuns(inCode, parts[..1]) == Segment(inCode, parts[0])
    ensures Join(parts[..1], FENCE) == parts[0]
  {
    assert parts[..1] == [parts[0]];
  }

  /** A later turn of the fence loop, on values: piece `i` extends the runs and
      the answer of the pieces before it, preceded by a fence that toggles the
      state. */
  lemma NextPiece(inCode: bool, parts: seq<string>, i: nat)
    requires 0 < i < |parts|
    ensures PartsRuns(inCode, parts[..i + 1]) ==
              PartsRuns(inCode, parts[..i]) + [Run(FENCE, TagFor(!Flip(inCode, i - 1)))]
                + Segment(!Flip(inCode, i - 1), parts[i])
    ensures Join(parts[..i + 1], FENCE) == Join(parts[..i], FENCE) + FENCE + parts[i]
  {
    TakeOneMore(parts, i);
    PartsRunsSnoc(inCode, parts[..i], parts[i]);
    JoinSnoc(parts[..i], parts[i], FENCE);
  }
}
