# Streaming chat client core, in Dafny

The repository holds two near-identical Tkinter chat clients:
- `main.py` is the standard edition.
- `main_zhuiwen_mode.py` is the follow-up ("追问") edition.

Both send a prompt to a chat-completions endpoint and read the answer back as server-sent events. They render the answer in an output widget, tagging fenced code blocks. After a chunk that holds no fence, arrives outside a code block and contains `**`, they rescan the whole widget for `**bold**`. Each finished conversation is appended to a per-day Markdown file.

This project models the core that both editions share:
- `call_api_stream`, the reader of `data:` lines;
- `_process_stream_chunk`, which tags each delta as ordinary text or code;
- `_apply_bold_tags`, the bold rescan;
- `send_message`, which validates, composes the follow-up prompt and resets the turn state;
- `_run_api_stream` with the callbacks it queues, and `_save_chat_history`.

One class, `ChatWindow`, models both editions. Its constant `edition` is `Standard` for `main.py` and `FollowUp` for `main_zhuiwen_mode.py`. It selects the behavioural differences in the code:
- the follow-up edition composes the prompt from the conversation so far;
- it saves the record even when the stream raised;
- its `call_api_stream` swallows network exceptions, so a refused or cut connection ends like a normal stream;
- the two editions word their error lines differently (`ErrorText`).

Files:
- `py_text.dfy` (module `PyText`): the Python string operations the core relies on: `isspace`/`strip`, `startswith`, `in`/`find`, `str.split` and `str.join` on a separator, `str.count`, and decimal `str(int)`. Each comes with its meaning proved: leftmost non-overlapping occurrences, `join(split(s)) == s`, and uniqueness of the leftmost split.
- `stream_decoder.dfy` (modules `Editions`, `StreamDecoder`): the line loop of `call_api_stream` as a method, and the decoding as a function with its algebra.
- `markup.dfy` (module `Markup`): the display as runs of tagged text, the fence tagging of one chunk, the `\*\*(.*?)\*\*` scan, and a stream of chunks on values.
- `send_request.dfy` (module `SendRequest`): the ordered send checks and the follow-up prompt.
- `chat_app.dfy` (module `ChatApp`): the `ChatWindow` class, whose methods are the handlers, changing its fields as the source does.

Facts about the code that the model keeps:
- The code has no turn object, transcript or overlapping-turn error. Only disabling the input serialises the turns.
- The history the follow-up edition sends is the whole widget text, stripped. It includes earlier echoes, composition notices, end marks and saved notices, not just the questions and answers.
- `main.py` saves nothing when the stream raises. The follow-up edition saves the record first and then queues its error line, which as written never appears (see "## Findings").
- In the follow-up edition a refused or cut connection is printed and swallowed. The turn then ends with the end mark and a save, like a finished one.

## Model

| member | source | states |
|---|---|---|
| PyText.Strip | main_zhuiwen_mode.py:317-323 | `str.strip()`: leading whitespace is dropped, then trailing whitespace, where whitespace is what `str.isspace` accepts |
| PyText.LeadingSpaceIs | main_zhuiwen_mode.py:49 | the whitespace `strip` removes at the front is all whitespace and stops at the first non-whitespace character |
| PyText.TrailingSpaceIs | main_zhuiwen_mode.py:49 | likewise at the back |
| PyText.StripIsSlice | main_zhuiwen_mode.py:321 | `strip()` returns one contiguous slice of its argument; only whitespace is removed on either side, and the result neither starts nor ends with whitespace |
| PyText.StripUnchanged | main_zhuiwen_mode.py:317 | a string that neither starts nor ends with whitespace is its own strip |
| PyText.FindFromLeftmost | main_zhuiwen_mode.py:464 | the search returns the leftmost occurrence at or after the start, or none when there is no occurrence there at all |
| PyText.FindFromIs | main_zhuiwen_mode.py:464 | conversely, a first occurrence is what the search returns |
| PyText.Contains | main_zhuiwen_mode.py:464 | `pat in s`: the search for `pat` from the start of `s` finds an occurrence |
| PyText.ContainsIff | main_zhuiwen_mode.py:464 | `sep in s` holds exactly when `sep` occurs at some position of `s` |
| PyText.FreeBeforeFound | main_zhuiwen_mode.py:465 | the text before the first occurrence contains no occurrence |
| PyText.Split | main_zhuiwen_mode.py:465 | `s.split(sep)` always has at least one piece, so there is always a first piece, and it comes with no fence in front |
| PyText.SplitSingle | main_zhuiwen_mode.py:464-465 | the split has a single piece exactly when the chunk holds no separator |
| PyText.SplitJoin | main_zhuiwen_mode.py:465 | joining the pieces of `s.split(sep)` with `sep` gives `s` back |
| PyText.SplitIsLeftmost | main_zhuiwen_mode.py:465 | the pieces of `split` cut at the leftmost non-overlapping occurrences: no piece holds the separator, and none of them, followed by the separator, holds an earlier one |
| PyText.LeftmostSplitUnique | main_zhuiwen_mode.py:465 | any list of pieces that cuts `s` that way is `s.split(sep)` |
| PyText.SplitCount | main_zhuiwen_mode.py:465 | `split` gives one more piece than `str.count` finds occurrences |
| PyText.SplitPartsFree | main_zhuiwen_mode.py:465 | no piece of `split` contains the separator |
| PyText.NatToString | main_zhuiwen_mode.py:366 | `str(n)` of a length is a non-empty string of decimal digits with no leading zero |
| PyText.ParseNatToString | main_zhuiwen_mode.py:366 | the decimal text of a number reads back as that number |
| StreamDecoder.Payload | main_zhuiwen_mode.py:46-49 | a non-empty line that starts with `data:` carries the rest of the line, stripped; any other line carries nothing |
| StreamDecoder.Classify | main_zhuiwen_mode.py:45-62 | a line yields only non-empty content; it stops decoding because of `[DONE]` exactly when its stripped `data:` payload is `[DONE]`; a stopping line never counts as running out |
| StreamDecoder.DecodeLines | main_zhuiwen_mode.py:45-62 | no yielded delta is empty |
| StreamDecoder.Stream | main.py:13-67 | the whole of `call_api_stream` for one response: a refused connection raises a network error in `main.py` and yields nothing; a status other than 200 raises an HTTP error before any line is read; otherwise the decoded deltas are yielded, and the stream finishes at `[DONE]`, raises at an unreadable record, and at the end of the lines raises a network error in `main.py` if reading was cut |
| StreamDecoder.Message | main.py:41-43 | `str(e)` of the exception that leaves the stream: the HTTP error quotes the status and the first 200 characters of the body followed by `...`; a network error carries its detail after the prefix of main.py:65; a broken record carries its own message |
| StreamDecoder.CallApiStream | main.py:13-67 | the loop, with its `break` and `continue`, yields exactly the deltas and ends exactly the way the decoding function says, for each edition and each transport outcome |
| StreamDecoder.DecodeAppend | main_zhuiwen_mode.py:45-62 | decoding the lines of `pre + post` is decoding `pre`, continued with `post` only if `pre` ran out |
| StreamDecoder.DoneEndsDecoding | main_zhuiwen_mode.py:51-52 | nothing after a `[DONE]` line is read; if nothing stopped before it, decoding ends there with the deltas read so far |
| StreamDecoder.IgnoredLineChangesNothing | main_zhuiwen_mode.py:46-62 | an empty line, a non-`data:` line, a record that is not JSON and a record with empty or missing content can be removed without changing the result |
| StreamDecoder.DecodeBeforeStop | main_zhuiwen_mode.py:45-62 | the deltas are exactly the contents of the yielding lines before the first stopping line, and decoding ends as that line says (or runs out) |
| StreamDecoder.EditionsAgreeOnDeltas | main_zhuiwen_mode.py:64-68 | both editions yield the same deltas; their endings differ exactly when the standard edition raises a network error, which the follow-up edition never does |
| SendRequest.Alert | main_zhuiwen_mode.py:330-346 | the error dialog text of each refusing check: the missing key, the missing model, the invalid scenario and the missing save directory |
| SendRequest.Validate | main_zhuiwen_mode.py:319-347 | the decision of `send_message`: a prompt that strips to nothing is ignored; then the key (stripped, not empty, not the placeholder), the model, the scenario and the save directory are checked in that order, and the first failure refuses; otherwise the request carries the stripped prompt and key, the model and the scenario's system prompt |
| SendRequest.FirstFailureRefuses | main_zhuiwen_mode.py:327-347 | on a non-blank prompt, a failing check refuses the send whenever no check before it fails, whatever the later checks say |
| SendRequest.ValidateChecks | main_zhuiwen_mode.py:319-347 | a blank prompt is ignored exactly when it strips to nothing; a refusal names a failing check with no failing check before it; a send is accepted exactly when no check fails, and then carries the stripped prompt and key, the model and the scenario's non-empty system prompt |
| SendRequest.StartUpSettingsRefused | main_zhuiwen_mode.py:108-113 | with the start-up settings the send is refused for the placeholder key, and once a real key is typed, for the missing save directory |
| SendRequest.ScenariosUsable | main_zhuiwen_mode.py:86-100 | every scenario of the map has a non-empty system prompt, so a send with a key and a save directory is accepted for any of them |
| SendRequest.FinalPrompt | main_zhuiwen_mode.py:349-363 | without composition the prompt is sent as typed; composed, its length is the preamble's, the history's, the closing line's and the prompt's together |
| SendRequest.ComposedNotice | main_zhuiwen_mode.py:366-367 | the system line shown when the history was composed in, with the history's length in decimal |
| SendRequest.DecomposeComposed | main_zhuiwen_mode.py:352-363 | from a composed prompt and the history length the notice reports, the history and the typed prompt are recovered exactly |
| SendRequest.NoticeReportsLength | main_zhuiwen_mode.py:366-367 | the notice embeds the history's length in decimal, and that text reads back as the length |
| Markup.StateAfter | main_zhuiwen_mode.py:463-469 | the code-block flag after one chunk: toggled once per fence `str.count` finds in it |
| Markup.ChunkRuns | main_zhuiwen_mode.py:460-481 | what one chunk inserts: without a fence, the whole chunk under the current state's tag; with fences, each non-empty piece under the current state's tag and each fence under the tag of the state it toggles to |
| Markup.TriggersBold | main_zhuiwen_mode.py:483-484 | the bold rescan runs after a chunk exactly when the chunk holds no fence, the flag is down and the chunk holds `**` |
| Markup.Ingest | main_zhuiwen_mode.py:460-486 | one call of `_process_stream_chunk` on values: the display gains the chunk's runs, the bold ranges are rescanned over the whole widget when triggered and kept otherwise, the flag toggles once per fence, and the answer gains the chunk |
| Markup.MatchesFrom | main_zhuiwen_mode.py:492 | `finditer` from a position: at a `**` with a later `**`, the match runs to the nearest such closer (the lazy group, crossing newlines), its group is recorded and the scan resumes after the closer; anywhere else it moves on by one |
| Markup.BoldSpans | main_zhuiwen_mode.py:492-499 | the bold ranges of a text are the groups of all matches from its start |
| Markup.FlipFlip | main_zhuiwen_mode.py:469 | toggling `m` times and then `n` times is toggling `m + n` times |
| Markup.RunsTextAppend | main_zhuiwen_mode.py:501-509 | the widget text of two batches of inserts is the text of the first followed by that of the second |
| Markup.ChunkRunsText | main_zhuiwen_mode.py:463-481 | the text inserted for one chunk spells the chunk exactly: nothing dropped or doubled, fences included |
| Markup.ChunkRunsNonEmpty | main_zhuiwen_mode.py:473-475 | in the fence branch no empty piece is inserted |
| Markup.ChunkFenceTags | main_zhuiwen_mode.py:463-481 | the runs of one chunk hold one fence per occurrence `str.count` finds, tagged alternately, starting from the tag of the toggled state |
| Markup.AlternatingTagsAt | main_zhuiwen_mode.py:468-472 | the `j`-th fence of a chunk carries the tag of the state after `j + 1` toggles |
| Markup.SplitFenceIsMissed | main_zhuiwen_mode.py:463-481 | a fence split across two chunks (`` `` `` then `` ` ``) toggles nothing, though the same text in one chunk toggles once |
| Markup.NextMarkerLeftmost | main_zhuiwen_mode.py:492 | the next `**` found is the leftmost one at or after the start, or there is none |
| Markup.MarkerIsOccurrence | main_zhuiwen_mode.py:492 | a marker position is exactly an occurrence of `**` |
| Markup.NextMarkerIsFind | main_zhuiwen_mode.py:483 | the scan's search for `**` is the string search for the bold marker; from the start it finds one exactly when `'**' in chunk` holds |
| Markup.MatchesFromFirstMarker | main_zhuiwen_mode.py:492-499 | the position-by-position `finditer` scan equals: open at the first `**`, close at the first `**` after it, record the group between, continue after the closer; stop when either is missing |
| Markup.MatchesWellFormed | main_zhuiwen_mode.py:492-499 | every bold range is the group of a match: a `**` right before it and one right at its end, no `**` starting inside it (the shortest match), ranges in order and never overlapping |
| Markup.SkipStarFree | main_zhuiwen_mode.py:492 | a stretch without `*` yields no match |
| Markup.NoCloserNoMatch | main_zhuiwen_mode.py:492 | an opening `**` with no later `**` yields no match, and neither does any later position |
| Markup.BoldWord | main_zhuiwen_mode.py:492-499 | in `a**w**b` with no `*` in `a`, `w` or `b`, the only bold range is exactly `w` |
| Markup.OnlyMarkedSpan | main_zhuiwen_mode.py:492-499 | when the text holds exactly two `**` markers and no other `*`, the only bold range is what lies between them |
| Markup.IngestFacts | main_zhuiwen_mode.py:460-486 | one chunk: the answer gains the chunk; the display keeps what it showed and gains text spelling the chunk; the flag toggles once per fence; the bold ranges are recomputed over the whole widget exactly when the chunk has no fence, the flag is down and the chunk holds `**` |
| Markup.PlainChunk | main_zhuiwen_mode.py:476-481 | a chunk without a fence leaves the flag unchanged |
| Markup.FencedChunk | main_zhuiwen_mode.py:465-469 | the flag toggles once per piece after the first |
| Markup.FenceAcrossChunksIgnored | main_zhuiwen_mode.py:463-481 | from any state, two chunks that hold no fence leave the code-block flag as it was, even when their concatenation holds a fence |
| Markup.IngestAll | main_zhuiwen_mode.py:398-400 | the worker's loop: each delta of the generator goes through `_process_stream_chunk`, in order, starting from the state the turn began with |
| Markup.IngestAllSnoc | main_zhuiwen_mode.py:398-399 | processing one more chunk extends the stream's state by that chunk alone: nothing is carried between chunks |
| Markup.IngestAllResponse | main_zhuiwen_mode.py:464-481 | over a stream, the cached answer gains exactly the concatenation of the chunks |
| Markup.IngestAllDisplay | main_zhuiwen_mode.py:464-481 | over a stream, the display only grows: what was shown stays |
| Markup.IngestAllText | main_zhuiwen_mode.py:464-481 | over a stream, the widget's text gains exactly the concatenation of the chunks |
| Markup.IngestAllParity | main_zhuiwen_mode.py:463-469 | over a stream, the flag has toggled once per fence found inside a single chunk |
| ChatApp.UserEcho | main_zhuiwen_mode.py:379-382 | the echo of the typed prompt, under a header naming the model and the scenario |
| ChatApp.SavedNotice | main_zhuiwen_mode.py:449-450 | the line naming the day's history file, `<date>-chatbot-data.md`, shown after a successful write |
| ChatApp.SavesAfter | main_zhuiwen_mode.py:402-411 | whether a stream that ended this way is saved: always after success; after an exception only in the follow-up edition (main.py:341-348 saves only on success) |
| ChatApp.History | main_zhuiwen_mode.py:313-317 | the history is the widget's whole text, including the final newline Tk adds, stripped |
| ChatApp.ErrorText | main.py:346-347 | the error line of each edition: its own prefix, then `str(e)` of the failure, then a newline |
| ChatApp.Epilogue | main_zhuiwen_mode.py:401-417 | the lines shown after the last delta, as both editions intend them: the end mark or the error line, then the saved notice when the record was written |
| ChatApp.EpilogueReportsEnd | main_zhuiwen_mode.py:401-417 | the intended lines open with the error line exactly when the stream raised and with the end mark exactly when it finished, and end with the saved notice exactly when the record was written |
| ChatApp.EpilogueAsWritten | main_zhuiwen_mode.py:408-414 | the lines the follow-up edition shows as written: after an exception only the saved notice, if any, because the error callback fails before inserting anything |
| ChatApp.FollowUpErrorLineLost | main_zhuiwen_mode.py:408-414 | as written, a follow-up stream that raised shows no error line, where the intended lines open with one |
| ChatApp.ChatWindow.constructor | main_zhuiwen_mode.py:103-120 | the start-up state: placeholder key, first model and scenario, no save directory, follow-up mode on, empty widget, flag down, nothing cached or saved |
| ChatApp.ChatWindow.AppendSimpleText | main_zhuiwen_mode.py:505-509 | one run is appended and nothing else shown changes |
| ChatApp.ChatWindow.ComposePrompt | main_zhuiwen_mode.py:349-367 | when the mode composes, the prompt sent wraps the stripped widget text from before the notice and the notice reports its length; otherwise the prompt is sent as typed and nothing is shown |
| ChatApp.ChatWindow.SendMessage | main_zhuiwen_mode.py:319-393 | a blank or refused send changes nothing (a refusal shows its dialog); an accepted one sends the composed request and leaves the notice, the echo of the typed prompt and the header shown, the flag down, the typed prompt and an empty answer cached, and the input cleared and locked |
| ChatApp.ChatWindow.BeginTurn | main_zhuiwen_mode.py:349-386 | the accepted branch: the request with the composed prompt, and the state just described |
| ChatApp.ChatWindow.StartTurn | main.py:311-325 | the turn reset: flag down, the typed prompt cached (never the composed one), empty answer, input locked and cleared, echo and header shown |
| ChatApp.ChatWindow.ProcessStreamChunk | main_zhuiwen_mode.py:460-486 | the window's runs, bold ranges, flag and answer become those of processing the chunk on values |
| ChatApp.ChatWindow.TagFences | main_zhuiwen_mode.py:464-474 | the fence branch: the pieces and fences of the split are shown, the flag toggles once per fence, the answer gains the pieces joined by fences |
| ChatApp.FencePieces | main_zhuiwen_mode.py:466-474 | the loop over the pieces returns exactly the runs, the final flag and the text of the pieces joined by fences |
| ChatApp.ChatWindow.ApplyBoldTags | main_zhuiwen_mode.py:488-499 | the old bold ranges are dropped and the new ones are exactly the match groups over the widget's whole text; they depend on that text alone, so a second rescan of unchanged text gives the same ranges |
| ChatApp.ChatWindow.SaveChatHistory | main_zhuiwen_mode.py:420-456 | with a valid directory and a working write, exactly one record is appended and the notice naming the day's file follows; otherwise nothing is saved or shown |
| ChatApp.ChatWindow.RunApiStream | main.py:334-351 | after the worker and its callbacks, the window holds the state of the stream's deltas processed in order: the answer gained exactly their concatenation, the flag toggled once per fence within a delta; then the intended epilogue (the end mark or the error line, then the saved notice), the record saved when the edition saves on that ending, and the input unlocked |
| ChatApp.ChatWindow.TagChunks | main_zhuiwen_mode.py:398-399 | every delta goes through `_process_stream_chunk`, in order |
| ChatApp.ChatWindow.FinishStream | main_zhuiwen_mode.py:401-417 | success shows the end mark and saves; an exception saves (follow-up edition only) and shows the intended error line; the saved notice comes last; the input is unlocked |

## Left out

- The Tk widgets, layout, fonts, focus and placeholder handlers, key bindings, scrolling and the widget's `normal`/`disabled` toggling: the display is a sequence of runs of tagged text and the input a string.
- `select_save_directory`, `Path.is_dir` and the clock: whether the save directory is valid is a field; the date, the time and whether the append works are an input (`SaveEnv`).
- The network: `requests.post`, `iter_lines` and UTF-8 decoding are replaced by a `Response` value holding the status, the body, the lines and whether reading was cut by an exception.
- `json.loads` and the `.get` chain are a function parameter `parse` with three outcomes: not JSON (skipped), content (possibly empty), or an exception from the field access (propagated).
- The content of the history file (the Markdown template) is not modelled; a saved record holds its date, time, model, prompt and answer.
- Threading and `master.after`: the worker's callbacks run in the order it queues them. The worker reads `current_ai_response` when it queues the save, while some chunk callbacks may still be pending (a race between the threads), so the saved answer can lack the last deltas; the model saves the answer after all of them.
- Tk text indices are counted in characters as Python counts them; characters outside the Basic Multilingual Plane, which Tk may count differently, are not distinguished.
- ChatApp.ChatWindow.ApplyBoldTags: the bold ranges are kept as the list of match groups; Tk's merging of overlapping or adjacent tag ranges and its dropping of empty ones are not modelled.
- `on_closing` and the window title: presentation only.
- Message boxes are not modelled; a refusal's dialog text is returned as `Alert`. The dialog that `_save_chat_history` queues on a failed write (main_zhuiwen_mode.py:453-456, main.py:386-389) reads the exception variable after its `except` block has unbound it, so as written it raises NameError instead of showing; either way the display is unchanged, which is all the model states.

## Findings

| source | as written | input that shows it | evidently intended | confidence | as-written member | corrected member |
|---|---|---|---|---|---|---|
| main_zhuiwen_mode.py:408-414 | the error callback is a lambda that formats `e` only when Tk runs it, after the `except` block has unbound `e`; it raises NameError and inserts nothing | a follow-up turn whose response has status 401 | the error line `[错误信息] API 调用失败或网络错误: …` is shown after the save, as main.py:346-347 shows its own | high; not executed | ChatApp.EpilogueAsWritten | ChatApp.Epilogue |
