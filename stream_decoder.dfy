/** The two builds of the chat client differ in a few behaviours; this names them. */
module Editions {
  /** `Standard` is main.py; `FollowUp` is main_zhuiwen_mode.py, which adds the
      continuation ("追问") prompt, saves the partial answer when a stream fails
      and swallows network errors inside the stream reader. */
  datatype Edition = Standard | FollowUp
}

/** The server-sent-event reader `call_api_stream`: it turns the lines of the
    HTTP response into the text deltas of the answer. */
module StreamDecoder {
  import opened PyText
  import opened Editions

  const DATA_PREFIX := "data:"
  const DONE := "[DONE]"
  const HTTP_OK := 200

  /** What `json.loads` followed by `choices[0].delta.content` gives for one payload. */
  datatype Parsed =
    | NotJson                 // json.JSONDecodeError: the record is skipped
    | Broken(detail: string)  // any other exception while reading the fields: it propagates
    | Content(text: string)   // the content field; "" when it is missing, null or empty

  /** How the reading of the lines stopped. */
  datatype LinesEnd = SawDone | RanOut | BadRecord(detail: string)

  datatype Decoded = Decoded(chunks: seq<string>, end: LinesEnd)

  /** What one line contributes on its own. */
  datatype LineKind = Skip | Yield(content: string) | Stop(end: LinesEnd)

  /** The payload of a non-empty `data:` line: the line without its five-character
      prefix, stripped. */
  function Payload(line: string): Option<string> {
    if line != "" && StartsWith(line, DATA_PREFIX) then Some(Strip(line[|DATA_PREFIX|..])) else None
  }

  /** A line is passed over, yields a non-empty delta, or stops decoding at
      `[DONE]` or at a record whose fields cannot be read. */
  function Classify(line: string, parse: string -> Parsed): (k: LineKind)
    ensures k.Yield? ==> k.content != ""
    ensures k.Stop? ==> k.end != RanOut
    ensures k.Stop? && k.end == SawDone <==> Payload(line) == Some(DONE)
  {
    match Payload(line)
    case None => Skip
    case Some(p) =>
      if p == DONE then Stop(SawDone)
      else match parse(p)
        case NotJson => Skip
        case Broken(d) => Stop(BadRecord(d))
        case Content(c) => if c == "" then Skip else Yield(c)
  }

  /** The loop over the response lines: skip, yield, or stop at `[DONE]` or at a
      record whose fields cannot be read. No yielded delta is empty. */
  function DecodeLines(lines: seq<string>, parse: string -> Parsed): (r: Decoded)
    ensures forall i :: 0 <= i < |r.chunks| ==> r.chunks[i] != ""
    decreases |lines|
  {
    if lines == [] then Decoded([], RanOut)
    else match Classify(lines[0], parse)
      case Skip => DecodeLines(lines[1..], parse)
      case Stop(e) => Decoded([], e)
      case Yield(c) =>
        var rest := DecodeLines(lines[1..], parse);
        Decoded([c] + rest.chunks, rest.end)
  }

  /** Why the stream raised. */
  datatype Failure =
    | HttpError(status: nat, body: string)  // status other than 200, before any line is read
    | NetworkError(detail: string)          // requests.RequestException
    | RecordError(detail: string)           // a record whose fields could not be read

  datatype StreamEnd = Finished | Raised(failure: Failure)

  datatype Streamed = Streamed(chunks: seq<string>, end: StreamEnd)

  /** What the transport delivered for one request. */
  datatype Response =
    | Refused(detail: string)  // requests.post raised a RequestException
    | Answered(status: nat, body: string, lines: seq<string>, cut: Option<string>)
      // `cut` is Some(detail) when reading on after `lines` raised a RequestException

  /** The whole of `call_api_stream` for one response: the deltas it yields and
      whether it then returns or raises. main.py re-raises a network error with a
      prefix; main_zhuiwen_mode.py prints it and returns normally. */
  function Stream(resp: Response, parse: string -> Parsed, edition: Edition): Streamed {
    match resp
    case Refused(d) =>
      if edition == Standard then Streamed([], Raised(NetworkError(d))) else Streamed([], Finished)
    case Answered(status, body, lines, cut) =>
      if status != HTTP_OK then Streamed([], Raised(HttpError(status, body)))
      else
        var d := DecodeLines(lines, parse);
        match d.end
        case SawDone => Streamed(d.chunks, Finished)
        case BadRecord(x) => Streamed(d.chunks, Raised(RecordError(x)))
        case RanOut =>
          if cut.Some? && edition == Standard then Streamed(d.chunks, Raised(NetworkError(cut.value)))
          else Streamed(d.chunks, Finished)
  }

  /** `str(e)` for the exception that leaves `call_api_stream`. */
  function Message(f: Failure): string {
    match f
    case HttpError(status, body) =>
      "API HTTP 错误: " + NatToString(status) + ". 详情: "
        + body[..if |body| < 200 then |body| else 200] + "..."
    case NetworkError(d) => "网络连接或请求错误: " + d
    case RecordError(d) => d
  }

  /** `call_api_stream` as the loop it is: each line is read, non-data lines are
      passed over, `[DONE]` breaks, an unreadable JSON record is skipped with
      `continue`, and non-empty content is yielded. */
  method CallApiStream(resp: Response, parse: string -> Parsed, edition: Edition)
    returns (chunks: seq<string>, end: StreamEnd)
    ensures Streamed(chunks, end) == Stream(resp, parse, edition)
  {
    chunks := [];
    if resp.Refused? {
      end := if edition == Standard then Raised(NetworkError(resp.detail)) else Finished;
      return;
    }
    if resp.status != HTTP_OK {
      end := Raised(HttpError(resp.status, resp.body));
      return;
    }
    var lines := resp.lines;
    var i := 0;
    while i < |lines|
      invariant 0 <= i <= |lines|
      invariant Then(Decoded(chunks, RanOut), DecodeLines(lines[i..], parse)) == DecodeLines(lines, parse)
    {
      var line := lines[i];
      DecodeUnfold(lines[i..], parse);
      assert lines[i..][0] == line && lines[i..][1..] == lines[i + 1..];
      i := i + 1;
      if line != "" && StartsWith(line, DATA_PREFIX) {
        var payload := Strip(line[5..]);
        if payload == DONE {
          end := Finished;
          return;
        }
        match parse(payload)
        case NotJson =>
          continue;
        case Broken(x) =>
          end := Raised(RecordError(x));
          return;
        case Content(c) =>
          if c != "" {
            YieldThen(chunks, c, DecodeLines(lines[i..], parse));
            chunks := chunks + [c];
          }
      }
    }
    end := if resp.cut.Some? && edition == Standard then Raised(NetworkError(resp.cut.value)) else Finished;
  }

  // ---------------------------------------------------------------------------
  // Properties of the decoder
  // ---------------------------------------------------------------------------

  /** What one line does to the decoding of the lines after it. */
  function Step(k: LineKind, rest: Decoded): Decoded {
    match k
    case Skip => rest
    case Stop(e) => Decoded([], e)
    case Yield(c) => Decoded([c] + rest.chunks, rest.end)
  }

  /** Decoding the lines of `first` and then, if they ran out, those of `second`. */
  function Then(first: Decoded, second: Decoded): Decoded {
    if first.end == RanOut then Decoded(first.chunks + second.chunks, second.end) else first
  }

  lemma DecodeUnfold(lines: seq<string>, parse: string -> Parsed)
    requires lines != []
    ensures DecodeLines(lines, parse) == Step(Classify(lines[0], parse), DecodeLines(lines[1..], parse))
  {
  }

  lemma StepThen(k: LineKind, a: Decoded, b: Decoded)
    requires k.Stop? ==> k.end != RanOut
    ensures Step(k, Then(a, b)) == Then(Step(k, a), b)
  {
    if k.Yield? && a.end == RanOut {
      assert [k.content] + a.chunks + b.chunks == [k.content] + (a.chunks + b.chunks);
    }
  }

  lemma YieldThen(chunks: seq<string>, c: string, rest: Decoded)
    ensures Then(Decoded(chunks, RanOut), Step(Yield(c), rest)) == Then(Decoded(chunks + [c], RanOut), rest)
  {
    assert chunks + ([c] + rest.chunks) == chunks + [c] + rest.chunks;
  }

  /** Decoding is incremental: the lines after a stop are never looked at, and
      otherwise the deltas of a concatenation are the deltas of its halves. */
  lemma {:induction false} DecodeAppend(pre: seq<string>, post: seq<string>, parse: string -> Parsed)
    ensures DecodeLines(pre + post, parse) == Then(DecodeLines(pre, parse), DecodeLines(post, parse))
    decreases |pre|
  {
    if pre == [] {
      assert pre + post == post;
    } else {
      assert (pre + post)[0] == pre[0] && (pre + post)[1..] == pre[1..] + post;
      DecodeUnfold(pre, parse);
      DecodeUnfold(pre + post, parse);
      DecodeAppend(pre[1..], post, parse);
      StepThen(Classify(pre[0], parse), DecodeLines(pre[1..], parse), DecodeLines(post, parse));
    }
  }

  /** Lines after the one that carries `[DONE]` are ignored. */
  lemma DoneEndsDecoding(pre: seq<string>, done: string, post: seq<string>, parse: string -> Parsed)
    requires Payload(done) == Some(DONE)
    ensures DecodeLines(pre + [done] + post, parse) == DecodeLines(pre + [done], parse)
    ensures DecodeLines(pre, parse).end == RanOut ==>
              DecodeLines(pre + [done], parse) == Decoded(DecodeLines(pre, parse).chunks, SawDone)
  {
    DecodeAppend(pre + [done], post, parse);
    DecodeAppend(pre, [done], parse);
    assert DecodeLines([done], parse) == Decoded([], SawDone);
  }

  /** A line that is empty, lacks the `data:` prefix, is not JSON, or carries no
      content changes nothing: decoding goes on with the next line. */
  lemma IgnoredLineChangesNothing(pre: seq<string>, line: string, post: seq<string>, parse: string -> Parsed)
    requires
      || line == "" || !StartsWith(line, DATA_PREFIX)
      || (Payload(line).Some? && Payload(line).value != DONE
          && parse(Payload(line).value) in {NotJson, Content("")})
    ensures DecodeLines(pre + [line] + post, parse) == DecodeLines(pre + post, parse)
  {
    assert Classify(line, parse) == Skip;
    assert ([line] + post)[0] == line && ([line] + post)[1..] == post;
    DecodeUnfold([line] + post, parse);
    DecodeAppend(pre, [line] + post, parse);
    DecodeAppend(pre, post, parse);
    Associative(pre, [line], post);
  }

  /** The deltas of the lines, ignoring where decoding stops. */
  function Yields(lines: seq<string>, parse: string -> Parsed): seq<string> {
    if lines == [] then []
    else (if Classify(lines[0], parse).Yield? then [Classify(lines[0], parse).content] else [])
         + Yields(lines[1..], parse)
  }

  /** `k` is the index of the first line that stops decoding, or `|lines|`. */
  ghost predicate IsStopIndex(lines: seq<string>, parse: string -> Parsed, k: nat) {
    && k <= |lines|
    && (forall j :: 0 <= j < k ==> !Classify(lines[j], parse).Stop?)
    && (k < |lines| ==> Classify(lines[k], parse).Stop?)
  }

  /** Decoding, described without the loop: everything before the first stopping
      line is yielded or skipped line by line, and decoding ends the way that line
      says, or ran out of lines. */
  lemma {:induction false} DecodeBeforeStop(lines: seq<string>, parse: string -> Parsed, k: nat)
    requires IsStopIndex(lines, parse, k)
    ensures DecodeLines(lines, parse).chunks == Yields(lines[..k], parse)
    ensures DecodeLines(lines, parse).end == if k == |lines| then RanOut else Classify(lines[k], parse).end
    decreases k
  {
    if k > 0 {
      assert IsStopIndex(lines[1..], parse, k - 1) by {
        forall j | 0 <= j < k - 1 ensures !Classify(lines[1..][j], parse).Stop? {
          assert lines[1..][j] == lines[j + 1];
        }
      }
      DecodeBeforeStop(lines[1..], parse, k - 1);
      var first := Classify(lines[0], parse);
      var ys := if first.Yield? then [first.content] else [];
      assert lines[..k][0] == lines[0];
      assert lines[..k][1..] == lines[1..][..k - 1];
      assert Yields(lines[..k], parse) == ys + Yields(lines[1..][..k - 1], parse);
      assert DecodeLines(lines, parse).chunks == ys + DecodeLines(lines[1..], parse).chunks;
      assert k == |lines| <==> k - 1 == |lines[1..]|;
      if k < |lines| {
        assert lines[1..][k - 1] == lines[k];
      }
    } else if lines != [] {
      assert lines[..k] == [];
    }
  }

  /** The two builds yield the same deltas for every response; they differ only
      in that main.py raises a network error where main_zhuiwen_mode.py finishes. */
  lemma EditionsAgreeOnDeltas(resp: Response, parse: string -> Parsed)
    ensures Stream(resp, parse, Standard).chunks == Stream(resp, parse, FollowUp).chunks
    ensures Stream(resp, parse, Standard).end != Stream(resp, parse, FollowUp).end <==>
              Stream(resp, parse, Standard).end.Raised? && Stream(resp, parse, Standard).end.failure.NetworkError?
    ensures !(Stream(resp, parse, FollowUp).end.Raised? && Stream(resp, parse, FollowUp).end.failure.NetworkError?)
  {
  }
}
