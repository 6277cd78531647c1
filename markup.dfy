/** The markdown styling applied to the answer while it streams in
    (`_process_stream_chunk` and `_apply_bold_tags`), stated on values: the
    display is the sequence of (text, tag) runs inserted into the text widget,
    and the bold tag is a list of character ranges over the widget's text. */
module Markup {
  import opened PyText

  /** The code fence: three backticks. */
  const FENCE := "```"
  /** The bold marker: two asterisks. */
  const BOLD_MARK := "**"

  /** The text-widget tags the core inserts text with. */
  datatype Tag = User | AiResponse | ErrorLine | CodeBlock

  datatype Run = Run(text: string, tag: Tag)

  /** The bold tag over the characters `start .. end - 1` of the widget's text. */
  datatype Span = Span(start: nat, end: nat)

  /** The tag of answer text: code inside a fence, plain answer text outside. */
  function TagFor(inCode: bool): Tag {
    if inCode then CodeBlock else AiResponse
  }

  /** `b` toggled `n` times. */
  function Flip(b: bool, n: nat): bool {
    if n == 0 then b else !Flip(b, n - 1)
  }

  lemma {:induction false} FlipFlip(b: bool, m: nat, n: nat)
    ensures Flip(Flip(b, m), n) == Flip(b, m + n)
  {
    if n > 0 {
      FlipFlip(b, m, n - 1);
    }
  }

  /** The characters of the display, in order. */
  function RunsText(runs: seq<Run>): string {
    if runs == [] then "" else runs[0].text + RunsText(runs[1..])
  }

  /** `text_widget.get("1.0", END)`: Tk always adds a final newline. */
  function WidgetText(runs: seq<Run>): string {
    RunsText(runs) + "\n"
  }

  lemma {:induction false} RunsTextAppend(a: seq<Run>, b: seq<Run>)
    ensures RunsText(a + b) == RunsText(a) + RunsText(b)
  {
    if a == [] {
      assert a + b == b;
    } else {
      assert (a + b)[1..] == a[1..] + b;
      RunsTextAppend(a[1..], b);
      Associative(a[0].text, RunsText(a[1..]), RunsText(b));
    }
  }

  // ---------------------------------------------------------------------------
  // One chunk: split on the fence, toggle once per fence, tag each piece
  // ---------------------------------------------------------------------------

  /** A piece between fences is inserted only when it is not empty. */
  function Segment(inCode: bool, part: string): seq<Run> {
    if part == "" then [] else [Run(part, TagFor(inCode))]
  }

  /** The pieces after the first, each preceded by a fence; every fence toggles
      the state and is tagged with the state after the toggle. */
  function FencedRuns(inCode: bool, rest: seq<string>): seq<Run>
    decreases |rest|
  {
    if rest == [] then []
    else [Run(FENCE, TagFor(!inCode))] + Segment(!inCode, rest[0]) + FencedRuns(!inCode, rest[1..])
  }

  /** The runs for the pieces of `chunk.split("```")`. */
  function PartsRuns(inCode: bool, parts: seq<string>): seq<Run>
    requires |parts| >= 1
  {
    Segment(inCode, parts[0]) + FencedRuns(inCode, parts[1..])
  }

  /** What `_process_stream_chunk` inserts for one chunk: without a fence, the
      whole chunk under the current state's tag; with fences, the pieces and the
      fences, tagged as the state toggles. */
  function ChunkRuns(inCode: bool, chunk: string): seq<Run> {
    if Contains(chunk, FENCE) then PartsRuns(inCode, Split(chunk, FENCE))
    else [Run(chunk, TagFor(inCode))]
  }

  /** The code-block state after a chunk: toggled once per fence in it. */
  function StateAfter(inCode: bool, chunk: string): bool {
    Flip(inCode, Count(chunk, FENCE))
  }

  /** Appending one more piece adds one fence, tagged by the state it toggles to,
      and the piece under the same tag. */
  lemma {:induction false} FencedRunsSnoc(inCode: bool, rest: seq<string>, p: string)
    ensures FencedRuns(inCode, rest + [p]) ==
              FencedRuns(inCode, rest) + [Run(FENCE, TagFor(Flip(inCode, |rest| + 1)))]
                + Segment(Flip(inCode, |rest| + 1), p)
    decreases |rest|
  {
    if rest != [] {
      assert (rest + [p])[0] == rest[0] && (rest + [p])[1..] == rest[1..] + [p];
      FencedRunsSnoc(!inCode, rest[1..], p);
      FlipFlip(inCode, 1, |rest[1..]| + 1);
      assert Flip(!inCode, |rest[1..]| + 1) == Flip(inCode, |rest| + 1) by { assert Flip(inCode, 1) == !inCode; }
      var head := [Run(FENCE, TagFor(!inCode))] + Segment(!inCode, rest[0]);
      var tail := FencedRuns(!inCode, rest[1..]);
      var fence := [Run(FENCE, TagFor(Flip(inCode, |rest| + 1)))];
      Associative(head, tail, fence);
      Associative(head, tail + fence, Segment(Flip(inCode, |rest| + 1), p));
    }
  }

  lemma PartsRunsSnoc(inCode: bool, parts: seq<string>, p: string)
    requires |parts| >= 1
    ensures PartsRuns(inCode, parts + [p]) ==
              PartsRuns(inCode, parts) + [Run(FENCE, TagFor(Flip(inCode, |parts|)))]
                + Segment(Flip(inCode, |parts|), p)
  {
    assert (parts + [p])[1..] == parts[1..] + [p];
    FencedRunsSnoc(inCode, parts[1..], p);
  }

  lemma {:induction false} FencedRunsText(inCode: bool, rest: seq<string>)
    ensures RunsText(FencedRuns(inCode, rest)) == if rest == [] then "" else FENCE + Join(rest, FENCE)
    decreases |rest|
  {
    if rest != [] {
      var seg := Segment(!inCode, rest[0]);
      var tail := FencedRuns(!inCode, rest[1..]);
      FencedRunsText(!inCode, rest[1..]);
      RunsTextAppend([Run(FENCE, TagFor(!inCode))] + seg, tail);
      RunsTextAppend([Run(FENCE, TagFor(!inCode))], seg);
      assert RunsText([Run(FENCE, TagFor(!inCode))]) == FENCE;
      assert RunsText(seg) == rest[0];
      if |rest| == 1 {
        assert FENCE + rest[0] + "" == FENCE + rest[0];
      } else {
        Associative(FENCE + rest[0], FENCE, Join(rest[1..], FENCE));
        Associative(FENCE, rest[0] + FENCE, Join(rest[1..], FENCE));
        Associative(FENCE, rest[0], FENCE);
      }
    }
  }

  /** Tagging never drops or duplicates a character: the runs inserted for a
      chunk spell the chunk, fences included. */
  lemma ChunkRunsText(inCode: bool, chunk: string)
    ensures RunsText(ChunkRuns(inCode, chunk)) == chunk
  {
    if Contains(chunk, FENCE) {
      var parts := Split(chunk, FENCE);
      SplitJoin(chunk, FENCE);
      FencedRunsText(inCode, parts[1..]);
      RunsTextAppend(Segment(inCode, parts[0]), FencedRuns(inCode, parts[1..]));
      assert RunsText(Segment(inCode, parts[0])) == parts[0];
      JoinCons(parts[0], parts[1..], FENCE);
      assert [parts[0]] + parts[1..] == parts;
    } else {
      assert RunsText([Run(chunk, TagFor(inCode))]) == chunk;
    }
  }

  lemma {:induction false} FencedRunsNonEmpty(inCode: bool, rest: seq<string>)
    ensures forall i :: 0 <= i < |FencedRuns(inCode, rest)| ==> FencedRuns(inCode, rest)[i].text != ""
    decreases |rest|
  {
    if rest != [] {
      FencedRunsNonEmpty(!inCode, rest[1..]);
    }
  }

  /** When a chunk holds a fence, no empty piece is inserted. */
  lemma ChunkRunsNonEmpty(inCode: bool, chunk: string)
    requires Contains(chunk, FENCE)
    ensures forall i :: 0 <= i < |ChunkRuns(inCode, chunk)| ==> ChunkRuns(inCode, chunk)[i].text != ""
  {
    FencedRunsNonEmpty(inCode, Split(chunk, FENCE)[1..]);
  }

  /** The tags of the fence runs, in order. */
  function FenceTags(runs: seq<Run>): seq<Tag> {
    if runs == [] then []
    else (if runs[0].text == FENCE then [runs[0].tag] else []) + FenceTags(runs[1..])
  }

  lemma {:induction false} FenceTagsAppend(a: seq<Run>, b: seq<Run>)
    ensures FenceTags(a + b) == FenceTags(a) + FenceTags(b)
  {
    if a == [] {
      assert a + b == b;
    } else {
      assert (a + b)[1..] == a[1..] + b;
      FenceTagsAppend(a[1..], b);
      var h := if a[0].text == FENCE then [a[0].tag] else [];
      Associative(h, FenceTags(a[1..]), FenceTags(b));
    }
  }

  /** The tags of `n` fences met one after another from state `inCode`: each is
      tagged by the state its toggle leads to, so they alternate. */
  function AlternatingTags(inCode: bool, n: nat): seq<Tag>
    decreases n
  {
    if n == 0 then [] else [TagFor(!inCode)] + AlternatingTags(!inCode, n - 1)
  }

  /** The j-th of them (counting from 0) is tagged by the state after j + 1 toggles. */
  lemma {:induction false} AlternatingTagsAt(inCode: bool, n: nat, j: nat)
    requires j < n
    ensures |AlternatingTags(inCode, n)| == n
    ensures AlternatingTags(inCode, n)[j] == TagFor(Flip(inCode, j + 1))
    decreases n
  {
    assert Flip(inCode, 1) == !inCode;
    if j > 0 {
      AlternatingTagsAt(!inCode, n - 1, j - 1);
      FlipFlip(inCode, 1, j);
    } else if n > 1 {
      AlternatingTagsAt(!inCode, n - 1, 0);
    }
  }

  lemma {:induction false} FencedRunsFenceTags(inCode: bool, rest: seq<string>)
    requires forall i :: 0 <= i < |rest| ==> rest[i] != FENCE
    ensures FenceTags(FencedRuns(inCode, rest)) == AlternatingTags(inCode, |rest|)
    decreases |rest|
  {
    if rest != [] {
      assert forall i :: 0 <= i < |rest[1..]| ==> rest[1..][i] != FENCE by {
        forall i | 0 <= i < |rest[1..]| ensures rest[1..][i] != FENCE {
          assert rest[1..][i] == rest[i + 1];
        }
      }
      FencedRunsFenceTags(!inCode, rest[1..]);
      FenceTagsCons(inCode, rest);
    }
  }

  /** A piece that is not itself a fence adds no fence run. */
  lemma SegmentNoFence(inCode: bool, p: string)
    requires p != FENCE
    ensures FenceTags(Segment(inCode, p)) == []
  {
  }

  lemma FenceTagsCons(inCode: bool, rest: seq<string>)
    requires rest != [] && rest[0] != FENCE
    ensures FenceTags(FencedRuns(inCode, rest)) ==
              [TagFor(!inCode)] + FenceTags(FencedRuns(!inCode, rest[1..]))
  {
    var fence := [Run(FENCE, TagFor(!inCode))];
    var seg := Segment(!inCode, rest[0]);
    FenceTagsAppend(fence + seg, FencedRuns(!inCode, rest[1..]));
    FenceTagsAppend(fence, seg);
    SegmentNoFence(!inCode, rest[0]);
    assert FenceTags(fence) == [TagFor(!inCode)];
  }

  /** A chunk with k fences inserts exactly k fence runs, and the j-th of them
      (counting from 1) is tagged by the state after j toggles: a fence that
      opens a block is code, a fence that closes one is plain answer text. */
  lemma ChunkFenceTags(inCode: bool, chunk: string)
    ensures FenceTags(ChunkRuns(inCode, chunk)) == AlternatingTags(inCode, Count(chunk, FENCE))
  {
    SplitCount(chunk, FENCE);
    FenceIsFence();
    if Contains(chunk, FENCE) {
      SplitTailNoFence(chunk);
      FencedRunsFenceTags(inCode, Split(chunk, FENCE)[1..]);
      ChunkFenceTagsSplit(inCode, chunk);
    } else {
      assert FenceTags([Run(chunk, TagFor(inCode))]) == [];
    }
  }

  lemma FenceIsFence()
    ensures Contains(FENCE, FENCE)
  {
    assert OccursAt(FENCE, FENCE, 0);
  }

  /** No piece after the first is itself a fence. */
  lemma SplitTailNoFence(chunk: string)
    ensures forall i :: 1 <= i < |Split(chunk, FENCE)| ==> Split(chunk, FENCE)[i] != FENCE
  {
    forall i | 1 <= i < |Split(chunk, FENCE)| ensures Split(chunk, FENCE)[i] != FENCE {
      SplitPartsFree(chunk, FENCE, i);
      FenceIsFence();
    }
  }

  /** With a fence in the chunk, the first piece adds no fence run. */
  lemma ChunkFenceTagsSplit(inCode: bool, chunk: string)
    requires Contains(chunk, FENCE)
    ensures FenceTags(ChunkRuns(inCode, chunk)) == FenceTags(FencedRuns(inCode, Split(chunk, FENCE)[1..]))
  {
    SplitPartsFree(chunk, FENCE, 0);
    FenceIsFence();
    SegmentNoFence(inCode, Split(chunk, FENCE)[0]);
    FenceTagsAppend(Segment(inCode, Split(chunk, FENCE)[0]), FencedRuns(inCode, Split(chunk, FENCE)[1..]));
  }

  /** The fence must arrive whole: a fence split across two chunks is not seen,
      neither chunk toggles the state, although the concatenation holds a fence. */
  lemma SplitFenceIsMissed()
    ensures Count("``", FENCE) == 0 && Count("`", FENCE) == 0
    ensures StateAfter(StateAfter(false, "``"), "`") == false
    ensures Count("``" + "`", FENCE) == 1
  {
    assert "``" + "`" == FENCE;
    assert OccursAt(FENCE, FENCE, 0);
    assert FENCE[3..] == "";
  }

  // ---------------------------------------------------------------------------
  // The bold scan: re.finditer(r'\*\*(.*?)\*\*', text, re.DOTALL)
  // ---------------------------------------------------------------------------

  /** A `**` starts at index `k` of `s`. */
  predicate MarkerAt(s: string, k: int) {
    0 <= k && k + 1 < |s| && s[k] == '*' && s[k + 1] == '*'
  }

  /** The first `**` that starts at or after `from`. */
  function NextMarker(s: string, from: nat): (r: Option<nat>)
    ensures r.Some? ==> from <= r.value && MarkerAt(s, r.value)
    decreases |s| - from
  {
    if from + 2 > |s| then None
    else if MarkerAt(s, from) then Some(from)
    else NextMarker(s, from + 1)
  }

  /** No `**` starts between `from` and the one found, and none at all at or
      after `from` when none is found. */
  lemma {:induction false} NextMarkerLeftmost(s: string, from: nat)
    ensures NextMarker(s, from).Some? ==>
              forall k :: from <= k < NextMarker(s, from).value ==> !MarkerAt(s, k)
    ensures NextMarker(s, from).None? ==> forall k :: from <= k ==> !MarkerAt(s, k)
    decreases |s| - from
  {
    if from + 2 <= |s| && !MarkerAt(s, from) {
      NextMarkerLeftmost(s, from + 1);
    }
  }

  /** A `**` with none before it, at or after `from`, is the one found. */
  lemma NextMarkerIs(s: string, from: nat, k: nat)
    requires from <= k && MarkerAt(s, k)
    requires forall j :: from <= j < k ==> !MarkerAt(s, j)
    ensures NextMarker(s, from) == Some(k)
  {
    NextMarkerLeftmost(s, from);
  }

  /** A `**` in the scan's sense is an occurrence of the bold marker. */
  lemma MarkerIsOccurrence(s: string, k: int)
    ensures MarkerAt(s, k) <==> OccursAt(s, BOLD_MARK, k)
  {
    if OccursAt(s, BOLD_MARK, k) {
      assert s[k + 0] == BOLD_MARK[0] && s[k + 1] == BOLD_MARK[1];
    }
  }

  /** The scan's search for `**` is the string search for the bold marker, so
      from the start it finds one exactly when `'**' in text` holds, the test
      that triggers the rescan. */
  lemma {:induction false} NextMarkerIsFind(s: string, from: nat)
    ensures NextMarker(s, from) == FindFrom(s, BOLD_MARK, from)
    ensures from == 0 ==> (NextMarker(s, 0).Some? <==> Contains(s, BOLD_MARK))
    decreases |s| - from
  {
    MarkerIsOccurrence(s, from);
    if from + 2 <= |s| && !MarkerAt(s, from) {
      NextMarkerIsFind(s, from + 1);
    }
  }

  /** The matches of the bold pattern from position `pos` on, as the regular
      expression engine finds them: try to match at each position in turn; a match
      starts with `**` and ends at the nearest `**` after it (the lazy `.*?`, which
      with DOTALL also crosses newlines); scanning resumes after the match. Each
      match yields the range of its group, the text between the markers. */
  function MatchesFrom(s: string, pos: nat): seq<Span>
    decreases |s| - pos
  {
    if pos + 2 > |s| then []
    else if MarkerAt(s, pos) then
      match NextMarker(s, pos + 2)
      case Some(q) => [Span(pos + 2, q)] + MatchesFrom(s, q + 2)
      case None => MatchesFrom(s, pos + 1)
    else MatchesFrom(s, pos + 1)
  }

  function BoldSpans(s: string): seq<Span> {
    MatchesFrom(s, 0)
  }

  /** A `**` with a partner after it starts a match. */
  lemma MatchesTake(s: string, pos: nat)
    requires MarkerAt(s, pos) && NextMarker(s, pos + 2).Some?
    ensures MatchesFrom(s, pos) ==
              [Span(pos + 2, NextMarker(s, pos + 2).value)] + MatchesFrom(s, NextMarker(s, pos + 2).value + 2)
  {
  }

  /** Any other position starts no match; the search moves on by one. */
  lemma MatchesSkip(s: string, pos: nat)
    requires pos + 2 <= |s|
    requires !MarkerAt(s, pos) || NextMarker(s, pos + 2).None?
    ensures MatchesFrom(s, pos) == MatchesFrom(s, pos + 1)
  {
  }

  /** Once no `**` is left at or after `c`, no match starts at or after `c - 2`. */
  lemma {:induction false} NoCloserNoMatch(s: string, c: nat, p: nat)
    requires NextMarker(s, c) == None && c <= p + 2
    ensures MatchesFrom(s, p) == []
    decreases |s| - p
  {
    NextMarkerLeftmost(s, c);
    if p + 2 <= |s| {
      MatchesSkip(s, p);
      NoCloserNoMatch(s, c, p + 1);
    }
  }

  /** The matches found by taking the first `**` at or after `pos` as the
      opening marker and the first `**` after it as the closing one. */
  function FirstMarkerMatches(s: string, pos: nat): seq<Span> {
    MatchesOpenedAt(s, NextMarker(s, pos))
  }

  /** The matches when the opening marker is the one found at `opener`. */
  function MatchesOpenedAt(s: string, opener: Option<nat>): seq<Span> {
    match opener
    case None => []
    case Some(p) =>
      match NextMarker(s, p + 2)
      case None => []
      case Some(q) => [Span(p + 2, q)] + MatchesFrom(s, q + 2)
  }

  /** The engine's position-by-position search is the same as taking the first
      `**` as the opening marker: no earlier position can start a match, and if
      the first marker has no partner, no later one has either. */
  lemma {:induction false} MatchesFromFirstMarker(s: string, pos: nat)
    ensures MatchesFrom(s, pos) == FirstMarkerMatches(s, pos)
    decreases |s| - pos
  {
    if pos + 2 > |s| {
      assert NextMarker(s, pos) == None;
    } else if MarkerAt(s, pos) {
      MatchesAtMarker(s, pos);
    } else {
      MatchesSkip(s, pos);
      assert NextMarker(s, pos) == NextMarker(s, pos + 1);
      MatchesFromFirstMarker(s, pos + 1);
    }
  }

  /** At a `**` both searches take it as the opening marker. */
  lemma MatchesAtMarker(s: string, pos: nat)
    requires MarkerAt(s, pos)
    ensures MatchesFrom(s, pos) == FirstMarkerMatches(s, pos)
  {
    assert NextMarker(s, pos) == Some(pos);
    if NextMarker(s, pos + 2).None? {
      NoCloserNoMatch(s, pos + 2, pos + 1);
      MatchesSkip(s, pos);
    } else {
      MatchesTake(s, pos);
    }
  }

  /** Every match is well formed: its group lies between a `**` before it and a
      `**` after it (the markers are not tagged), no `**` starts inside the group
      (so the group neither holds `**` nor ends in `*`), and the matches come in
      order without overlapping, markers included. */
  ghost predicate WellFormedMatches(s: string, pos: nat, spans: seq<Span>) {
    && (forall i :: 0 <= i < |spans| ==>
          && pos + 2 <= spans[i].start <= spans[i].end
          && MarkerAt(s, spans[i].start - 2)
          && MarkerAt(s, spans[i].end)
          && forall k :: spans[i].start <= k < spans[i].end ==> !MarkerAt(s, k))
    && (forall i :: 0 <= i < |spans| - 1 ==> spans[i].end + 2 <= spans[i + 1].start - 2)
  }

  /** A match in front of well-formed later matches keeps them well formed. */
  lemma WellFormedCons(s: string, pos: nat, m: Span, tail: seq<Span>)
    requires pos + 2 <= m.start <= m.end
    requires MarkerAt(s, m.start - 2) && MarkerAt(s, m.end)
    requires forall k :: m.start <= k < m.end ==> !MarkerAt(s, k)
    requires WellFormedMatches(s, m.end + 2, tail)
    ensures WellFormedMatches(s, pos, [m] + tail)
  {
    var spans := [m] + tail;
    forall i | 0 <= i < |spans| - 1 ensures spans[i].end + 2 <= spans[i + 1].start - 2 {
      if i > 0 {
        assert spans[i] == tail[i - 1] && spans[i + 1] == tail[i];
      } else {
        assert spans[1] == tail[0];
      }
    }
    forall i | 0 <= i < |spans|
      ensures pos + 2 <= spans[i].start <= spans[i].end
      ensures MarkerAt(s, spans[i].start - 2)
      ensures MarkerAt(s, spans[i].end)
      ensures forall k :: spans[i].start <= k < spans[i].end ==> !MarkerAt(s, k)
    {
      if i > 0 {
        assert spans[i] == tail[i - 1];
      }
    }
  }

  lemma WellFormedFrom(s: string, pos: nat, later: nat, spans: seq<Span>)
    requires pos <= later && WellFormedMatches(s, later, spans)
    ensures WellFormedMatches(s, pos, spans)
  {
  }

  lemma {:induction false} MatchesWellFormed(s: string, pos: nat)
    ensures WellFormedMatches(s, pos, MatchesFrom(s, pos))
    decreases |s| - pos
  {
    if pos + 2 > |s| {
      assert MatchesFrom(s, pos) == [];
    } else if MarkerAt(s, pos) && NextMarker(s, pos + 2).Some? {
      var q := NextMarker(s, pos + 2).value;
      MatchesTake(s, pos);
      MatchesWellFormed(s, q + 2);
      NextMarkerLeftmost(s, pos + 2);
      WellFormedCons(s, pos, Span(pos + 2, q), MatchesFrom(s, q + 2));
    } else {
      MatchesSkip(s, pos);
      MatchesWellFormed(s, pos + 1);
      WellFormedFrom(s, pos, pos + 1, MatchesFrom(s, pos + 1));
    }
  }

  /** A stretch without `*` starts no match. */
  lemma {:induction false} SkipStarFree(s: string, from: nat, to: nat)
    requires from <= to <= |s|
    requires forall k :: from <= k < to ==> s[k] != '*'
    ensures MatchesFrom(s, from) == MatchesFrom(s, to)
    decreases |s| - from
  {
    if from < to {
      if from + 2 <= |s| {
        MatchesSkip(s, from);
      }
      SkipStarFree(s, from + 1, to);
    }
  }

  /** Where the characters of `a + "**" + w + "**" + b` come from. */
  lemma MarkedWordChars(a: string, w: string, b: string)
    ensures var s := a + BOLD_MARK + w + BOLD_MARK + b;
      var q := |a| + 2 + |w|;
      && |s| == q + 2 + |b|
      && (forall k :: 0 <= k < |a| ==> s[k] == a[k])
      && s[|a|] == '*' && s[|a| + 1] == '*'
      && (forall k :: 0 <= k < |w| ==> s[|a| + 2 + k] == w[k])
      && s[q] == '*' && s[q + 1] == '*'
      && (forall k :: 0 <= k < |b| ==> s[q + 2 + k] == b[k])
  {
  }

  /** Between two `**` markers, a word without `*` in text without other `*`
      is tagged, and nothing else: exactly the word, not its markers. */
  lemma BoldWord(a: string, w: string, b: string)
    requires forall k :: 0 <= k < |a| ==> a[k] != '*'
    requires forall k :: 0 <= k < |w| ==> w[k] != '*'
    requires forall k :: 0 <= k < |b| ==> b[k] != '*'
    ensures BoldSpans(a + BOLD_MARK + w + BOLD_MARK + b) == [Span(|a| + 2, |a| + 2 + |w|)]
  {
    var s := a + BOLD_MARK + w + BOLD_MARK + b;
    var p := |a|;
    var q := p + 2 + |w|;
    MarkedWordChars(a, w, b);
    StarFreePiece(s, 0, a);
    StarFreePiece(s, p + 2, w);
    StarFreePiece(s, q + 2, b);
    OnlyMarkedSpan(s, p, q);
  }

  /** A copy of star-free text inside `s` leaves that stretch of `s` star-free. */
  lemma StarFreePiece(s: string, off: nat, t: string)
    requires off + |t| <= |s|
    requires forall k :: 0 <= k < |t| ==> s[off + k] == t[k]
    requires forall k :: 0 <= k < |t| ==> t[k] != '*'
    ensures forall k :: off <= k < off + |t| ==> s[k] != '*'
  {
    forall k | off <= k < off + |t| ensures s[k] != '*' {
      assert s[off + (k - off)] == t[k - off];
    }
  }

  /** Text whose only `*` are two pairs at `p` and `q` has the one match between
      them. */
  lemma OnlyMarkedSpan(s: string, p: nat, q: nat)
    requires p + 2 <= q && q + 2 <= |s|
    requires s[p] == '*' && s[p + 1] == '*' && s[q] == '*' && s[q + 1] == '*'
    requires forall k :: 0 <= k < p ==> s[k] != '*'
    requires forall k :: p + 2 <= k < q ==> s[k] != '*'
    requires forall k :: q + 2 <= k < |s| ==> s[k] != '*'
    ensures MatchesFrom(s, 0) == [Span(p + 2, q)]
  {
    SkipStarFree(s, 0, p);
    NextMarkerIs(s, p + 2, q);
    MatchesTake(s, p);
    NoCloserNoMatch(s, q + 2, q + 2);
  }

  // ---------------------------------------------------------------------------
  // The tagger's state across chunks
  // ---------------------------------------------------------------------------

  /** The state `_process_stream_chunk` works on: the widget's runs and bold
      ranges, `in_code_block` and `current_ai_response`. */
  datatype Tagger = Tagger(display: seq<Run>, bold: seq<Span>, inCode: bool, response: string)

  /** Whether a chunk makes `_process_stream_chunk` rescan for bold: only a chunk
      without a fence, outside a code block, that holds `**` itself. */
  predicate TriggersBold(inCode: bool, chunk: string) {
    !Contains(chunk, FENCE) && !inCode && Contains(chunk, BOLD_MARK)
  }

  /** One call of `_process_stream_chunk`. */
  function Ingest(t: Tagger, chunk: string): Tagger {
    var display := t.display + ChunkRuns(t.inCode, chunk);
    Tagger(display,
           if TriggersBold(t.inCode, chunk) then BoldSpans(WidgetText(display)) else t.bold,
           StateAfter(t.inCode, chunk),
           t.response + chunk)
  }

  /** A chunk without a fence leaves the code-block state alone. */
  lemma PlainChunk(inCode: bool, chunk: string)
    requires !Contains(chunk, FENCE)
    ensures StateAfter(inCode, chunk) == inCode
  {
    SplitSingle(chunk, FENCE);
    SplitCount(chunk, FENCE);
  }

  /** With fences, the state toggles once per piece after the first. */
  lemma FencedChunk(inCode: bool, chunk: string)
    ensures StateAfter(inCode, chunk) == Flip(inCode, |Split(chunk, FENCE)| - 1)
  {
    SplitCount(chunk, FENCE);
  }

  /** One chunk: the answer gains the chunk, the display keeps what it showed and
      gains text that spells the chunk, the flag toggles once per fence, and the
      bold ranges are recomputed over the whole widget exactly when the chunk
      triggers the rescan. */
  lemma IngestFacts(t: Tagger, chunk: string)
    ensures var r := Ingest(t, chunk);
      && r.response == t.response + chunk
      && |r.display| >= |t.display| && r.display[..|t.display|] == t.display
      && RunsText(r.display) == RunsText(t.display) + chunk
      && r.inCode == StateAfter(t.inCode, chunk)
      && r.bold == if TriggersBold(t.inCode, chunk) then BoldSpans(WidgetText(r.display)) else t.bold
  {
    ChunkRunsText(t.inCode, chunk);
    RunsTextAppend(t.display, ChunkRuns(t.inCode, chunk));
  }

  /** `_process_stream_chunk` called on each chunk in turn. */
  function IngestAll(t: Tagger, chunks: seq<string>): Tagger
    decreases |chunks|
  {
    if chunks == [] then t else IngestAll(Ingest(t, chunks[0]), chunks[1..])
  }

  /** A fence split across chunks is never seen: from any state, two chunks
      that hold no fence each leave the code-block state as it was, even when
      their concatenation holds one (`SplitFenceIsMissed` gives such a pair). */
  lemma FenceAcrossChunksIgnored(t: Tagger, a: string, b: string)
    requires !Contains(a, FENCE) && !Contains(b, FENCE)
    ensures IngestAll(t, [a, b]).inCode == t.inCode
  {
    var t1 := Ingest(t, a);
    PlainChunk(t.inCode, a);
    PlainChunk(t1.inCode, b);
    assert [a, b][1..] == [b] && [b][1..] == [];
    assert IngestAll(t, [a, b]) == IngestAll(t1, [b]);
    assert IngestAll(t1, [b]) == IngestAll(Ingest(t1, b), []);
  }

  lemma {:induction false} IngestAllSnoc(t: Tagger, chunks: seq<string>, c: string)
    ensures IngestAll(t, chunks + [c]) == Ingest(IngestAll(t, chunks), c)
    decreases |chunks|
  {
    if chunks == [] {
      assert IngestAll(t, [c]) == IngestAll(Ingest(t, c), []);
    } else {
      assert (chunks + [c])[1..] == chunks[1..] + [c];
      IngestAllSnoc(Ingest(t, chunks[0]), chunks[1..], c);
    }
  }

  /** All chunks, concatenated. */
  function Concat(chunks: seq<string>): string {
    if chunks == [] then "" else chunks[0] + Concat(chunks[1..])
  }

  /** The number of fences over all chunks, each counted within its own chunk. */
  function FenceTotal(chunks: seq<string>): nat {
    if chunks == [] then 0 else Count(chunks[0], FENCE) + FenceTotal(chunks[1..])
  }

  /** Over a whole stream, `current_ai_response` gains exactly the concatenation
      of the chunks: no character is dropped or duplicated, fences included. */
  lemma {:induction false} IngestAllResponse(t: Tagger, chunks: seq<string>)
    ensures IngestAll(t, chunks).response == t.response + Concat(chunks)
    decreases |chunks|
  {
    if chunks != [] {
      IngestFacts(t, chunks[0]);
      IngestAllResponse(Ingest(t, chunks[0]), chunks[1..]);
    }
  }

  /** Over a whole stream the display only grows: what was shown stays. */
  lemma {:induction false} IngestAllDisplay(t: Tagger, chunks: seq<string>)
    ensures |IngestAll(t, chunks).display| >= |t.display|
    ensures IngestAll(t, chunks).display[..|t.display|] == t.display
    decreases |chunks|
  {
    if chunks == [] {
      assert IngestAll(t, chunks) == t;
    } else {
      var t1 := Ingest(t, chunks[0]);
      IngestFacts(t, chunks[0]);
      assert IngestAll(t, chunks) == IngestAll(t1, chunks[1..]);
      IngestAllDisplay(t1, chunks[1..]);
      var d := IngestAll(t1, chunks[1..]).display;
      assert d[..|t.display|] == d[..|t1.display|][..|t.display|];
    }
  }

  /** Over a whole stream the text the display gains spells the concatenation
      of the chunks. */
  lemma {:induction false} IngestAllText(t: Tagger, chunks: seq<string>)
    ensures RunsText(IngestAll(t, chunks).display) == RunsText(t.display) + Concat(chunks)
    decreases |chunks|
  {
    if chunks == [] {
      assert IngestAll(t, chunks) == t;
      assert Concat(chunks) == "";
    } else {
      var c, rest := chunks[0], chunks[1..];
      var t1 := Ingest(t, c);
      IngestFacts(t, c);
      IngestAllText(t1, rest);
      Regroup(RunsText(t.display), c, RunsText(t1.display), Concat(rest), RunsText(IngestAll(t1, rest).display));
    }
  }

  /** The text after two appends in a row, regrouped. */
  lemma Regroup(a: string, c: string, b: string, r: string, d: string)
    requires b == a + c && d == b + r
    ensures d == a + (c + r)
  {
  }

  /** Over a whole stream the code-block state has toggled once per fence found
      inside a single chunk. */
  lemma {:induction false} IngestAllParity(t: Tagger, chunks: seq<string>)
    ensures IngestAll(t, chunks).inCode == Flip(t.inCode, FenceTotal(chunks))
    decreases |chunks|
  {
    if chunks != [] {
      var t1 := Ingest(t, chunks[0]);
      assert IngestAll(t, chunks) == IngestAll(t1, chunks[1..]);
      IngestAllParity(t1, chunks[1..]);
      FlipFlip(t.inCode, Count(chunks[0], FENCE), FenceTotal(chunks[1..]));
    }
  }
}
