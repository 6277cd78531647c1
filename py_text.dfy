/** The handful of Python `str` operations the chat client's core relies on:
    `isspace`/`strip`, `startswith`, `in`, `split(sep)`, `sep.join`, `count` and
    `str(n)` for a natural number. Strings are sequences of Unicode scalar values,
    as Python 3 strings are sequences of code points. */
module PyText {

  datatype Option<+T> = None | Some(value: T)

  // ---------------------------------------------------------------------------
  // Whitespace and strip()
  // ---------------------------------------------------------------------------

  /** The characters for which Python's `str.isspace()` holds: ASCII tab to
      carriage return, the four separator controls, space, NEL, NBSP and the
      Unicode space separators and line/paragraph separators. */
  predicate IsSpace(c: char) {
    || c == ' '
    || ('\t' <= c <= '\r')
    || ('\U{1C}' <= c <= '\U{1F}')
    || c == '\U{85}' || c == '\U{A0}' || c == '\U{1680}'
    || ('\U{2000}' <= c <= '\U{200A}')
    || c == '\U{2028}' || c == '\U{2029}' || c == '\U{202F}' || c == '\U{205F}' || c == '\U{3000}'
  }

  /** How many whitespace characters `s` starts with. */
  function LeadingSpace(s: string): (n: nat)
    ensures n <= |s|
  {
    if s != [] && IsSpace(s[0]) then 1 + LeadingSpace(s[1..]) else 0
  }

  /** The leading run is all whitespace and is maximal. */
  lemma {:induction false} LeadingSpaceIs(s: string)
    ensures forall i :: 0 <= i < LeadingSpace(s) ==> IsSpace(s[i])
    ensures LeadingSpace(s) == |s| || !IsSpace(s[LeadingSpace(s)])
  {
    if s != [] && IsSpace(s[0]) {
      LeadingSpaceIs(s[1..]);
      forall i | 1 <= i < LeadingSpace(s) ensures IsSpace(s[i]) {
        assert s[i] == s[1..][i - 1];
      }
      if LeadingSpace(s) < |s| {
        assert s[LeadingSpace(s)] == s[1..][LeadingSpace(s[1..])];
      }
    }
  }

  /** How many whitespace characters `s` ends with. */
  function TrailingSpace(s: string): (n: nat)
    ensures n <= |s|
  {
    if s != [] && IsSpace(s[|s| - 1]) then 1 + TrailingSpace(s[..|s| - 1]) else 0
  }

  /** The trailing run is all whitespace and is maximal. */
  lemma {:induction false} TrailingSpaceIs(s: string)
    ensures forall i :: |s| - TrailingSpace(s) <= i < |s| ==> IsSpace(s[i])
    ensures TrailingSpace(s) == |s| || !IsSpace(s[|s| - TrailingSpace(s) - 1])
  {
    if s != [] && IsSpace(s[|s| - 1]) {
      var init := s[..|s| - 1];
      TrailingSpaceIs(init);
      forall i | |s| - TrailingSpace(s) <= i < |s| - 1 ensures IsSpace(s[i]) {
        assert s[i] == init[i];
      }
      if TrailingSpace(s) < |s| {
        assert s[|s| - TrailingSpace(s) - 1] == init[|init| - TrailingSpace(init) - 1];
      }
    }
  }

  /** `s.lstrip()`. */
  function TrimStart(s: string): string {
    s[LeadingSpace(s)..]
  }

  /** `s.rstrip()`. */
  function TrimEnd(s: string): string {
    s[..|s| - TrailingSpace(s)]
  }

  /** `s.strip()`: `s` without its leading and trailing whitespace. */
  function Strip(s: string): string {
    TrimEnd(TrimStart(s))
  }

  /** Where the result of `Strip(s)` begins in `s`. */
  function StripStart(s: string): nat {
    |s| - |TrimStart(s)|
  }

  /** The result of `Strip(s)` is the run of `s` that starts at `StripStart(s)`;
      everything outside it is whitespace, and it neither starts nor ends with
      whitespace. */
  lemma StripIsSlice(s: string)
    ensures StripStart(s) + |Strip(s)| <= |s|
    ensures forall i :: 0 <= i < |Strip(s)| ==> Strip(s)[i] == s[StripStart(s) + i]
    ensures forall i :: 0 <= i < StripStart(s) ==> IsSpace(s[i])
    ensures forall i :: StripStart(s) + |Strip(s)| <= i < |s| ==> IsSpace(s[i])
    ensures Strip(s) == [] || (!IsSpace(Strip(s)[0]) && !IsSpace(Strip(s)[|Strip(s)| - 1]))
  {
    var t := TrimStart(s);
    var r := TrimEnd(t);
    var a := |s| - |t|;
    LeadingSpaceIs(s);
    TrailingSpaceIs(t);
    forall i | a + |r| <= i < |s| ensures IsSpace(s[i]) {
      assert s[i] == t[i - a];
    }
    if r != [] {
      assert r[0] == t[0];
    }
  }

  /** A string that neither starts nor ends with whitespace is its own strip. */
  lemma StripUnchanged(s: string)
    requires s == [] || (!IsSpace(s[0]) && !IsSpace(s[|s| - 1]))
    ensures Strip(s) == s
  {
    assert TrimStart(s) == s;
    assert TrimEnd(s) == s;
  }

  // ---------------------------------------------------------------------------
  // Prefixes and substring search
  // ---------------------------------------------------------------------------

  /** `s.startswith(prefix)`. */
  predicate StartsWith(s: string, prefix: string) {
    |prefix| <= |s| && s[..|prefix|] == prefix
  }

  /** `pat` occurs in `s` starting at index `k`. */
  predicate OccursAt(s: string, pat: string, k: int) {
    0 <= k && k + |pat| <= |s| && forall j :: 0 <= j < |pat| ==> s[k + j] == pat[j]
  }

  /** `s.find(pat, from)`: the leftmost occurrence of `pat` at or after `from`
      (that it is the leftmost is `FindFromLeftmost`). */
  function FindFrom(s: string, pat: string, from: nat): (r: Option<nat>)
    ensures r.Some? ==> from <= r.value && OccursAt(s, pat, r.value)
    decreases |s| - from
  {
    if from + |pat| > |s| then None
    else if OccursAt(s, pat, from) then Some(from)
    else FindFrom(s, pat, from + 1)
  }

  /** No occurrence lies between `from` and what `FindFrom` returns, and when it
      returns nothing there is no occurrence at or after `from` at all. */
  lemma {:induction false} FindFromLeftmost(s: string, pat: string, from: nat)
    ensures FindFrom(s, pat, from).Some? ==>
              forall k :: from <= k < FindFrom(s, pat, from).value ==> !OccursAt(s, pat, k)
    ensures FindFrom(s, pat, from).None? ==> forall k :: from <= k ==> !OccursAt(s, pat, k)
    decreases |s| - from
  {
    if from + |pat| <= |s| && !OccursAt(s, pat, from) {
      FindFromLeftmost(s, pat, from + 1);
    }
  }

  /** An occurrence with none before it, at or after `from`, is what `FindFrom`
      returns. */
  lemma FindFromIs(s: string, pat: string, from: nat, k: nat)
    requires from <= k && OccursAt(s, pat, k)
    requires forall j :: from <= j < k ==> !OccursAt(s, pat, j)
    ensures FindFrom(s, pat, from) == Some(k)
  {
    FindFromLeftmost(s, pat, from);
  }

  /** Python's `pat in s` (its meaning is `ContainsIff`). */
  predicate Contains(s: string, pat: string) {
    FindFrom(s, pat, 0).Some?
  }

  /** `pat in s` holds exactly when `pat` occurs somewhere in `s`. */
  lemma ContainsIff(s: string, pat: string)
    ensures Contains(s, pat) <==> exists k :: OccursAt(s, pat, k)
  {
    FindFromLeftmost(s, pat, 0);
  }

  /** The text searched before the occurrence found holds no occurrence. */
  lemma FreeBeforeFound(s: string, pat: string, from: nat)
    requires pat != "" && FindFrom(s, pat, from).Some?
    ensures !Contains(s[from..FindFrom(s, pat, from).value], pat)
  {
    var k := FindFrom(s, pat, from).value;
    FindFromLeftmost(s, pat, from);
    ContainsIff(s[from..k], pat);
    forall j | OccursAt(s[from..k], pat, j)
      ensures false
    {
      OccursInSlice(s, pat, from, k, j);
    }
  }

  /** Cutting `s` around an occurrence of `pat` and gluing it back gives `s`. */
  lemma Reassemble(s: string, pat: string, k: nat)
    requires OccursAt(s, pat, k)
    ensures s == s[..k] + pat + s[k + |pat|..]
  {
    var t := s[..k] + pat + s[k + |pat|..];
    forall i | 0 <= i < |s| ensures t[i] == s[i] {
      if i < k {
      } else if i < k + |pat| {
        assert t[i] == pat[i - k];
      } else {
        assert t[i] == s[k + |pat|..][i - k - |pat|];
      }
    }
  }

  /** An occurrence inside a slice is an occurrence in the whole string. */
  lemma OccursInSlice(s: string, pat: string, a: nat, b: nat, j: nat)
    requires a <= b <= |s| && OccursAt(s[a..b], pat, j)
    ensures OccursAt(s, pat, a + j) && a + j + |pat| <= b
  {
    forall i | 0 <= i < |pat| ensures s[a + j + i] == pat[i] {
      assert s[a..b][j + i] == s[a + j + i];
    }
  }

  /** An occurrence in a prefix is an occurrence in the whole string. */
  lemma OccursInPrefix(s: string, pat: string, n: nat, k: nat)
    requires n <= |s| && OccursAt(s[..n], pat, k)
    ensures OccursAt(s, pat, k) && k + |pat| <= n
  {
    forall i | 0 <= i < |pat| ensures s[k + i] == pat[i] {
      assert s[..n][k + i] == s[k + i];
    }
  }

  /** An occurrence that ends within the first `n` characters is an occurrence
      in the prefix of length `n`, and back. */
  lemma OccursInPrefixIff(s: string, pat: string, n: nat, k: nat)
    requires n <= |s| && k + |pat| <= n
    ensures OccursAt(s[..n], pat, k) <==> OccursAt(s, pat, k)
  {
    forall i | 0 <= i < |pat|
      ensures (s[..n][k + i] == pat[i]) <==> (s[k + i] == pat[i])
    {
    }
  }

  // ---------------------------------------------------------------------------
  // split(sep), sep.join(parts) and count(sep)
  // ---------------------------------------------------------------------------

  /** `s.split(sep)` for a non-empty separator: cut at the leftmost occurrence,
      then keep splitting what follows it. */
  function Split(s: string, sep: string): (parts: seq<string>)
    requires sep != ""
    ensures |parts| >= 1
    decreases |s|
  {
    match FindFrom(s, sep, 0)
    case None => [s]
    case Some(k) => [s[..k]] + Split(s[k + |sep|..], sep)
  }

  /** The split has a single part exactly when the separator does not occur. */
  lemma SplitSingle(s: string, sep: string)
    requires sep != ""
    ensures |Split(s, sep)| == 1 <==> !Contains(s, sep)
  {
  }

  /** `sep.join(parts)`. */
  function Join(parts: seq<string>, sep: string): string {
    if |parts| == 0 then ""
    else if |parts| == 1 then parts[0]
    else parts[0] + sep + Join(parts[1..], sep)
  }

  /** `s.count(sep)` for a non-empty separator: the number of leftmost,
      non-overlapping occurrences; the search resumes after each one found. */
  function Count(s: string, sep: string): nat
    requires sep != ""
    decreases |s|
  {
    match FindFrom(s, sep, 0)
    case None => 0
    case Some(k) => 1 + Count(s[k + |sep|..], sep)
  }

  /** A split of `s` as Python performs it, stated without recursion: the parts
      joined with `sep` give back `s`, no part but the last is followed by an
      occurrence of `sep` that starts inside it, and the last holds none. */
  ghost predicate IsLeftmostSplit(s: string, sep: string, parts: seq<string>) {
    && |parts| >= 1
    && Join(parts, sep) == s
    && PartsClean(parts, sep)
    && !Contains(parts[|parts| - 1], sep)
  }

  /** No part but the last, with the separator after it, has an occurrence of
      the separator that starts inside the part. */
  ghost predicate PartsClean(parts: seq<string>, sep: string) {
    forall i, k :: 0 <= i < |parts| - 1 && 0 <= k < |parts[i]| ==> !OccursAt(parts[i] + sep, sep, k)
  }

  /** Concatenation regroups freely. */
  lemma Associative<T>(x: seq<T>, y: seq<T>, z: seq<T>)
    ensures (x + y) + z == x + (y + z)
  {
  }

  /** A prefix one longer is the prefix and the next element. */
  lemma TakeOneMore<T>(s: seq<T>, i: nat)
    requires i < |s|
    ensures s[..i + 1] == s[..i] + [s[i]]
  {
  }

  lemma JoinCons(p: string, parts: seq<string>, sep: string)
    requires |parts| >= 1
    ensures Join([p] + parts, sep) == p + sep + Join(parts, sep)
  {
    assert ([p] + parts)[1..] == parts;
  }

  lemma {:induction false} JoinSnoc(parts: seq<string>, p: string, sep: string)
    requires |parts| >= 1
    ensures Join(parts + [p], sep) == Join(parts, sep) + sep + p
  {
    if |parts| > 1 {
      assert (parts + [p])[1..] == parts[1..] + [p];
      JoinSnoc(parts[1..], p, sep);
    }
  }

  /** Joining the parts of a split with the separator gives back the string. */
  lemma {:induction false} SplitJoin(s: string, sep: string)
    requires sep != ""
    ensures Join(Split(s, sep), sep) == s
    decreases |s|
  {
    match FindFrom(s, sep, 0)
    case None =>
    case Some(k) =>
      var rest := s[k + |sep|..];
      var parts := Split(rest, sep);
      SplitJoin(rest, sep);
      calc {
        Join(Split(s, sep), sep);
        Join([s[..k]] + parts, sep);
        { JoinCons(s[..k], parts, sep); }
        s[..k] + sep + Join(parts, sep);
        s[..k] + sep + rest;
        { Reassemble(s, sep, k); }
        s;
      }
  }

  /** `Split` performs the leftmost split. */
  lemma SplitIsLeftmost(s: string, sep: string)
    requires sep != ""
    ensures IsLeftmostSplit(s, sep, Split(s, sep))
  {
    var parts := Split(s, sep);
    SplitJoin(s, sep);
    SplitPartsClean(s, sep);
    SplitPartsFree(s, sep, |parts| - 1);
  }

  lemma SplitPartsClean(s: string, sep: string)
    requires sep != ""
    ensures PartsClean(Split(s, sep), sep)
  {
    forall i, j | 0 <= i < |Split(s, sep)| - 1 && 0 <= j < |Split(s, sep)[i]|
      ensures !OccursAt(Split(s, sep)[i] + sep, sep, j)
    {
      SplitPartClean(s, sep, i, j);
    }
  }

  /** No part but the last, with the separator put back after it, holds an
      occurrence that starts inside the part. */
  lemma {:induction false} SplitPartClean(s: string, sep: string, i: nat, j: nat)
    requires sep != "" && i < |Split(s, sep)| - 1 && j < |Split(s, sep)[i]|
    ensures !OccursAt(Split(s, sep)[i] + sep, sep, j)
    decreases |s|
  {
    var k := FindFrom(s, sep, 0).value;
    var rest := s[k + |sep|..];
    var tail := Split(rest, sep);
    assert Split(s, sep) == [s[..k]] + tail;
    if i == 0 {
      assert Split(s, sep)[i] == s[..k];
      FirstPartClean(s, sep, k, j);
    } else {
      assert Split(s, sep)[i] == tail[i - 1];
      SplitPartClean(rest, sep, i - 1, j);
    }
  }

  /** No occurrence starts inside the text before the leftmost one, even with
      the separator put back after it. */
  lemma FirstPartClean(s: string, sep: string, k: nat, j: nat)
    requires sep != "" && FindFrom(s, sep, 0) == Some(k) && j < k
    ensures !OccursAt(s[..k] + sep, sep, j)
  {
    var t := s[..k] + sep;
    FindFromLeftmost(s, sep, 0);
    if OccursAt(t, sep, j) {
      forall i | 0 <= i < |sep| ensures s[j + i] == sep[i] {
        if j + i < k {
          assert t[j + i] == s[j + i];
        } else {
          assert t[j + i] == sep[j + i - k];
        }
      }
      assert OccursAt(s, sep, j);
      assert false;
    }
  }

  /** When no occurrence starts inside `p`, the leftmost occurrence in
      `p + sep + tail` is the one right after `p`, and the cut gives back the
      pieces. */
  lemma FirstAfterPart(p: string, sep: string, tail: string)
    requires sep != ""
    requires forall j :: 0 <= j < |p| ==> !OccursAt(p + sep, sep, j)
    ensures FindFrom(p + sep + tail, sep, 0) == Some(|p|)
    ensures (p + sep + tail)[..|p|] == p && (p + sep + tail)[|p| + |sep|..] == tail
  {
    var s := p + sep + tail;
    assert OccursAt(s, sep, |p|) by {
      forall i | 0 <= i < |sep| ensures s[|p| + i] == sep[i] {
        assert s[|p| + i] == (p + sep)[|p| + i];
      }
    }
    var n := |p| + |sep|;
    assert s[..n] == p + sep;
    forall j | 0 <= j < |p| ensures !OccursAt(s, sep, j) {
      OccursInPrefixIff(s, sep, n, j);
    }
    FindFromIs(s, sep, 0, |p|);
  }

  /** Dropping the first part of a leftmost split leaves a leftmost split of
      what follows the first separator. */
  lemma LeftmostSplitTail(s: string, sep: string, parts: seq<string>)
    requires IsLeftmostSplit(s, sep, parts) && |parts| >= 2
    ensures IsLeftmostSplit(Join(parts[1..], sep), sep, parts[1..])
  {
    var rest := parts[1..];
    forall i, j | 0 <= i < |rest| - 1 && 0 <= j < |rest[i]|
      ensures !OccursAt(rest[i] + sep, sep, j)
    {
      assert rest[i] == parts[i + 1];
    }
    assert rest[|rest| - 1] == parts[|parts| - 1];
  }

  /** The leftmost split is unique, so `Split` is exactly Python's `str.split`. */
  lemma {:induction false} LeftmostSplitUnique(s: string, sep: string, parts: seq<string>)
    requires sep != ""
    requires IsLeftmostSplit(s, sep, parts)
    ensures parts == Split(s, sep)
    decreases |parts|
  {
    if |parts| == 1 {
      assert FindFrom(s, sep, 0).None?;
    } else {
      var p := parts[0];
      var rest := parts[1..];
      assert parts == [p] + rest;
      JoinCons(p, rest, sep);
      FirstAfterPart(p, sep, Join(rest, sep));
      LeftmostSplitTail(s, sep, parts);
      LeftmostSplitUnique(Join(rest, sep), sep, rest);
    }
  }

  /** Splitting yields one part more than `count` finds occurrences. */
  lemma {:induction false} SplitCount(s: string, sep: string)
    requires sep != ""
    ensures |Split(s, sep)| == Count(s, sep) + 1
    decreases |s|
  {
    var found := FindFrom(s, sep, 0);
    if found.Some? {
      var rest := s[found.value + |sep|..];
      assert |Split(s, sep)| == 1 + |Split(rest, sep)|;
      assert Count(s, sep) == 1 + Count(rest, sep);
      SplitCount(rest, sep);
    }
  }

  /** No part of a split holds an occurrence of the separator at `j`. */
  lemma {:induction false} SplitPartFree(s: string, sep: string, i: nat, j: int)
    requires sep != "" && i < |Split(s, sep)|
    ensures !OccursAt(Split(s, sep)[i], sep, j)
    decreases |s|
  {
    FindFromLeftmost(s, sep, 0);
    var f := FindFrom(s, sep, 0);
    if f.Some? {
      var k := f.value;
      var rest := s[k + |sep|..];
      var tail := Split(rest, sep);
      assert Split(s, sep) == [s[..k]] + tail;
      if i == 0 {
        if OccursAt(s[..k], sep, j) {
          OccursInPrefix(s, sep, k, j);
          assert false;
        }
      } else {
        assert Split(s, sep)[i] == tail[i - 1];
        SplitPartFree(rest, sep, i - 1, j);
      }
    }
  }

  /** No part of a split contains the separator. */
  lemma SplitPartsFree(s: string, sep: string, i: nat)
    requires sep != "" && i < |Split(s, sep)|
    ensures !Contains(Split(s, sep)[i], sep)
  {
    ContainsIff(Split(s, sep)[i], sep);
    forall j | OccursAt(Split(s, sep)[i], sep, j)
      ensures false
    {
      SplitPartFree(s, sep, i, j);
    }
  }

  // ---------------------------------------------------------------------------
  // str(n) for a natural number
  // ---------------------------------------------------------------------------

  const DIGITS := "0123456789"

  /** `str(n)`: the decimal digits of `n`, most significant first. */
  function NatToString(n: nat): (r: string)
    ensures |r| >= 1
    ensures forall i :: 0 <= i < |r| ==> r[i] in DIGITS
    ensures r[0] == '0' ==> n == 0
    decreases n
  {
    if n < 10 then [DIGITS[n]] else NatToString(n / 10) + [DIGITS[n % 10]]
  }

  function DigitValue(c: char): nat {
    if '0' <= c <= '9' then (c - '0') as nat else 0
  }

  /** `int(s)` for a string of decimal digits. */
  function ParseNat(s: string): nat {
    if |s| == 0 then 0 else 10 * ParseNat(s[..|s| - 1]) + DigitValue(s[|s| - 1])
  }

  /** Reading back the decimal text of `n` gives `n`. */
  lemma {:induction false} ParseNatToString(n: nat)
    ensures ParseNat(NatToString(n)) == n
    decreases n
  {
    var r := NatToString(n);
    if n < 10 {
      assert r == [DIGITS[n]];
      DigitRoundTrip(n);
    } else {
      var q, d := n / 10, n % 10;
      ParseNatToString(q);
      DigitRoundTrip(d);
      assert r == NatToString(q) + [DIGITS[d]];
      assert r[..|r| - 1] == NatToString(q);
      assert ParseNat(r) == 10 * q + d;
    }
  }

  /** Each digit character reads back as its value. */
  lemma DigitRoundTrip(d: nat)
    requires d < 10
    ensures DigitValue(DIGITS[d]) == d
  {
  }
}
