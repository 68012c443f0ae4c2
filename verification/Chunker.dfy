/** chunkDocument and smartChunk (src/chunker.ts): overlapping windows cut at lines, sentences or white
    space, each trimmed to a chunk. The windows are kept in the model so that gaps can be spoken of. */
module Chunker {
  import opened Common

  datatype Config = Config(maxChunkSize: nat, overlapSize: nat, minChunkSize: nat, semanticSplit: bool,
                           maxLinesPerChunk: int)

  // text is what is embedded, [startIndex, endIndex) and length its metadata.
  datatype Chunk = Chunk(text: string, startIndex: int, endIndex: int, length: int)

  function Min(a: int, b: int): int { if a < b then a else b }

  function Max(a: int, b: int): int { if a > b then a else b }

  function Clamp(n: int, lo: int, hi: int): int {
    Max(lo, Min(hi, n))
  }

  // ---------------------------------------------------------------- where a window may end

  datatype Kind = Sentence | Newline | Space

  predicate Is(k: Kind, c: char) {
    match k
    case Sentence => c == '.' || c == '!' || c == '?' || c == '\U{3002}' || c == '\U{FF01}' || c == '\U{FF1F}'
    case Newline => c == '\n'
    case Space => IsSpace(c)
  }

  // Last index of a character of the kind in [lo, hi), or -1.
  function LastOf(text: string, k: Kind, lo: nat, hi: int): (r: int)
    requires hi <= |text|
    ensures r == -1 || (lo <= r < hi && Is(k, text[r]))
    decreases hi
  {
    if hi <= lo then -1
    else if Is(k, text[hi - 1]) then hi - 1
    else LastOf(text, k, lo, hi - 1)
  }

  // First index in [i, hi) that is not white space, or hi.
  function SkipSpace(text: string, i: nat, hi: nat): (r: nat)
    requires i <= hi <= |text|
    ensures i <= r <= hi
    decreases hi - i
  {
    if i < hi && IsSpace(text[i]) then SkipSpace(text, i + 1, hi) else i
  }

  // s.split(/\r\n|\n|\r/).length
  function CountLines(s: string): (n: nat)
    ensures n >= 1
  {
    if s == [] then 1
    else if s[0] == '\r' && |s| > 1 && s[1] == '\n' then 1 + CountLines(s[2..])
    else if s[0] == '\r' || s[0] == '\n' then 1 + CountLines(s[1..])
    else CountLines(s[1..])
  }

  // Position of the n-th line feed at or after i and before hi, or -1.
  function NthLineFeed(text: string, i: nat, hi: int, n: int): (r: int)
    requires i <= |text| && hi <= |text|
    ensures r == -1 || (i <= r < hi && text[r] == '\n')
    decreases |text| - i
  {
    if i >= hi then -1
    else if text[i] == '\n' then (if n <= 1 then i else NthLineFeed(text, i + 1, hi, n - 1))
    else NthLineFeed(text, i + 1, hi, n)
  }

  // Right after the line feed that ends the last line allowed, when there are too many.
  function LineCut(text: string, start: nat, lo: nat, hi: nat, cfg: Config): (r: int)
    requires start < lo <= hi <= |text|
    ensures r == -1 || lo <= r <= hi
  {
    if cfg.maxLinesPerChunk > 0 && CountLines(text[start..hi]) > cfg.maxLinesPerChunk then
      var feed := NthLineFeed(text, start, hi, cfg.maxLinesPerChunk);
      if feed == -1 then -1 else Max(feed + 1, lo)
    else -1
  }

  // After the last sentence and the white space behind it, else after the last line feed.
  function SemanticCut(text: string, lo: nat, hi: nat): (r: int)
    requires lo <= hi <= |text|
    ensures r == -1 || lo < r <= hi
  {
    var sentence, feed := LastOf(text, Sentence, lo, hi), LastOf(text, Newline, lo, hi);
    if sentence != -1 then SkipSpace(text, sentence + 1, hi) else if feed != -1 then feed + 1 else -1
  }

  function SpaceCut(text: string, lo: nat, hi: nat): (r: nat)
    requires lo <= hi <= |text|
    ensures lo <= r <= hi
  {
    var space := LastOf(text, Space, lo, hi);
    if space != -1 then space else hi
  }

  function SplitEnd(text: string, start: nat, maxEnd: int, minEnd: int, cfg: Config): (end: nat)
    requires start < |text| && maxEnd <= |text|
    ensures start < end <= |text|
    ensures end <= Max(start + 1, maxEnd)
  {
    var lo := Clamp(minEnd, start + 1, maxEnd);
    var hi := Clamp(maxEnd, lo, |text|);
    var line := LineCut(text, start, lo, hi, cfg);
    var semantic := if cfg.semanticSplit then SemanticCut(text, lo, hi) else -1;
    if line != -1 then line else if semantic != -1 then semantic else SpaceCut(text, lo, hi)
  }

  method FindLast(text: string, k: Kind, lo: nat, hi: nat) returns (r: int)
    requires lo <= hi <= |text|
    ensures r == LastOf(text, k, lo, hi)
  {
    var i := hi - 1;
    while i >= lo
      invariant lo - 1 <= i < hi
      invariant LastOf(text, k, lo, hi) == LastOf(text, k, lo, i + 1)
      decreases i
    {
      if Is(k, text[i]) { return i; }
      i := i - 1;
    }
    return -1;
  }

  method FindLineCut(text: string, start: nat, lo: nat, hi: nat, cfg: Config) returns (r: int)
    requires start < lo <= hi <= |text|
    ensures r == LineCut(text, start, lo, hi, cfg)
  {
    if cfg.maxLinesPerChunk > 0 && CountLines(text[start..hi]) > cfg.maxLinesPerChunk {
      var breaks, i := 0, start;
      while i < hi
        invariant start <= i <= hi && breaks < cfg.maxLinesPerChunk
        invariant NthLineFeed(text, start, hi, cfg.maxLinesPerChunk)
          == NthLineFeed(text, i, hi, cfg.maxLinesPerChunk - breaks)
      {
        if text[i] == '\n' {
          breaks := breaks + 1;
          if breaks >= cfg.maxLinesPerChunk { return Max(i + 1, lo); }
        }
        i := i + 1;
      }
    }
    return -1;
  }

  method FindSemanticCut(text: string, lo: nat, hi: nat) returns (r: int)
    requires lo <= hi <= |text|
    ensures r == SemanticCut(text, lo, hi)
  {
    var i := FindLast(text, Sentence, lo, hi);
    if i != -1 {
      var j := i + 1;
      while j < hi && IsSpace(text[j])
        invariant i + 1 <= j <= hi
        invariant SkipSpace(text, i + 1, hi) == SkipSpace(text, j, hi)
      {
        j := j + 1;
      }
      return j;
    }
    i := FindLast(text, Newline, lo, hi);
    if i != -1 { return i + 1; }
    return -1;
  }

  // findSplitEnd (src/chunker.ts:97-144)
  method FindSplitEnd(text: string, start: nat, maxEnd: int, minEnd: int, cfg: Config) returns (end: nat)
    requires start < |text| && maxEnd <= |text|
    ensures end == SplitEnd(text, start, maxEnd, minEnd, cfg)
  {
    var safeMinEnd := Clamp(minEnd, start + 1, maxEnd);
    var safeMaxEnd := Clamp(maxEnd, safeMinEnd, |text|);
    var i := FindLineCut(text, start, safeMinEnd, safeMaxEnd, cfg);
    if i != -1 { return i; }
    if cfg.semanticSplit {
      i := FindSemanticCut(text, safeMinEnd, safeMaxEnd);
      if i != -1 { return i; }
    }
    i := FindLast(text, Space, safeMinEnd, safeMaxEnd);
    if i != -1 { return i; }
    return safeMaxEnd;
  }

  // ---------------------------------------------------------------- which boundary the cut stands at

  // The last position in [lo, hi) at which the text has one of these.
  ghost predicate LastAt(text: string, marks: set<char>, lo: nat, hi: nat, i: int) {
    lo <= i < hi <= |text| && text[i] in marks && forall j :: i < j < hi ==> text[j] !in marks
  }

  ghost predicate NoneIn(text: string, marks: set<char>, lo: nat, hi: nat) {
    hi <= |text| && forall j :: lo <= j < hi ==> text[j] !in marks
  }

  const SENTENCE_ENDS: set<char> := {'.', '!', '?', '\U{3002}', '\U{FF01}', '\U{FF1F}'}

  // Here a line ends: a line feed, or a carriage return that is not half of a pair.
  predicate LineEnd(s: string, i: int) {
    0 <= i < |s| && (s[i] == '\n' || (s[i] == '\r' && !(i + 1 < |s| && s[i + 1] == '\n')))
  }

  function LineEnds(s: string, from: nat): set<int> {
    set i | from <= i < |s| && LineEnd(s, i)
  }

  lemma LineEndsMore(s: string, from: nat)
    requires from < |s|
    ensures |LineEnds(s, from)| == |LineEnds(s, from + 1)| + (if LineEnd(s, from) then 1 else 0)
  {
    assert LineEnds(s, from) == LineEnds(s, from + 1) + (if LineEnd(s, from) then {from} else {});
    assert from !in LineEnds(s, from + 1);
  }

  lemma {:induction false} CountLinesIs(s: string, from: nat)
    requires from <= |s| && !(0 < from < |s| && s[from - 1] == '\r' && s[from] == '\n')
    ensures CountLines(s[from..]) == 1 + |LineEnds(s, from)|
    decreases |s| - from
  {
    var u := s[from..];
    if from == |s| {
      assert LineEnds(s, from) == {};
    } else {
      LineEndsMore(s, from);
      assert u[0] == s[from] && u[1..] == s[from + 1..];
      if s[from] == '\r' && from + 1 < |s| && s[from + 1] == '\n' {
        LineEndsMore(s, from + 1);
        assert u[1] == s[from + 1] && u[2..] == s[from + 2..];
        CountLinesIs(s, from + 2);
      } else {
        CountLinesIs(s, from + 1);
      }
    }
  }

  // Line feeds in [i, hi).
  function Feeds(text: string, i: nat, hi: nat): nat
    requires i <= hi <= |text|
    decreases hi - i
  {
    if i == hi then 0 else (if text[i] == '\n' then 1 else 0) + Feeds(text, i + 1, hi)
  }

  // The n-th line feed from i on.
  ghost predicate NthFeed(text: string, i: nat, hi: nat, n: nat, f: int) {
    i <= f < hi <= |text| && text[f] == '\n' && Feeds(text, i, f) == n - 1
  }

  // More lines than allowed, and enough line feeds to end the last one allowed.
  ghost predicate OverLimit(text: string, start: nat, hi: nat, cfg: Config) {
    && start <= hi <= |text| && cfg.maxLinesPerChunk > 0
    && 1 + |LineEnds(text[start..hi], 0)| > cfg.maxLinesPerChunk && Feeds(text, start, hi) >= cfg.maxLinesPerChunk
  }

  // Only white space up to here, and none from here on.
  ghost predicate BlanksEnd(text: string, i: nat, hi: nat, end: int) {
    i <= end <= hi <= |text| && (forall j :: i <= j < end ==> IsSpace(text[j])) && (end < hi ==> !IsSpace(text[end]))
  }

  // Over the limit right after the last line allowed, but not before lo; else after the last sentence and the
  // white space behind it; else right after the last line feed; else at the last white space, else at hi.
  ghost predicate CutsAt(text: string, start: nat, lo: nat, hi: nat, cfg: Config, end: int) {
    if OverLimit(text, start, hi, cfg) then
      exists f :: NthFeed(text, start, hi, cfg.maxLinesPerChunk, f) && end == if f + 1 > lo then f + 1 else lo
    else if cfg.semanticSplit && !NoneIn(text, SENTENCE_ENDS, lo, hi) then
      exists i :: LastAt(text, SENTENCE_ENDS, lo, hi, i) && BlanksEnd(text, i + 1, hi, end)
    else if cfg.semanticSplit && !NoneIn(text, {'\n'}, lo, hi) then LastAt(text, {'\n'}, lo, hi, end - 1)
    else if exists i :: lo <= i < hi <= |text| && IsSpace(text[i]) then
      lo <= end < hi && IsSpace(text[end]) && forall j :: end < j < hi ==> !IsSpace(text[j])
    else end == hi
  }

  lemma {:induction false} LastOfIs(text: string, k: Kind, lo: nat, hi: int)
    requires hi <= |text|
    ensures var r := LastOf(text, k, lo, hi);
      if r == -1 then forall j :: lo <= j < hi ==> !Is(k, text[j])
      else lo <= r < hi && Is(k, text[r]) && forall j :: r < j < hi ==> !Is(k, text[j])
    decreases hi
  {
    if hi > lo && !Is(k, text[hi - 1]) { LastOfIs(text, k, lo, hi - 1); }
  }

  lemma {:induction false} SkipSpaceIs(text: string, i: nat, hi: nat)
    requires i <= hi <= |text|
    ensures BlanksEnd(text, i, hi, SkipSpace(text, i, hi))
    decreases hi - i
  {
    if i < hi && IsSpace(text[i]) { SkipSpaceIs(text, i + 1, hi); }
  }

  lemma {:induction false} NthLineFeedIs(text: string, i: nat, hi: nat, n: nat)
    requires i <= hi <= |text| && n >= 1
    ensures var f := NthLineFeed(text, i, hi, n);
      if Feeds(text, i, hi) >= n then NthFeed(text, i, hi, n, f) else f == -1
    decreases hi - i
  {
    if i < hi && !(text[i] == '\n' && n == 1) {
      NthLineFeedIs(text, i + 1, hi, if text[i] == '\n' then n - 1 else n);
    }
  }

  lemma LineCutIs(text: string, start: nat, lo: nat, hi: nat, cfg: Config)
    requires start < lo <= hi <= |text|
    ensures var r := LineCut(text, start, lo, hi, cfg);
      if OverLimit(text, start, hi, cfg) then CutsAt(text, start, lo, hi, cfg, r) && r != -1 else r == -1
  {
    var s := text[start..hi];
    assert s[0..] == s;
    CountLinesIs(s, 0);
    if cfg.maxLinesPerChunk > 0 { NthLineFeedIs(text, start, hi, cfg.maxLinesPerChunk); }
  }

  lemma SemanticCutIs(text: string, lo: nat, hi: nat)
    requires lo <= hi <= |text|
    ensures var r := SemanticCut(text, lo, hi);
      if !NoneIn(text, SENTENCE_ENDS, lo, hi) then
        r != -1 && exists i :: LastAt(text, SENTENCE_ENDS, lo, hi, i) && BlanksEnd(text, i + 1, hi, r)
      else if !NoneIn(text, {'\n'}, lo, hi) then r != -1 && LastAt(text, {'\n'}, lo, hi, r - 1)
      else r == -1
  {
    LastOfIs(text, Sentence, lo, hi);
    LastOfIs(text, Newline, lo, hi);
    forall j | 0 <= j < |text| ensures Is(Sentence, text[j]) <==> text[j] in SENTENCE_ENDS {}
    var i := LastOf(text, Sentence, lo, hi);
    if i != -1 {
      SkipSpaceIs(text, i + 1, hi);
      assert LastAt(text, SENTENCE_ENDS, lo, hi, i);
    }
  }

  // Where findSplitEnd cuts, said of the text between the bounds it clamps its arguments to.
  lemma SplitEndIs(text: string, start: nat, maxEnd: int, minEnd: int, cfg: Config, lo: nat, hi: nat)
    requires start < |text| && maxEnd <= |text|
    requires lo == Max(start + 1, Min(maxEnd, minEnd)) && hi == Max(lo, maxEnd)
    ensures CutsAt(text, start, lo, hi, cfg, SplitEnd(text, start, maxEnd, minEnd, cfg))
  {
    LineCutIs(text, start, lo, hi, cfg);
    SemanticCutIs(text, lo, hi);
    LastOfIs(text, Space, lo, hi);
  }

  // ---------------------------------------------------------------- trimming a window

  function Leading(s: string): (n: nat)
    ensures n <= |s|
    ensures forall i :: 0 <= i < n ==> IsSpace(s[i])
    ensures n < |s| ==> !IsSpace(s[n])
  {
    if s != [] && IsSpace(s[0]) then 1 + Leading(s[1..]) else 0
  }

  function Trailing(s: string): (n: nat)
    ensures n <= |s|
    ensures forall i :: |s| - n <= i < |s| ==> IsSpace(s[i])
    ensures n < |s| ==> !IsSpace(s[|s| - 1 - n])
  {
    if s != [] && IsSpace(s[|s| - 1]) then 1 + Trailing(s[..|s| - 1]) else 0
  }

  lemma {:induction false} TrimStartIs(s: string)
    ensures TrimStart(s) == s[Leading(s)..]
  {
    if s != [] && IsSpace(s[0]) { TrimStartIs(s[1..]); }
  }

  lemma {:induction false} TrimEndIs(s: string)
    ensures TrimEnd(s) == s[..|s| - Trailing(s)]
  {
    if s != [] && IsSpace(s[|s| - 1]) { TrimEndIs(s[..|s| - 1]); }
  }

  // sliceTrimWithIndices (src/chunker.ts:146-163)
  function SliceTrim(text: string, start: nat, end: nat): Chunk
    requires start <= end <= |text|
  {
    var raw := text[start..end];
    var chunk := Trim(raw);
    var from := start + Leading(raw);
    Chunk(chunk, from, Max(from, end - Trailing(raw)), |chunk|)
  }

  lemma VisibleStopsTrailing(s: string, k: nat)
    requires k < |s| && !IsSpace(s[k])
    ensures Trailing(s) < |s| - k
  {
  }

  lemma SliceTwice(s: string, k: nat, m: nat)
    requires k <= m <= |s|
    ensures s[k..][..m - k] == s[k..m]
  {
  }

  lemma {:induction false} SameTrailing(s: string, k: nat)
    requires k < |s| && !IsSpace(s[k])
    ensures Trailing(s[k..]) == Trailing(s)
    decreases |s|
  {
    if IsSpace(s[|s| - 1]) {
      assert s[k..][..|s| - k - 1] == s[..|s| - 1][k..];
      SameTrailing(s[..|s| - 1], k);
    }
  }

  lemma TrimEndFrom(s: string, k: nat)
    requires k < |s| && !IsSpace(s[k])
    ensures k < |s| - Trailing(s) && TrimEnd(s[k..]) == s[k..|s| - Trailing(s)]
  {
    TrimEndIs(s[k..]);
    SameTrailing(s, k);
    VisibleStopsTrailing(s, k);
    SliceTwice(s, k, |s| - Trailing(s));
  }

  lemma TrimIs(s: string)
    ensures Leading(s) == |s| ==> Trim(s) == []
    ensures Leading(s) < |s| ==> Leading(s) < |s| - Trailing(s) && Trim(s) == s[Leading(s)..|s| - Trailing(s)]
  {
    var k := Leading(s);
    TrimStartIs(s);
    if k < |s| { TrimEndFrom(s, k); } else { assert s[k..] == []; }
  }

  predicate SliceOk(text: string, start: nat, end: nat, c: Chunk) {
    && start <= c.startIndex <= c.endIndex <= end <= |text|
    && c.text == text[c.startIndex..c.endIndex]
    && c.length == |c.text| == c.endIndex - c.startIndex
  }

  lemma SliceOfSlice(text: string, start: nat, end: nat, a: nat, b: nat)
    requires start <= end <= |text| && a <= b <= end - start
    ensures text[start..end][a..b] == text[start + a..start + b]
  {
    var u, v := text[start..end][a..b], text[start + a..start + b];
    forall k | 0 <= k < b - a ensures u[k] == v[k] {
      assert u[k] == text[start..end][a + k];
    }
  }

  lemma TrimmedSlice(text: string, start: nat, end: nat, l: nat, t: nat, trimmed: string)
    requires start <= end <= |text| && l <= end - start && t <= end - start
    requires l == end - start ==> trimmed == []
    requires l < end - start ==> l < end - start - t && trimmed == text[start..end][l..end - start - t]
    ensures SliceOk(text, start, end, Chunk(trimmed, start + l, Max(start + l, end - t), |trimmed|))
  {
    if l < end - start { SliceOfSlice(text, start, end, l, end - start - t); }
  }

  lemma SliceTrimText(text: string, start: nat, end: nat)
    requires start <= end <= |text|
    ensures SliceOk(text, start, end, SliceTrim(text, start, end))
  {
    var raw := text[start..end];
    var l, t, trimmed := Leading(raw), Trailing(raw), Trim(raw);
    TrimIs(raw);
    TrimmedSlice(text, start, end, l, t, trimmed);
    assert SliceTrim(text, start, end) == Chunk(trimmed, start + l, Max(start + l, end - t), |trimmed|);
  }

  lemma Shifted(text: string, start: nat, end: nat, l: nat, t: nat)
    requires start <= end <= |text|
    requires forall k :: 0 <= k < end - start && !IsSpace(text[start..end][k]) ==> l <= k < end - start - t
    ensures forall i :: start <= i < end && !IsSpace(text[i]) ==> start + l <= i < end - t
  {
    forall i | start <= i < end && !IsSpace(text[i]) ensures start + l <= i < end - t {
      assert text[start..end][i - start] == text[i];
    }
  }

  lemma VisibleIsInside(s: string, k: nat)
    requires k < |s| && !IsSpace(s[k])
    ensures Leading(s) <= k < |s| - Trailing(s)
  {
  }

  lemma SliceTrimEncloses(text: string, start: nat, end: nat)
    requires start <= end <= |text|
    ensures var c := SliceTrim(text, start, end);
      forall i :: start <= i < end && !IsSpace(text[i]) ==> c.startIndex <= i < c.endIndex
  {
    var raw := text[start..end];
    forall k | 0 <= k < |raw| && !IsSpace(raw[k]) ensures Leading(raw) <= k < |raw| - Trailing(raw) {
      VisibleIsInside(raw, k);
    }
    Shifted(text, start, end, Leading(raw), Trailing(raw));
    var c := SliceTrim(text, start, end);
    assert c.startIndex == start + Leading(raw) && c.endIndex >= end - Trailing(raw);
  }

  lemma RawAt(text: string, start: nat, end: nat, k: nat)
    requires start + k < end <= |text|
    ensures text[start..end][k] == text[start + k]
  {
  }

  // The chunk of a window begins and ends with something visible.
  lemma SliceTrimEnds(text: string, start: nat, end: nat, raw: string, l: nat, t: nat)
    requires start <= end <= |text| && raw == text[start..end] && l == Leading(raw) && t == Trailing(raw)
    ensures l == |raw| ==> Trim(raw) == ""
    ensures l < |raw| ==> l + t < |raw| && !IsSpace(text[start + l]) && !IsSpace(text[end - 1 - t])
  {
    TrimIs(raw);
    if l < |raw| {
      RawAt(text, start, end, l);
      RawAt(text, start, end, |raw| - 1 - t);
    }
  }

  // A chunk is exactly the slice its metadata names, lies in its window, and misses only white space.
  lemma SliceTrimIs(text: string, start: nat, end: nat)
    requires start <= end <= |text|
    ensures var c := SliceTrim(text, start, end);
      && start <= c.startIndex <= c.endIndex <= end
      && c.text == text[c.startIndex..c.endIndex]
      && c.length == |c.text| == c.endIndex - c.startIndex
      && (forall i :: start <= i < end && !IsSpace(text[i]) ==> c.startIndex <= i < c.endIndex)
      && (c.text != "" ==> !IsSpace(text[c.startIndex]) && !IsSpace(text[c.endIndex - 1]))
  {
    SliceTrimText(text, start, end);
    SliceTrimEncloses(text, start, end);
    SliceTrimEnds(text, start, end, text[start..end], Leading(text[start..end]), Trailing(text[start..end]));
  }

  // ---------------------------------------------------------------- the loop

  // One turn of the loop: the window looked at, its chunk, whether the chunk is pushed, and where to go
  // next (None when the loop leaves by break).
  datatype Turn = Turn(start: nat, end: nat, chunk: Chunk, pushed: bool, next: Option<nat>)

  function LastTurn(text: string, pos: nat): Turn
    requires pos < |text|
  {
    var c := SliceTrim(text, pos, |text|);
    Turn(pos, |text|, c, |c.text| > 0, None)
  }

  function NextStart(text: string, cfg: Config, pos: nat, end: nat): Option<nat> {
    if end >= |text| then None else Some(Max(end - cfg.overlapSize, pos + 1))
  }

  // The fall-back for a window whose trimmed chunk is too small.
  function HardTurn(text: string, cfg: Config, pos: nat): Turn
    requires pos < |text|
  {
    var end := Min(pos + cfg.maxChunkSize, |text|);
    var c := SliceTrim(text, pos, end);
    Turn(pos, end, c, |c.text| > 0, NextStart(text, cfg, pos, end))
  }

  function WindowEnd(text: string, cfg: Config, pos: nat): (end: nat)
    requires pos < |text|
    ensures pos < end <= |text| && end <= Max(pos + 1, pos + cfg.maxChunkSize)
  {
    var maxEnd := Min(pos + cfg.maxChunkSize, |text|);
    SplitEnd(text, pos, maxEnd, Min(pos + cfg.minChunkSize, maxEnd), cfg)
  }

  function TurnAt(text: string, cfg: Config, pos: nat): Turn
    requires pos < |text|
  {
    if |text| - pos <= cfg.maxChunkSize then LastTurn(text, pos)
    else
      var end := WindowEnd(text, cfg, pos);
      var c := SliceTrim(text, pos, end);
      if |c.text| < cfg.minChunkSize then HardTurn(text, cfg, pos)
      else Turn(pos, end, c, true, NextStart(text, cfg, pos, end))
  }

  // The same for any position; the loop never asks beyond the end.
  function Loop(text: string, cfg: Config): nat -> Turn {
    (pos: nat) => if pos < |text| then TurnAt(text, cfg, pos) else Turn(pos, pos, Chunk("", pos, pos, 0), false, None)
  }

  function Ask(loop: nat -> Turn, pos: nat): Turn {
    loop(pos)
  }

  // The turns from pos on, at most guard of them, for a text of n characters; and whether the loop left by break.
  function Turns(loop: nat -> Turn, n: nat, pos: nat, guard: nat): (seq<Turn>, bool)
    decreases guard
  {
    if pos >= n || guard == 0 then ([], false)
    else
      var t := Ask(loop, pos);
      if t.next.None? then ([t], true)
      else
        var (rest, done) := Turns(loop, n, t.next.value, guard - 1);
        ([t] + rest, done)
  }

  function Pushed(turns: seq<Turn>): seq<Chunk> {
    if turns == [] then []
    else (if turns[0].pushed then [turns[0].chunk] else []) + Pushed(turns[1..])
  }

  function CeilDiv(a: nat, b: nat): nat
    requires b > 0
  {
    (a + b - 1) / b
  }

  function MaxGuard(n: nat, cfg: Config): nat {
    Max(4, CeilDiv(n, Max(1, cfg.maxChunkSize - cfg.overlapSize)) + 5)
  }

  function DocumentTurns(text: string, cfg: Config): (seq<Turn>, bool) {
    if BlankText(text) then ([], true) else Turns(Loop(text, cfg), |text|, 0, MaxGuard(|text|, cfg))
  }

  function DocumentChunks(text: string, cfg: Config): seq<Chunk> {
    Pushed(DocumentTurns(text, cfg).0)
  }

  lemma {:induction false} PushedAppend(a: seq<Turn>, b: seq<Turn>)
    ensures Pushed(a + b) == Pushed(a) + Pushed(b)
  {
    if a == [] {
      assert a + b == b;
    } else {
      PushedAppend(a[1..], b);
      var first := if a[0].pushed then [a[0].chunk] else [];
      assert (a + b)[1..] == a[1..] + b && (a + b)[0] == a[0];
      assert Pushed(a + b) == first + (Pushed(a[1..]) + Pushed(b));
      assert first + (Pushed(a[1..]) + Pushed(b)) == first + Pushed(a[1..]) + Pushed(b);
    }
  }

  // What one turn adds to the output, and what is left to do.
  lemma TurnsUnfold(loop: nat -> Turn, n: nat, pos: nat, guard: nat)
    requires pos < n && guard > 0
    ensures var t := Ask(loop, pos);
      Pushed(Turns(loop, n, pos, guard).0) ==
        (if t.pushed then [t.chunk] else [])
        + (if t.next.None? then [] else Pushed(Turns(loop, n, t.next.value, guard - 1).0))
  {
    var t := Ask(loop, pos);
    if t.next.Some? {
      var rest := Turns(loop, n, t.next.value, guard - 1).0;
      assert ([t] + rest)[1..] == rest;
    }
  }

  method FindWindowEnd(text: string, cfg: Config, pos: nat) returns (end: nat)
    requires pos < |text|
    ensures end == WindowEnd(text, cfg, pos)
  {
    var maxEnd := Min(pos + cfg.maxChunkSize, |text|);
    var minEnd := Min(pos + cfg.minChunkSize, maxEnd);
    end := FindSplitEnd(text, pos, maxEnd, minEnd, cfg);
  }

  method DoHardTurn(text: string, cfg: Config, pos: nat, chunks: seq<Chunk>) returns (r: seq<Chunk>, next: Option<nat>)
    requires pos < |text|
    ensures var t := HardTurn(text, cfg, pos); r == chunks + (if t.pushed then [t.chunk] else []) && next == t.next
  {
    r := chunks;
    var hardEnd := Min(pos + cfg.maxChunkSize, |text|);
    var hard := SliceTrim(text, pos, hardEnd);
    if |hard.text| > 0 { r := r + [hard]; }
    if hardEnd >= |text| { return r, None; }
    return r, Some(Max(hardEnd - cfg.overlapSize, pos + 1));
  }

  // The body of the loop.
  method DoTurn(text: string, cfg: Config, pos: nat, chunks: seq<Chunk>) returns (r: seq<Chunk>, next: Option<nat>)
    requires pos < |text|
    ensures var t := TurnAt(text, cfg, pos); r == chunks + (if t.pushed then [t.chunk] else []) && next == t.next
  {
    r := chunks;
    var remaining := |text| - pos;
    if remaining <= cfg.maxChunkSize {
      var c := SliceTrim(text, pos, |text|);
      if |c.text| > 0 { r := r + [c]; }
      return r, None;
    }
    var end := FindWindowEnd(text, cfg, pos);
    var c := SliceTrim(text, pos, end);
    if |c.text| < cfg.minChunkSize {
      r, next := DoHardTurn(text, cfg, pos, chunks);
      return;
    }
    r := r + [c];
    if end >= |text| { return r, None; }
    return r, Some(Max(end - cfg.overlapSize, pos + 1));
  }

  lemma Associative(a: seq<Chunk>, b: seq<Chunk>, c: seq<Chunk>)
    ensures (a + b) + c == a + (b + c)
  {
  }

  ghost predicate LoopTurn(text: string, cfg: Config, loop: nat -> Turn, pos: nat)
    requires pos < |text|
  {
    Ask(loop, pos) == TurnAt(text, cfg, pos)
  }

  ghost predicate IsLoop(text: string, cfg: Config, loop: nat -> Turn) {
    forall pos: nat {:trigger LoopTurn(text, cfg, loop, pos)} :: pos < |text| ==> LoopTurn(text, cfg, loop, pos)
  }

  // One turn brings the output nearer to what the loop is to produce.
  method Advanced(text: string, cfg: Config, ghost loop: nat -> Turn, pos: nat, ghost left: nat, chunks: seq<Chunk>,
                  ghost target: seq<Chunk>)
    returns (r: seq<Chunk>, next: Option<nat>)
    requires pos < |text| && left > 0 && IsLoop(text, cfg, loop)
    requires chunks + Pushed(Turns(loop, |text|, pos, left).0) == target
    ensures match next
      case None => r == target
      case Some(p) => r + Pushed(Turns(loop, |text|, p, left - 1).0) == target
  {
    assert LoopTurn(text, cfg, loop, pos);
    TurnsUnfold(loop, |text|, pos, left);
    r, next := DoTurn(text, cfg, pos, chunks);
    ghost var t := Ask(loop, pos);
    if next.Some? {
      Associative(chunks, if t.pushed then [t.chunk] else [], Pushed(Turns(loop, |text|, next.value, left - 1).0));
    }
  }

  // The loop of chunkDocument.
  method RunLoop(text: string, cfg: Config, maxGuard: nat, ghost loop: nat -> Turn) returns (chunks: seq<Chunk>)
    requires IsLoop(text, cfg, loop)
    ensures chunks == Pushed(Turns(loop, |text|, 0, maxGuard).0)
  {
    chunks := [];
    var pos: nat, guard: nat := 0, 0;
    ghost var target := Pushed(Turns(loop, |text|, 0, maxGuard).0);
    while pos < |text| && guard < maxGuard
      invariant guard <= maxGuard
      invariant chunks + Pushed(Turns(loop, |text|, pos, maxGuard - guard).0) == target
      decreases maxGuard - guard
    {
      var next;
      chunks, next := Advanced(text, cfg, loop, pos, maxGuard - guard, chunks, target);
      guard := guard + 1;
      if next.None? { return; }
      pos := next.value;
    }
  }

  // chunkDocument (src/chunker.ts:195-256)
  method ChunkDocument(text: string, cfg: Config) returns (chunks: seq<Chunk>)
    ensures chunks == DocumentChunks(text, cfg)
  {
    if BlankText(text) { return []; }
    assert IsLoop(text, cfg, Loop(text, cfg));
    chunks := RunLoop(text, cfg, MaxGuard(|text|, cfg), Loop(text, cfg));
  }

  // ---------------------------------------------------------------- what every document gets

  // The window of a turn ends with the text if that fits; else at the cut, or, if that leaves too little, at the
  // maximum. The next turn starts so far back that the windows overlap, but always further on.
  ghost predicate TurnIs(text: string, cfg: Config, t: Turn) {
    && t.start < |text| && t.start <= t.end <= |text| && t.chunk == SliceTrim(text, t.start, t.end)
    && (if |text| - t.start <= cfg.maxChunkSize then t.end == |text| && (t.pushed <==> t.chunk.text != "")
        else
          var cut := WindowEnd(text, cfg, t.start);
          if |SliceTrim(text, t.start, cut).text| >= cfg.minChunkSize then t.end == cut && t.pushed
          else t.end == t.start + cfg.maxChunkSize && (t.pushed <==> t.chunk.text != ""))
    && t.next == if t.end == |text| then None else Some(Max(t.end - cfg.overlapSize, t.start + 1))
  }

  lemma LastTurnIs(text: string, cfg: Config, pos: nat)
    requires pos < |text| && |text| - pos <= cfg.maxChunkSize
    ensures TurnIs(text, cfg, LastTurn(text, pos))
  {
  }

  lemma HardTurnIs(text: string, cfg: Config, pos: nat)
    requires pos < |text| && |text| - pos > cfg.maxChunkSize
    requires |SliceTrim(text, pos, WindowEnd(text, cfg, pos)).text| < cfg.minChunkSize
    ensures TurnIs(text, cfg, HardTurn(text, cfg, pos))
  {
  }

  lemma CutTurnIs(text: string, cfg: Config, pos: nat, end: nat, c: Chunk)
    requires pos < |text| && |text| - pos > cfg.maxChunkSize && end == WindowEnd(text, cfg, pos)
    requires c == SliceTrim(text, pos, end) && |c.text| >= cfg.minChunkSize
    ensures TurnIs(text, cfg, Turn(pos, end, c, true, NextStart(text, cfg, pos, end)))
  {
  }

  lemma TurnAtIs(text: string, cfg: Config, pos: nat)
    requires pos < |text|
    ensures TurnIs(text, cfg, TurnAt(text, cfg, pos)) && TurnAt(text, cfg, pos).start == pos
  {
    if |text| - pos <= cfg.maxChunkSize {
      LastTurnIs(text, cfg, pos);
    } else {
      var end := WindowEnd(text, cfg, pos);
      var c := SliceTrim(text, pos, end);
      if |c.text| < cfg.minChunkSize { HardTurnIs(text, cfg, pos); } else { CutTurnIs(text, cfg, pos, end, c); }
    }
  }

  // The cut of a window stands where CutsAt says, between its smallest and its largest size.
  lemma WindowEndCuts(text: string, cfg: Config, pos: nat, lo: nat, hi: nat)
    requires pos < |text| && |text| - pos > cfg.maxChunkSize
    requires lo == Max(pos + 1, pos + Min(cfg.minChunkSize, cfg.maxChunkSize)) && hi == Max(lo, pos + cfg.maxChunkSize)
    ensures CutsAt(text, pos, lo, hi, cfg, WindowEnd(text, cfg, pos))
  {
    var maxEnd := pos + cfg.maxChunkSize;
    SplitEndIs(text, pos, maxEnd, Min(pos + cfg.minChunkSize, maxEnd), cfg, lo, hi);
  }

  ghost predicate TurnOk(text: string, cfg: Config, t: Turn) {
    && t.start <= t.end <= |text| && t.start < |text|
    && t.chunk == SliceTrim(text, t.start, t.end)
    && (t.pushed || t.chunk.text == [])
    && (cfg.minChunkSize >= 1 && t.pushed ==> t.chunk.text != [])
    && (cfg.maxChunkSize == 0 && cfg.minChunkSize >= 2 ==> !t.pushed)
    && (cfg.maxChunkSize >= 1 ==> t.start < t.end && t.end - t.start <= cfg.maxChunkSize)
    && (t.next.None? ==> t.end == |text|)
    && (t.next.Some? ==> t.start < t.next.value && (cfg.maxChunkSize >= 1 ==> t.next.value <= t.end < |text|))
  }

  ghost predicate LoopOk(text: string, cfg: Config, loop: nat -> Turn) {
    forall pos: nat :: pos < |text| ==> TurnOk(text, cfg, Ask(loop, pos)) && Ask(loop, pos).start == pos
  }

  // The turns are what the loop does, each from where the one before leads, until one leads nowhere or the guard
  // is used up.
  ghost predicate Chained(loop: nat -> Turn, n: nat, turns: seq<Turn>, pos: nat, guard: nat) {
    && |turns| <= guard && (turns == [] ==> pos >= n || guard == 0) && (turns != [] ==> turns[0].start == pos)
    && (forall i :: 0 <= i < |turns| ==> turns[i] == Ask(loop, turns[i].start))
    && (forall i :: 0 <= i < |turns| - 1 ==> turns[i].next == Some(turns[i + 1].start))
    && (turns != [] ==>
          var next := turns[|turns| - 1].next; next.None? || next.value >= n || |turns| == guard)
  }

  lemma ChainedCons(loop: nat -> Turn, n: nat, t: Turn, rest: seq<Turn>, guard: nat)
    requires t == Ask(loop, t.start) && guard > 0
    requires if t.next.None? then rest == [] else Chained(loop, n, rest, t.next.value, guard - 1)
    ensures Chained(loop, n, [t] + rest, t.start, guard)
  {
    var all := [t] + rest;
    assert forall i :: 0 < i < |all| ==> all[i] == rest[i - 1];
  }

  lemma {:induction false} TurnsAreChained(text: string, cfg: Config, loop: nat -> Turn, pos: nat, guard: nat)
    requires LoopOk(text, cfg, loop)
    ensures Chained(loop, |text|, Turns(loop, |text|, pos, guard).0, pos, guard)
    decreases guard
  {
    if pos < |text| && guard > 0 {
      var t := Ask(loop, pos);
      if t.next.None? {
        ChainedCons(loop, |text|, t, [], guard);
        assert [t] + [] == [t];
      } else {
        TurnsAreChained(text, cfg, loop, t.next.value, guard - 1);
        ChainedCons(loop, |text|, t, Turns(loop, |text|, t.next.value, guard - 1).0, guard);
      }
    }
  }

  lemma TurnAtOk(text: string, cfg: Config, pos: nat)
    requires pos < |text|
    ensures TurnOk(text, cfg, TurnAt(text, cfg, pos)) && TurnAt(text, cfg, pos).start == pos
  {
    if cfg.maxChunkSize == 0 {
      SliceTrimIs(text, pos, WindowEnd(text, cfg, pos));
      SliceTrimIs(text, pos, pos);
    }
  }

  lemma LoopIsOk(text: string, cfg: Config)
    ensures LoopOk(text, cfg, Loop(text, cfg))
  {
    forall pos: nat | pos < |text|
      ensures TurnOk(text, cfg, Ask(Loop(text, cfg), pos)) && Ask(Loop(text, cfg), pos).start == pos
    {
      TurnAtOk(text, cfg, pos);
    }
  }

  // Window starts strictly increase and, with a positive chunk size, no window leaves a gap to the next.
  ghost predicate Contiguous(turns: seq<Turn>, cfg: Config) {
    forall i :: 0 <= i < |turns| - 1 ==>
      turns[i].start < turns[i + 1].start && (cfg.maxChunkSize >= 1 ==> turns[i + 1].start <= turns[i].end)
  }

  ghost predicate TurnsFine(text: string, cfg: Config, turns: seq<Turn>, done: bool, pos: nat, guard: nat) {
    && (forall t :: t in turns ==> TurnOk(text, cfg, t))
    && Contiguous(turns, cfg)
    && (turns != [] ==> turns[0].start == pos)
    && (done ==> turns != [] && turns[|turns| - 1].end == |text|)
    && |turns| <= guard
    && (pos < |text| && cfg.maxChunkSize >= 1 && !done ==> |turns| == guard)
  }

  lemma {:induction false} TurnsOk(text: string, cfg: Config, loop: nat -> Turn, pos: nat, guard: nat)
    requires LoopOk(text, cfg, loop)
    ensures TurnsFine(text, cfg, Turns(loop, |text|, pos, guard).0, Turns(loop, |text|, pos, guard).1, pos, guard)
    decreases guard
  {
    if pos < |text| && guard > 0 {
      var t := Ask(loop, pos);
      if t.next.Some? { TurnsOk(text, cfg, loop, t.next.value, guard - 1); }
    }
  }

  lemma DocumentTurnsFine(text: string, cfg: Config)
    requires !BlankText(text)
    ensures TurnsFine(text, cfg, DocumentTurns(text, cfg).0, DocumentTurns(text, cfg).1, 0, MaxGuard(|text|, cfg))
  {
    LoopIsOk(text, cfg);
    TurnsOk(text, cfg, Loop(text, cfg), 0, MaxGuard(|text|, cfg));
  }

  lemma {:induction false} PushedFrom(turns: seq<Turn>, c: Chunk)
    requires c in Pushed(turns)
    ensures exists t :: t in turns && t.pushed && t.chunk == c
  {
    if turns[0].pushed && turns[0].chunk == c {
      assert turns[0] in turns;
    } else {
      PushedFrom(turns[1..], c);
      var t :| t in turns[1..] && t.pushed && t.chunk == c;
      assert t in turns;
    }
  }

  lemma {:induction false} PushedKeeps(turns: seq<Turn>, t: Turn)
    requires t in turns && t.pushed
    ensures t.chunk in Pushed(turns)
  {
    if turns[0] != t { PushedKeeps(turns[1..], t); }
  }

  // The chunks come from the windows of the turns, from the start of the text on.
  lemma DocumentIsChained(text: string, cfg: Config)
    requires !BlankText(text)
    ensures var turns := DocumentTurns(text, cfg).0;
      && Chained(Loop(text, cfg), |text|, turns, 0, MaxGuard(|text|, cfg))
      && (forall t :: t in turns ==> TurnIs(text, cfg, t))
  {
    LoopIsOk(text, cfg);
    var turns := DocumentTurns(text, cfg).0;
    TurnsAreChained(text, cfg, Loop(text, cfg), 0, MaxGuard(|text|, cfg));
    DocumentTurnsFine(text, cfg);
    forall t | t in turns ensures TurnIs(text, cfg, t) {
      assert TurnOk(text, cfg, t);
      var i :| 0 <= i < |turns| && turns[i] == t;
      assert t == Ask(Loop(text, cfg), t.start);
      TurnAtIs(text, cfg, t.start);
    }
  }

  lemma {:induction false} PushedOne(turns: seq<Turn>, j: nat) returns (b: nat)
    requires j < |Pushed(turns)|
    ensures b < |turns| && turns[b].pushed && Pushed(turns)[j] == turns[b].chunk
  {
    if turns[0].pushed && j == 0 { return 0; }
    b := PushedOne(turns[1..], if turns[0].pushed then j - 1 else j);
    b := b + 1;
  }

  lemma {:induction false} PushedAt(turns: seq<Turn>, i: nat, j: nat) returns (a: nat, b: nat)
    requires i < j < |Pushed(turns)|
    ensures a < b < |turns| && turns[a].pushed && turns[b].pushed
    ensures Pushed(turns)[i] == turns[a].chunk && Pushed(turns)[j] == turns[b].chunk
  {
    assert Pushed(turns) == (if turns[0].pushed then [turns[0].chunk] else []) + Pushed(turns[1..]);
    if !turns[0].pushed {
      a, b := PushedAt(turns[1..], i, j);
      a, b := a + 1, b + 1;
    } else if i > 0 {
      a, b := PushedAt(turns[1..], i - 1, j - 1);
      a, b := a + 1, b + 1;
    } else {
      a := 0;
      b := PushedOne(turns[1..], j - 1);
      b := b + 1;
    }
  }

  lemma {:induction false} StartsIncrease(turns: seq<Turn>, cfg: Config, a: nat, b: nat)
    requires Contiguous(turns, cfg) && a < b < |turns|
    ensures turns[a].start < turns[b].start
    decreases b - a
  {
    if a + 1 < b { StartsIncrease(turns, cfg, a, b - 1); }
  }

  // The chunks stand in the order of the text.
  lemma ChunksInOrder(text: string, cfg: Config, i: nat, j: nat)
    requires cfg.minChunkSize >= 1 && i < j < |DocumentChunks(text, cfg)|
    ensures DocumentChunks(text, cfg)[i].startIndex <= DocumentChunks(text, cfg)[j].startIndex
  {
    DocumentTurnsFine(text, cfg);
    var turns := DocumentTurns(text, cfg).0;
    var a, b := PushedAt(turns, i, j);
    var t, u := turns[a], turns[b];
    assert t in turns && u in turns;
    StartsIncrease(turns, cfg, a, b);
    SliceTrimIs(text, t.start, t.end);
    SliceTrimIs(text, u.start, u.end);
  }

  // Every chunk is exactly the slice its metadata names; with a positive minimum it is nonempty, and with a
  // positive maximum, or a minimum of at least 2, no longer than maxChunkSize.
  lemma ChunksAreSlices(text: string, cfg: Config, c: Chunk)
    requires c in DocumentChunks(text, cfg)
    ensures 0 <= c.startIndex <= c.endIndex <= |text|
    ensures c.text == text[c.startIndex..c.endIndex] && c.length == |c.text|
    ensures cfg.minChunkSize >= 1 ==> c.text != []
    ensures cfg.maxChunkSize >= 1 || cfg.minChunkSize >= 2 ==> |c.text| <= cfg.maxChunkSize
  {
    DocumentTurnsFine(text, cfg);
    var turns := DocumentTurns(text, cfg).0;
    PushedFrom(turns, c);
    var t :| t in turns && t.pushed && t.chunk == c;
    SliceTrimIs(text, t.start, t.end);
  }

  // With a positive minimum every chunk begins with a visible character.
  lemma ChunkIsVisible(text: string, cfg: Config, c: Chunk)
    requires c in DocumentChunks(text, cfg) && cfg.minChunkSize >= 1
    ensures 0 <= c.startIndex < |text| && !IsSpace(text[c.startIndex]) && !BlankText(c.text)
  {
    ChunksAreSlices(text, cfg, c);
    DocumentTurnsFine(text, cfg);
    var turns := DocumentTurns(text, cfg).0;
    PushedFrom(turns, c);
    var t :| t in turns && t.pushed && t.chunk == c;
    SliceTrimIs(text, t.start, t.end);
    assert c.text[0] == text[c.startIndex] && c.text[0] in c.text;
  }

  // The position the windows reach.
  function Reach(turns: seq<Turn>): nat {
    if turns == [] then 0 else Max(Reach(turns[..|turns| - 1]), turns[|turns| - 1].end)
  }

  // Everything before the reach lies in a window.
  lemma {:induction false} ReachedIsWindowed(turns: seq<Turn>, cfg: Config, i: nat) returns (k: nat)
    requires Contiguous(turns, cfg) && cfg.maxChunkSize >= 1 && turns != []
    requires turns[0].start <= i < Reach(turns)
    ensures k < |turns| && turns[k].start <= i < turns[k].end
  {
    var n := |turns| - 1;
    if turns[n].start <= i < turns[n].end { return n; }
    assert n > 0 ==> turns[n].start <= turns[..n][n - 1].end <= Reach(turns[..n]);
    k := ReachedIsWindowed(turns[..n], cfg, i);
  }

  lemma {:induction false} EndsBeforeReach(turns: seq<Turn>, t: Turn)
    requires t in turns
    ensures t.end <= Reach(turns)
  {
    if turns[|turns| - 1] != t { EndsBeforeReach(turns[..|turns| - 1], t); }
  }

  ghost predicate InSomeChunk(chunks: seq<Chunk>, i: int) {
    exists c :: c in chunks && c.startIndex <= i < c.endIndex
  }

  lemma ReachedIsCovered(text: string, cfg: Config, turns: seq<Turn>, i: nat)
    requires cfg.maxChunkSize >= 1 && turns != [] && Contiguous(turns, cfg) && turns[0].start == 0
    requires forall t :: t in turns ==> TurnOk(text, cfg, t)
    requires i < Reach(turns) && i < |text| && !IsSpace(text[i])
    ensures InSomeChunk(Pushed(turns), i)
  {
    var k := ReachedIsWindowed(turns, cfg, i);
    var t := turns[k];
    assert t in turns;
    SliceTrimIs(text, t.start, t.end);
    PushedKeeps(turns, t);
  }

  lemma CoveredIsReached(text: string, cfg: Config, turns: seq<Turn>, i: nat)
    requires forall t :: t in turns ==> TurnOk(text, cfg, t)
    requires InSomeChunk(Pushed(turns), i)
    ensures i < Reach(turns)
  {
    var c :| c in Pushed(turns) && c.startIndex <= i < c.endIndex;
    PushedFrom(turns, c);
    var t :| t in turns && t.pushed && t.chunk == c;
    SliceTrimIs(text, t.start, t.end);
    EndsBeforeReach(turns, t);
  }

  // A visible character is in some chunk exactly when it lies before the reach of the windows.
  lemma CoveredIffReached(text: string, cfg: Config, i: nat)
    requires cfg.maxChunkSize >= 1 && i < |text| && !IsSpace(text[i])
    ensures InSomeChunk(DocumentChunks(text, cfg), i) <==> i < Reach(DocumentTurns(text, cfg).0)
  {
    assert text[i] in text;
    DocumentTurnsFine(text, cfg);
    var turns := DocumentTurns(text, cfg).0;
    if i < Reach(turns) { ReachedIsCovered(text, cfg, turns, i); }
    if InSomeChunk(Pushed(turns), i) { CoveredIsReached(text, cfg, turns, i); }
  }

  // There is a chunk exactly when something visible lies before the reach.
  lemma SomeChunkIff(text: string, cfg: Config)
    requires cfg.minChunkSize >= 1 && cfg.maxChunkSize >= 1
    ensures DocumentChunks(text, cfg) != [] <==>
      exists i :: 0 <= i < |text| && !IsSpace(text[i]) && i < Reach(DocumentTurns(text, cfg).0)
  {
    var chunks := DocumentChunks(text, cfg);
    forall i | 0 <= i < |text| && !IsSpace(text[i])
      ensures InSomeChunk(chunks, i) <==> i < Reach(DocumentTurns(text, cfg).0)
    {
      CoveredIffReached(text, cfg, i);
    }
    if chunks != [] {
      ChunksAreSlices(text, cfg, chunks[0]);
      ChunkIsVisible(text, cfg, chunks[0]);
      assert InSomeChunk(chunks, chunks[0].startIndex);
    }
  }

  // Leaving by break means the windows reached the end: then every visible character is in some chunk.
  lemma BreakCoversAll(text: string, cfg: Config)
    requires cfg.maxChunkSize >= 1 && DocumentTurns(text, cfg).1
    ensures forall i :: 0 <= i < |text| && !IsSpace(text[i]) ==> InSomeChunk(DocumentChunks(text, cfg), i)
  {
    forall i | 0 <= i < |text| && !IsSpace(text[i]) ensures InSomeChunk(DocumentChunks(text, cfg), i) {
      assert text[i] in text;
      DocumentTurnsFine(text, cfg);
      var turns := DocumentTurns(text, cfg).0;
      EndsBeforeReach(turns, turns[|turns| - 1]);
      CoveredIffReached(text, cfg, i);
    }
  }

  // The loop leaves by break or has used up its guard; coverage is complete exactly when nothing visible
  // lies beyond the reach.
  lemma CoverageExactly(text: string, cfg: Config)
    requires cfg.maxChunkSize >= 1
    ensures DocumentTurns(text, cfg).1 || |DocumentTurns(text, cfg).0| == MaxGuard(|text|, cfg)
    ensures (forall i :: 0 <= i < |text| && !IsSpace(text[i]) ==> InSomeChunk(DocumentChunks(text, cfg), i))
      <==> (forall i :: Reach(DocumentTurns(text, cfg).0) <= i < |text| ==> IsSpace(text[i]))
  {
    if !BlankText(text) { DocumentTurnsFine(text, cfg); }
    var chunks, reach := DocumentChunks(text, cfg), Reach(DocumentTurns(text, cfg).0);
    forall i | 0 <= i < |text| && !IsSpace(text[i]) ensures InSomeChunk(chunks, i) <==> i < reach {
      CoveredIffReached(text, cfg, i);
    }
    assert forall i :: 0 <= i < |text| && !IsSpace(text[i]) ==> (InSomeChunk(chunks, i) <==> i < reach);
  }

  // ---------------------------------------------------------------- when the guard is large enough

  // Every window but a short one advances by at least this much.
  function Advance(cfg: Config): nat {
    Max(1, Min(cfg.minChunkSize, cfg.maxChunkSize) - cfg.overlapSize)
  }

  lemma TurnAdvances(text: string, cfg: Config, pos: nat)
    requires pos < |text| && TurnAt(text, cfg, pos).next.Some?
    ensures TurnAt(text, cfg, pos).next.value >= pos + Advance(cfg)
  {
    var t := TurnAt(text, cfg, pos);
    SliceTrimIs(text, t.start, t.end);
  }

  lemma {:induction false} GuardSuffices(loop: nat -> Turn, n: nat, step: nat, last: nat, pos: nat, guard: nat)
    requires forall p: nat :: p < n && Ask(loop, p).next.Some? ==> p + step <= Ask(loop, p).next.value < n
    requires forall p: nat :: p < n && n - p <= last ==> Ask(loop, p).next.None?
    requires pos < n && guard > 0 && pos + (guard - 1) * step + last >= n
    ensures Turns(loop, n, pos, guard).1
    decreases guard
  {
    var t := Ask(loop, pos);
    if t.next.Some? {
      assert guard > 1;
      assert (guard - 2) * step + step == (guard - 1) * step;
      GuardSuffices(loop, n, step, last, t.next.value, guard - 1);
    }
  }

  // The guarded number of shortest advances and a last full window span n characters.
  predicate GuardSpans(n: nat, cfg: Config) {
    (MaxGuard(n, cfg) - 1) * Advance(cfg) + cfg.maxChunkSize >= n
  }

  // Every visible character is in some chunk.
  ghost predicate AllCovered(text: string, cfg: Config) {
    forall i :: 0 <= i < |text| && !IsSpace(text[i]) ==> InSomeChunk(DocumentChunks(text, cfg), i)
  }

  // A caller can tell beforehand: if the guard spans the text, nothing is lost.
  lemma GuardedAdvanceCoversAll(text: string, cfg: Config)
    requires cfg.maxChunkSize >= 1 && GuardSpans(|text|, cfg)
    ensures DocumentTurns(text, cfg).1 && AllCovered(text, cfg)
  {
    var loop := Loop(text, cfg);
    LoopIsOk(text, cfg);
    forall p: nat | p < |text| && Ask(loop, p).next.Some? ensures p + Advance(cfg) <= Ask(loop, p).next.value < |text| {
      TurnAdvances(text, cfg, p);
      assert TurnOk(text, cfg, Ask(loop, p));
    }
    if !BlankText(text) { GuardSuffices(loop, |text|, Advance(cfg), cfg.maxChunkSize, 0, MaxGuard(|text|, cfg)); }
    BreakCoversAll(text, cfg);
  }

  // ---------------------------------------------------------------- when the sizes keep their promises

  // k blanks and a letter.
  function Indented(k: nat): string {
    seq(k, _ => ' ') + "a"
  }

  lemma BlankWindow(text: string, end: nat)
    requires end <= |text| && forall i :: 0 <= i < end ==> text[i] == ' '
    ensures SliceTrim(text, 0, end).text == ""
  {
    var s := text[0..end];
    assert forall i :: 0 <= i < |s| ==> s[i] == ' ';
    assert Leading(s) == |s|;
    TrimIs(s);
  }

  // The first turn of a text with something visible pushes its chunk to the output.
  lemma FirstChunk(text: string, cfg: Config)
    requires !BlankText(text) && TurnAt(text, cfg, 0).pushed
    ensures TurnAt(text, cfg, 0).chunk in DocumentChunks(text, cfg)
  {
    var loop := Loop(text, cfg);
    assert Ask(loop, 0) == TurnAt(text, cfg, 0);
    TurnsUnfold(loop, |text|, 0, MaxGuard(|text|, cfg));
  }

  lemma EmptyChunk(cfg: Config)
    requires cfg.minChunkSize == 0
    ensures exists text, c :: c in DocumentChunks(text, cfg) && c.text == []
  {
    var text := Indented(cfg.maxChunkSize + 1);
    assert text[cfg.maxChunkSize + 1] == 'a' && !IsSpace('a') && 'a' in text;
    BlankWindow(text, WindowEnd(text, cfg, 0));
    FirstChunk(text, cfg);
  }

  // All chunks of all texts are nonempty exactly when the minimum is positive.
  lemma ChunksAreNonemptyIff(cfg: Config)
    ensures (forall text, c :: c in DocumentChunks(text, cfg) ==> c.text != []) <==> cfg.minChunkSize >= 1
  {
    forall text, c | c in DocumentChunks(text, cfg) && cfg.minChunkSize >= 1 ensures c.text != [] {
      ChunksAreSlices(text, cfg, c);
    }
    if cfg.minChunkSize == 0 { EmptyChunk(cfg); }
  }

  lemma LongChunk(cfg: Config)
    requires cfg.maxChunkSize == 0 && cfg.minChunkSize <= 1
    ensures exists text, c :: c in DocumentChunks(text, cfg) && |c.text| > cfg.maxChunkSize
  {
    var text := "a";
    assert !IsSpace(text[0]) && text[0] in text;
    SliceTrimIs(text, 0, 1);
    FirstChunk(text, cfg);
  }

  // All chunks of all texts keep to the maximum exactly when it is positive or the minimum is at least 2;
  // with a maximum of 0 and such a minimum there are no chunks.
  lemma ChunksKeepMaximumIff(cfg: Config)
    ensures (forall text, c :: c in DocumentChunks(text, cfg) ==> |c.text| <= cfg.maxChunkSize)
      <==> cfg.maxChunkSize >= 1 || cfg.minChunkSize >= 2
  {
    forall text, c | c in DocumentChunks(text, cfg) && (cfg.maxChunkSize >= 1 || cfg.minChunkSize >= 2)
      ensures |c.text| <= cfg.maxChunkSize
    {
      ChunksAreSlices(text, cfg, c);
    }
    if cfg.maxChunkSize == 0 && cfg.minChunkSize <= 1 { LongChunk(cfg); }
  }

  // ---------------------------------------------------------------- the sizes smartChunk picks

  // base is the model's context limit (8192, 2048 or 512), cjkHeavy whether the text is mostly CJK.
  function SmartConfig(base: nat, cjkHeavy: bool): Config {
    var divisor := if cjkHeavy then 2.5 else 1.0;
    Config(Max(200, (base as real * 0.7 / divisor).Floor), Max(0, (base as real * 0.05 / divisor).Floor),
           Max(100, (base as real * 0.1 / divisor).Floor), true, 50)
  }

  // For every limit the sizes are positive and the overlap stays below both of them, so windows advance.
  lemma SmartConfigIsSound(base: nat, cjkHeavy: bool)
    ensures var cfg := SmartConfig(base, cjkHeavy);
      cfg.maxChunkSize >= 200 && cfg.minChunkSize >= 100 && cfg.overlapSize < cfg.minChunkSize <= cfg.maxChunkSize
  {
  }

  // ---------------------------------------------------------------- texts the guard cannot span

  lemma {:induction false} LinesAreFeeds(text: string, i: nat, hi: nat)
    requires i <= hi <= |text| && '\r' !in text
    ensures CountLines(text[i..hi]) == 1 + Feeds(text, i, hi)
    decreases hi - i
  {
    if i < hi {
      assert text[i..hi][1..] == text[i + 1..hi] && text[i] in text;
      LinesAreFeeds(text, i + 1, hi);
    }
  }

  lemma {:induction false} FeedsBefore(text: string, i: nat, m: nat, hi: nat)
    requires i <= m <= hi <= |text|
    ensures Feeds(text, i, m) <= Feeds(text, i, hi)
    decreases m - i
  {
    if i < m { FeedsBefore(text, i + 1, m, hi); }
  }

  lemma {:induction false} FeedFound(text: string, i: nat, m: nat, hi: nat, k: nat)
    requires i <= m <= hi <= |text| && 1 <= k <= Feeds(text, i, m)
    ensures i <= NthLineFeed(text, i, hi, k) < m
    decreases m - i
  {
    if !(text[i] == '\n' && k == 1) { FeedFound(text, i + 1, m, hi, if text[i] == '\n' then k - 1 else k); }
  }

  lemma {:induction false} FeedsBut(text: string, i: nat, hi: nat, others: set<int>)
    requires i <= hi <= |text| && forall j :: i <= j < hi && j !in others ==> text[j] == '\n'
    ensures Feeds(text, i, hi) + |others| >= hi - i
    decreases hi - i
  {
    if i < hi { FeedsBut(text, i + 1, hi, others - {i}); }
  }

  // With so many lines the window is cut as early as it may be.
  lemma CrowdedWindow(text: string, cfg: Config, pos: nat)
    requires pos + cfg.maxChunkSize < |text| && '\r' !in text
    requires 1 <= cfg.minChunkSize <= cfg.maxChunkSize
    requires 1 <= cfg.maxLinesPerChunk <= Feeds(text, pos, pos + cfg.minChunkSize)
    ensures WindowEnd(text, cfg, pos) == pos + cfg.minChunkSize
  {
    var lo, hi := pos + cfg.minChunkSize, pos + cfg.maxChunkSize;
    LinesAreFeeds(text, pos, hi);
    FeedsBefore(text, pos, lo, hi);
    FeedFound(text, pos, lo, hi, cfg.maxLinesPerChunk);
  }

  // Sizes for which short lines decide where windows end, as for all that smartChunk picks.
  predicate CutByLines(cfg: Config) {
    && 1 <= cfg.maxLinesPerChunk && cfg.maxLinesPerChunk + 4 <= cfg.minChunkSize <= cfg.maxChunkSize
    && 2 * cfg.overlapSize <= cfg.minChunkSize
  }

  // k * step, by addition.
  function Nth(k: nat, step: nat): nat {
    if k == 0 then 0 else Nth(k - 1, step) + step
  }

  lemma {:induction false} NthIsProduct(k: nat, step: nat)
    ensures Nth(k, step) == k * step
  {
    if k > 0 {
      NthIsProduct(k - 1, step);
      assert (k - 1) * step + step == k * step;
    }
  }

  // Where the text has a letter: where a window is to start or to end.
  ghost predicate Spot(i: int, step: nat, width: nat) {
    exists k: nat :: i == Nth(k, step) || i == Nth(k, step) + width - 1
  }

  // n characters: letters at the spots and at the end, line feeds everywhere else.
  ghost function Sparse(n: nat, cfg: Config, letter: char): string {
    seq(n, i => if i == n - 1 || Spot(i, Advance(cfg), cfg.minChunkSize) then letter else '\n')
  }

  lemma {:induction false} NthFar(k: nat, j: nat, step: nat)
    requires k < j
    ensures Nth(k, step) + step <= Nth(j, step)
    decreases j - k
  {
    if k + 1 < j { NthFar(k, j - 1, step); }
  }

  // A window has no more than four spots.
  lemma FewSpots(k: nat, i: int, step: nat, width: nat)
    requires step <= width <= 2 * step && Nth(k, step) <= i < Nth(k, step) + width && Spot(i, step, width)
    ensures var p := Nth(k, step); i in {p, p + step, p - step + width - 1, p + width - 1}
  {
    var j: nat :| i == Nth(j, step) || i == Nth(j, step) + width - 1;
    if j > k + 1 {
      NthFar(k, j - 1, step);
    } else if j + 1 < k {
      NthFar(j, k - 1, step);
    }
  }

  lemma SparseFeeds(n: nat, cfg: Config, letter: char, k: nat)
    requires CutByLines(cfg) && Nth(k, Advance(cfg)) + cfg.maxChunkSize < n
    ensures var p := Nth(k, Advance(cfg));
      Feeds(Sparse(n, cfg, letter), p, p + cfg.minChunkSize) + 4 >= cfg.minChunkSize
  {
    var text, step, width := Sparse(n, cfg, letter), Advance(cfg), cfg.minChunkSize;
    var p: int := Nth(k, step);
    var spots: set<int> := {p, p + step, p - step + width - 1, p + width - 1};
    forall j | p <= j < p + width && j !in spots ensures text[j] == '\n' {
      if Spot(j, step, width) { FewSpots(k, j, step, width); }
    }
    FeedsBut(text, p, p + width, spots);
  }

  // A window with visible ends has a chunk as long.
  lemma ChunkIsWindow(text: string, start: nat, end: nat)
    requires start < end <= |text| && !IsSpace(text[start]) && !IsSpace(text[end - 1])
    ensures |SliceTrim(text, start, end).text| >= end - start
  {
    SliceTrimIs(text, start, end);
  }

  lemma WindowTurn(text: string, cfg: Config, pos: nat, end: nat)
    requires pos + cfg.maxChunkSize < |text| && end == WindowEnd(text, cfg, pos)
    requires |SliceTrim(text, pos, end).text| >= cfg.minChunkSize
    ensures var t := TurnAt(text, cfg, pos); t.end == end && t.next == NextStart(text, cfg, pos, end)
  {
  }

  // Before the last windows, the turn at the k-th step has this window and leads to the next step.
  ghost predicate StepsAt(loop: nat -> Turn, n: nat, step: nat, width: nat, last: nat, k: nat) {
    var p := Nth(k, step);
    p + last < n ==> Ask(loop, p).end == p + width && Ask(loop, p).next == Some(p + step)
  }

  predicate Visible(text: string, i: nat) {
    i < |text| && !IsSpace(text[i])
  }

  // A window here is full of line feeds, with something visible at both ends.
  ghost predicate Crowded(text: string, cfg: Config, p: nat)
    requires CutByLines(cfg)
  {
    && p + cfg.minChunkSize <= |text| && Feeds(text, p, p + cfg.minChunkSize) + 4 >= cfg.minChunkSize
    && Visible(text, p) && Visible(text, p + cfg.minChunkSize - 1)
  }

  lemma SparseAt(n: nat, cfg: Config, letter: char, i: nat)
    requires i < n && !IsSpace(letter) && (i == n - 1 || Spot(i, Advance(cfg), cfg.minChunkSize))
    ensures Visible(Sparse(n, cfg, letter), i)
  {
  }

  lemma SparseIsCrowded(n: nat, cfg: Config, letter: char, k: nat)
    requires CutByLines(cfg) && !IsSpace(letter) && Nth(k, Advance(cfg)) + cfg.maxChunkSize < n
    ensures Crowded(Sparse(n, cfg, letter), cfg, Nth(k, Advance(cfg)))
  {
    var p := Nth(k, Advance(cfg));
    SparseFeeds(n, cfg, letter, k);
    SparseAt(n, cfg, letter, p);
    SparseAt(n, cfg, letter, p + cfg.minChunkSize - 1);
  }

  ghost predicate CrowdedAt(text: string, cfg: Config, k: nat)
    requires CutByLines(cfg)
  {
    Nth(k, Advance(cfg)) + cfg.maxChunkSize < |text| ==> Crowded(text, cfg, Nth(k, Advance(cfg)))
  }

  ghost predicate CrowdedAll(text: string, cfg: Config)
    requires CutByLines(cfg)
  {
    '\r' !in text && forall k: nat :: CrowdedAt(text, cfg, k)
  }

  // A text that uses one letter only, so that the ratio test of smartChunk (src/chunker.ts:174-183, 270) sees
  // nothing else; blanks do not count.
  predicate OneLetter(text: string, letter: char) {
    letter in text && forall c :: c in text ==> c == letter || c == '\n'
  }

  lemma SparseText(n: nat, cfg: Config, letter: char) returns (text: string)
    requires CutByLines(cfg) && !IsSpace(letter) && n > 0
    ensures |text| == n && CrowdedAll(text, cfg) && Visible(text, n - 1) && OneLetter(text, letter)
  {
    text := Sparse(n, cfg, letter);
    forall k: nat ensures CrowdedAt(text, cfg, k) {
      if Nth(k, Advance(cfg)) + cfg.maxChunkSize < n { SparseIsCrowded(n, cfg, letter, k); }
    }
    SparseAt(n, cfg, letter, n - 1);
    assert text[n - 1] in text;
  }

  lemma ShortTurn(text: string, cfg: Config, p: nat)
    requires CutByLines(cfg) && p + cfg.maxChunkSize < |text| && WindowEnd(text, cfg, p) == p + cfg.minChunkSize
    requires |SliceTrim(text, p, p + cfg.minChunkSize).text| >= cfg.minChunkSize
    ensures var t := TurnAt(text, cfg, p); t.end == p + cfg.minChunkSize && t.next == Some(p + Advance(cfg))
  {
    WindowTurn(text, cfg, p, p + cfg.minChunkSize);
  }

  lemma CrowdedTurn(text: string, cfg: Config, p: nat)
    requires CutByLines(cfg) && p + cfg.maxChunkSize < |text| && '\r' !in text && Crowded(text, cfg, p)
    ensures var t := TurnAt(text, cfg, p); t.end == p + cfg.minChunkSize && t.next == Some(p + Advance(cfg))
  {
    CrowdedWindow(text, cfg, p);
    ChunkIsWindow(text, p, p + cfg.minChunkSize);
    ShortTurn(text, cfg, p);
  }

  // Every window of such a text advances as little as possible.
  lemma CrowdedSteps(text: string, cfg: Config, loop: nat -> Turn, k: nat)
    requires CutByLines(cfg) && CrowdedAll(text, cfg) && loop == Loop(text, cfg)
    ensures StepsAt(loop, |text|, Advance(cfg), cfg.minChunkSize, cfg.maxChunkSize, k)
  {
    var p := Nth(k, Advance(cfg));
    assert CrowdedAt(text, cfg, k);
    if p + cfg.maxChunkSize < |text| { CrowdedTurn(text, cfg, p); }
  }

  lemma {:induction false} ReachCons(t: Turn, turns: seq<Turn>)
    ensures Reach([t] + turns) == Max(t.end, Reach(turns))
    decreases |turns|
  {
    if turns == [] {
      assert ([t] + turns)[..0] == [];
    } else {
      var n := |turns| - 1;
      ReachCons(t, turns[..n]);
      assert ([t] + turns)[..n + 1] == [t] + turns[..n];
    }
  }

  lemma {:induction false} StepsReach(loop: nat -> Turn, n: nat, step: nat, width: nat, last: nat, k: nat, guard: nat)
    requires guard > 0 && Nth(k + guard - 1, step) + last < n
    requires forall j: nat :: StepsAt(loop, n, step, width, last, j)
    ensures !Turns(loop, n, Nth(k, step), guard).1
    ensures Reach(Turns(loop, n, Nth(k, step), guard).0) == Nth(k + guard - 1, step) + width
    decreases guard
  {
    var p := Nth(k, step);
    if guard > 1 { NthFar(k, k + guard - 1, step); }
    assert StepsAt(loop, n, step, width, last, k);
    assert Nth(k + 1, step) == p + step;
    var rest := Turns(loop, n, p + step, guard - 1).0;
    ReachCons(Ask(loop, p), rest);
    if guard > 1 { StepsReach(loop, n, step, width, last, k + 1, guard - 1); } else { assert rest == []; }
  }

  // The windows of such a text reach no more than so many turns allow.
  lemma CrowdedReach(text: string, cfg: Config, loop: nat -> Turn, step: nat, guard: nat)
    requires CutByLines(cfg) && CrowdedAll(text, cfg) && loop == Loop(text, cfg) && step == Advance(cfg)
    requires guard > 0 && Nth(guard - 1, step) + cfg.maxChunkSize < |text|
    ensures Reach(Turns(loop, |text|, 0, guard).0) == Nth(guard - 1, step) + cfg.minChunkSize
  {
    forall j: nat ensures StepsAt(loop, |text|, step, cfg.minChunkSize, cfg.maxChunkSize, j) {
      CrowdedSteps(text, cfg, loop, j);
    }
    var first: nat := 0;
    assert Nth(first, step) == 0 && first + guard - 1 == guard - 1;
    StepsReach(loop, |text|, step, cfg.minChunkSize, cfg.maxChunkSize, first, guard);
  }

  // The visible characters before this position are covered, and no others.
  ghost predicate CoveredUpTo(text: string, cfg: Config, reach: nat) {
    forall i :: 0 <= i < |text| && !IsSpace(text[i]) ==> (InSomeChunk(DocumentChunks(text, cfg), i) <==> i < reach)
  }

  lemma CoverageIs(text: string, cfg: Config)
    requires cfg.maxChunkSize >= 1
    ensures CoveredUpTo(text, cfg, Reach(DocumentTurns(text, cfg).0))
  {
    var reach := Reach(DocumentTurns(text, cfg).0);
    forall i | 0 <= i < |text| && !IsSpace(text[i]) ensures InSomeChunk(DocumentChunks(text, cfg), i) <==> i < reach {
      CoveredIffReached(text, cfg, i);
    }
  }

  lemma LastIsLost(text: string, cfg: Config, reach: nat)
    requires CoveredUpTo(text, cfg, reach) && reach < |text| && Visible(text, |text| - 1)
    ensures !AllCovered(text, cfg)
  {
    var i := |text| - 1;
    assert !IsSpace(text[i]) && !InSomeChunk(DocumentChunks(text, cfg), i);
  }

  lemma DocumentTurnsAre(text: string, cfg: Config, guard: nat)
    requires guard == MaxGuard(|text|, cfg) && text != [] && Visible(text, |text| - 1)
    ensures DocumentTurns(text, cfg) == Turns(Loop(text, cfg), |text|, 0, guard)
  {
    assert text[|text| - 1] in text;
  }

  lemma CrowdedDocument(text: string, cfg: Config, guard: nat)
    requires CutByLines(cfg) && CrowdedAll(text, cfg) && text != [] && Visible(text, |text| - 1)
    requires guard == MaxGuard(|text|, cfg) && Nth(guard - 1, Advance(cfg)) + cfg.maxChunkSize < |text|
    ensures Reach(DocumentTurns(text, cfg).0) == Nth(guard - 1, Advance(cfg)) + cfg.minChunkSize
  {
    DocumentTurnsAre(text, cfg, guard);
    CrowdedReach(text, cfg, Loop(text, cfg), Advance(cfg), guard);
  }

  lemma SpansNth(n: nat, cfg: Config, guard: nat)
    requires guard == MaxGuard(n, cfg)
    ensures GuardSpans(n, cfg) <==> Nth(guard - 1, Advance(cfg)) + cfg.maxChunkSize >= n
    ensures Nth(guard - 1, Advance(cfg)) == (guard - 1) * Advance(cfg)
  {
    NthIsProduct(guard - 1, Advance(cfg));
  }

  // If the guard does not span n characters, a text of letters and line feeds loses some: exactly what is
  // visible before the end of the last window is covered, and the last character is not among it.
  lemma SomeTextIsCutShort(n: nat, cfg: Config, letter: char, guard: nat) returns (text: string)
    requires CutByLines(cfg) && !IsSpace(letter) && guard == MaxGuard(n, cfg) && !GuardSpans(n, cfg)
    ensures |text| == n && OneLetter(text, letter)
    ensures var reach := (guard - 1) * Advance(cfg) + cfg.minChunkSize; reach < n && CoveredUpTo(text, cfg, reach)
    ensures !AllCovered(text, cfg)
  {
    SpansNth(n, cfg, guard);
    text := SparseText(n, cfg, letter);
    CrowdedDocument(text, cfg, guard);
    CoverageIs(text, cfg);
    LastIsLost(text, cfg, Nth(guard - 1, Advance(cfg)) + cfg.minChunkSize);
  }

  // All texts of n characters are covered exactly when the guard spans n characters.
  lemma CoversAllIff(n: nat, cfg: Config)
    requires CutByLines(cfg)
    ensures (forall text | |text| == n :: AllCovered(text, cfg)) <==> GuardSpans(n, cfg)
  {
    if GuardSpans(n, cfg) {
      forall text | |text| == n ensures AllCovered(text, cfg) { GuardedAdvanceCoversAll(text, cfg); }
    } else {
      var text := SomeTextIsCutShort(n, cfg, 'a', MaxGuard(n, cfg));
    }
  }

  lemma LargeConfigSpans(n: nat)
    ensures SmartConfig(8192, false) == Config(5734, 409, 819, true, 50)
    ensures CutByLines(SmartConfig(8192, false)) && (GuardSpans(n, SmartConfig(8192, false)) <==> n <= 8194)
  {
    assert SmartConfig(8192, false) == Config(5734, 409, 819, true, 50);
  }

  // For a limit of 8192 and texts that are not mostly CJK that means up to 8194 characters.
  lemma LargeConfigCoversAllIff(n: nat)
    ensures (forall text | |text| == n :: AllCovered(text, SmartConfig(8192, false))) <==> n <= 8194
  {
    LargeConfigSpans(n);
    CoversAllIff(n, SmartConfig(8192, false));
  }

  lemma SmartConfigIsCutByLines(base: nat, cjkHeavy: bool)
    ensures CutByLines(SmartConfig(base, cjkHeavy))
  {
  }

  // smartChunk as a whole, whatever the limit and the ratio test, as long as the test tells texts of this CJK
  // letter from texts of this other letter: all texts of n characters are covered exactly when the guard spans
  // n characters with the sizes for either kind.
  lemma SmartChunkCoversAllIff(n: nat, base: nat, cjkHeavy: string -> bool, latin: char, cjk: char)
    requires !IsSpace(latin) && !IsSpace(cjk)
    requires forall text :: (OneLetter(text, latin) ==> !cjkHeavy(text)) && (OneLetter(text, cjk) ==> cjkHeavy(text))
    ensures (forall text | |text| == n :: AllCovered(text, SmartConfig(base, cjkHeavy(text))))
      <==> GuardSpans(n, SmartConfig(base, false)) && GuardSpans(n, SmartConfig(base, true))
  {
    var light, heavy := SmartConfig(base, false), SmartConfig(base, true);
    SmartConfigIsCutByLines(base, false);
    SmartConfigIsCutByLines(base, true);
    if !GuardSpans(n, light) {
      var text := SomeTextIsCutShort(n, light, latin, MaxGuard(n, light));
      assert OneLetter(text, latin) && !AllCovered(text, SmartConfig(base, cjkHeavy(text)));
    } else if !GuardSpans(n, heavy) {
      var text := SomeTextIsCutShort(n, heavy, cjk, MaxGuard(n, heavy));
      assert OneLetter(text, cjk) && !AllCovered(text, SmartConfig(base, cjkHeavy(text)));
    } else {
      forall text | |text| == n ensures AllCovered(text, SmartConfig(base, cjkHeavy(text))) {
        GuardedAdvanceCoversAll(text, SmartConfig(base, cjkHeavy(text)));
      }
    }
  }
}
