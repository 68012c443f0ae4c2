/** extractJsonFromResponse (src/llm-client.ts:55-79): the text of the first fenced block, or else the object found
    by counting braces. */
module JsonExtract {
  import opened Common
  import opened JsonRepair

  function Weight(c: char): int {
    if c == '{' then 1 else if c == '}' then -1 else 0
  }

  // What is left of the text after the brace that brings the depth back to zero.
  function Rest(text: string, depth: int): (r: Option<string>)
    ensures r.Some? ==> |r.value| < |text|
  {
    if text == [] then None
    else if text[0] == '}' && depth == 1 then Some(text[1..])
    else Rest(text[1..], depth + Weight(text[0]))
  }

  function FirstBrace(text: string): (n: nat)
    ensures n <= |text| && (n < |text| ==> text[n] == '{') && '{' !in text[..n]
  {
    if text == [] || text[0] == '{' then 0
    else
      var n := 1 + FirstBrace(text[1..]);
      assert text[..n] == [text[0]] + text[1..][..n - 1];
      n
  }

  function Extract(text: string): Option<string> {
    var found := text[FirstBrace(text)..];
    match Rest(found, 0)
    case None => None
    case Some(rest) => Some(found[..|found| - |rest|])
  }

  const FENCE: string := ['`', '`', '`']

  predicate FenceAt(text: string, i: nat) {
    i + 3 <= |text| && text[i..i + 3] == FENCE
  }

  // Where the first fence stands; the length when there is none.
  function FirstFence(text: string): (n: nat)
    ensures n <= |text| && (n < |text| ==> FenceAt(text, n))
    ensures forall k: nat :: k < n ==> !FenceAt(text, k)
  {
    if text == [] || FenceAt(text, 0) then 0
    else
      var n := 1 + FirstFence(text[1..]);
      assert forall k: nat :: 0 < k ==> (FenceAt(text, k) <==> FenceAt(text[1..], k - 1));
      n
  }

  // What follows a fence, without the word that may name the language.
  function Untagged(text: string): string {
    if "json" <= text then text[4..] else text
  }

  // The group of the fence pattern, trimmed: what stands between the first fence and the next.
  function FencedBlock(text: string): Option<string> {
    var open := FirstFence(text);
    if open == |text| then None
    else
      var body := Untagged(text[open + 3..]);
      var close := FirstFence(body);
      if close == |body| then None else Some(Trim(body[..close]))
  }

  // text.indexOf("{"), or the length when there is none.
  method IndexOfBrace(text: string) returns (n: nat)
    ensures n == FirstBrace(text)
  {
    n := 0;
    while n < |text| && text[n] != '{'
      invariant n <= |text| && FirstBrace(text) == n + FirstBrace(text[n..])
    {
      assert text[n..][1..] == text[n + 1..];
      n := n + 1;
    }
  }

  method ExtractJsonFromResponse(text: string) returns (r: Option<string>)
    ensures r == if FencedBlock(text).Some? then FencedBlock(text) else Extract(text)
  {
    var fenced := FencedBlock(text);
    if fenced.Some? { return fenced; }
    var firstBrace := IndexOfBrace(text);
    ghost var whole := text[firstBrace..];
    var depth, i := 0, firstBrace;
    while i < |text|
      invariant firstBrace <= i <= |text|
      invariant Rest(whole, 0) == Rest(text[i..], depth)
    {
      assert text[i..][0] == text[i] && text[i..][1..] == text[i + 1..];
      if text[i] == '{' {
        depth := depth + 1;
      } else if text[i] == '}' {
        depth := depth - 1;
        if depth == 0 {
          assert whole[..|whole| - |text[i + 1..]|] == text[firstBrace..i + 1];
          return Some(text[firstBrace..i + 1]);
        }
      }
      i := i + 1;
    }
    return None;
  }

  // ---------------------------------------------------------------- fenced blocks

  lemma FenceLater(text: string, d: nat, k: nat)
    requires d <= |text|
    ensures FenceAt(text[d..], k) <==> FenceAt(text, d + k)
  {
    if d + k + 3 <= |text| { assert text[d..][k..k + 3] == text[d + k..d + k + 3]; }
  }

  // The word after a fence holds no fence and overlaps none.
  lemma UntaggedHasFence(text: string, k: nat)
    requires FenceAt(text, k)
    ensures exists j: nat :: FenceAt(Untagged(text), j)
  {
    if "json" <= text {
      assert text[k] == '`' by { assert text[k..k + 3][0] == text[k]; }
      assert text[..4] == "json" && forall i :: 0 <= i < 4 ==> text[i] == text[..4][i];
      FenceLater(text, 4, k - 4);
      assert FenceAt(Untagged(text), k - 4);
    } else {
      assert FenceAt(Untagged(text), k);
    }
  }

  // There is a fenced block exactly when two fences stand apart in the response.
  lemma FencedBlockIff(text: string)
    ensures FencedBlock(text).Some? <==> exists i: nat, j: nat :: i + 3 <= j && FenceAt(text, i) && FenceAt(text, j)
  {
    var open := FirstFence(text);
    if open < |text| {
      var rest := text[open + 3..];
      var d := if "json" <= rest then 4 else 0;
      var close := FirstFence(Untagged(rest));
      if close < |Untagged(rest)| {
        FenceLater(rest, d, close);
        FenceLater(text, open + 3, d + close);
      }
      forall i: nat, j: nat | i + 3 <= j && FenceAt(text, i) && FenceAt(text, j) ensures FencedBlock(text).Some? {
        FenceLater(text, open + 3, j - open - 3);
        UntaggedHasFence(rest, j - open - 3);
      }
    }
  }

  lemma FirstFenceIs(text: string, n: nat)
    requires FenceAt(text, n) && forall k: nat :: k < n ==> !FenceAt(text, k)
    ensures FirstFence(text) == n
  {
  }

  // No fence begins before the one at the end.
  ghost predicate ClosedBy(body: string) {
    forall k: nat :: k < |body| ==> !FenceAt(body + FENCE, k)
  }

  lemma ClosesThere(body: string, after: string)
    requires ClosedBy(body)
    ensures FirstFence(body + FENCE + after) == |body|
  {
    var text := body + FENCE + after;
    assert text[|body|..|body| + 3] == FENCE;
    forall k: nat | k < |body| ensures !FenceAt(text, k) {
      assert !FenceAt(body + FENCE, k) && text[k..k + 3] == (body + FENCE)[k..k + 3];
    }
    FirstFenceIs(text, |body|);
  }

  // What a model fenced is what is taken, trimmed, whatever stands around it, the word for the language or none
  // before it: when neither the prose before nor the text itself runs into a fence.
  lemma ExtractsFenced(before: string, tagged: bool, body: string, after: string)
    requires ClosedBy(before) && ClosedBy(body) && (tagged || !("json" <= body + FENCE + after))
    ensures FencedBlock(before + FENCE + ((if tagged then "json" else "") + (body + FENCE + after))) == Some(Trim(body))
  {
    var inner := body + FENCE + after;
    var rest := (if tagged then "json" else "") + inner;
    var text := before + FENCE + rest;
    ClosesThere(before, rest);
    assert text[|before| + 3..] == rest;
    assert Untagged(rest) == inner;
    ClosesThere(body, after);
    assert inner[..|body|] == body;
  }

  // ---------------------------------------------------------------- what is extracted

  function Balance(text: string): int {
    if text == [] then 0 else Weight(text[0]) + Balance(text[1..])
  }

  // The braces of s match, and its first brace is closed by its last character and not before.
  ghost predicate Enclosed(s: string) {
    && s != [] && s[0] == '{' && Balance(s) == 0
    && forall k :: 0 < k < |s| ==> Balance(s[..k]) > 0
  }

  // From the given depth, the first k characters stay above zero, all but the last.
  ghost predicate ClosesAt(text: string, depth: int, k: nat) {
    && 0 < k <= |text| && depth + Balance(text[..k]) == 0
    && forall j :: 0 < j < k ==> depth + Balance(text[..j]) > 0
  }

  lemma ClosesLater(text: string, depth: int, k: nat)
    requires text != [] && 0 < k <= |text|
    ensures Balance(text[..k]) == Weight(text[0]) + Balance(text[1..][..k - 1])
  {
    assert text[..k][1..] == text[1..][..k - 1];
  }

  // The scan stops where the depth first returns to zero, and nowhere if it never does.
  lemma {:induction false} RestIs(text: string, depth: int, k: nat)
    requires depth > 0 || (depth == 0 && text != [] && text[0] == '{')
    ensures ClosesAt(text, depth, k) <==> Rest(text, depth).Some? && |Rest(text, depth).value| == |text| - k
    decreases |text|
  {
    if text != [] && 0 < k <= |text| {
      var next := depth + Weight(text[0]);
      ClosesLater(text, depth, 1);
      assert text[1..][..0] == [];
      forall j | 0 < j <= k ensures Balance(text[..j]) == Weight(text[0]) + Balance(text[1..][..j - 1]) {
        ClosesLater(text, depth, j);
      }
      if next > 0 {
        RestIs(text[1..], next, k - 1);
        if ClosesAt(text, depth, k) {
          forall j | 0 < j < k - 1 ensures next + Balance(text[1..][..j]) > 0 {
            ClosesLater(text, depth, j + 1);
            assert depth + Balance(text[..j + 1]) > 0;
          }
          assert ClosesAt(text[1..], next, k - 1);
        }
        if ClosesAt(text[1..], next, k - 1) {
          assert ClosesAt(text, depth, k);
        }
      }
    }
  }

  lemma EnclosedIsClosing(found: string, n: nat)
    requires 0 < n <= |found| && found[0] == '{'
    ensures Enclosed(found[..n]) <==> ClosesAt(found, 0, n)
  {
    var s := found[..n];
    forall j | 0 < j < n ensures s[..j] == found[..j] {}
  }

  lemma Cut(found: string, n: nat)
    requires found != [] && found[0] == '{' && 0 < n <= |found|
    ensures Rest(found, 0).Some? && |Rest(found, 0).value| == |found| - n <==> Enclosed(found[..n])
  {
    RestIs(found, 0, n);
    EnclosedIsClosing(found, n);
  }

  lemma SamePrefix(found: string, m: nat, n: nat)
    requires m <= |found| && n <= |found|
    ensures found[..m] == found[..n] <==> m == n
  {
    assert |found[..m]| == m && |found[..n]| == n;
  }

  // The extracted text starts at the first brace of the response and is the one enclosed text that starts
  // there; nothing is extracted exactly when there is none.
  lemma ExtractsEnclosed(text: string, b: nat)
    requires FirstBrace(text) < b <= |text|
    ensures Extract(text) == Some(text[FirstBrace(text)..b]) <==> Enclosed(text[FirstBrace(text)..b])
  {
    var a := FirstBrace(text);
    var found := text[a..];
    assert found[..b - a] == text[a..b];
    Cut(found, b - a);
    if Rest(found, 0).Some? { SamePrefix(found, |found| - |Rest(found, 0).value|, b - a); }
  }

  lemma SomethingEnclosed(text: string) returns (b: nat)
    requires Extract(text).Some?
    ensures FirstBrace(text) < b <= |text| && Enclosed(text[FirstBrace(text)..b])
  {
    var a := FirstBrace(text);
    var found := text[a..];
    b := |text| - |Rest(found, 0).value|;
    assert found[..b - a] == text[a..b];
    Cut(found, b - a);
  }

  lemma NothingEnclosed(text: string)
    ensures Extract(text).None? <==> forall b :: FirstBrace(text) < b <= |text| ==> !Enclosed(text[FirstBrace(text)..b])
  {
    forall b | FirstBrace(text) < b <= |text| ensures Enclosed(text[FirstBrace(text)..b]) ==> Extract(text).Some? {
      ExtractsEnclosed(text, b);
    }
    if Extract(text).Some? { var b := SomethingEnclosed(text); }
  }

  // ---------------------------------------------------------------- objects in a response

  predicate Braceless(s: string) {
    forall c :: c in s ==> Weight(c) == 0
  }

  predicate BracelessItems(items: seq<Item>) {
    forall i :: i in items ==> Braceless(ItemText(i))
  }

  // No brace in any string.
  predicate NoBraces(j: Json) {
    match j
    case Scalar(_) => true
    case Text(items) => BracelessItems(items)
    case Array(elems) => NoBracesIn(elems)
    case Object(members) => NoBracesInside(members)
  }

  predicate NoBracesIn(e: Elements) {
    match e
    case NoElements(_) => true
    case LastElement(_, value, _, _) => NoBraces(value)
    case MoreElements(_, value, _, rest) => NoBraces(value) && NoBracesIn(rest)
  }

  predicate NoBracesInside(ms: Members) {
    match ms
    case NoMembers(_) => true
    case LastMember(m, _) => BracelessItems(m.key) && NoBraces(m.value)
    case MoreMembers(m, rest) => BracelessItems(m.key) && NoBraces(m.value) && NoBracesInside(rest)
  }

  lemma {:induction false} Skip(s: string, tail: string, depth: int)
    requires Braceless(s)
    ensures Rest(s + tail, depth) == Rest(tail, depth)
  {
    if s == [] {
      assert s + tail == tail;
    } else {
      assert s[0] in s && (s + tail)[0] == s[0] && (s + tail)[1..] == s[1..] + tail;
      Skip(s[1..], tail, depth);
    }
  }

  lemma SkipBlankText(ws: string, tail: string, depth: int)
    requires Blank(ws)
    ensures Rest(ws + tail, depth) == Rest(tail, depth)
  {
    Skip(ws, tail, depth);
  }

  lemma SkipChar(c: char, tail: string, depth: int)
    requires Weight(c) == 0
    ensures Rest([c] + tail, depth) == Rest(tail, depth)
  {
    Skip([c], tail, depth);
  }

  lemma {:induction false} SkipItems(items: seq<Item>, tail: string, depth: int)
    requires BracelessItems(items)
    ensures Rest(ShowItems(items, tail), depth) == Rest(tail, depth)
  {
    if items != [] {
      assert items[0] in items;
      Skip(ItemText(items[0]), ShowItems(items[1..], tail), depth);
      SkipItems(items[1..], tail, depth);
    }
  }

  lemma SkipString(items: seq<Item>, tail: string, depth: int)
    requires BracelessItems(items)
    ensures Rest(ShowString(items, tail), depth) == Rest(tail, depth)
  {
    SkipChar('"', ShowItems(items, ['"'] + tail), depth);
    SkipItems(items, ['"'] + tail, depth);
    SkipChar('"', tail, depth);
  }

  lemma Opens(c: char, tail: string, depth: int)
    requires depth >= 0
    ensures Rest(['{'] + tail, depth) == Rest(tail, depth + 1)
    ensures Rest(['}'] + tail, depth + 1) == if depth == 0 then Some(tail) else Rest(tail, depth)
  {
    assert (['{'] + tail)[1..] == tail && (['}'] + tail)[1..] == tail;
  }

  // A value without braces in its strings leaves the depth as it found it.
  lemma {:induction false} SkipValue(j: Json, tail: string, depth: int)
    requires Ok(j) && NoBraces(j) && depth >= 1
    ensures Rest(Show(j, tail), depth) == Rest(tail, depth)
    decreases j
  {
    match j
    case Scalar(text) => Skip(text, tail, depth);
    case Text(items) => SkipString(items, tail, depth);
    case Array(elems) =>
      SkipChar('[', ShowElements(elems, [']'] + tail), depth);
      SkipElements(elems, [']'] + tail, depth);
      SkipChar(']', tail, depth);
    case Object(members) =>
      Opens('{', ShowMembers(members, ['}'] + tail), depth);
      SkipMembers(members, ['}'] + tail, depth + 1);
      Opens('}', tail, depth);
  }

  lemma SkipTrailing(trailing: Option<string>, tail: string, depth: int)
    requires trailing.Some? ==> Blank(trailing.value)
    ensures Rest(ShowTrailing(trailing, tail), depth) == Rest(tail, depth)
  {
    if trailing.Some? {
      SkipChar(',', trailing.value + tail, depth);
      SkipBlankText(trailing.value, tail, depth);
    }
  }

  lemma {:induction false} SkipElements(e: Elements, tail: string, depth: int)
    requires ElementsOk(e) && NoBracesIn(e) && depth >= 1
    ensures Rest(ShowElements(e, tail), depth) == Rest(tail, depth)
    decreases e
  {
    match e
    case NoElements(ws) => SkipBlankText(ws, tail, depth);
    case LastElement(before, value, after, trailing) =>
      SkipBlankText(before, Show(value, after + ShowTrailing(trailing, tail)), depth);
      SkipValue(value, after + ShowTrailing(trailing, tail), depth);
      SkipBlankText(after, ShowTrailing(trailing, tail), depth);
      SkipTrailing(trailing, tail, depth);
    case MoreElements(before, value, after, rest) =>
      SkipBlankText(before, Show(value, after + ([','] + ShowElements(rest, tail))), depth);
      SkipValue(value, after + ([','] + ShowElements(rest, tail)), depth);
      SkipBlankText(after, [','] + ShowElements(rest, tail), depth);
      SkipChar(',', ShowElements(rest, tail), depth);
      SkipElements(rest, tail, depth);
  }

  lemma {:induction false} SkipMember(m: Member, tail: string, depth: int)
    requires MemberOk(m) && BracelessItems(m.key) && NoBraces(m.value) && depth >= 1
    ensures Rest(ShowMember(m, tail), depth) == Rest(tail, depth)
    decreases m
  {
    var value := Show(m.value, m.after + tail);
    SkipBlankText(m.before, ShowString(m.key, m.colon + ([':'] + (m.gap + value))), depth);
    SkipString(m.key, m.colon + ([':'] + (m.gap + value)), depth);
    SkipBlankText(m.colon, [':'] + (m.gap + value), depth);
    SkipChar(':', m.gap + value, depth);
    SkipBlankText(m.gap, value, depth);
    SkipValue(m.value, m.after + tail, depth);
    SkipBlankText(m.after, tail, depth);
  }

  lemma {:induction false} SkipMembers(ms: Members, tail: string, depth: int)
    requires MembersOk(ms) && NoBracesInside(ms) && depth >= 1
    ensures Rest(ShowMembers(ms, tail), depth) == Rest(tail, depth)
    decreases ms
  {
    match ms
    case NoMembers(ws) => SkipBlankText(ws, tail, depth);
    case LastMember(m, trailing) =>
      SkipMember(m, ShowTrailing(trailing, tail), depth);
      SkipTrailing(trailing, tail, depth);
    case MoreMembers(m, rest) =>
      SkipMember(m, [','] + ShowMembers(rest, tail), depth);
      SkipChar(',', ShowMembers(rest, tail), depth);
      SkipMembers(rest, tail, depth);
  }

  lemma {:induction false} FirstBraceAfter(before: string, shown: string)
    requires '{' !in before && shown != [] && shown[0] == '{'
    ensures FirstBrace(before + shown) == |before|
  {
    if before == [] {
      assert before + shown == shown;
    } else {
      assert before[0] in before && (before + shown)[1..] == before[1..] + shown;
      FirstBraceAfter(before[1..], shown);
    }
  }

  lemma {:induction false} RestIsSuffix(text: string, depth: int)
    ensures var r := Rest(text, depth); r.Some? ==> text == text[..|text| - |r.value|] + r.value
  {
    if text != [] && !(text[0] == '}' && depth == 1) {
      RestIsSuffix(text[1..], depth + Weight(text[0]));
    }
  }

  // Of a response in which the object comes first among the braces, exactly the object is taken, loose or
  // strict, if and only if the braces in its strings leave it enclosed.
  lemma ObjectTakenIff(before: string, members: Members, after: string)
    requires '{' !in before
    ensures var shown := Show(Object(members), "");
      Extract(before + (shown + after)) == Some(shown) <==> Enclosed(shown)
  {
    var shown := Show(Object(members), "");
    var text := before + (shown + after);
    FirstBraceAfter(before, shown + after);
    assert text[|before|..|before| + |shown|] == shown;
    ExtractsEnclosed(text, |before| + |shown|);
  }

  // Without braces in its strings the object is taken.
  lemma ExtractsTheObject(before: string, members: Members, after: string)
    requires '{' !in before && MembersOk(members) && NoBracesInside(members)
    ensures var r := Extract(before + Show(Object(members), after));
      r.Some? && r.value + after == Show(Object(members), after)
  {
    var shown := Show(Object(members), after);
    FirstBraceAfter(before, shown);
    assert (before + shown)[|before|..] == shown;
    Opens('{', ShowMembers(members, ['}'] + after), 0);
    SkipMembers(members, ['}'] + after, 1);
    Opens('}', after, 0);
    RestIsSuffix(shown, 0);
  }

  // Wherever it stands, in a string too, a closing brace before any other brace ends what is taken.
  lemma FirstClosingBraceEnds(before: string, head: string, tail: string)
    requires '{' !in before && Braceless(head)
    ensures Extract(before + (['{'] + (head + (['}'] + tail)))) == Some(['{'] + head + ['}'])
  {
    var shown, taken := ['{'] + (head + (['}'] + tail)), ['{'] + head + ['}'];
    FirstBraceAfter(before, shown);
    assert (before + shown)[|before|..] == shown;
    Opens('{', head + (['}'] + tail), 0);
    Skip(head, ['}'] + tail, 1);
    Opens('}', tail, 0);
    assert shown == taken + tail && |shown| - |tail| == |taken|;
    assert shown[..|taken|] == taken;
  }
}
