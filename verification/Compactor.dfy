/** Memory compaction (src/memory-compactor.ts:128-375): greedy clusters of similar entries, each replaced
    by one entry holding their lines without repetition. Similarity and case folding are arbitrary
    functions; embedding, storing and deleting may fail at any call. */
module Compactor {
  import opened Common

  type Vec = seq<real>

  datatype Entry = Entry(text: string, vector: Vec, importance: real, category: string, scope: string)

  // similar is the cosine similarity, fold is toLowerCase.
  datatype Params = Params(similar: (Vec, Vec) -> real, fold: string -> string, threshold: real, minClusterSize: nat) {
    function Sim(a: Vec, b: Vec): real { similar(a, b) }
    function Fold(s: string): string { fold(s) }
  }

  // ---------------------------------------------------------------- lines

  function IndexOf(s: string, c: char): (n: nat)
    ensures n <= |s| && (n < |s| ==> s[n] == c) && c !in s[..n]
  {
    if s == [] || s[0] == c then 0
    else
      var n := 1 + IndexOf(s[1..], c);
      assert s[..n] == [s[0]] + s[1..][..n - 1];
      n
  }

  lemma {:induction false} FirstIndex(s: string, c: char, k: nat)
    requires k < |s| && s[k] == c && c !in s[..k]
    ensures IndexOf(s, c) == k
  {
    if k > 0 {
      assert s[0] in s[..k];
      assert forall x :: x in s[1..][..k - 1] ==> x in s[..k];
      FirstIndex(s[1..], c, k - 1);
    }
  }

  // text.split("\n")
  function Split(text: string): (r: seq<string>)
    ensures r != []
    decreases |text|
  {
    var n := IndexOf(text, '\n');
    if n == |text| then [text] else [text[..n]] + Split(text[n + 1..])
  }

  // lines.join("\n")
  function Join(lines: seq<string>): string {
    if lines == [] then "" else if |lines| == 1 then lines[0] else lines[0] + "\n" + Join(lines[1..])
  }

  lemma {:induction false} SplitLine(line: string, rest: string)
    requires '\n' !in line
    ensures Split(line) == [line]
    ensures Split(line + "\n" + rest) == [line] + Split(rest)
  {
    var n := IndexOf(line, '\n');
    assert n == |line|;
    var text := line + "\n" + rest;
    assert text[|line|] == '\n';
    var m := IndexOf(text, '\n');
    assert text[..|line|] == line;
    FirstIndex(text, '\n', |line|);
    assert text[..m] == line && text[m + 1..] == rest;
  }

  lemma {:induction false} SplitJoin(lines: seq<string>)
    requires lines != [] && forall l :: l in lines ==> '\n' !in l
    ensures Split(Join(lines)) == lines
  {
    assert lines[0] in lines;
    if |lines| == 1 {
      SplitLine(lines[0], "");
    } else {
      assert forall l :: l in lines[1..] ==> l in lines;
      SplitJoin(lines[1..]);
      SplitLine(lines[0], Join(lines[1..]));
      assert lines[0] + "\n" + Join(lines[1..]) == (lines[0] + "\n") + Join(lines[1..]);
    }
  }

  // The lines joined again give the text.
  lemma {:induction false} JoinSplit(text: string)
    ensures Join(Split(text)) == text
    decreases |text|
  {
    var n := IndexOf(text, '\n');
    if n < |text| {
      JoinSplit(text[n + 1..]);
      var rest := Split(text[n + 1..]);
      assert ([text[..n]] + rest)[1..] == rest;
      assert text == text[..n] + "\n" + text[n + 1..];
    }
  }

  lemma {:induction false} SplitHasNoNewline(text: string, line: string)
    requires line in Split(text)
    ensures '\n' !in line
    decreases |text|
  {
    var n := IndexOf(text, '\n');
    if n == |text| {
      assert text[..n] == text;
    } else if line != text[..n] {
      SplitHasNoNewline(text[n + 1..], line);
    }
  }

  // Trimming a trimmed line does nothing and brings in no new character.
  lemma TrimTrims(s: string)
    ensures Trim(Trim(s)) == Trim(s)
    ensures '\n' !in s ==> '\n' !in Trim(s)
  {
    var t := TrimStart(s);
    TrimStartKeeps(s, '\n');
    TrimEndKeeps(t, '\n');
    TrimStartStops(s);
    TrimEndStops(t);
  }

  // The identity of a line: trimmed and folded.
  function Key(line: string, p: Params): string {
    p.Fold(Trim(line))
  }

  function NonblankKeys(lines: seq<string>, p: Params): set<string> {
    set l | l in lines && Trim(l) != "" :: Key(l, p)
  }

  // The keys of the nonblank lines of a text.
  function Keys(text: string, p: Params): set<string> {
    NonblankKeys(Split(text), p)
  }

  lemma NonblankKeysMore(lines: seq<string>, i: nat, p: Params)
    requires i < |lines|
    ensures NonblankKeys(lines[..i + 1], p) ==
      NonblankKeys(lines[..i], p) + (if Trim(lines[i]) != "" then {Key(lines[i], p)} else {})
  {
    assert lines[..i + 1] == lines[..i] + [lines[i]];
  }

  // ---------------------------------------------------------------- the merged text

  // Every line is trimmed, and no two have the same key.
  predicate Distinct(lines: seq<string>, p: Params) {
    && (forall l :: l in lines ==> l != "" && Trim(l) == l && '\n' !in l)
    && forall i, j :: 0 <= i < j < |lines| ==> p.Fold(lines[i]) != p.Fold(lines[j])
  }

  function LineKeys(lines: seq<string>, p: Params): set<string> {
    set l | l in lines :: p.Fold(l)
  }

  // The keys of all members' lines.
  ghost function MemberKeys(members: seq<Entry>, p: Params): set<string> {
    if members == [] then {}
    else MemberKeys(members[..|members| - 1], p) + Keys(members[|members| - 1].text, p)
  }

  lemma AddLine(lines: seq<string>, line: string, p: Params)
    requires Distinct(lines, p) && line != "" && Trim(line) == line && '\n' !in line
    requires p.Fold(line) !in LineKeys(lines, p)
    ensures Distinct(lines + [line], p)
    ensures LineKeys(lines + [line], p) == LineKeys(lines, p) + {p.Fold(line)}
  {
    assert forall i :: 0 <= i < |lines| ==> lines[i] in lines && p.Fold(lines[i]) in LineKeys(lines, p);
  }

  // The nonblank lines, trimmed, in order.
  function Trimmed(lines: seq<string>): seq<string> {
    if lines == [] then []
    else
      var n := |lines| - 1;
      Trimmed(lines[..n]) + (if Trim(lines[n]) != "" then [Trim(lines[n])] else [])
  }

  // Of lines with the same key the first.
  function Dedup(lines: seq<string>, p: Params): seq<string> {
    if lines == [] then []
    else
      var n := |lines| - 1;
      var before := Dedup(lines[..n], p);
      if p.Fold(lines[n]) in LineKeys(before, p) then before else before + [lines[n]]
  }

  // All lines of the members.
  function MemberLines(members: seq<Entry>): seq<string> {
    if members == [] then []
    else
      var n := |members| - 1;
      MemberLines(members[..n]) + Trimmed(Split(members[n].text))
  }

  lemma DedupMore(lines: seq<string>, line: string, p: Params)
    ensures Dedup(lines + [line], p) ==
      if p.Fold(line) in LineKeys(Dedup(lines, p), p) then Dedup(lines, p) else Dedup(lines, p) + [line]
  {
    assert (lines + [line])[..|lines|] == lines;
  }

  // The line at this place is the first with its key.
  ghost predicate FirstOfKey(lines: seq<string>, i: nat, p: Params) {
    i < |lines| && forall j :: 0 <= j < i ==> p.Fold(lines[j]) != p.Fold(lines[i])
  }

  lemma KeysSnoc(lines: seq<string>, line: string, p: Params)
    ensures LineKeys(lines + [line], p) == LineKeys(lines, p) + {p.Fold(line)}
  {
  }

  lemma {:induction false} DedupKeys(lines: seq<string>, p: Params)
    ensures LineKeys(Dedup(lines, p), p) == LineKeys(lines, p)
  {
    if lines != [] {
      var n := |lines| - 1;
      DedupKeys(lines[..n], p);
      assert lines == lines[..n] + [lines[n]];
      KeysSnoc(lines[..n], lines[n], p);
      KeysSnoc(Dedup(lines[..n], p), lines[n], p);
    }
  }

  lemma FirstOfKeySnoc(lines: seq<string>, line: string, i: nat, p: Params)
    ensures FirstOfKey(lines + [line], i, p) <==>
      FirstOfKey(lines, i, p) || (i == |lines| && p.Fold(line) !in LineKeys(lines, p))
  {
    var more := lines + [line];
    assert forall j :: 0 <= j < |lines| ==> more[j] == lines[j];
    if i == |lines| {
      assert more[i] == line;
      assert forall j :: 0 <= j < i ==> lines[j] in lines && p.Fold(lines[j]) in LineKeys(lines, p);
      if p.Fold(line) in LineKeys(lines, p) {
        var l :| l in lines && p.Fold(l) == p.Fold(line);
        var j :| 0 <= j < |lines| && lines[j] == l;
        assert more[j] == l;
      }
    }
  }

  // The places of the lines kept: all first ones, in their order, and no others.
  lemma {:induction false} DedupIs(lines: seq<string>, p: Params) returns (at: seq<nat>)
    ensures |at| == |Dedup(lines, p)|
    ensures forall k :: 0 <= k < |at| ==> at[k] < |lines| && Dedup(lines, p)[k] == lines[at[k]]
    ensures forall k, l :: 0 <= k < l < |at| ==> at[k] < at[l]
    ensures forall i: nat :: i in at <==> FirstOfKey(lines, i, p)
  {
    at := [];
    if lines != [] {
      var n := |lines| - 1;
      at := DedupIs(lines[..n], p);
      DedupKeys(lines[..n], p);
      assert lines == lines[..n] + [lines[n]];
      forall i: nat ensures FirstOfKey(lines, i, p) <==>
        FirstOfKey(lines[..n], i, p) || (i == n && p.Fold(lines[n]) !in LineKeys(lines[..n], p))
      {
        FirstOfKeySnoc(lines[..n], lines[n], i, p);
      }
      if p.Fold(lines[n]) !in LineKeys(Dedup(lines[..n], p), p) { at := at + [n]; }
    }
  }

  // The lines kept so far of these, and their keys.
  ghost predicate KeptOf(all: seq<string>, lines: seq<string>, seen: set<string>, p: Params) {
    lines == Dedup(all, p) && Distinct(lines, p) && seen == LineKeys(lines, p)
  }

  lemma KeepLine(all: seq<string>, lines: seq<string>, seen: set<string>, line: string, p: Params)
    requires KeptOf(all, lines, seen, p) && line != "" && Trim(line) == line && '\n' !in line
    ensures if p.Fold(line) in seen then KeptOf(all + [line], lines, seen, p)
      else KeptOf(all + [line], lines + [line], seen + {p.Fold(line)}, p)
  {
    DedupMore(all, line, p);
    if p.Fold(line) !in seen { AddLine(lines, line, p); }
  }

  lemma TrimmedMore(before: seq<string>, lines: seq<string>, i: nat)
    requires i < |lines|
    ensures before + Trimmed(lines[..i + 1]) ==
      if Trim(lines[i]) == "" then before + Trimmed(lines[..i])
      else before + Trimmed(lines[..i]) + [Trim(lines[i])]
  {
    assert lines[..i + 1][..i] == lines[..i];
  }

  lemma {:induction false} TrimmedKeys(lines: seq<string>, p: Params)
    ensures LineKeys(Trimmed(lines), p) == NonblankKeys(lines, p)
  {
    if lines != [] {
      var n := |lines| - 1;
      TrimmedKeys(lines[..n], p);
      NonblankKeysMore(lines, n, p);
      assert lines[..n + 1] == lines;
      if Trim(lines[n]) != "" { KeysSnoc(Trimmed(lines[..n]), Trim(lines[n]), p); }
    }
  }

  lemma LineKeysCat(a: seq<string>, b: seq<string>, p: Params)
    ensures LineKeys(a + b, p) == LineKeys(a, p) + LineKeys(b, p)
  {
  }

  lemma {:induction false} MemberLinesKeys(members: seq<Entry>, p: Params)
    ensures LineKeys(MemberLines(members), p) == MemberKeys(members, p)
  {
    if members != [] {
      var n := |members| - 1;
      MemberLinesKeys(members[..n], p);
      TrimmedKeys(Split(members[n].text), p);
      LineKeysCat(MemberLines(members[..n]), Trimmed(Split(members[n].text)), p);
    }
  }

  method AddLines(text: string, seen0: set<string>, lines0: seq<string>, ghost before: seq<string>, p: Params)
    returns (seen: set<string>, lines: seq<string>)
    requires KeptOf(before, lines0, seen0, p)
    ensures KeptOf(before + Trimmed(Split(text)), lines, seen, p)
  {
    seen, lines := seen0, lines0;
    var all := Split(text);
    assert before + Trimmed(all[..0]) == before;
    for i := 0 to |all|
      invariant KeptOf(before + Trimmed(all[..i]), lines, seen, p)
    {
      SplitHasNoNewline(text, all[i]);
      TrimTrims(all[i]);
      TrimmedMore(before, all, i);
      var trimmed := Trim(all[i]);
      if trimmed == "" { continue; }
      KeepLine(before + Trimmed(all[..i]), lines, seen, trimmed, p);
      if p.Fold(trimmed) !in seen {
        seen := seen + {p.Fold(trimmed)};
        lines := lines + [trimmed];
      }
    }
    assert all[..|all|] == all;
  }

  lemma JoinedKeys(lines: seq<string>, p: Params)
    requires Distinct(lines, p)
    ensures Keys(Join(lines), p) == LineKeys(lines, p)
  {
    if lines == [] {
      assert Split("") == [""];
      assert Trim("") == "";
    } else {
      SplitJoin(lines);
    }
  }

  // buildMergedEntry (src/memory-compactor.ts:188-236): the lines of all members, each once; no key of a member is
  // lost, none is invented.
  method BuildMergedText(members: seq<Entry>, p: Params) returns (text: string)
    ensures Keys(text, p) == MemberKeys(members, p)
    ensures text == Join(Dedup(MemberLines(members), p))
  {
    var seen: set<string>, lines: seq<string> := {}, [];
    for i := 0 to |members|
      invariant KeptOf(MemberLines(members[..i]), lines, seen, p)
    {
      assert members[..i + 1][..i] == members[..i];
      seen, lines := AddLines(members[i].text, seen, lines, MemberLines(members[..i]), p);
    }
    assert members[..|members|] == members;
    text := Join(lines);
    JoinedKeys(lines, p);
    DedupKeys(MemberLines(members), p);
    MemberLinesKeys(members, p);
  }

  // The largest importance of a member, capped at 1.
  ghost predicate LargestOf(members: seq<Entry>, r: real) {
    && (forall m :: m in members ==> (if m.importance > 1.0 then 1.0 else m.importance) <= r)
    && (exists m :: m in members && r == if m.importance > 1.0 then 1.0 else m.importance)
  }

  method MergedImportance(members: seq<Entry>) returns (r: real)
    requires members != []
    ensures LargestOf(members, r)
  {
    r := members[0].importance;
    for i := 1 to |members|
      invariant exists m :: m in members && m.importance == r
      invariant forall m :: m in members[..i] ==> m.importance <= r
    {
      assert members[..i + 1] == members[..i] + [members[i]];
      if members[i].importance > r { r := members[i].importance; }
    }
    assert members[..|members|] == members;
    if r > 1.0 { r := 1.0; }
  }

  function Votes(members: seq<Entry>, category: string): nat {
    if members == [] then 0
    else Votes(members[..|members| - 1], category) + (if members[|members| - 1].category == category then 1 else 0)
  }

  lemma {:induction false} NoVotes(members: seq<Entry>, category: string)
    requires forall m :: m in members ==> m.category != category
    ensures Votes(members, category) == 0
  {
    if members != [] {
      assert members[|members| - 1] in members;
      NoVotes(members[..|members| - 1], category);
    }
  }

  // No category has more votes, and of those with as many it is the one that comes first.
  ghost predicate Wins(members: seq<Entry>, category: string) {
    && (forall c :: Votes(members, c) <= Votes(members, category))
    && exists i :: 0 <= i < |members| && members[i].category == category
        && forall j :: 0 <= j < i ==> Votes(members, members[j].category) < Votes(members, category)
  }

  // The category of the j-th member is in the list, no later than there.
  ghost predicate Ranked(members: seq<Entry>, order: seq<string>, first: seq<nat>, j: nat) {
    && j < |members| && |first| == |order|
    && exists k :: 0 <= k < |order| && order[k] == members[j].category && first[k] <= j
  }

  // Each category once, in the order of their first members; first tells where these are.
  ghost predicate InFirstOrder(members: seq<Entry>, order: seq<string>, first: seq<nat>, n: nat) {
    && |first| == |order| && n <= |members|
    && (forall k :: 0 <= k < |order| ==> first[k] < n && members[first[k]].category == order[k])
    && (forall k, l :: 0 <= k < l < |order| ==> first[k] < first[l])
    && (forall j: nat :: j < n ==> Ranked(members, order, first, j))
  }

  lemma RankedMore(members: seq<Entry>, order: seq<string>, first: seq<nat>, j: nat, c: string, i: nat)
    requires |first| == |order|
    ensures Ranked(members, order, first, j) ==> Ranked(members, order + [c], first + [i], j)
  {
    if Ranked(members, order, first, j) {
      var k :| 0 <= k < |order| && order[k] == members[j].category && first[k] <= j;
      assert (order + [c])[k] == order[k] && (first + [i])[k] == first[k];
    }
  }

  lemma ListCategory(members: seq<Entry>, order: seq<string>, first: seq<nat>, i: nat)
    requires InFirstOrder(members, order, first, i) && i < |members|
    ensures var c := members[i].category;
      if c in order then InFirstOrder(members, order, first, i + 1)
      else InFirstOrder(members, order + [c], first + [i], i + 1)
  {
    var c := members[i].category;
    if c in order {
      var k :| 0 <= k < |order| && order[k] == c;
      assert first[k] <= i && Ranked(members, order, first, i);
    } else {
      forall j: nat | j < i ensures Ranked(members, order + [c], first + [i], j) {
        RankedMore(members, order, first, j, c, i);
      }
      assert (order + [c])[|order|] == c && (first + [i])[|order|] == i;
    }
  }

  method Categories(members: seq<Entry>) returns (order: seq<string>, ghost first: seq<nat>)
    ensures InFirstOrder(members, order, first, |members|)
  {
    order, first := [], [];
    for i := 0 to |members|
      invariant InFirstOrder(members, order, first, i)
    {
      ListCategory(members, order, first, i);
      if members[i].category !in order {
        order, first := order + [members[i].category], first + [i];
      }
    }
  }

  lemma {:induction false} HasVote(members: seq<Entry>, i: nat)
    requires i < |members|
    ensures Votes(members, members[i].category) > 0
  {
    var n := |members| - 1;
    if i < n { HasVote(members[..n], i); }
  }

  // Of the first n categories this one has the most votes, and those before it have fewer.
  ghost predicate LeadsOf(members: seq<Entry>, order: seq<string>, n: nat, at: nat) {
    && at < n <= |order|
    && (forall k :: 0 <= k < n ==> Votes(members, order[k]) <= Votes(members, order[at]))
    && (forall k :: 0 <= k < at ==> Votes(members, order[k]) < Votes(members, order[at]))
  }

  lemma LeaderHasMost(members: seq<Entry>, order: seq<string>, first: seq<nat>, at: nat, c: string)
    requires InFirstOrder(members, order, first, |members|) && LeadsOf(members, order, |order|, at)
    ensures Votes(members, c) <= Votes(members, order[at])
  {
    if c in order {
      var k :| 0 <= k < |order| && order[k] == c;
    } else {
      forall m | m in members ensures m.category != c {
        var j :| 0 <= j < |members| && members[j] == m;
        assert Ranked(members, order, first, j);
      }
      NoVotes(members, c);
    }
  }

  lemma PlaceOf(members: seq<Entry>, order: seq<string>, first: seq<nat>, at: nat, j: nat) returns (k: nat)
    requires InFirstOrder(members, order, first, |members|) && at < |order| && j < first[at]
    ensures k < at && order[k] == members[j].category
  {
    assert Ranked(members, order, first, j);
    k :| 0 <= k < |order| && order[k] == members[j].category && first[k] <= j;
    assert forall l :: at < l < |order| ==> first[at] < first[l];
  }

  lemma LeaderIsFirst(members: seq<Entry>, order: seq<string>, first: seq<nat>, at: nat, j: nat)
    requires InFirstOrder(members, order, first, |members|) && LeadsOf(members, order, |order|, at) && j < first[at]
    ensures Votes(members, members[j].category) < Votes(members, order[at])
  {
    var k := PlaceOf(members, order, first, at, j);
    assert Votes(members, order[k]) < Votes(members, order[at]);
  }

  lemma LeaderWins(members: seq<Entry>, order: seq<string>, first: seq<nat>, at: nat)
    requires InFirstOrder(members, order, first, |members|) && LeadsOf(members, order, |order|, at)
    ensures Wins(members, order[at])
  {
    forall c ensures Votes(members, c) <= Votes(members, order[at]) {
      LeaderHasMost(members, order, first, at, c);
    }
    forall j: nat | j < first[at] ensures Votes(members, members[j].category) < Votes(members, order[at]) {
      LeaderIsFirst(members, order, first, at, j);
    }
  }

  // Plurality vote; the first category to reach the highest count wins.
  method MergedCategory(members: seq<Entry>) returns (category: string)
    requires members != []
    ensures Wins(members, category)
  {
    var order; ghost var first;
    order, first := Categories(members);
    category := "other";
    var best := 0;
    ghost var at: nat := 0;
    for i := 0 to |order|
      invariant if i == 0 then best == 0 else
        LeadsOf(members, order, i, at) && category == order[at] && best == Votes(members, category)
    {
      HasVote(members, first[i]);
      if Votes(members, order[i]) > best {
        best, category, at := Votes(members, order[i]), order[i], i;
      }
    }
    assert Ranked(members, order, first, 0);
    LeaderWins(members, order, first, at);
  }

  // What an entry that stands for the members must be.
  ghost predicate MergedOk(e: Entry, members: seq<Entry>, p: Params) {
    && members != [] && Keys(e.text, p) == MemberKeys(members, p) && e.text == Join(Dedup(MemberLines(members), p))
    && e.scope == members[0].scope && Wins(members, e.category) && LargestOf(members, e.importance)
  }

  // The merged entry, still without a vector.
  method BuildMergedEntry(members: seq<Entry>, p: Params) returns (merged: Entry)
    requires members != []
    ensures MergedOk(merged, members, p)
  {
    var text := BuildMergedText(members, p);
    var importance := MergedImportance(members);
    var category := MergedCategory(members);
    return Entry(text, [], importance, category, members[0].scope);
  }

  // ---------------------------------------------------------------- clusters

  function Imp(entries: seq<Entry>, i: nat): real {
    if i < |entries| then entries[i].importance else 0.0
  }

  function VecOf(entries: seq<Entry>, i: nat): Vec {
    if i < |entries| then entries[i].vector else []
  }

  predicate Close(entries: seq<Entry>, seed: nat, i: nat, p: Params) {
    p.Sim(VecOf(entries, seed), VecOf(entries, i)) >= p.threshold
  }

  // More important first; equally important entries stay in their order.
  predicate Precedes(entries: seq<Entry>, x: nat, y: nat) {
    Imp(entries, x) > Imp(entries, y) || (Imp(entries, x) == Imp(entries, y) && x < y)
  }

  ghost predicate Descending(entries: seq<Entry>, order: seq<nat>) {
    forall a, b :: 0 <= a < b < |order| ==> Precedes(entries, order[a], order[b])
  }

  function Inserted(order: seq<nat>, k: nat, i: nat): seq<nat>
    requires k <= |order|
  {
    order[..k] + [i] + order[k..]
  }

  lemma InsertedAt(order: seq<nat>, k: nat, i: nat)
    requires k <= |order|
    ensures |Inserted(order, k, i)| == |order| + 1
    ensures forall a :: 0 <= a <= |order| ==>
      Inserted(order, k, i)[a] == if a < k then order[a] else if a == k then i else order[a - 1]
  {
  }

  lemma InsertKeepsMembers(order: seq<nat>, k: nat, i: nat)
    requires k <= |order| && i !in order && NoDup(order)
    ensures NoDup(Inserted(order, k, i))
    ensures forall x :: x in Inserted(order, k, i) <==> x in order || x == i
  {
    var r := Inserted(order, k, i);
    InsertedAt(order, k, i);
    assert r[k] == i;
    forall x | x in order ensures x in r {
      var a :| 0 <= a < |order| && order[a] == x;
      assert r[if a < k then a else a + 1] == x;
    }
    forall a | 0 <= a < |r| ensures r[a] in order || r[a] == i {}
  }

  lemma InsertKeepsOrder(entries: seq<Entry>, order: seq<nat>, k: nat, i: nat)
    requires k <= |order| && NoDup(order) && Descending(entries, order)
    requires forall x :: x in order ==> x < i
    requires forall a :: k <= a < |order| ==> Imp(entries, order[a]) < Imp(entries, i)
    requires k > 0 ==> Imp(entries, order[k - 1]) >= Imp(entries, i)
    ensures Descending(entries, Inserted(order, k, i))
  {
    InsertedAt(order, k, i);
    forall a | 0 <= a < k ensures Precedes(entries, order[a], i) {
      assert order[a] in order;
      assert a < k - 1 ==> Precedes(entries, order[a], order[k - 1]);
    }
    forall a | k <= a < |order| ensures Precedes(entries, i, order[a]) {}
  }

  // The stable sort by descending importance.
  method SortByImportance(entries: seq<Entry>) returns (order: seq<nat>)
    ensures NoDup(order) && Descending(entries, order)
    ensures forall x: nat :: x in order <==> x < |entries|
  {
    order := [];
    for i := 0 to |entries|
      invariant NoDup(order) && Descending(entries, order)
      invariant forall x: nat :: x in order <==> x < i
    {
      var k := |order|;
      while k > 0 && Imp(entries, order[k - 1]) < Imp(entries, i)
        invariant 0 <= k <= |order|
        invariant forall a :: k <= a < |order| ==> Imp(entries, order[a]) < Imp(entries, i)
      {
        k := k - 1;
      }
      InsertKeepsOrder(entries, order, k, i);
      InsertKeepsMembers(order, k, i);
      order := Inserted(order, k, i);
    }
  }

  // A group: a seed and the entries taken into it, in their order, before groups that are too small are dropped.
  ghost predicate GroupOk(entries: seq<Entry>, g: seq<nat>, p: Params) {
    && g != [] && NoDup(g)
    && (forall i :: i in g ==> i < |entries| && VecOf(entries, i) != [])
    && (forall i :: i in g && i != g[0] ==> Close(entries, g[0], i, p) && Precedes(entries, g[0], i))
    && forall a, b :: 1 <= a < b < |g| ==> g[a] < g[b]
  }

  // No entry of the later group is in the earlier one, nor close enough to its seed to have joined it, and
  // none comes before that seed.
  ghost predicate Apart(entries: seq<Entry>, earlier: seq<nat>, later: seq<nat>, p: Params) {
    earlier != [] && forall i :: i in later ==>
      i !in earlier && !Close(entries, earlier[0], i, p) && Precedes(entries, earlier[0], i)
  }

  // An entry joins the first seed it is close enough to.
  ghost predicate GroupsOk(entries: seq<Entry>, groups: seq<seq<nat>>, p: Params) {
    && (forall a :: 0 <= a < |groups| ==> GroupOk(entries, groups[a], p))
    && (forall a, b :: 0 <= a < b < |groups| ==> Apart(entries, groups[a], groups[b], p))
  }

  ghost predicate Grouped(groups: seq<seq<nat>>, i: nat) {
    exists a :: 0 <= a < |groups| && i in groups[a]
  }

  // Every entry with a vector is in a group.
  ghost predicate Covering(entries: seq<Entry>, groups: seq<seq<nat>>) {
    forall i :: 0 <= i < |entries| && VecOf(entries, i) != [] ==> Grouped(groups, i)
  }

  lemma GroupedMore(groups: seq<seq<nat>>, g: seq<nat>, i: nat)
    ensures Grouped(groups + [g], i) <==> Grouped(groups, i) || i in g
  {
    var more := groups + [g];
    assert more[|groups|] == g;
    if Grouped(groups, i) {
      var a :| 0 <= a < |groups| && i in groups[a];
      assert i in more[a];
    }
  }

  function BigEnough(groups: seq<seq<nat>>, p: Params): seq<seq<nat>> {
    if groups == [] then []
    else
      var n := |groups| - 1;
      BigEnough(groups[..n], p) + (if |groups[n]| >= p.minClusterSize then [groups[n]] else [])
  }

  // The inner loop of buildClusters: everything unassigned and close enough joins the seed.
  method Gather(entries: seq<Entry>, seed: nat, taken: array<bool>, p: Params) returns (cluster: seq<nat>)
    requires seed < |entries| && taken.Length == |entries| && taken[seed] && VecOf(entries, seed) != []
    requires forall j :: 0 <= j < |entries| && !taken[j] ==> Precedes(entries, seed, j)
    modifies taken
    ensures GroupOk(entries, cluster, p) && cluster[0] == seed
    ensures forall j :: 0 <= j < |entries| ==> (taken[j] <==> old(taken[j]) || j in cluster)
    ensures forall j :: j in cluster && j != seed ==> !old(taken[j])
    ensures forall j :: 0 <= j < |entries| && !taken[j] && VecOf(entries, j) != [] ==> !Close(entries, seed, j, p)
  {
    cluster := [seed];
    for j := 0 to |entries|
      invariant GroupOk(entries, cluster, p) && cluster[0] == seed
      invariant forall i :: i in cluster ==> i == seed || i < j
      invariant forall a :: 1 <= a < |cluster| ==> cluster[a] < j
      invariant forall i :: 0 <= i < |entries| ==> (taken[i] <==> old(taken[i]) || i in cluster)
      invariant forall i :: i in cluster && i != seed ==> !old(taken[i])
      invariant forall i :: 0 <= i < j && !taken[i] && VecOf(entries, i) != [] ==> !Close(entries, seed, i, p)
    {
      if taken[j] { continue; }
      if entries[j].vector == [] { continue; }
      if Close(entries, seed, j, p) {
        cluster := cluster + [j];
        taken[j] := true;
      }
    }
  }

  // What the outer loop knows about the array: which entries are spoken for, and that the others are far
  // from every seed so far.
  ghost predicate TakenOk(entries: seq<Entry>, groups: seq<seq<nat>>, taken: seq<bool>, p: Params) {
    && |taken| == |entries|
    && (forall i: nat :: Grouped(groups, i) ==> i < |entries| && taken[i])
    && (forall i :: 0 <= i < |entries| && taken[i] && VecOf(entries, i) != [] ==> Grouped(groups, i))
    && (forall a, i :: 0 <= a < |groups| && 0 <= i < |entries| && !taken[i] && VecOf(entries, i) != [] ==>
          groups[a] != [] && !Close(entries, groups[a][0], i, p) && Precedes(entries, groups[a][0], i))
  }

  lemma AddGroup(entries: seq<Entry>, groups: seq<seq<nat>>, cluster: seq<nat>, before: seq<bool>, after: seq<bool>,
                 p: Params)
    requires GroupsOk(entries, groups, p) && TakenOk(entries, groups, before, p) && |after| == |entries|
    requires GroupOk(entries, cluster, p)
    requires forall j :: j in cluster ==> !before[j]
    requires forall j :: 0 <= j < |entries| ==> (after[j] <==> before[j] || j in cluster)
    requires forall j :: 0 <= j < |entries| && !after[j] && VecOf(entries, j) != [] ==>
      !Close(entries, cluster[0], j, p) && Precedes(entries, cluster[0], j)
    ensures GroupsOk(entries, groups + [cluster], p) && TakenOk(entries, groups + [cluster], after, p)
  {
    var more := groups + [cluster];
    forall i: nat ensures Grouped(more, i) <==> Grouped(groups, i) || i in cluster {
      GroupedMore(groups, cluster, i);
    }
    forall a | 0 <= a < |groups| ensures Apart(entries, groups[a], cluster, p) {
      forall i | i in cluster ensures i !in groups[a] {
        assert i in groups[a] ==> Grouped(groups, i);
      }
    }
  }

  lemma SkipSeed(entries: seq<Entry>, groups: seq<seq<nat>>, before: seq<bool>, after: seq<bool>, seed: nat, p: Params)
    requires TakenOk(entries, groups, before, p) && seed < |entries| && entries[seed].vector == []
    requires after == before[seed := true]
    ensures TakenOk(entries, groups, after, p)
  {
  }

  // A new cluster around an unassigned seed.
  method GrowCluster(entries: seq<Entry>, seed: nat, taken: array<bool>, ghost groups: seq<seq<nat>>, p: Params)
    returns (cluster: seq<nat>)
    requires seed < |entries| && taken.Length == |entries| && !taken[seed] && VecOf(entries, seed) != []
    requires forall j :: 0 <= j < |entries| && !taken[j] ==> j == seed || Precedes(entries, seed, j)
    requires GroupsOk(entries, groups, p) && TakenOk(entries, groups, taken[..], p)
    modifies taken
    ensures GroupsOk(entries, groups + [cluster], p) && TakenOk(entries, groups + [cluster], taken[..], p)
    ensures taken[seed] && forall j :: 0 <= j < |entries| && old(taken[j]) ==> taken[j]
  {
    ghost var before := taken[..];
    taken[seed] := true;
    cluster := Gather(entries, seed, taken, p);
    assert seed in cluster;
    AddGroup(entries, groups, cluster, before, taken[..], p);
  }

  ghost predicate Visited(order: seq<nat>, k: nat, taken: seq<bool>) {
    k <= |order| && forall b :: 0 <= b < k ==> order[b] < |taken| && taken[order[b]]
  }

  lemma BigEnoughMore(groups: seq<seq<nat>>, g: seq<nat>, p: Params)
    ensures BigEnough(groups + [g], p) == BigEnough(groups, p) + (if |g| >= p.minClusterSize then [g] else [])
  {
    assert (groups + [g])[..|groups|] == groups;
  }

  // Entries not yet taken come later in the order.
  lemma LaterIsSmaller(entries: seq<Entry>, order: seq<nat>, k: nat, taken: seq<bool>)
    requires k < |order| && Descending(entries, order) && |taken| == |entries|
    requires forall x: nat :: x in order <==> x < |entries|
    requires Visited(order, k, taken)
    ensures forall j :: 0 <= j < |entries| && !taken[j] ==> j == order[k] || Precedes(entries, order[k], j)
  {
    forall j | 0 <= j < |entries| && !taken[j] ensures j == order[k] || Precedes(entries, order[k], j) {
      assert j in order;
      var b :| 0 <= b < |order| && order[b] == j;
    }
  }

  lemma VisitedMore(order: seq<nat>, k: nat, before: seq<bool>, after: seq<bool>)
    requires Visited(order, k, before) && k < |order| && order[k] < |after| && after[order[k]]
    requires |after| == |before| && forall i :: 0 <= i < |before| && before[i] ==> after[i]
    ensures Visited(order, k + 1, after)
  {
  }

  lemma AllVisited(entries: seq<Entry>, order: seq<nat>, groups: seq<seq<nat>>, taken: seq<bool>, p: Params)
    requires forall x: nat :: x in order <==> x < |entries|
    requires Visited(order, |order|, taken) && TakenOk(entries, groups, taken, p)
    ensures Covering(entries, groups)
  {
    forall i | 0 <= i < |entries| && VecOf(entries, i) != [] ensures Grouped(groups, i) {
      assert i in order;
      var b :| 0 <= b < |order| && order[b] == i;
      assert taken[order[b]];
    }
  }

  // buildClusters (src/memory-compactor.ts:128-172), without the merged entries. groups also holds the
  // groups that stayed below the minimum size.
  method BuildClusters(entries: seq<Entry>, p: Params) returns (clusters: seq<seq<nat>>, ghost groups: seq<seq<nat>>)
    ensures GroupsOk(entries, groups, p) && clusters == BigEnough(groups, p)
    ensures |entries| >= p.minClusterSize ==> Covering(entries, groups)
    ensures |entries| < p.minClusterSize ==> clusters == []
  {
    clusters, groups := [], [];
    if |entries| < p.minClusterSize { return; }
    var order := SortByImportance(entries);
    var taken := new bool[|entries|](_ => false);
    for k := 0 to |order|
      invariant GroupsOk(entries, groups, p) && clusters == BigEnough(groups, p)
      invariant Visited(order, k, taken[..])
      invariant TakenOk(entries, groups, taken[..], p)
    {
      var seed := order[k];
      assert seed in order;
      ghost var before := taken[..];
      if taken[seed] {
        VisitedMore(order, k, before, before);
        continue;
      }
      if entries[seed].vector == [] {
        taken[seed] := true;
        SkipSeed(entries, groups, before, taken[..], seed, p);
        VisitedMore(order, k, before, taken[..]);
        continue;
      }
      LaterIsSmaller(entries, order, k, before);
      var cluster := GrowCluster(entries, seed, taken, groups, p);
      VisitedMore(order, k, before, taken[..]);
      BigEnoughMore(groups, cluster, p);
      groups := groups + [cluster];
      if |cluster| >= p.minClusterSize { clusters := clusters + [cluster]; }
    }
    AllVisited(entries, order, groups, taken[..], p);
  }

  // ---------------------------------------------------------------- only one grouping

  ghost predicate Ascending(s: seq<nat>) {
    forall a, b :: 0 <= a < b < |s| ==> s[a] < s[b]
  }

  lemma LastOfAscending(s: seq<nat>, x: nat)
    requires Ascending(s) && x in s
    ensures x <= s[|s| - 1]
  {
    var a :| 0 <= a < |s| && s[a] == x;
  }

  lemma SameLast(s: seq<nat>, m: nat, t: seq<nat>, n: nat)
    requires Ascending(s) && Ascending(t) && |s| == m + 1 && |t| == n + 1 && forall i: nat :: i in s <==> i in t
    ensures s[m] == t[n]
  {
    assert s[m] in s && t[n] in t;
    LastOfAscending(s, t[n]);
    LastOfAscending(t, s[m]);
  }

  lemma AscendingInit(s: seq<nat>, m: nat)
    requires Ascending(s) && |s| == m + 1
    ensures NoDup(s) && Ascending(s[..m]) && s == s[..m] + [s[m]]
  {
  }

  lemma {:induction false} AscendingAreEqual(s: seq<nat>, t: seq<nat>)
    requires Ascending(s) && Ascending(t) && forall i: nat :: i in s <==> i in t
    ensures s == t
  {
    assert (s != [] ==> s[0] in s) && (t != [] ==> t[0] in t);
    if s != [] {
      var m, n := |s| - 1, |t| - 1;
      SameLast(s, m, t, n);
      AscendingInit(s, m);
      AscendingInit(t, n);
      SameInit(s, m, t, n);
      AscendingAreEqual(s[..m], t[..n]);
    }
  }

  // The entries with a vector that the first groups leave.
  ghost predicate Left(entries: seq<Entry>, groups: seq<seq<nat>>, i: nat) {
    i < |entries| && VecOf(entries, i) != [] && !Grouped(groups, i)
  }

  // Of what the groups before it leave, a group takes the entry that comes first and all close to it.
  lemma GroupTakes(entries: seq<Entry>, groups: seq<seq<nat>>, k: nat, i: nat, p: Params)
    requires GroupsOk(entries, groups, p) && Covering(entries, groups) && k < |groups|
    ensures groups[k] != [] && Left(entries, groups[..k], groups[k][0])
    ensures Left(entries, groups[..k], i) ==> i == groups[k][0] || Precedes(entries, groups[k][0], i)
    ensures i in groups[k] <==>
      Left(entries, groups[..k], i) && (i == groups[k][0] || Close(entries, groups[k][0], i, p))
  {
    assert GroupOk(entries, groups[k], p) && groups[k][0] in groups[k];
    forall j: nat | j in groups[k] ensures Left(entries, groups[..k], j) {
      assert forall a :: 0 <= a < k ==> Apart(entries, groups[a], groups[k], p);
    }
    if Grouped(groups, i) {
      var a :| 0 <= a < |groups| && i in groups[a];
      if a < k {
        assert groups[..k][a] == groups[a];
        assert Grouped(groups[..k], i);
      } else if a > k {
        assert Apart(entries, groups[k], groups[a], p);
      }
    }
  }

  lemma TailOf(g: seq<nat>, i: nat)
    requires g != [] && NoDup(g)
    ensures i in g[1..] <==> i in g && i != g[0]
  {
    if i in g && i != g[0] {
      var a :| 0 <= a < |g| && g[a] == i;
      assert g[1..][a - 1] == i;
    }
  }

  lemma SameGroupNext(entries: seq<Entry>, some: seq<seq<nat>>, other: seq<seq<nat>>, k: nat, p: Params)
    requires GroupsOk(entries, some, p) && Covering(entries, some) && k < |some|
    requires GroupsOk(entries, other, p) && Covering(entries, other) && k < |other|
    requires some[..k] == other[..k]
    ensures some[k] == other[k]
  {
    var g, h := some[k], other[k];
    GroupTakes(entries, some, k, 0, p);
    GroupTakes(entries, other, k, 0, p);
    GroupTakes(entries, some, k, h[0], p);
    GroupTakes(entries, other, k, g[0], p);
    assert g[0] == h[0];
    forall i: nat ensures i in g <==> i in h {
      GroupTakes(entries, some, k, i, p);
      GroupTakes(entries, other, k, i, p);
    }
    forall i: nat ensures i in g[1..] <==> i in h[1..] {
      TailOf(g, i);
      TailOf(h, i);
    }
    AscendingAreEqual(g[1..], h[1..]);
    assert g == [g[0]] + g[1..] && h == [h[0]] + h[1..];
  }

  lemma NotExhausted(entries: seq<Entry>, some: seq<seq<nat>>, other: seq<seq<nat>>, k: nat, p: Params)
    requires GroupsOk(entries, some, p) && Covering(entries, some) && k < |some|
    requires Covering(entries, other) && k <= |other| && some[..k] == other[..k]
    ensures k < |other|
  {
    GroupTakes(entries, some, k, 0, p);
    assert Grouped(other, some[k][0]);
    assert other[..|other|] == other;
  }

  lemma {:induction false} SameGroupsUpTo(entries: seq<Entry>, some: seq<seq<nat>>, other: seq<seq<nat>>, k: nat,
                                          p: Params)
    requires GroupsOk(entries, some, p) && Covering(entries, some) && k <= |some|
    requires GroupsOk(entries, other, p) && Covering(entries, other)
    ensures k <= |other| && some[..k] == other[..k]
  {
    if k > 0 {
      SameGroupsUpTo(entries, some, other, k - 1, p);
      NotExhausted(entries, some, other, k - 1, p);
      SameGroupNext(entries, some, other, k - 1, p);
      assert some[..k] == some[..k - 1] + [some[k - 1]] && other[..k] == other[..k - 1] + [other[k - 1]];
    }
  }

  // The conditions on the groups leave no choice: there is only one grouping that meets them.
  lemma GroupingIsUnique(entries: seq<Entry>, some: seq<seq<nat>>, other: seq<seq<nat>>, p: Params)
    requires GroupsOk(entries, some, p) && Covering(entries, some)
    requires GroupsOk(entries, other, p) && Covering(entries, other)
    ensures some == other
  {
    SameGroupsUpTo(entries, some, other, |some|, p);
    SameGroupsUpTo(entries, other, some, |other|, p);
  }

  // ---------------------------------------------------------------- clusters and scopes

  function ScopeOf(entries: seq<Entry>, i: nat): string {
    if i < |entries| then entries[i].scope else ""
  }

  ghost predicate SingleScope(entries: seq<Entry>, cluster: seq<nat>) {
    forall i, j :: i in cluster && j in cluster ==> ScopeOf(entries, i) == ScopeOf(entries, j)
  }

  ghost predicate AllSingle(entries: seq<Entry>, clusters: seq<seq<nat>>) {
    forall c :: c in clusters ==> SingleScope(entries, c)
  }

  // The entries with a vector among the first n.
  function Bearing(entries: seq<Entry>, n: nat): seq<nat> {
    if n == 0 then []
    else if VecOf(entries, n - 1) == [] then Bearing(entries, n - 1)
    else Bearing(entries, n - 1) + [n - 1]
  }

  lemma AscendingMore(s: seq<nat>, x: nat)
    requires NoDup(s) && Ascending(s) && forall i :: i in s ==> i < x
    ensures NoDup(s + [x]) && Ascending(s + [x]) && forall i: nat :: i in s + [x] <==> i in s || i == x
  {
    assert forall a :: 0 <= a < |s| ==> s[a] in s;
  }

  lemma {:induction false} BearingIs(entries: seq<Entry>, n: nat)
    ensures NoDup(Bearing(entries, n)) && Ascending(Bearing(entries, n))
    ensures forall i: nat :: i in Bearing(entries, n) <==> i < n && VecOf(entries, i) != []
  {
    if n > 0 {
      BearingIs(entries, n - 1);
      var before := Bearing(entries, n - 1);
      assert forall i :: i in before ==> i < n - 1;
      if VecOf(entries, n - 1) != [] { AscendingMore(before, n - 1); }
    }
  }

  // The entry of these that comes before all others.
  lemma {:induction false} Foremost(entries: seq<Entry>, s: seq<nat>) returns (at: nat)
    requires s != []
    ensures at < |s| && forall i :: i in s && i != s[at] ==> Precedes(entries, s[at], i)
  {
    var n := |s| - 1;
    at := n;
    if n > 0 {
      var before := Foremost(entries, s[..n]);
      assert s == s[..n] + [s[n]];
      if Precedes(entries, s[before], s[n]) { at := before; }
    }
  }

  // All of them as one group.
  lemma AsGroup(entries: seq<Entry>, all: seq<nat>) returns (g: seq<nat>)
    requires all != [] && NoDup(all) && Ascending(all)
    ensures NoDup(g) && |g| == |all| && forall i: nat :: i in g <==> i in all
    ensures forall i :: i in g && i != g[0] ==> Precedes(entries, g[0], i)
    ensures forall a, b :: 1 <= a < b < |g| ==> g[a] < g[b]
  {
    var at := Foremost(entries, all);
    g := [all[at]] + all[..at] + all[at + 1..];
    assert g[0] == all[at] && forall a :: 1 <= a < |all| ==> g[a] == all[if a <= at then a - 1 else a];
    forall a | 1 <= a < |g| ensures g[a] != g[0] {}
    forall a, b | 1 <= a < b < |g| ensures g[a] < g[b] {}
    forall i: nat | i in all ensures i in g {
      var a :| 0 <= a < |all| && all[a] == i;
      assert g[if a == at then 0 else if a < at then a + 1 else a] == i;
    }
  }

  // No two entries with a vector differ in scope.
  ghost predicate OneScope(entries: seq<Entry>) {
    SingleScope(entries, Bearing(entries, |entries|))
  }

  lemma ClusterIsBearing(entries: seq<Entry>, g: seq<nat>, p: Params)
    requires GroupOk(entries, g, p)
    ensures forall i: nat :: i in g ==> i in Bearing(entries, |entries|)
    ensures |g| <= |Bearing(entries, |entries|)|
  {
    var all := Bearing(entries, |entries|);
    BearingIs(entries, |entries|);
    NoDupSize(g);
    NoDupSize(all);
    SubsetSize(Elems(g), Elems(all));
  }

  ghost predicate AllClose(p: Params) {
    forall a, b :: p.Sim(a, b) >= p.threshold
  }

  // When everything is close to everything, nothing comes after the first group.
  lemma AllCloseJoins(entries: seq<Entry>, first: seq<nat>, later: seq<nat>, p: Params)
    requires AllClose(p) && later != []
    ensures !Apart(entries, first, later, p)
  {
    if first != [] {
      assert p.Sim(VecOf(entries, first[0]), VecOf(entries, later[0])) >= p.threshold;
      assert later[0] in later && Close(entries, first[0], later[0], p);
    }
  }

  // A covering grouping then has all entries with a vector in one group.
  lemma AllCloseIsOneGroup(entries: seq<Entry>, groups: seq<seq<nat>>, p: Params)
    requires AllClose(p) && GroupsOk(entries, groups, p) && Covering(entries, groups)
    ensures |groups| <= 1 && forall i: nat :: i in Bearing(entries, |entries|) ==> groups != [] && i in groups[0]
  {
    if |groups| > 1 {
      assert GroupOk(entries, groups[1], p);
      AllCloseJoins(entries, groups[0], groups[1], p);
    }
    BearingIs(entries, |entries|);
    forall i: nat | i in Bearing(entries, |entries|) ensures groups != [] && i in groups[0] {
      assert Grouped(groups, i);
    }
  }

  lemma {:induction false} BigEnoughAreGroups(groups: seq<seq<nat>>, p: Params)
    ensures forall c :: c in BigEnough(groups, p) <==> c in groups && |c| >= p.minClusterSize
  {
    if groups != [] {
      var n := |groups| - 1;
      BigEnoughAreGroups(groups[..n], p);
      assert groups == groups[..n] + [groups[n]];
    }
  }

  // The code never compares scopes: clusters of entries in one scope are single-scope, and ...
  lemma OneScopeIsEnough(entries: seq<Entry>, groups: seq<seq<nat>>, p: Params)
    requires GroupsOk(entries, groups, p)
    requires OneScope(entries) || |Bearing(entries, |entries|)| < p.minClusterSize
    ensures AllSingle(entries, BigEnough(groups, p))
  {
    BigEnoughAreGroups(groups, p);
    forall c | c in BigEnough(groups, p) ensures SingleScope(entries, c) { ClusterIsBearing(entries, c, p); }
  }

  // ... when everything is close to everything, only those are.
  lemma OneScopeIsNeeded(entries: seq<Entry>, groups: seq<seq<nat>>, p: Params)
    requires AllClose(p) && GroupsOk(entries, groups, p) && Covering(entries, groups)
    requires AllSingle(entries, BigEnough(groups, p))
    ensures OneScope(entries) || |Bearing(entries, |entries|)| < p.minClusterSize
  {
    var all := Bearing(entries, |entries|);
    AllCloseIsOneGroup(entries, groups, p);
    if all != [] {
      assert all[0] in all;
      NoDupSize(groups[0]);
      BearingIs(entries, |entries|);
      NoDupSize(all);
      SubsetSize(Elems(all), Elems(groups[0]));
      assert [] + [groups[0]] == groups;
      BigEnoughMore([], groups[0], p);
      if |all| >= p.minClusterSize {
        assert groups[0] in BigEnough(groups, p);
      }
    }
  }

  lemma AllInOneGroup(entries: seq<Entry>, p: Params) returns (g: seq<nat>)
    requires AllClose(p) && Bearing(entries, |entries|) != []
    ensures GroupsOk(entries, [g], p) && Covering(entries, [g])
  {
    var all := Bearing(entries, |entries|);
    BearingIs(entries, |entries|);
    g := AsGroup(entries, all);
    var groups := [g];
    forall i: nat | i in g ensures Close(entries, g[0], i, p) {
      assert p.Sim(VecOf(entries, g[0]), VecOf(entries, i)) >= p.threshold;
    }
    forall i | 0 <= i < |entries| && VecOf(entries, i) != [] ensures Grouped(groups, i) { assert i in groups[0]; }
  }

  // For these entries and this minimum size every cluster is single-scope, whatever the similarity, exactly
  // when no two entries differ in scope or there are too few to cluster.
  lemma ClustersAreSingleScopeIff(entries: seq<Entry>, min: nat)
    ensures OneScope(entries) || |Bearing(entries, |entries|)| < min <==>
      forall p: Params, groups: seq<seq<nat>> ::
        p.minClusterSize == min && GroupsOk(entries, groups, p) && Covering(entries, groups) ==>
          AllSingle(entries, BigEnough(groups, p))
  {
    var all := Bearing(entries, |entries|);
    forall p: Params, groups: seq<seq<nat>> |
      p.minClusterSize == min && GroupsOk(entries, groups, p) && (OneScope(entries) || |all| < min)
      ensures AllSingle(entries, BigEnough(groups, p))
    {
      OneScopeIsEnough(entries, groups, p);
    }
    if !OneScope(entries) && |all| >= min {
      var p := Params((_, _) => 1.0, s => s, 0.0, min);
      var g := AllInOneGroup(entries, p);
      if AllSingle(entries, BigEnough([g], p)) {
        OneScopeIsNeeded(entries, [g], p);
      }
    }
  }

  // ---------------------------------------------------------------- the run

  // A call that throws may have taken effect all the same.
  datatype StoreAnswer = Stored | StoreThrows(took: bool)
  datatype DeleteAnswer = Deleted | NotFound | DeleteThrows(took: bool)

  // What the embedder and the store do at the given point in time.
  datatype Answer = Answer(embed: string -> Option<Vec>, store: StoreAnswer, delete: DeleteAnswer)

  // Some row holds the line; when scoped, a row of that scope.
  ghost predicate Holds(rows: map<nat, Entry>, scope: string, key: string, p: Params, scoped: bool) {
    exists id :: id in rows && (scoped ==> rows[id].scope == scope) && key in Keys(rows[id].text, p)
  }

  // Every nonblank line of from is, up to trim and case, still somewhere in to; when scoped, in its scope.
  ghost predicate Preserves(from: map<nat, Entry>, to: map<nat, Entry>, p: Params, scoped: bool) {
    forall scope, key :: Holds(from, scope, key, p, scoped) ==> Holds(to, scope, key, p, scoped)
  }

  class MemoryStore {
    var rows: map<nat, Entry>
    var nextId: nat
    var clock: nat
    const answers: nat -> Answer
    // Every table the store has gone through.
    ghost var trail: seq<map<nat, Entry>>
    // Rows stored less rows deleted by calls that threw.
    ghost var unreported: int

    ghost predicate Valid()
      reads this
    {
      forall id :: id in rows ==> id < nextId
    }

    constructor (rows: map<nat, Entry>, nextId: nat, answers: nat -> Answer)
      requires forall id :: id in rows ==> id < nextId
      ensures Valid() && this.rows == rows && trail == [] && unreported == 0
    {
      this.rows, this.nextId, this.answers, clock, trail, unreported := rows, nextId, answers, 0, [], 0;
    }

    method Embed(text: string) returns (vector: Option<Vec>)
      modifies this`clock
      ensures vector == answers(old(clock)).embed(text)
    {
      vector := answers(clock).embed(text);
      clock := clock + 1;
    }

    method Store(e: Entry) returns (id: Option<nat>)
      requires Valid()
      modifies this
      ensures Valid() && nextId >= old(nextId)
      ensures id == if answers(old(clock)).store.Stored? then Some(old(nextId)) else None
      ensures answers(old(clock)).store == StoreThrows(false) ==>
        rows == old(rows) && trail == old(trail) && unreported == old(unreported)
      ensures answers(old(clock)).store != StoreThrows(false) ==>
        && rows == old(rows)[old(nextId) := e] && trail == old(trail) + [rows]
        && unreported == old(unreported) + (if id.None? then 1 else 0)
    {
      var answer := answers(clock).store;
      clock := clock + 1;
      if answer == StoreThrows(false) { return None; }
      id := if answer.Stored? then Some(nextId) else None;
      rows := rows[nextId := e];
      nextId := nextId + 1;
      trail := trail + [rows];
      if id.None? { unreported := unreported + 1; }
    }

    method Delete(id: nat) returns (r: DeleteAnswer)
      requires Valid()
      modifies this`rows, this`clock, this`trail, this`unreported
      ensures Valid()
      ensures var gone := id in old(rows) && answers(old(clock)).delete in {Deleted, DeleteThrows(true)};
        && rows == (if gone then old(rows) - {id} else old(rows))
        && trail == old(trail) + (if gone then [rows] else [])
        && unreported == old(unreported) - (if gone && r.DeleteThrows? then 1 else 0)
        && (r.Deleted? <==> gone && !r.DeleteThrows?)
      ensures r.DeleteThrows? <==> answers(old(clock)).delete.DeleteThrows?
    {
      r := answers(clock).delete;
      clock := clock + 1;
      if id in rows && r in {Deleted, DeleteThrows(true)} {
        rows := rows - {id};
        trail := trail + [rows];
        if r.DeleteThrows? { unreported := unreported - 1; }
      } else if r.Deleted? {
        r := NotFound;
      }
    }
  }

  // first is the table the run started with: what is left of it is unchanged, and nothing is lost.
  ghost predicate Sound(first: map<nat, Entry>, rows: map<nat, Entry>, p: Params, scoped: bool) {
    && Preserves(first, rows, p, scoped)
    && forall id :: id in rows && id in first ==> rows[id] == first[id]
  }

  lemma StoringIsSound(first: map<nat, Entry>, rows: map<nat, Entry>, id: nat, e: Entry, p: Params, scoped: bool)
    requires Sound(first, rows, p, scoped) && id !in first && id !in rows
    ensures Sound(first, rows[id := e], p, scoped)
  {
    forall scope, key | Holds(first, scope, key, p, scoped) ensures Holds(rows[id := e], scope, key, p, scoped) {
      var x :| x in rows && (scoped ==> rows[x].scope == scope) && key in Keys(rows[x].text, p);
      assert rows[id := e][x] == rows[x];
    }
  }

  // Deleting a row whose lines another row holds loses nothing.
  lemma DeletingIsSound(first: map<nat, Entry>, rows: map<nat, Entry>, id: nat, merged: nat, p: Params, scoped: bool)
    requires Sound(first, rows, p, scoped) && id in rows && merged in rows && merged != id
    requires Keys(rows[id].text, p) <= Keys(rows[merged].text, p)
    requires scoped ==> rows[id].scope == rows[merged].scope
    ensures Sound(first, rows - {id}, p, scoped)
  {
    var less := rows - {id};
    assert less[merged] == rows[merged];
    forall scope, key | Holds(first, scope, key, p, scoped) ensures Holds(less, scope, key, p, scoped) {
      var x :| x in rows && (scoped ==> rows[x].scope == scope) && key in Keys(rows[x].text, p);
      if x == id {
        assert key in Keys(less[merged].text, p);
      } else {
        assert less[x] == rows[x];
      }
    }
  }

  // A line kept in its scope is kept.
  lemma ScopedIsSound(first: map<nat, Entry>, rows: map<nat, Entry>, p: Params)
    requires Sound(first, rows, p, true)
    ensures Sound(first, rows, p, false)
  {
    forall scope, key | Holds(first, scope, key, p, false) ensures Holds(rows, scope, key, p, false) {
      var x :| x in first && key in Keys(first[x].text, p);
      assert Holds(first, first[x].scope, key, p, true);
    }
  }

  lemma {:induction false} MembersAreMerged(members: seq<Entry>, key: string, p: Params)
    ensures key in MemberKeys(members, p) <==> exists m :: m in members && key in Keys(m.text, p)
  {
    if members != [] {
      var n := |members| - 1;
      assert members == members[..n] + [members[n]];
      MembersAreMerged(members[..n], key, p);
    }
  }

  ghost predicate TrailSound(first: map<nat, Entry>, trail: seq<map<nat, Entry>>, p: Params, scoped: bool) {
    forall t :: t in trail ==> Sound(first, t, p, scoped)
  }

  // Nothing ever fails.
  ghost predicate Faultless(answers: nat -> Answer) {
    && (forall time :: answers(time).store.Stored? && answers(time).delete.Deleted?)
    && forall time, text :: answers(time).embed(text).Some?
  }

  // The vector is what the embedder answered for the text.
  ghost predicate Embeds(answers: nat -> Answer, e: Entry) {
    exists time :: answers(time).embed(e.text) == Some(e.vector)
  }

  ghost predicate NewEmbedded(rows: map<nat, Entry>, first: map<nat, Entry>, answers: nat -> Answer) {
    forall id :: id in rows && id !in first ==> Embeds(answers, rows[id])
  }

  // A row made by the run that stands for the members.
  ghost predicate StandsFor(rows: map<nat, Entry>, first: map<nat, Entry>, id: nat, members: seq<Entry>, p: Params) {
    id in rows && id !in first && MergedOk(rows[id], members, p)
  }

  // The members have their stand-in.
  ghost predicate HaveOne(rows: map<nat, Entry>, first: map<nat, Entry>, members: seq<Entry>, p: Params) {
    exists id :: StandsFor(rows, first, id, members, p)
  }

  // Rows that are not listed stay as they are.
  ghost predicate Kept(from: map<nat, Entry>, to: map<nat, Entry>, ids: seq<nat>) {
    forall id :: id in from && id !in ids ==> id in to && to[id] == from[id]
  }

  // Rows that were not there before stand for the members.
  ghost predicate NewStand(first: map<nat, Entry>, from: map<nat, Entry>, to: map<nat, Entry>, members: seq<Entry>,
                           p: Params) {
    forall id :: id in to && id !in from ==> StandsFor(to, first, id, members, p)
  }

  ghost predicate Matches(rows: map<nat, Entry>, ids: seq<nat>, entries: seq<Entry>) {
    |ids| == |entries| && forall i :: 0 <= i < |ids| ==> ids[i] in rows && rows[ids[i]] == entries[i]
  }

  ghost predicate SameScope(members: seq<Entry>) {
    forall m :: m in members ==> m.scope == members[0].scope
  }

  ghost predicate GoneUpTo(rows: map<nat, Entry>, ids: seq<nat>, n: nat) {
    n <= |ids| && forall i :: 0 <= i < n ==> ids[i] !in rows
  }

  ghost predicate AllGone(rows: map<nat, Entry>, ids: seq<nat>) {
    forall id :: id in ids ==> id !in rows
  }

  // Between the store and the end of the deletes; was is the table right after the store.
  ghost predicate Midway(first: map<nat, Entry>, was: map<nat, Entry>, rows: map<nat, Entry>, ids: seq<nat>,
                         id: nat, members: seq<Entry>, p: Params, scoped: bool) {
    && Sound(first, rows, p, scoped) && StandsFor(rows, first, id, members, p)
    && Kept(was, rows, ids) && rows.Keys <= was.Keys
  }

  lemma DeleteStep(first: map<nat, Entry>, was: map<nat, Entry>, rows: map<nat, Entry>, ids: seq<nat>,
                   id: nat, members: seq<Entry>, p: Params, scoped: bool, i: nat)
    requires Matches(first, ids, members) && i < |ids| && ids[i] in rows
    requires Midway(first, was, rows, ids, id, members, p, scoped) && (scoped ==> SameScope(members))
    ensures Midway(first, was, rows - {ids[i]}, ids, id, members, p, scoped) && |rows - {ids[i]}| == |rows| - 1
  {
    var less := rows - {ids[i]};
    assert members[i] in members;
    forall key | key in Keys(members[i].text, p) ensures key in MemberKeys(members, p) {
      MembersAreMerged(members, key, p);
    }
    DeletingIsSound(first, rows, ids[i], id, p, scoped);
    assert less.Keys == rows.Keys - {ids[i]};
    assert |less.Keys| == |rows.Keys| - 1;
    assert less[id] == rows[id];
  }

  method DeleteOne(s: MemoryStore, ids: seq<nat>, members: seq<Entry>, id: nat, p: Params,
                   ghost first: map<nat, Entry>, ghost was: map<nat, Entry>, ghost scoped: bool, i: nat)
    returns (r: DeleteAnswer)
    requires s.Valid() && Matches(first, ids, members) && i < |ids| && (scoped ==> SameScope(members))
    requires Midway(first, was, s.rows, ids, id, members, p, scoped) && TrailSound(first, s.trail, p, scoped)
    requires Faultless(s.answers) ==> GoneUpTo(s.rows, ids, i)
    modifies s`rows, s`clock, s`trail, s`unreported
    ensures s.Valid()
    ensures Midway(first, was, s.rows, ids, id, members, p, scoped) && TrailSound(first, s.trail, p, scoped)
    ensures |s.rows| - s.unreported == |old(s.rows)| - old(s.unreported) - (if r.Deleted? then 1 else 0)
    ensures Faultless(s.answers) ==>
      GoneUpTo(s.rows, ids, i + 1) && !r.DeleteThrows? && s.unreported == old(s.unreported)
  {
    if ids[i] in s.rows { DeleteStep(first, was, s.rows, ids, id, members, p, scoped, i); }
    ghost var answer := s.answers(s.clock);
    r := s.Delete(ids[i]);
    assert Faultless(s.answers) ==> answer.delete.Deleted?;
  }

  // The delete loop of a plan, once the merged row is stored.
  method DeleteSources(s: MemoryStore, ids: seq<nat>, members: seq<Entry>, id: nat, p: Params,
                       ghost first: map<nat, Entry>, ghost scoped: bool)
    returns (deleted: nat)
    requires s.Valid() && Matches(first, ids, members) && StandsFor(s.rows, first, id, members, p)
    requires Sound(first, s.rows, p, scoped) && TrailSound(first, s.trail, p, scoped) && (scoped ==> SameScope(members))
    modifies s`rows, s`clock, s`trail, s`unreported
    ensures s.Valid()
    ensures Midway(first, old(s.rows), s.rows, ids, id, members, p, scoped) && TrailSound(first, s.trail, p, scoped)
    ensures |s.rows| - s.unreported == |old(s.rows)| - old(s.unreported) - deleted
    ensures Faultless(s.answers) ==> AllGone(s.rows, ids) && s.unreported == old(s.unreported)
  {
    deleted := 0;
    ghost var was := s.rows;
    for i := 0 to |ids|
      invariant s.Valid()
      invariant Midway(first, was, s.rows, ids, id, members, p, scoped) && TrailSound(first, s.trail, p, scoped)
      invariant |s.rows| - s.unreported == |was| - old(s.unreported) - deleted
      invariant Faultless(s.answers) ==> GoneUpTo(s.rows, ids, i) && s.unreported == old(s.unreported)
    {
      var r := DeleteOne(s, ids, members, id, p, first, was, scoped, i);
      match r {
        case DeleteThrows(_) => return;
        case NotFound =>
        case Deleted => deleted := deleted + 1;
      }
    }
  }

  lemma MergedStands(first: map<nat, Entry>, rows: map<nat, Entry>, id: nat, e: Entry, members: seq<Entry>,
                     p: Params, scoped: bool)
    requires Sound(first, rows, p, scoped) && id !in first && id !in rows && MergedOk(e, members, p)
    ensures Sound(first, rows[id := e], p, scoped) && StandsFor(rows[id := e], first, id, members, p)
    ensures Kept(rows, rows[id := e], []) && NewStand(first, rows, rows[id := e], members, p)
  {
    StoringIsSound(first, rows, id, e, p, scoped);
  }

  lemma KeptOnwards(first: map<nat, Entry>, before: map<nat, Entry>, was: map<nat, Entry>, rows: map<nat, Entry>,
                    ids: seq<nat>, id: nat, members: seq<Entry>, p: Params, scoped: bool)
    requires Kept(before, was, []) && NewStand(first, before, was, members, p)
    requires Midway(first, was, rows, ids, id, members, p, scoped) && forall x :: x in ids ==> x in first
    ensures Kept(before, rows, ids) && NewStand(first, before, rows, members, p)
    ensures forall x :: x in rows && x !in first ==> x in was && rows[x] == was[x]
  {
    forall x | x in rows && x !in before ensures StandsFor(rows, first, x, members, p) {
      assert StandsFor(was, first, x, members, p);
      assert rows[x] == was[x];
    }
  }

  // The merged entry is embedded and stored; id is none if either call throws.
  method StoreMerged(s: MemoryStore, members: seq<Entry>, p: Params, ghost first: map<nat, Entry>, ghost scoped: bool)
    returns (id: Option<nat>)
    requires s.Valid() && members != [] && forall id :: id in first ==> id < s.nextId
    requires Sound(first, s.rows, p, scoped) && TrailSound(first, s.trail, p, scoped)
    requires NewEmbedded(s.rows, first, s.answers)
    modifies s
    ensures s.Valid() && s.nextId >= old(s.nextId) && NewEmbedded(s.rows, first, s.answers)
    ensures Sound(first, s.rows, p, scoped) && TrailSound(first, s.trail, p, scoped)
    ensures Kept(old(s.rows), s.rows, []) && NewStand(first, old(s.rows), s.rows, members, p)
    ensures |s.rows| - s.unreported == |old(s.rows)| - old(s.unreported) + (if id.Some? then 1 else 0)
    ensures id.Some? ==> StandsFor(s.rows, first, id.value, members, p)
    ensures Faultless(s.answers) ==> id.Some? && s.unreported == old(s.unreported)
  {
    var merged := BuildMergedEntry(members, p);
    ghost var time := s.clock;
    var embedded := s.Embed(merged.text);
    if embedded.None? { return None; }
    merged := merged.(vector := embedded.value);
    assert s.answers(time).embed(merged.text) == Some(merged.vector);
    MergedStands(first, s.rows, s.nextId, merged, members, p, scoped);
    id := s.Store(merged);
  }

  // The body of the plan loop: embed, store the merged entry, then delete its sources until one throws.
  method ReplaceCluster(s: MemoryStore, ids: seq<nat>, members: seq<Entry>, p: Params,
                        ghost first: map<nat, Entry>, ghost scoped: bool)
    returns (created: nat, deleted: nat)
    requires s.Valid() && members != [] && Matches(first, ids, members) && (scoped ==> SameScope(members))
    requires forall id :: id in first ==> id < s.nextId
    requires Sound(first, s.rows, p, scoped) && TrailSound(first, s.trail, p, scoped)
    requires NewEmbedded(s.rows, first, s.answers)
    modifies s
    ensures s.Valid() && s.nextId >= old(s.nextId) && NewEmbedded(s.rows, first, s.answers)
    ensures Sound(first, s.rows, p, scoped) && TrailSound(first, s.trail, p, scoped)
    ensures |s.rows| - s.unreported == |old(s.rows)| - old(s.unreported) + created - deleted
    ensures created == 0 ==> deleted == 0 && Kept(old(s.rows), s.rows, [])
    ensures created <= 1
    ensures Kept(old(s.rows), s.rows, ids) && NewStand(first, old(s.rows), s.rows, members, p)
    ensures created == 1 ==> HaveOne(s.rows, first, members, p)
    ensures Faultless(s.answers) ==> created == 1 && AllGone(s.rows, ids) && s.unreported == old(s.unreported)
  {
    created, deleted := 0, 0;
    var id := StoreMerged(s, members, p, first, scoped);
    if id.None? { return; }
    created := 1;
    ghost var was := s.rows;
    deleted := DeleteSources(s, ids, members, id.value, p, first, scoped);
    KeptOnwards(first, old(s.rows), was, s.rows, ids, id.value, members, p, scoped);
  }

  datatype Result = Result(scanned: nat, clustersFound: nat, deleted: nat, created: nat)

  // Only entries with a vector that may leave the machine take part.
  ghost predicate TakesPart(rows: map<nat, Entry>, safe: Entry -> bool, id: nat) {
    id in rows && rows[id].vector != [] && safe(rows[id])
  }

  method ValidEntries(s: MemoryStore, listing: seq<nat>, safe: Entry -> bool) returns (ids: seq<nat>,
                      entries: seq<Entry>)
    requires forall id :: id in listing ==> id in s.rows
    ensures Matches(s.rows, ids, entries)
    ensures forall id :: id in ids <==> id in listing && TakesPart(s.rows, safe, id)
    ensures |ids| <= |listing|
  {
    ids, entries := [], [];
    for i := 0 to |listing|
      invariant Matches(s.rows, ids, entries) && |ids| <= i
      invariant forall id :: id in ids <==> id in listing[..i] && TakesPart(s.rows, safe, id)
    {
      assert listing[..i + 1] == listing[..i] + [listing[i]];
      assert listing[i] in listing;
      var e := s.rows[listing[i]];
      if e.vector != [] && safe(e) {
        ids := ids + [listing[i]];
        entries := entries + [e];
      }
    }
    assert listing[..|listing|] == listing;
  }

  ghost predicate Picked<T>(all: seq<T>, cluster: seq<nat>, picked: seq<T>) {
    |picked| == |cluster| && forall j :: 0 <= j < |cluster| ==> cluster[j] < |all| && picked[j] == all[cluster[j]]
  }

  method Members(ids: seq<nat>, entries: seq<Entry>, cluster: seq<nat>, ghost rows: map<nat, Entry>)
    returns (memberIds: seq<nat>, members: seq<Entry>)
    requires Matches(rows, ids, entries) && forall i :: i in cluster ==> i < |entries|
    ensures Matches(rows, memberIds, members)
    ensures Picked(ids, cluster, memberIds) && Picked(entries, cluster, members)
  {
    memberIds, members := [], [];
    for k := 0 to |cluster|
      invariant Matches(rows, memberIds, members)
      invariant Picked(ids, cluster[..k], memberIds) && Picked(entries, cluster[..k], members)
    {
      assert cluster[k] in cluster;
      memberIds := memberIds + [ids[cluster[k]]];
      members := members + [entries[cluster[k]]];
    }
    assert cluster[..|cluster|] == cluster;
  }

  lemma PickedShareScope(entries: seq<Entry>, cluster: seq<nat>, members: seq<Entry>)
    requires Picked(entries, cluster, members) && cluster != [] && SingleScope(entries, cluster)
    ensures SameScope(members)
  {
    forall m | m in members ensures m.scope == members[0].scope {
      var j :| 0 <= j < |members| && members[j] == m;
      assert cluster[j] in cluster && cluster[0] in cluster;
      assert ScopeOf(entries, cluster[j]) == ScopeOf(entries, cluster[0]);
    }
  }

  lemma SoundFromTheStart(first: map<nat, Entry>, p: Params, scoped: bool)
    ensures Sound(first, first, p, scoped)
  {
  }

  // The row belongs to one of the clusters.
  ghost predicate Clustered(ids: seq<nat>, clusters: seq<seq<nat>>, id: nat) {
    exists c, j :: c in clusters && 0 <= j < |c| && c[j] < |ids| && ids[c[j]] == id
  }

  // The row is new and stands for the cluster.
  ghost predicate Replaces(rows: map<nat, Entry>, first: map<nat, Entry>, entries: seq<Entry>, id: nat,
                           cluster: seq<nat>, p: Params) {
    exists members :: Picked(entries, cluster, members) && StandsFor(rows, first, id, members, p)
  }

  ghost predicate Replaced(rows: map<nat, Entry>, first: map<nat, Entry>, entries: seq<Entry>, cluster: seq<nat>,
                           p: Params) {
    exists id :: Replaces(rows, first, entries, id, cluster, p)
  }

  // What the clusters done so far leave alone, and where new rows come from.
  ghost predicate OnlyClustered(rows: map<nat, Entry>, first: map<nat, Entry>, ids: seq<nat>, clusters: seq<seq<nat>>) {
    forall id :: id in first && !Clustered(ids, clusters, id) ==> id in rows && rows[id] == first[id]
  }

  // The row stands for one of the clusters.
  ghost predicate ReplacesOne(rows: map<nat, Entry>, first: map<nat, Entry>, entries: seq<Entry>, id: nat,
                              clusters: seq<seq<nat>>, p: Params) {
    exists c :: c in clusters && Replaces(rows, first, entries, id, c, p)
  }

  ghost predicate NewReplace(rows: map<nat, Entry>, first: map<nat, Entry>, entries: seq<Entry>,
                             clusters: seq<seq<nat>>, p: Params) {
    forall id :: id in rows && id !in first ==> ReplacesOne(rows, first, entries, id, clusters, p)
  }

  ghost predicate EachReplaced(rows: map<nat, Entry>, first: map<nat, Entry>, entries: seq<Entry>,
                               clusters: seq<seq<nat>>, p: Params) {
    forall c :: c in clusters ==> Replaced(rows, first, entries, c, p)
  }

  ghost predicate NoSources(rows: map<nat, Entry>, ids: seq<nat>, clusters: seq<seq<nat>>) {
    forall id :: Clustered(ids, clusters, id) ==> id !in rows
  }

  ghost predicate AllReplaced(rows: map<nat, Entry>, first: map<nat, Entry>, ids: seq<nat>, entries: seq<Entry>,
                              clusters: seq<seq<nat>>, p: Params) {
    EachReplaced(rows, first, entries, clusters, p) && NoSources(rows, ids, clusters)
  }

  lemma ClusteredMore(ids: seq<nat>, clusters: seq<seq<nat>>, k: nat, memberIds: seq<nat>, id: nat)
    requires k < |clusters| && Picked(ids, clusters[k], memberIds)
    ensures Clustered(ids, clusters[..k + 1], id) <==> Clustered(ids, clusters[..k], id) || id in memberIds
  {
    assert clusters[..k + 1] == clusters[..k] + [clusters[k]];
    if id in memberIds {
      var j :| 0 <= j < |memberIds| && memberIds[j] == id;
      assert clusters[k] in clusters[..k + 1] && ids[clusters[k][j]] == id;
    }
    if Clustered(ids, clusters[..k + 1], id) && !Clustered(ids, clusters[..k], id) {
      var c, j :| c in clusters[..k + 1] && 0 <= j < |c| && c[j] < |ids| && ids[c[j]] == id;
      assert c == clusters[k] && memberIds[j] == id;
    }
  }

  // New rows stay what they are while rows of the first table are deleted.
  lemma StillReplaces(first: map<nat, Entry>, from: map<nat, Entry>, to: map<nat, Entry>, memberIds: seq<nat>,
                      entries: seq<Entry>, id: nat, c: seq<nat>, p: Params)
    requires Kept(from, to, memberIds) && (forall x :: x in memberIds ==> x in first)
    requires Replaces(from, first, entries, id, c, p)
    ensures Replaces(to, first, entries, id, c, p)
  {
    var members :| Picked(entries, c, members) && StandsFor(from, first, id, members, p);
    assert id !in memberIds && to[id] == from[id];
    assert StandsFor(to, first, id, members, p);
  }

  lemma StillReplacesOne(first: map<nat, Entry>, from: map<nat, Entry>, to: map<nat, Entry>, memberIds: seq<nat>,
                         entries: seq<Entry>, id: nat, clusters: seq<seq<nat>>, c: seq<nat>, p: Params)
    requires Kept(from, to, memberIds) && (forall x :: x in memberIds ==> x in first)
    requires ReplacesOne(from, first, entries, id, clusters, p)
    ensures ReplacesOne(to, first, entries, id, clusters + [c], p)
  {
    var d :| d in clusters && Replaces(from, first, entries, id, d, p);
    StillReplaces(first, from, to, memberIds, entries, id, d, p);
    assert d in clusters + [c];
  }

  lemma NewReplacesOne(first: map<nat, Entry>, rows: map<nat, Entry>, entries: seq<Entry>, id: nat,
                       clusters: seq<seq<nat>>, c: seq<nat>, members: seq<Entry>, p: Params)
    requires Picked(entries, c, members) && StandsFor(rows, first, id, members, p)
    ensures ReplacesOne(rows, first, entries, id, clusters + [c], p)
  {
    assert Replaces(rows, first, entries, id, c, p) && c in clusters + [c];
  }

  // One more cluster: every new row replaces one, and ...
  lemma NewAreReplacing(first: map<nat, Entry>, from: map<nat, Entry>, to: map<nat, Entry>, entries: seq<Entry>,
                        clusters: seq<seq<nat>>, c: seq<nat>, memberIds: seq<nat>, members: seq<Entry>, p: Params)
    requires Picked(entries, c, members) && Kept(from, to, memberIds) && NewStand(first, from, to, members, p)
    requires (forall x :: x in memberIds ==> x in first) && NewReplace(from, first, entries, clusters, p)
    ensures NewReplace(to, first, entries, clusters + [c], p)
  {
    forall id | id in to && id !in first ensures ReplacesOne(to, first, entries, id, clusters + [c], p) {
      if id in from {
        StillReplacesOne(first, from, to, memberIds, entries, id, clusters, c, p);
      } else {
        NewReplacesOne(first, to, entries, id, clusters, c, members, p);
      }
    }
  }

  // ... rows outside the clusters are left alone.
  lemma OthersAreKept(first: map<nat, Entry>, from: map<nat, Entry>, to: map<nat, Entry>, ids: seq<nat>,
                      clusters: seq<seq<nat>>, k: nat, memberIds: seq<nat>)
    requires k < |clusters| && Picked(ids, clusters[k], memberIds) && Kept(from, to, memberIds)
    requires OnlyClustered(from, first, ids, clusters[..k])
    ensures OnlyClustered(to, first, ids, clusters[..k + 1])
  {
    forall id | id in first && !Clustered(ids, clusters[..k + 1], id) ensures id in to && to[id] == first[id] {
      ClusteredMore(ids, clusters, k, memberIds, id);
    }
  }

  lemma StillReplaced(first: map<nat, Entry>, from: map<nat, Entry>, to: map<nat, Entry>, memberIds: seq<nat>,
                      entries: seq<Entry>, c: seq<nat>, p: Params)
    requires Kept(from, to, memberIds) && (forall x :: x in memberIds ==> x in first)
    requires Replaced(from, first, entries, c, p)
    ensures Replaced(to, first, entries, c, p)
  {
    var id :| Replaces(from, first, entries, id, c, p);
    StillReplaces(first, from, to, memberIds, entries, id, c, p);
  }

  lemma NowReplaced(first: map<nat, Entry>, rows: map<nat, Entry>, entries: seq<Entry>, c: seq<nat>,
                    members: seq<Entry>, p: Params)
    requires Picked(entries, c, members) && HaveOne(rows, first, members, p)
    ensures Replaced(rows, first, entries, c, p)
  {
    var id :| StandsFor(rows, first, id, members, p);
    assert Replaces(rows, first, entries, id, c, p);
  }

  // No row of the first table comes back.
  ghost predicate NoneReturns(first: map<nat, Entry>, from: map<nat, Entry>, to: map<nat, Entry>) {
    forall id :: id in to && id in first ==> id in from
  }

  lemma NewAreNew(first: map<nat, Entry>, from: map<nat, Entry>, to: map<nat, Entry>, members: seq<Entry>, p: Params)
    requires NewStand(first, from, to, members, p)
    ensures NoneReturns(first, from, to)
  {
  }

  lemma OneMoreReplaced(first: map<nat, Entry>, from: map<nat, Entry>, to: map<nat, Entry>, memberIds: seq<nat>,
                        entries: seq<Entry>, clusters: seq<seq<nat>>, c: seq<nat>, members: seq<Entry>, p: Params)
    requires Kept(from, to, memberIds) && forall x :: x in memberIds ==> x in first
    requires EachReplaced(from, first, entries, clusters, p)
    requires Picked(entries, c, members) && HaveOne(to, first, members, p)
    ensures EachReplaced(to, first, entries, clusters + [c], p)
  {
    forall d | d in clusters + [c] ensures Replaced(to, first, entries, d, p) {
      if d in clusters {
        StillReplaced(first, from, to, memberIds, entries, d, p);
      } else {
        NowReplaced(first, to, entries, d, members, p);
      }
    }
  }

  lemma SourcesAreGone(first: map<nat, Entry>, from: map<nat, Entry>, to: map<nat, Entry>, ids: seq<nat>,
                       clusters: seq<seq<nat>>, k: nat, memberIds: seq<nat>)
    requires k < |clusters| && Picked(ids, clusters[k], memberIds) && NoneReturns(first, from, to)
    requires (forall x :: x in ids ==> x in first) && NoSources(from, ids, clusters[..k]) && AllGone(to, memberIds)
    ensures NoSources(to, ids, clusters[..k + 1])
  {
    forall id | Clustered(ids, clusters[..k + 1], id) ensures id !in to {
      ClusteredMore(ids, clusters, k, memberIds, id);
      if id !in memberIds { assert id in ids; }
    }
  }

  // Where the table stands once these clusters are done.
  ghost predicate Done(rows: map<nat, Entry>, first: map<nat, Entry>, ids: seq<nat>, entries: seq<Entry>,
                       clusters: seq<seq<nat>>, p: Params, faultless: bool) {
    && OnlyClustered(rows, first, ids, clusters) && NewReplace(rows, first, entries, clusters, p)
    && (faultless ==> AllReplaced(rows, first, ids, entries, clusters, p))
  }

  // One more cluster.
  lemma ClusterDone(first: map<nat, Entry>, from: map<nat, Entry>, to: map<nat, Entry>, ids: seq<nat>,
                    entries: seq<Entry>, clusters: seq<seq<nat>>, k: nat, memberIds: seq<nat>,
                    members: seq<Entry>, p: Params, faultless: bool)
    requires k < |clusters| && Picked(ids, clusters[k], memberIds) && Picked(entries, clusters[k], members)
    requires Matches(first, ids, entries) && Matches(first, memberIds, members)
    requires Kept(from, to, memberIds) && NewStand(first, from, to, members, p)
    requires Done(from, first, ids, entries, clusters[..k], p, faultless)
    requires faultless ==> AllGone(to, memberIds) && HaveOne(to, first, members, p)
    ensures Done(to, first, ids, entries, clusters[..k + 1], p, faultless)
  {
    assert clusters[..k + 1] == clusters[..k] + [clusters[k]];
    forall x | x in memberIds ensures x in ids && x in first {
      var j :| 0 <= j < |memberIds| && memberIds[j] == x;
      assert memberIds[j] == ids[clusters[k][j]];
    }
    NewAreReplacing(first, from, to, entries, clusters[..k], clusters[k], memberIds, members, p);
    OthersAreKept(first, from, to, ids, clusters, k, memberIds);
    NewAreNew(first, from, to, members, p);
    if faultless {
      SourcesAreGone(first, from, to, ids, clusters, k, memberIds);
      OneMoreReplaced(first, from, to, memberIds, entries, clusters[..k], clusters[k], members, p);
    }
  }

  // One pass of the plan loop.
  method ApplyPlan(s: MemoryStore, ids: seq<nat>, entries: seq<Entry>, clusters: seq<seq<nat>>, k: nat, p: Params,
                   ghost first: map<nat, Entry>, ghost scoped: bool)
    returns (created: nat, deleted: nat)
    requires s.Valid() && Matches(first, ids, entries) && k < |clusters| && GroupOk(entries, clusters[k], p)
    requires (forall id :: id in first ==> id < s.nextId) && (scoped ==> SingleScope(entries, clusters[k]))
    requires Sound(first, s.rows, p, scoped) && TrailSound(first, s.trail, p, scoped)
    requires Done(s.rows, first, ids, entries, clusters[..k], p, Faultless(s.answers))
    requires NewEmbedded(s.rows, first, s.answers)
    modifies s
    ensures s.Valid() && s.nextId >= old(s.nextId) && NewEmbedded(s.rows, first, s.answers)
    ensures Sound(first, s.rows, p, scoped) && TrailSound(first, s.trail, p, scoped)
    ensures Done(s.rows, first, ids, entries, clusters[..k + 1], p, Faultless(s.answers))
    ensures |s.rows| - s.unreported == |old(s.rows)| - old(s.unreported) + created - deleted
    ensures created <= 1
    ensures Faultless(s.answers) ==> created == 1 && s.unreported == old(s.unreported)
  {
    ghost var before := s.rows;
    var memberIds, members := Members(ids, entries, clusters[k], first);
    if scoped { PickedShareScope(entries, clusters[k], members); }
    created, deleted := ReplaceCluster(s, memberIds, members, p, first, scoped);
    ClusterDone(first, before, s.rows, ids, entries, clusters, k, memberIds, members, p, Faultless(s.answers));
  }

  lemma Conclude(first: map<nat, Entry>, rows: map<nat, Entry>, trail: seq<map<nat, Entry>>, p: Params, scoped: bool)
    requires Sound(first, rows, p, scoped) && TrailSound(first, trail, p, scoped)
    ensures Sound(first, rows, p, false) && TrailSound(first, trail, p, false)
  {
    if scoped {
      ScopedIsSound(first, rows, p);
      forall t | t in trail ensures Sound(first, t, p, false) { ScopedIsSound(first, t, p); }
    }
  }

  lemma WholeSeq<T>(s: seq<T>)
    ensures s[..|s|] == s
  {
  }

  // The plan loop.
  method ApplyPlans(s: MemoryStore, ids: seq<nat>, entries: seq<Entry>, clusters: seq<seq<nat>>, p: Params,
                    ghost first: map<nat, Entry>, ghost scoped: bool)
    returns (created: nat, deleted: nat)
    requires s.Valid() && s.rows == first && s.trail == [] && Matches(first, ids, entries)
    requires forall c :: c in clusters ==> GroupOk(entries, c, p)
    requires scoped ==> AllSingle(entries, clusters)
    modifies s
    ensures s.Valid()
    ensures Sound(first, s.rows, p, scoped) && TrailSound(first, s.trail, p, scoped)
    ensures Done(s.rows, first, ids, entries, clusters, p, Faultless(s.answers))
    ensures NewEmbedded(s.rows, first, s.answers)
    ensures |s.rows| - s.unreported == |first| - old(s.unreported) + created - deleted
    ensures created <= |clusters|
    ensures Faultless(s.answers) ==> created == |clusters| && s.unreported == old(s.unreported)
  {
    created, deleted := 0, 0;
    for k := 0 to |clusters|
      invariant s.Valid() && NewEmbedded(s.rows, first, s.answers)
      invariant forall id :: id in first ==> id < s.nextId
      invariant Sound(first, s.rows, p, scoped) && TrailSound(first, s.trail, p, scoped)
      invariant Done(s.rows, first, ids, entries, clusters[..k], p, Faultless(s.answers))
      invariant |s.rows| - s.unreported == |first| - old(s.unreported) + created - deleted && created <= k
      invariant Faultless(s.answers) ==> created == k && s.unreported == old(s.unreported)
    {
      assert clusters[k] in clusters;
      var c, d := ApplyPlan(s, ids, entries, clusters, k, p, first, scoped);
      created, deleted := created + c, deleted + d;
    }
    WholeSeq(clusters);
  }

  // runCompaction (src/memory-compactor.ts:281-375), on the rows fetchForCompaction listed. ids and entries
  // are the rows taking part, groups what they fall into.
  method RunCompaction(s: MemoryStore, listing: seq<nat>, p: Params, dryRun: bool, safe: Entry -> bool)
    returns (r: Result, ghost ids: seq<nat>, ghost entries: seq<Entry>, ghost groups: seq<seq<nat>>)
    requires s.Valid() && s.trail == []
    requires forall id :: id in listing ==> id in s.rows
    modifies s
    ensures s.Valid()
    ensures Matches(old(s.rows), ids, entries)
    ensures forall id :: id in ids <==> id in listing && TakesPart(old(s.rows), safe, id)
    ensures GroupsOk(entries, groups, p) && r.scanned == |ids| && r.clustersFound == |BigEnough(groups, p)|
    ensures |entries| >= p.minClusterSize ==> Covering(entries, groups)
    ensures Sound(old(s.rows), s.rows, p, false) && TrailSound(old(s.rows), s.trail, p, false)
    ensures AllSingle(entries, BigEnough(groups, p)) ==>
      Sound(old(s.rows), s.rows, p, true) && TrailSound(old(s.rows), s.trail, p, true)
    ensures Done(s.rows, old(s.rows), ids, entries, BigEnough(groups, p), p, !dryRun && Faultless(s.answers))
    ensures NewEmbedded(s.rows, old(s.rows), s.answers)
    ensures |s.rows| - s.unreported == |old(s.rows)| - old(s.unreported) + r.created - r.deleted
    ensures r.created <= r.clustersFound
    ensures dryRun ==> s.rows == old(s.rows) && s.trail == [] && r.created == 0 && r.deleted == 0
    ensures !dryRun && Faultless(s.answers) ==> r.created == r.clustersFound && s.unreported == old(s.unreported)
  {
    ghost var first := s.rows;
    var rowIds, valid := ValidEntries(s, listing, safe);
    var clusters;
    ids, entries := rowIds, valid;
    clusters, groups := BuildClusters(valid, p);
    ghost var scoped := AllSingle(entries, clusters);
    SoundFromTheStart(first, p, scoped);
    if dryRun {
      Conclude(first, s.rows, s.trail, p, scoped);
      return Result(|rowIds|, |clusters|, 0, 0), ids, entries, groups;
    }
    BigEnoughAreGroups(groups, p);
    var created, deleted := ApplyPlans(s, rowIds, valid, clusters, p, first, scoped);
    Conclude(first, s.rows, s.trail, p, scoped);
    return Result(|rowIds|, |clusters|, deleted, created), ids, entries, groups;
  }

  // ---------------------------------------------------------------- lines that change their scope

  // A row outside the clusters holds the line in this scope.
  ghost predicate HeldOutside(first: map<nat, Entry>, ids: seq<nat>, clusters: seq<seq<nat>>, scope: string,
                              key: string, p: Params) {
    exists id :: id in first && !Clustered(ids, clusters, id) && first[id].scope == scope
      && key in Keys(first[id].text, p)
  }

  // A cluster whose seed has this scope has a member with the line.
  ghost predicate HeldByCluster(entries: seq<Entry>, clusters: seq<seq<nat>>, scope: string, key: string, p: Params) {
    exists c, j ::
      && c in clusters && 0 <= j < |c| && c[j] < |entries|
      && ScopeOf(entries, c[0]) == scope && key in Keys(entries[c[j]].text, p)
  }

  // The line is still to be found in this scope once the clusters are replaced.
  ghost predicate StaysIn(first: map<nat, Entry>, ids: seq<nat>, entries: seq<Entry>, clusters: seq<seq<nat>>,
                          scope: string, key: string, p: Params) {
    HeldOutside(first, ids, clusters, scope, key, p) || HeldByCluster(entries, clusters, scope, key, p)
  }

  lemma ReplacementHolds(rows: map<nat, Entry>, first: map<nat, Entry>, entries: seq<Entry>, id: nat, c: seq<nat>,
                         key: string, p: Params)
    requires Replaces(rows, first, entries, id, c, p)
    ensures id in rows && c != [] && rows[id].scope == ScopeOf(entries, c[0])
    ensures key in Keys(rows[id].text, p) <==>
      exists j :: 0 <= j < |c| && c[j] < |entries| && key in Keys(entries[c[j]].text, p)
  {
    var members :| Picked(entries, c, members) && StandsFor(rows, first, id, members, p);
    MembersAreMerged(members, key, p);
    forall j | 0 <= j < |c| ensures c[j] < |entries| && entries[c[j]] in members { assert members[j] == entries[c[j]]; }
    if exists m: Entry :: m in members && key in Keys(m.text, p) {
      var m: Entry :| m in members && key in Keys(m.text, p);
      var j :| 0 <= j < |members| && members[j] == m;
      assert c[j] < |entries| && entries[c[j]] == m;
    }
  }

  lemma HeldByClusterIsHeld(first: map<nat, Entry>, rows: map<nat, Entry>, ids: seq<nat>, entries: seq<Entry>,
                            clusters: seq<seq<nat>>, scope: string, key: string, p: Params)
    requires AllReplaced(rows, first, ids, entries, clusters, p) && HeldByCluster(entries, clusters, scope, key, p)
    ensures Holds(rows, scope, key, p, true)
  {
    var c, j :|
      && c in clusters && 0 <= j < |c| && c[j] < |entries|
      && ScopeOf(entries, c[0]) == scope && key in Keys(entries[c[j]].text, p);
    var id :| Replaces(rows, first, entries, id, c, p);
    ReplacementHolds(rows, first, entries, id, c, key, p);
    assert rows[id].scope == scope;
  }

  lemma StaysInIsHeld(first: map<nat, Entry>, rows: map<nat, Entry>, ids: seq<nat>, entries: seq<Entry>,
                      clusters: seq<seq<nat>>,
                      scope: string, key: string, p: Params)
    requires Done(rows, first, ids, entries, clusters, p, true) && StaysIn(first, ids, entries, clusters, scope, key, p)
    ensures Holds(rows, scope, key, p, true)
  {
    if HeldByCluster(entries, clusters, scope, key, p) {
      HeldByClusterIsHeld(first, rows, ids, entries, clusters, scope, key, p);
    } else {
      var id :| id in first && !Clustered(ids, clusters, id) && first[id].scope == scope
        && key in Keys(first[id].text, p);
      assert rows[id] == first[id];
    }
  }

  lemma NewRowIsByCluster(first: map<nat, Entry>, rows: map<nat, Entry>, entries: seq<Entry>, clusters: seq<seq<nat>>,
                          id: nat, key: string, p: Params)
    requires NewReplace(rows, first, entries, clusters, p) && id in rows && id !in first
      && key in Keys(rows[id].text, p)
    ensures HeldByCluster(entries, clusters, rows[id].scope, key, p)
  {
    assert ReplacesOne(rows, first, entries, id, clusters, p);
    var c :| c in clusters && Replaces(rows, first, entries, id, c, p);
    ReplacementHolds(rows, first, entries, id, c, key, p);
  }

  lemma HeldIsStaysIn(first: map<nat, Entry>, rows: map<nat, Entry>, ids: seq<nat>, entries: seq<Entry>,
                      clusters: seq<seq<nat>>,
                      scope: string, key: string, p: Params)
    requires Done(rows, first, ids, entries, clusters, p, true) && Holds(rows, scope, key, p, true)
    ensures StaysIn(first, ids, entries, clusters, scope, key, p)
  {
    var id :| id in rows && rows[id].scope == scope && key in Keys(rows[id].text, p);
    if id in first {
      assert !Clustered(ids, clusters, id) && rows[id] == first[id];
    } else {
      NewRowIsByCluster(first, rows, entries, clusters, id, key, p);
    }
  }

  // Every line of the clusters stays in its scope.
  ghost predicate ClustersKeepScopes(first: map<nat, Entry>, ids: seq<nat>, entries: seq<Entry>,
                                     clusters: seq<seq<nat>>, p: Params) {
    forall c, j, key :: c in clusters && 0 <= j < |c| && c[j] < |entries| && key in Keys(entries[c[j]].text, p) ==>
      StaysIn(first, ids, entries, clusters, entries[c[j]].scope, key, p)
  }

  lemma ClusteredLine(first: map<nat, Entry>, ids: seq<nat>, entries: seq<Entry>, clusters: seq<seq<nat>>,
                      scope: string, key: string, p: Params)
    requires Matches(first, ids, entries) && ClustersKeepScopes(first, ids, entries, clusters, p)
    requires Holds(first, scope, key, p, true)
    ensures StaysIn(first, ids, entries, clusters, scope, key, p)
  {
    var id :| id in first && first[id].scope == scope && key in Keys(first[id].text, p);
    if Clustered(ids, clusters, id) {
      var c, j :| c in clusters && 0 <= j < |c| && c[j] < |ids| && ids[c[j]] == id;
      assert first[ids[c[j]]] == entries[c[j]];
    }
  }

  lemma KeptLineStays(first: map<nat, Entry>, rows: map<nat, Entry>, ids: seq<nat>, entries: seq<Entry>,
                      clusters: seq<seq<nat>>, i: nat, key: string, p: Params)
    requires Matches(first, ids, entries) && Done(rows, first, ids, entries, clusters, p, true)
    requires Preserves(first, rows, p, true) && i < |entries| && key in Keys(entries[i].text, p)
    ensures StaysIn(first, ids, entries, clusters, entries[i].scope, key, p)
  {
    assert first[ids[i]] == entries[i];
    assert Holds(first, entries[i].scope, key, p, true);
    HeldIsStaysIn(first, rows, ids, entries, clusters, entries[i].scope, key, p);
  }

  lemma ScopesKept(first: map<nat, Entry>, rows: map<nat, Entry>, ids: seq<nat>, entries: seq<Entry>,
                   clusters: seq<seq<nat>>, p: Params)
    requires Matches(first, ids, entries) && Done(rows, first, ids, entries, clusters, p, true)
    requires ClustersKeepScopes(first, ids, entries, clusters, p)
    ensures Preserves(first, rows, p, true)
  {
    forall scope, key | Holds(first, scope, key, p, true) ensures Holds(rows, scope, key, p, true) {
      ClusteredLine(first, ids, entries, clusters, scope, key, p);
      StaysInIsHeld(first, rows, ids, entries, clusters, scope, key, p);
    }
  }

  // After a run without faults, every line is still held in its scope exactly when each clustered line is
  // held in it by a row outside the clusters or by a cluster whose seed has that scope.
  lemma ScopesAreKeptIff(first: map<nat, Entry>, rows: map<nat, Entry>, ids: seq<nat>, entries: seq<Entry>,
                         clusters: seq<seq<nat>>, p: Params)
    requires Matches(first, ids, entries) && Done(rows, first, ids, entries, clusters, p, true)
    ensures Preserves(first, rows, p, true) <==> ClustersKeepScopes(first, ids, entries, clusters, p)
  {
    if Preserves(first, rows, p, true) {
      forall c, j, key | c in clusters && 0 <= j < |c| && c[j] < |entries| && key in Keys(entries[c[j]].text, p)
        ensures StaysIn(first, ids, entries, clusters, entries[c[j]].scope, key, p)
      {
        KeptLineStays(first, rows, ids, entries, clusters, c[j], key, p);
      }
    }
    if ClustersKeepScopes(first, ids, entries, clusters, p) {
      ScopesKept(first, rows, ids, entries, clusters, p);
    }
  }
}
