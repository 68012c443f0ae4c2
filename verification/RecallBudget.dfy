/** The injection policy of auto-recall (src/auto-recall-hooks.ts:75-79, 108-115, 203-422): spacing of repeated
    memories by turns, the item and character budget, and one trace status per retrieved memory. Retrieval,
    the governance and scope verdicts and the rendering of summaries are inputs. */
module RecallBudget {
  import opened Common

  datatype Found = Found(id: string, text: string)

  datatype Status = DedupFiltered | GovernanceFiltered | Suppressed | BudgetFiltered | Injected

  // verdict is the governance, suppression and scope check at a turn: the status of a result it refuses.
  // summary is the rendered text of a result, already cut to the limit per item.
  datatype Policy = Policy(minRepeated: int, maxItems: nat, maxChars: nat,
                           verdict: (Found, nat) -> Option<Status>, summary: Found -> string)

  // The turn counter of a session and the turn of the last injection of each memory.
  datatype Session = Session(turn: nat, history: map<string, nat>)

  datatype Chosen = Chosen(id: string, text: string)

  // When the abort signal is noticed: never, before the results are in, before the history is written, or
  // after the trace.
  datatype Abort = Never | Early | Late | AtTheEnd

  // ---------------------------------------------------------------- spacing

  function LastTurn(history: map<string, nat>, id: string): int {
    if id in history then history[id] else -999
  }

  predicate Redundant(p: Policy, history: map<string, nat>, turn: nat, r: Found) {
    p.minRepeated > 0 && turn - LastTurn(history, r.id) < p.minRepeated
  }

  function Spaced(p: Policy, history: map<string, nat>, turn: nat, results: seq<Found>): seq<Found> {
    if results == [] then []
    else
      var n := |results| - 1;
      Spaced(p, history, turn, results[..n]) + (if Redundant(p, history, turn, results[n]) then [] else [results[n]])
  }

  function Allowed(p: Policy, turn: nat, results: seq<Found>): seq<Found> {
    if results == [] then []
    else
      var n := |results| - 1;
      Allowed(p, turn, results[..n]) + (if p.verdict(results[n], turn).Some? then [] else [results[n]])
  }

  // ---------------------------------------------------------------- the budget

  function Chars(chosen: seq<Chosen>): nat {
    if chosen == [] then 0 else Chars(chosen[..|chosen| - 1]) + |chosen[|chosen| - 1].text|
  }

  // One candidate against what is left: taken whole, taken cut (and then the loop ends), or passed over.
  datatype Take = Whole | Cut(text: string) | Nothing

  function TakeOne(summary: string, remaining: nat): Take {
    if |summary| <= remaining then Whole
    else
      var shortened := Trim(summary[..remaining]);
      if shortened == "" then Nothing else Cut(shortened)
  }

  // What the loop selects from the candidates from the i-th on.
  function Pick(p: Policy, candidates: seq<Found>, i: nat, items: nat, chars: nat): seq<Chosen>
    requires i <= |candidates|
    decreases |candidates| - i
  {
    if i == |candidates| || items >= p.maxItems || chars >= p.maxChars then []
    else
      var c := candidates[i];
      match TakeOne(p.summary(c), p.maxChars - chars)
      case Whole => [Chosen(c.id, p.summary(c))] + Pick(p, candidates, i + 1, items + 1, chars + |p.summary(c)|)
      case Cut(text) => [Chosen(c.id, text)]
      case Nothing => Pick(p, candidates, i + 1, items, chars)
  }

  // With selected chosen so far, going on from the i-th candidate ends in goal.
  ghost predicate GoesOn(p: Policy, candidates: seq<Found>, i: nat, selected: seq<Chosen>, chars: nat,
                         goal: seq<Chosen>) {
    i <= |candidates| && goal == selected + Pick(p, candidates, i, |selected|, chars)
  }

  lemma Regroup(a: seq<Chosen>, c: Chosen, rest: seq<Chosen>)
    ensures a + ([c] + rest) == (a + [c]) + rest
  {
  }

  lemma GoOn(p: Policy, candidates: seq<Found>, i: nat, selected: seq<Chosen>, chars: nat, goal: seq<Chosen>)
    requires GoesOn(p, candidates, i, selected, chars, goal)
    ensures if i == |candidates| || |selected| >= p.maxItems || chars >= p.maxChars then goal == selected
      else match TakeOne(p.summary(candidates[i]), p.maxChars - chars)
        case Whole => GoesOn(p, candidates, i + 1, selected + [Chosen(candidates[i].id, p.summary(candidates[i]))],
          chars + |p.summary(candidates[i])|, goal)
        case Cut(text) => goal == selected + [Chosen(candidates[i].id, text)]
        case Nothing => GoesOn(p, candidates, i + 1, selected, chars, goal)
  {
    if i < |candidates| && |selected| < p.maxItems && chars < p.maxChars
      && TakeOne(p.summary(candidates[i]), p.maxChars - chars).Whole? {
      Regroup(selected, Chosen(candidates[i].id, p.summary(candidates[i])),
        Pick(p, candidates, i + 1, |selected| + 1, chars + |p.summary(candidates[i])|));
    }
  }

  lemma {:induction false} CharsFirst(c: Chosen, rest: seq<Chosen>)
    ensures Chars([c] + rest) == |c.text| + Chars(rest)
  {
    if rest == [] {
      assert [c] + rest == [c] && [c][..0] == [];
    } else {
      var n := |rest| - 1;
      assert ([c] + rest)[..n + 1] == [c] + rest[..n];
      CharsFirst(c, rest[..n]);
    }
  }

  lemma {:induction false} StartShortens(s: string)
    ensures |TrimStart(s)| <= |s|
  {
    if s != [] && IsSpace(s[0]) { StartShortens(s[1..]); }
  }

  lemma {:induction false} EndShortens(s: string)
    ensures |TrimEnd(s)| <= |s|
  {
    if s != [] && IsSpace(s[|s| - 1]) { EndShortens(s[..|s| - 1]); }
  }

  lemma {:induction false} TrimShortens(s: string)
    ensures |Trim(s)| <= |s|
  {
    StartShortens(s);
    EndShortens(TrimStart(s));
  }

  // Never more items or characters than allowed.
  lemma {:induction false} PickFits(p: Policy, candidates: seq<Found>, i: nat, items: nat, chars: nat)
    requires i <= |candidates| && items <= p.maxItems && chars <= p.maxChars
    ensures var r := Pick(p, candidates, i, items, chars);
      items + |r| <= p.maxItems && chars + Chars(r) <= p.maxChars
    decreases |candidates| - i
  {
    if i < |candidates| && items < p.maxItems && chars < p.maxChars {
      var c := candidates[i];
      match TakeOne(p.summary(c), p.maxChars - chars)
      case Whole =>
        PickFits(p, candidates, i + 1, items + 1, chars + |p.summary(c)|);
        CharsFirst(Chosen(c.id, p.summary(c)), Pick(p, candidates, i + 1, items + 1, chars + |p.summary(c)|));
      case Cut(text) =>
        TrimShortens(p.summary(c)[..p.maxChars - chars]);
        CharsFirst(Chosen(c.id, text), []);
        assert [Chosen(c.id, text)] + [] == [Chosen(c.id, text)];
      case Nothing => PickFits(p, candidates, i + 1, items, chars);
    }
  }

  // at names, for each chosen item, the candidate it came from.
  ghost predicate PickedFrom(p: Policy, candidates: seq<Found>, chosen: seq<Chosen>, at: seq<nat>, from: nat) {
    && |at| == |chosen|
    && (forall k :: 0 <= k < |at| ==> from <= at[k] < |candidates| && chosen[k].id == candidates[at[k]].id)
    && (forall j, k :: 0 <= j < k < |at| ==> at[j] < at[k])
    && (forall k :: 0 <= k < |at| - 1 ==> chosen[k].text == p.summary(candidates[at[k]]))
  }

  // The text is the summary if there is room for it, else as much of its beginning as there is room for, trimmed.
  ghost predicate FitsInto(summary: string, text: string, room: int) {
    if |summary| <= room then text == summary
    else 0 < room && text == Trim(summary[..room]) && text != ""
  }

  // The last item has what room the others leave.
  ghost predicate LastFits(p: Policy, candidates: seq<Found>, chosen: seq<Chosen>, at: seq<nat>, chars: nat) {
    chosen != [] ==>
      var n := |chosen| - 1;
      && n < |at| && at[n] < |candidates|
      && FitsInto(p.summary(candidates[at[n]]), chosen[n].text, p.maxChars - chars - Chars(chosen[..n]))
  }

  lemma LastFitsBefore(p: Policy, candidates: seq<Found>, i: nat, rest: seq<Chosen>, at: seq<nat>, chars: nat)
    requires i < |candidates| && |at| == |rest| && chars + |p.summary(candidates[i])| <= p.maxChars
    requires LastFits(p, candidates, rest, at, chars + |p.summary(candidates[i])|)
    ensures LastFits(p, candidates, [Chosen(candidates[i].id, p.summary(candidates[i]))] + rest, [i] + at, chars)
  {
    var c := Chosen(candidates[i].id, p.summary(candidates[i]));
    if rest != [] {
      var n := |rest| - 1;
      assert ([c] + rest)[..n + 1] == [c] + rest[..n];
      CharsFirst(c, rest[..n]);
    } else {
      assert ([c] + rest)[..0] == [];
    }
  }

  lemma PickedBefore(p: Policy, candidates: seq<Found>, i: nat, rest: seq<Chosen>, at: seq<nat>)
    requires i < |candidates| && PickedFrom(p, candidates, rest, at, i + 1)
    ensures PickedFrom(p, candidates, [Chosen(candidates[i].id, p.summary(candidates[i]))] + rest, [i] + at, i)
  {
    var chosen, all := [Chosen(candidates[i].id, p.summary(candidates[i]))] + rest, [i] + at;
    assert forall k :: 1 <= k < |all| ==> all[k] == at[k - 1] && chosen[k] == rest[k - 1];
  }

  lemma PickedLater(p: Policy, candidates: seq<Found>, i: nat, chosen: seq<Chosen>, at: seq<nat>)
    requires PickedFrom(p, candidates, chosen, at, i + 1)
    ensures PickedFrom(p, candidates, chosen, at, i)
  {
  }

  lemma CutIsLast(p: Policy, candidates: seq<Found>, i: nat, text: string, chars: nat)
    requires i < |candidates| && chars < p.maxChars
    requires TakeOne(p.summary(candidates[i]), p.maxChars - chars) == Cut(text)
    ensures var chosen := [Chosen(candidates[i].id, text)];
      PickedFrom(p, candidates, chosen, [i], i) && LastFits(p, candidates, chosen, [i], chars)
  {
    assert [Chosen(candidates[i].id, text)][..0] == [];
  }

  // The selection keeps the ranking; every item but the last is its whole summary, and that one is cut to what
  // room is left only if it has to be.
  lemma {:induction false} PickKeepsRanking(p: Policy, candidates: seq<Found>, i: nat, items: nat, chars: nat)
    returns (at: seq<nat>)
    requires i <= |candidates|
    ensures PickedFrom(p, candidates, Pick(p, candidates, i, items, chars), at, i)
    ensures LastFits(p, candidates, Pick(p, candidates, i, items, chars), at, chars)
    decreases |candidates| - i
  {
    at := [];
    if i < |candidates| && items < p.maxItems && chars < p.maxChars {
      var c := candidates[i];
      match TakeOne(p.summary(c), p.maxChars - chars) {
        case Whole =>
          var rest := Pick(p, candidates, i + 1, items + 1, chars + |p.summary(c)|);
          at := PickKeepsRanking(p, candidates, i + 1, items + 1, chars + |p.summary(c)|);
          LastFitsBefore(p, candidates, i, rest, at, chars);
          PickedBefore(p, candidates, i, rest, at);
          assert Pick(p, candidates, i, items, chars) == [Chosen(c.id, p.summary(c))] + rest;
          at := [i] + at;
        case Cut(text) =>
          CutIsLast(p, candidates, i, text, chars);
          assert Pick(p, candidates, i, items, chars) == [Chosen(c.id, text)];
          at := [i];
        case Nothing =>
          at := PickKeepsRanking(p, candidates, i + 1, items, chars);
          PickedLater(p, candidates, i, Pick(p, candidates, i + 1, items, chars), at);
          assert Pick(p, candidates, i, items, chars) == Pick(p, candidates, i + 1, items, chars);
      }
    }
  }

  // The chosen text is shorter than the summary of one of the candidates from the i-th to before the j-th.
  ghost predicate WasCut(p: Policy, candidates: seq<Found>, i: nat, j: nat, c: Chosen) {
    exists k :: i <= k < j && k < |candidates| && candidates[k].id == c.id && |p.summary(candidates[k])| > |c.text|
  }

  // Nothing that fits is passed over: a candidate not chosen came after the item limit was reached, or does
  // not fit whole into what the selection leaves, or came after an item that had to be cut.
  ghost predicate GoodReason(p: Policy, candidates: seq<Found>, i: nat, items: nat, chars: nat, j: nat,
                             r: seq<Chosen>) {
    || items + |r| == p.maxItems
    || chars + Chars(r) == p.maxChars
    || (j < |candidates| && chars + Chars(r) + |p.summary(candidates[j])| > p.maxChars)
    || (r != [] && WasCut(p, candidates, i, j, r[|r| - 1]))
  }

  lemma ReasonBefore(p: Policy, candidates: seq<Found>, i: nat, items: nat, chars: nat, j: nat, c: Chosen,
                     rest: seq<Chosen>)
    requires GoodReason(p, candidates, i + 1, items + 1, chars + |c.text|, j, rest)
    ensures GoodReason(p, candidates, i, items, chars, j, [c] + rest)
  {
    CharsFirst(c, rest);
    assert rest != [] ==> ([c] + rest)[|rest|] == rest[|rest| - 1];
  }

  lemma {:induction false} PickIsGreedy(p: Policy, candidates: seq<Found>, i: nat, items: nat, chars: nat, j: nat)
    requires i <= j < |candidates| && items <= p.maxItems && chars <= p.maxChars
    requires forall c :: c in Pick(p, candidates, i, items, chars) ==> c.id != candidates[j].id
    ensures GoodReason(p, candidates, i, items, chars, j, Pick(p, candidates, i, items, chars))
    decreases |candidates| - i
  {
    if items < p.maxItems && chars < p.maxChars {
      var c := candidates[i];
      var r := Pick(p, candidates, i, items, chars);
      match TakeOne(p.summary(c), p.maxChars - chars)
      case Whole =>
        var rest := Pick(p, candidates, i + 1, items + 1, chars + |p.summary(c)|);
        assert r[0] in r;
        assert forall x :: x in rest ==> x in r;
        PickIsGreedy(p, candidates, i + 1, items + 1, chars + |p.summary(c)|, j);
        ReasonBefore(p, candidates, i, items, chars, j, Chosen(c.id, p.summary(c)), rest);
      case Cut(text) =>
        assert r[0] in r && r[|r| - 1] == Chosen(c.id, text);
        TrimShortens(p.summary(c)[..p.maxChars - chars]);
        assert WasCut(p, candidates, i, j, r[|r| - 1]);
      case Nothing =>
        PickFits(p, candidates, i + 1, items, chars);
        if j > i { PickIsGreedy(p, candidates, i + 1, items, chars, j); }
    }
  }

  // ---------------------------------------------------------------- one prompt

  datatype Prompt = Prompt(results: seq<Found>, abort: Abort)

  function Candidates(p: Policy, s: Session, results: seq<Found>): seq<Found> {
    Allowed(p, s.turn + 1, Spaced(p, s.history, s.turn + 1, results))
  }

  function Selection(p: Policy, s: Session, results: seq<Found>): seq<Chosen> {
    Pick(p, Candidates(p, s, results), 0, 0, 0)
  }

  function Noted(history: map<string, nat>, chosen: seq<Chosen>, turn: nat): map<string, nat> {
    if chosen == [] then history
    else Noted(history, chosen[..|chosen| - 1], turn)[chosen[|chosen| - 1].id := turn]
  }

  // What the prompt injects; an abort after the trace still counts as injected in the history.
  function Injection(p: Policy, s: Session, e: Prompt): seq<Chosen> {
    if e.abort.Early? || e.abort.Late? then [] else Selection(p, s, e.results)
  }

  // The turn advances whatever happens later.
  function Next(p: Policy, s: Session, e: Prompt): Session {
    Session(s.turn + 1, if p.minRepeated > 0 then Noted(s.history, Injection(p, s, e), s.turn + 1) else s.history)
  }

  function Ids(chosen: seq<Chosen>): set<string> {
    set c | c in chosen :: c.id
  }

  // What becomes of a retrieved memory.
  function StatusOf(p: Policy, s: Session, chosen: seq<Chosen>, r: Found): Status {
    if Redundant(p, s.history, s.turn + 1, r) then DedupFiltered
    else
      var v := p.verdict(r, s.turn + 1);
      if v.Some? then v.value else if r.id in Ids(chosen) then Injected else BudgetFiltered
  }

  ghost predicate DistinctIds(results: seq<Found>) {
    forall i, j :: 0 <= i < j < |results| ==> results[i].id != results[j].id
  }

  lemma {:induction false} SpacedHas(p: Policy, history: map<string, nat>, turn: nat, results: seq<Found>, r: Found)
    ensures r in Spaced(p, history, turn, results) <==> r in results && !Redundant(p, history, turn, r)
  {
    if results != [] {
      SpacedHas(p, history, turn, results[..|results| - 1], r);
      assert results == results[..|results| - 1] + [results[|results| - 1]];
    }
  }

  lemma {:induction false} AllowedHas(p: Policy, turn: nat, results: seq<Found>, r: Found)
    ensures r in Allowed(p, turn, results) <==> r in results && p.verdict(r, turn).None?
  {
    if results != [] {
      AllowedHas(p, turn, results[..|results| - 1], r);
      assert results == results[..|results| - 1] + [results[|results| - 1]];
    }
  }

  lemma SpacedMore(p: Policy, history: map<string, nat>, turn: nat, results: seq<Found>, i: nat)
    requires i < |results|
    ensures Spaced(p, history, turn, results[..i + 1]) ==
      Spaced(p, history, turn, results[..i]) + (if Redundant(p, history, turn, results[i]) then [] else [results[i]])
  {
    assert results[..i + 1][..i] == results[..i];
  }

  lemma AllowedMore(p: Policy, turn: nat, results: seq<Found>, i: nat)
    requires i < |results|
    ensures Allowed(p, turn, results[..i + 1]) ==
      Allowed(p, turn, results[..i]) + (if p.verdict(results[i], turn).Some? then [] else [results[i]])
  {
    assert results[..i + 1][..i] == results[..i];
  }

  // Exactly the redundant results have a status after the first filter.
  ghost predicate Repeats(p: Policy, history: map<string, nat>, turn: nat, results: seq<Found>,
                          statuses: map<string, Status>) {
    && (forall id :: id in statuses ==> statuses[id] == DedupFiltered)
    && (forall r :: r in results ==> (r.id in statuses <==> Redundant(p, history, turn, r)))
  }

  // The second filter gives the refused results their status and leaves the others alone.
  ghost predicate Refines(p: Policy, turn: nat, results: seq<Found>, before: map<string, Status>,
                          statuses: map<string, Status>) {
    && (forall id :: id in before ==> id in statuses)
    && (forall id :: id in before && (forall r :: r in results ==> r.id != id) ==> statuses[id] == before[id])
    && (forall r :: r in results && p.verdict(r, turn).Some? ==> r.id in statuses)
    && (DistinctIds(results) ==> forall r :: r in results ==>
          if p.verdict(r, turn).Some? then statuses[r.id] == p.verdict(r, turn).value
          else (r.id in statuses <==> r.id in before))
  }

  // The redundancy filter; statuses is the trace map.
  method FilterRedundant(p: Policy, history: map<string, nat>, turn: nat, results: seq<Found>)
    returns (filtered: seq<Found>, statuses: map<string, Status>)
    ensures filtered == Spaced(p, history, turn, results)
    ensures Repeats(p, history, turn, results, statuses)
  {
    filtered, statuses := [], map[];
    for i := 0 to |results|
      invariant filtered == Spaced(p, history, turn, results[..i])
      invariant forall id :: id in statuses ==> statuses[id] == DedupFiltered
      invariant forall id :: id in statuses ==> p.minRepeated > 0 && turn - LastTurn(history, id) < p.minRepeated
      invariant forall k :: 0 <= k < i && Redundant(p, history, turn, results[k]) ==> results[k].id in statuses
    {
      SpacedMore(p, history, turn, results, i);
      if p.minRepeated > 0 && turn - LastTurn(history, results[i].id) < p.minRepeated {
        statuses := statuses[results[i].id := DedupFiltered];
      } else {
        filtered := filtered + [results[i]];
      }
    }
    assert results[..|results|] == results;
  }

  // The governance, suppression and scope filter.
  method FilterAllowed(p: Policy, turn: nat, results: seq<Found>, before: map<string, Status>)
    returns (eligible: seq<Found>, statuses: map<string, Status>)
    ensures eligible == Allowed(p, turn, results)
    ensures Refines(p, turn, results, before, statuses)
  {
    eligible, statuses := [], before;
    for i := 0 to |results|
      invariant eligible == Allowed(p, turn, results[..i])
      invariant before.Keys <= statuses.Keys
      invariant forall id :: id in before && (forall k :: 0 <= k < i ==> results[k].id != id) ==>
        statuses[id] == before[id]
      invariant forall k :: 0 <= k < i && p.verdict(results[k], turn).Some? ==> results[k].id in statuses
      invariant DistinctIds(results) ==> forall k :: 0 <= k < i && p.verdict(results[k], turn).Some? ==>
        statuses[results[k].id] == p.verdict(results[k], turn).value
      invariant DistinctIds(results) ==>
        forall k :: 0 <= k < |results| && (k >= i || p.verdict(results[k], turn).None?) ==>
        (results[k].id in statuses <==> results[k].id in before)
    {
      AllowedMore(p, turn, results, i);
      var refusal := p.verdict(results[i], turn);
      if refusal.Some? {
        statuses := statuses[results[i].id := refusal.value];
      } else {
        eligible := eligible + [results[i]];
      }
    }
    assert results[..|results|] == results;
  }

  // The budget loop.
  method SelectWithinBudget(p: Policy, candidates: seq<Found>) returns (selected: seq<Chosen>)
    ensures selected == Pick(p, candidates, 0, 0, 0)
  {
    selected := [];
    var usedChars: nat := 0;
    ghost var goal := Pick(p, candidates, 0, 0, 0);
    var i := 0;
    while i < |candidates|
      invariant i <= |candidates| && GoesOn(p, candidates, i, selected, usedChars, goal)
    {
      GoOn(p, candidates, i, selected, usedChars, goal);
      if |selected| >= p.maxItems { return; }
      if usedChars >= p.maxChars { return; }
      var summary := p.summary(candidates[i]);
      var take := TakeOne(summary, p.maxChars - usedChars);
      match take {
        case Whole =>
          selected := selected + [Chosen(candidates[i].id, summary)];
          usedChars := usedChars + |summary|;
        case Cut(shortened) =>
          selected := selected + [Chosen(candidates[i].id, shortened)];
          return;
        case Nothing =>
      }
      i := i + 1;
    }
    GoOn(p, candidates, i, selected, usedChars, goal);
  }

  // The trace status of every result, from the status map.
  method TraceRefs(results: seq<Found>, statuses: map<string, Status>) returns (refs: seq<Option<Status>>)
    ensures |refs| == |results|
    ensures forall i :: 0 <= i < |results| ==>
      refs[i] == if results[i].id in statuses then Some(statuses[results[i].id]) else None
  {
    refs := [];
    for i := 0 to |results|
      invariant |refs| == i
      invariant forall k :: 0 <= k < i ==>
        refs[k] == if results[k].id in statuses then Some(statuses[results[k].id]) else None
    {
      refs := refs + [if results[i].id in statuses then Some(statuses[results[i].id]) else None];
    }
  }

  // Chosen ids are marked injected, ids without a status budget filtered; the others stay.
  ghost predicate Marked(results: seq<Found>, chosen: set<string>, before: map<string, Status>,
                         statuses: map<string, Status>) {
    && (forall r :: r in results ==> r.id in statuses)
    && (forall id :: id in before ==> id in statuses)
    && (forall id :: id in statuses ==>
          || (id in before && statuses[id] == before[id] && (id in chosen ==> forall r :: r in results ==> r.id != id))
          || (id in chosen && statuses[id] == Injected && exists r :: r in results && r.id == id)
          || (id !in chosen && id !in before && statuses[id] == BudgetFiltered
              && exists r :: r in results && r.id == id))
  }

  lemma MarkedMore(results: seq<Found>, i: nat, chosen: set<string>, before: map<string, Status>,
                   statuses: map<string, Status>)
    requires i < |results| && Marked(results[..i], chosen, before, statuses)
    ensures var id := results[i].id;
      Marked(results[..i + 1], chosen, before,
        if id in chosen then statuses[id := Injected]
        else if id !in statuses then statuses[id := BudgetFiltered] else statuses)
  {
    var more := results[..i + 1];
    assert more == results[..i] + [results[i]];
    assert results[i] in more;
    assert forall r :: r in results[..i] ==> r in more;
  }

  method MarkBudgetFiltered(candidates: seq<Found>, before: map<string, Status>) returns (statuses: map<string, Status>)
    ensures Marked(candidates, {}, before, statuses)
  {
    statuses := before;
    for i := 0 to |candidates|
      invariant Marked(candidates[..i], {}, before, statuses)
    {
      MarkedMore(candidates, i, {}, before, statuses);
      if candidates[i].id !in statuses { statuses := statuses[candidates[i].id := BudgetFiltered]; }
    }
    assert candidates[..|candidates|] == candidates;
  }

  method MarkRest(results: seq<Found>, selected: seq<Chosen>, before: map<string, Status>)
    returns (statuses: map<string, Status>)
    ensures Marked(results, Ids(selected), before, statuses)
  {
    var selectedIds := Ids(selected);
    statuses := before;
    for i := 0 to |results|
      invariant Marked(results[..i], selectedIds, before, statuses)
    {
      MarkedMore(results, i, selectedIds, before, statuses);
      if results[i].id in selectedIds {
        statuses := statuses[results[i].id := Injected];
      } else if results[i].id !in statuses {
        statuses := statuses[results[i].id := BudgetFiltered];
      }
    }
    assert results[..|results|] == results;
  }

  predicate IsRefused(p: Policy, s: Session, r: Found) {
    Redundant(p, s.history, s.turn + 1, r) || p.verdict(r, s.turn + 1).Some?
  }

  // After both filters the refused results, and no others, have their status.
  ghost predicate RefusedOk(p: Policy, s: Session, results: seq<Found>, statuses: map<string, Status>) {
    && (forall r :: r in results && IsRefused(p, s, r) ==> r.id in statuses)
    && (DistinctIds(results) ==> forall r :: r in results ==>
          if IsRefused(p, s, r) then r.id in statuses && statuses[r.id] == StatusOf(p, s, [], r) else r.id !in statuses)
  }

  lemma SameId(results: seq<Found>, a: Found, b: Found)
    requires DistinctIds(results) && a in results && b in results && a.id == b.id
    ensures a == b
  {
    var i :| 0 <= i < |results| && results[i] == a;
    var j :| 0 <= j < |results| && results[j] == b;
    assert i == j;
  }

  lemma {:induction false} SpacedDistinct(p: Policy, history: map<string, nat>, turn: nat, results: seq<Found>)
    requires DistinctIds(results)
    ensures DistinctIds(Spaced(p, history, turn, results))
  {
    if results != [] {
      var n := |results| - 1;
      var before := Spaced(p, history, turn, results[..n]);
      SpacedDistinct(p, history, turn, results[..n]);
      forall i | 0 <= i < |before| ensures before[i].id != results[n].id {
        SpacedHas(p, history, turn, results[..n], before[i]);
        var k :| 0 <= k < n && results[..n][k] == before[i];
      }
    }
  }

  lemma RefusedById(p: Policy, s: Session, results: seq<Found>, repeated: map<string, Status>,
                    refused: map<string, Status>)
    requires Repeats(p, s.history, s.turn + 1, results, repeated)
    requires Refines(p, s.turn + 1, Spaced(p, s.history, s.turn + 1, results), repeated, refused)
    ensures RefusedOk(p, s, results, refused)
  {
    var spaced := Spaced(p, s.history, s.turn + 1, results);
    forall r ensures r in spaced <==> r in results && !Redundant(p, s.history, s.turn + 1, r) {
      SpacedHas(p, s.history, s.turn + 1, results, r);
    }
    if DistinctIds(results) {
      SpacedDistinct(p, s.history, s.turn + 1, results);
      forall r | r in results && Redundant(p, s.history, s.turn + 1, r) ensures refused[r.id] == DedupFiltered {
        forall o | o in spaced ensures o.id != r.id { if o.id == r.id { SameId(results, o, r); } }
      }
    }
  }

  lemma NothingRefused(p: Policy, turn: nat, statuses: map<string, Status>)
    ensures Refines(p, turn, [], statuses, statuses)
  {
  }

  // Both filters; s is the session before its turn was advanced.
  method FilterBoth(p: Policy, s: Session, results: seq<Found>)
    returns (allRepeated: bool, eligible: seq<Found>, refused: map<string, Status>)
    ensures allRepeated == (Spaced(p, s.history, s.turn + 1, results) == [])
    ensures eligible == Candidates(p, s, results) && RefusedOk(p, s, results, refused)
  {
    var filtered, repeated := FilterRedundant(p, s.history, s.turn + 1, results);
    if |filtered| == 0 {
      NothingRefused(p, s.turn + 1, repeated);
      RefusedById(p, s, results, repeated, repeated);
      return true, [], repeated;
    }
    eligible, refused := FilterAllowed(p, s.turn + 1, filtered, repeated);
    RefusedById(p, s, results, repeated, refused);
    return false, eligible, refused;
  }

  // Every result has a status, and with distinct ids exactly the one its fate calls for.
  ghost predicate Accounted(p: Policy, s: Session, results: seq<Found>, refs: seq<Option<Status>>) {
    && |refs| == |results|
    && (forall i :: 0 <= i < |results| ==> refs[i].Some?)
    && (DistinctIds(results) ==> forall i :: 0 <= i < |results| ==>
          refs[i] == Some(StatusOf(p, s, Selection(p, s, results), results[i])))
  }

  // The status map says the same.
  ghost predicate Settled(p: Policy, s: Session, results: seq<Found>, statuses: map<string, Status>) {
    && (forall r :: r in results ==> r.id in statuses)
    && (DistinctIds(results) ==> forall r :: r in results ==>
      statuses[r.id] == StatusOf(p, s, Selection(p, s, results), r))
  }

  lemma SettledRefs(p: Policy, s: Session, results: seq<Found>, statuses: map<string, Status>,
                    refs: seq<Option<Status>>)
    requires Settled(p, s, results, statuses) && |refs| == |results|
    requires forall i :: 0 <= i < |results| ==>
      refs[i] == if results[i].id in statuses then Some(statuses[results[i].id]) else None
    ensures Accounted(p, s, results, refs)
  {
    assert forall i :: 0 <= i < |results| ==> results[i] in results;
  }

  lemma CandidatesHas(p: Policy, s: Session, results: seq<Found>, r: Found)
    ensures r in Candidates(p, s, results) <==> r in results && !IsRefused(p, s, r)
  {
    var spaced := Spaced(p, s.history, s.turn + 1, results);
    SpacedHas(p, s.history, s.turn + 1, results, r);
    AllowedHas(p, s.turn + 1, spaced, r);
    assert Candidates(p, s, results) == Allowed(p, s.turn + 1, spaced);
  }

  lemma NoneSelected(p: Policy, s: Session, results: seq<Found>, refused: map<string, Status>,
                     statuses: map<string, Status>)
    requires RefusedOk(p, s, results, refused) && Selection(p, s, results) == []
    requires Marked(Candidates(p, s, results), {}, refused, statuses)
    ensures Settled(p, s, results, statuses)
  {
    forall r | r in results ensures r.id in statuses { CandidatesHas(p, s, results, r); }
  }

  method TraceSkipped(p: Policy, ghost s: Session, results: seq<Found>, candidates: seq<Found>,
                      refused: map<string, Status>)
    returns (refs: seq<Option<Status>>)
    requires RefusedOk(p, s, results, refused) && candidates == Candidates(p, s, results)
      && Selection(p, s, results) == []
    ensures Accounted(p, s, results, refs)
  {
    var statuses := MarkBudgetFiltered(candidates, refused);
    NoneSelected(p, s, results, refused, statuses);
    refs := TraceRefs(results, statuses);
    SettledRefs(p, s, results, statuses, refs);
  }

  lemma SelectedAreCandidates(p: Policy, s: Session, results: seq<Found>, c: Chosen) returns (r: Found)
    requires c in Selection(p, s, results)
    ensures r in results && !IsRefused(p, s, r) && r.id == c.id
  {
    var candidates := Candidates(p, s, results);
    var at := PickKeepsRanking(p, candidates, 0, 0, 0);
    var k :| 0 <= k < |Selection(p, s, results)| && Selection(p, s, results)[k] == c;
    r := candidates[at[k]];
    CandidatesHas(p, s, results, r);
  }

  lemma SomeSelected(p: Policy, s: Session, results: seq<Found>, refused: map<string, Status>,
                     statuses: map<string, Status>)
    requires RefusedOk(p, s, results, refused)
    requires Marked(results, Ids(Selection(p, s, results)), refused, statuses)
    ensures Settled(p, s, results, statuses)
  {
    if DistinctIds(results) {
      forall r | r in results ensures statuses[r.id] == StatusOf(p, s, Selection(p, s, results), r) {
        if IsRefused(p, s, r) && r.id in Ids(Selection(p, s, results)) {
          var c :| c in Selection(p, s, results) && c.id == r.id;
          var o := SelectedAreCandidates(p, s, results, c);
          SameId(results, o, r);
        }
      }
    }
  }

  method TraceInjected(p: Policy, ghost s: Session, results: seq<Found>, selected: seq<Chosen>,
                       refused: map<string, Status>)
    returns (refs: seq<Option<Status>>)
    requires RefusedOk(p, s, results, refused) && selected == Selection(p, s, results)
    ensures Accounted(p, s, results, refs)
  {
    var statuses := MarkRest(results, selected, refused);
    SomeSelected(p, s, results, refused, statuses);
    refs := TraceRefs(results, statuses);
    SettledRefs(p, s, results, statuses, refs);
  }

  // ---------------------------------------------------------------- what the trace says

  datatype Reason = NoResults | RedundancyPolicy | GovernanceFilters | BudgetExhausted | Selected

  datatype Trace = Trace(reason: Reason, refs: seq<Option<Status>>)

  function ReasonFor(p: Policy, s: Session, results: seq<Found>): Reason {
    if results == [] then NoResults
    else if Spaced(p, s.history, s.turn + 1, results) == [] then RedundancyPolicy
    else if Candidates(p, s, results) == [] then GovernanceFilters
    else if Selection(p, s, results) == [] then BudgetExhausted
    else Selected
  }

  lemma NothingFromNothing(p: Policy, s: Session, results: seq<Found>)
    ensures results == [] ==> Candidates(p, s, results) == []
    ensures Candidates(p, s, results) == [] ==> Selection(p, s, results) == []
  {
  }

  // The reason of the trace tells how far the results came: none, all repeated too soon, all refused, none that
  // fits, or some injected.
  lemma ReasonIs(p: Policy, s: Session, results: seq<Found>)
    ensures ReasonFor(p, s, results) == NoResults <==> results == []
    ensures ReasonFor(p, s, results) == RedundancyPolicy <==>
      results != [] && forall r :: r in results ==> Redundant(p, s.history, s.turn + 1, r)
    ensures ReasonFor(p, s, results) == GovernanceFilters <==>
      && (exists r :: r in results && !Redundant(p, s.history, s.turn + 1, r))
      && forall r :: r in results ==> IsRefused(p, s, r)
    ensures ReasonFor(p, s, results) == BudgetExhausted <==>
      (exists r :: r in results && !IsRefused(p, s, r)) && Selection(p, s, results) == []
    ensures ReasonFor(p, s, results) == Selected <==> Selection(p, s, results) != []
  {
    var spaced, candidates := Spaced(p, s.history, s.turn + 1, results), Candidates(p, s, results);
    forall r ensures r in spaced <==> r in results && !Redundant(p, s.history, s.turn + 1, r) {
      SpacedHas(p, s.history, s.turn + 1, results, r);
    }
    forall r ensures r in candidates <==> r in results && !IsRefused(p, s, r) { CandidatesHas(p, s, results, r); }
    assert (results != [] ==> results[0] in results) && (spaced != [] ==> spaced[0] in spaced);
    assert candidates != [] ==> candidates[0] in candidates;
    NothingFromNothing(p, s, results);
  }

  class SessionTracker {
    var turn: nat
    var history: map<string, nat>

    function View(): Session
      reads this
    {
      Session(turn, history)
    }

    constructor ()
      ensures View() == Session(0, map[])
    {
      turn, history := 0, map[];
    }

    method NoteInjected(selected: seq<Chosen>)
      modifies this`history
      ensures history == Noted(old(history), selected, turn)
    {
      for i := 0 to |selected|
        invariant history == Noted(old(history), selected[..i], turn)
      {
        assert selected[..i + 1][..i] == selected[..i];
        history := history[selected[i].id := turn];
      }
      assert selected[..|selected|] == selected;
    }

    // before_prompt_build for a tracked session, from the turn counter to the injection.
    method BeforePrompt(p: Policy, e: Prompt) returns (injected: seq<Chosen>, delivered: bool, trace: Option<Trace>)
      modifies this
      ensures View() == Next(p, old(View()), e)
      ensures injected == Injection(p, old(View()), e) && delivered == (injected != [] && !e.abort.AtTheEnd?)
      ensures trace.None? <==> e.abort.Early? || (e.abort.Late? && Selection(p, old(View()), e.results) != [])
      ensures trace.Some? ==>
        && trace.value.reason == ReasonFor(p, old(View()), e.results)
        && Accounted(p, old(View()), e.results, trace.value.refs)
    {
      var s := View();
      turn := turn + 1;
      if e.abort.Early? { return [], false, None; }
      if |e.results| == 0 { return [], false, Some(Trace(NoResults, [])); }
      var allRepeated, eligible, refused := FilterBoth(p, s, e.results);
      if |eligible| == 0 {
        var refs := TraceSkipped(p, s, e.results, [], refused);
        return [], false, Some(Trace(if allRepeated then RedundancyPolicy else GovernanceFilters, refs));
      }
      var selected := SelectWithinBudget(p, eligible);
      if |selected| == 0 {
        var refs := TraceSkipped(p, s, e.results, eligible, refused);
        return [], false, Some(Trace(BudgetExhausted, refs));
      }
      if e.abort.Late? { return [], false, None; }
      if p.minRepeated > 0 { NoteInjected(selected); }
      var refs := TraceInjected(p, s, e.results, selected, refused);
      return selected, !e.abort.AtTheEnd?, Some(Trace(Selected, refs));
    }
  }

  // ---------------------------------------------------------------- spacing over a session

  // A tracked session from its start, one prompt at a time.
  function After(p: Policy, prompts: seq<Prompt>): Session {
    if prompts == [] then Session(0, map[])
    else Next(p, After(p, prompts[..|prompts| - 1]), prompts[|prompts| - 1])
  }

  // What each prompt injected.
  function Injections(p: Policy, prompts: seq<Prompt>): (log: seq<seq<Chosen>>)
    ensures |log| == |prompts|
  {
    if prompts == [] then []
    else
      var before := prompts[..|prompts| - 1];
      Injections(p, before) + [Injection(p, After(p, before), prompts[|prompts| - 1])]
  }

  function HistoryOf(log: seq<seq<Chosen>>): map<string, nat> {
    if log == [] then map[] else Noted(HistoryOf(log[..|log| - 1]), log[|log| - 1], |log|)
  }

  // The i-th injection had the memory.
  predicate Was(log: seq<seq<Chosen>>, i: nat, id: string) {
    i < |log| && id in Ids(log[i])
  }

  lemma {:induction false} SessionIsLog(p: Policy, prompts: seq<Prompt>)
    ensures After(p, prompts) ==
      Session(|prompts|, if p.minRepeated > 0 then HistoryOf(Injections(p, prompts)) else map[])
  {
    if prompts != [] {
      var n := |prompts| - 1;
      SessionIsLog(p, prompts[..n]);
      var log, last := Injections(p, prompts[..n]), Injection(p, After(p, prompts[..n]), prompts[n]);
      assert (log + [last])[..n] == log;
    }
  }

  lemma {:induction false} InjectionsPrefix(p: Policy, prompts: seq<Prompt>, i: nat)
    requires i <= |prompts|
    ensures Injections(p, prompts)[..i] == Injections(p, prompts[..i])
    ensures i < |prompts| ==> Injections(p, prompts)[i] == Injection(p, After(p, prompts[..i]), prompts[i])
  {
    var n := |prompts| - 1;
    if i == |prompts| {
      assert prompts[..i] == prompts;
    } else {
      var log := Injections(p, prompts[..n]);
      InjectionsPrefix(p, prompts[..n], i);
      assert prompts[..n][..i] == prompts[..i];
      assert Injections(p, prompts) == log + [Injection(p, After(p, prompts[..n]), prompts[n])];
      assert Injections(p, prompts)[..i] == log[..i];
    }
  }

  function Last(history: map<string, nat>, id: string): nat {
    if id in history then history[id] else 0
  }

  lemma {:induction false} NotedAt(history: map<string, nat>, chosen: seq<Chosen>, turn: nat, id: string)
    ensures Last(Noted(history, chosen, turn), id) == if id in Ids(chosen) then turn else Last(history, id)
    ensures id in Noted(history, chosen, turn) <==> id in history || id in Ids(chosen)
  {
    if chosen != [] {
      var n := |chosen| - 1;
      NotedAt(history, chosen[..n], turn, id);
      assert chosen == chosen[..n] + [chosen[n]];
      assert id in Ids(chosen) <==> id in Ids(chosen[..n]) || id == chosen[n].id;
    }
  }

  // The history holds, for each memory, the turn of its last injection, and nothing for the others.
  lemma {:induction false} HistoryIsLastInjection(log: seq<seq<Chosen>>, id: string)
    ensures var t := Last(HistoryOf(log), id);
      && t <= |log| && (t > 0 ==> Was(log, t - 1, id))
      && (forall i: nat :: t <= i < |log| ==> !Was(log, i, id))
      && (id in HistoryOf(log) <==> t > 0)
  {
    if log != [] {
      var n := |log| - 1;
      HistoryIsLastInjection(log[..n], id);
      NotedAt(HistoryOf(log[..n]), log[n], |log|, id);
      forall i: nat | i < n ensures Was(log[..n], i, id) == Was(log, i, id) {}
    }
  }

  // A memory is injected only when its spacing allows it.
  lemma InjectedIsSpaced(p: Policy, s: Session, e: Prompt, id: string)
    requires id in Ids(Injection(p, s, e)) && p.minRepeated > 0
    ensures s.turn + 1 - LastTurn(s.history, id) >= p.minRepeated
  {
    var c :| c in Injection(p, s, e) && c.id == id;
    var r := SelectedAreCandidates(p, s, e.results, c);
  }

  // A memory is held back no longer than that: after its last injection, the i-th, it is redundant exactly
  // while fewer than minRepeated turns have passed.
  lemma HeldBackIff(p: Policy, prompts: seq<Prompt>, i: nat, r: Found)
    requires p.minRepeated > 0 && Was(Injections(p, prompts), i, r.id)
    requires forall k: nat :: i < k ==> !Was(Injections(p, prompts), k, r.id)
    ensures var s := After(p, prompts);
      Redundant(p, s.history, s.turn + 1, r) <==> |prompts| - i < p.minRepeated
  {
    SessionIsLog(p, prompts);
    HistoryIsLastInjection(Injections(p, prompts), r.id);
  }

  // Two injections of the same memory are at least minRepeated turns apart, whatever is retrieved, refused
  // or aborted in between.
  lemma InjectionsAreSpaced(p: Policy, prompts: seq<Prompt>, i: nat, j: nat, id: string)
    requires i < j && Was(Injections(p, prompts), i, id) && Was(Injections(p, prompts), j, id)
    ensures j - i >= p.minRepeated
  {
    if p.minRepeated > 0 {
      var before := prompts[..j];
      InjectionsPrefix(p, prompts, j);
      SessionIsLog(p, before);
      var log := Injections(p, before);
      assert Was(log, i, id);
      HistoryIsLastInjection(log, id);
      InjectedIsSpaced(p, After(p, before), prompts[j], id);
    }
  }

  // No injection exceeds the item limit or the character budget; the budget counts the summaries alone, not
  // the prefixes of their lines.
  lemma InjectionsFit(p: Policy, s: Session, e: Prompt)
    ensures |Injection(p, s, e)| <= p.maxItems && Chars(Injection(p, s, e)) <= p.maxChars
  {
    PickFits(p, Candidates(p, s, e.results), 0, 0, 0);
  }

  // The stand-in for no earlier injection is turn -999: with a larger spacing even a memory that was never
  // injected is held back, exactly until turn minRepeated - 999.
  lemma FirstUseMayBeHeldBack(p: Policy, prompts: seq<Prompt>, r: Found)
    requires p.minRepeated > 0 && forall i: nat :: !Was(Injections(p, prompts), i, r.id)
    ensures var s := After(p, prompts);
      Redundant(p, s.history, s.turn + 1, r) <==> |prompts| + 1 < p.minRepeated - 999
  {
    SessionIsLog(p, prompts);
    HistoryIsLastInjection(Injections(p, prompts), r.id);
  }
}
