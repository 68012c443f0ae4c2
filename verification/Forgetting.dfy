/** Soft archiving and hard deletion of memories (src/forgetting.ts) over the tables of Governance. */
module Forgetting {
  import opened Common
  import opened Governance

  // ---------------------------------------------------------------- what a row is a candidate for

  // src/forgetting.ts:81-92
  predicate IsArchived(row: Row) {
    var state, layer := Lower(Trim(StrVal(row.metadata, "state"))), Lower(Trim(StrVal(row.metadata, "memory_layer")));
    var lifecycle := Lower(Trim(StrVal(row.metadata, "lifecycle")));
    || state == "archived" || state == "rejected" || layer == "archive"
    || lifecycle == "archived" || lifecycle == "obsolete" || lifecycle == "rejected" || lifecycle == "superseded"
  }

  predicate IsSecret(row: Row, c: Classifiers) {
    !c.safety(row.text).allowed && c.safety(row.text).reason == "secret"
  }

  // The first reason, in the order of the code, to archive a row for its own sake.
  function OwnReason(row: Row, c: Classifiers): Option<string> {
    var safety := c.safety(row.text);
    var source := Lower(Trim(StrVal(row.metadata, "source")));
    if !safety.allowed && safety.reason != "secret" then
      Some("capture-safety:" + (if safety.reason == "" then "blocked" else safety.reason))
    else if |Trim(c.sanitize(row.text))| <= 12 then Some("very-short-low-value")
    else if row.category == "other"
      && (source == "turn-assistant" || source == "assistant" || source == "session-summary")
    then Some("assistant-or-summary-scratch")
    else None
  }

  function FactKey(row: Row): string {
    Lower(Trim(StrVal(row.metadata, "fact_key")))
  }

  // normalizeDuplicateKey (src/forgetting.ts:94-103); empty means the row joins no group.
  function DuplicateKey(row: Row, c: Classifiers): string {
    if FactKey(row) != "" then "fact:" + FactKey(row)
    else if c.canon(row.text) != "" then "text:" + c.canon(row.text)
    else ""
  }

  function OrElse(name: string, other: string): string {
    if name == "" then other else name
  }

  function Head(scope: string, category: string): string {
    OrElse(scope, "global") + "\0" + OrElse(category, "other") + "\0"
  }

  function GroupKey(row: Row, c: Classifiers): string {
    Head(row.scope, row.category) + DuplicateKey(row, c)
  }

  predicate Active(s: State, listing: seq<Id>, id: Id) {
    id in listing && id in s.rows && !IsArchived(s.rows[id])
  }

  // Oldest first, ties by id.
  predicate Older(s: State, x: Id, y: Id) {
    && x in s.rows && y in s.rows
    && (s.rows[x].timestamp < s.rows[y].timestamp || (s.rows[x].timestamp == s.rows[y].timestamp && x < y))
  }

  predicate SameGroup(s: State, x: Id, y: Id, c: Classifiers) {
    && x in s.rows && y in s.rows
    && DuplicateKey(s.rows[x], c) != "" && DuplicateKey(s.rows[y], c) != ""
    && GroupKey(s.rows[x], c) == GroupKey(s.rows[y], c)
  }

  // keep is the oldest active row of id's group.
  ghost predicate Keeps(s: State, listing: seq<Id>, keep: Id, id: Id, c: Classifiers) {
    && Active(s, listing, keep) && Active(s, listing, id) && SameGroup(s, keep, id, c)
    && forall x :: Active(s, listing, x) && SameGroup(s, x, id, c) && x != keep ==> Older(s, keep, x)
  }

  // An active row that is not the oldest of its group.
  ghost predicate IsDuplicate(s: State, listing: seq<Id>, id: Id, c: Classifiers) {
    Active(s, listing, id) && exists x :: Active(s, listing, x) && SameGroup(s, x, id, c) && Older(s, x, id)
  }

  ghost predicate IsSoft(s: State, listing: seq<Id>, id: Id, c: Classifiers) {
    Active(s, listing, id) && (OwnReason(s.rows[id], c).Some? || IsDuplicate(s, listing, id, c))
  }

  ghost predicate IsHard(s: State, listing: seq<Id>, id: Id, c: Classifiers) {
    Active(s, listing, id) && IsSecret(s.rows[id], c)
  }

  // supersededBy is the keeper of a duplicate archived only as such.
  datatype Candidate = Candidate(reason: string, supersededBy: Option<Id>)

  ghost predicate CandidateOk(s: State, listing: seq<Id>, id: Id, cand: Candidate, c: Classifiers) {
    && IsSoft(s, listing, id, c)
    && match OwnReason(s.rows[id], c)
       case Some(reason) => cand == Candidate(reason, None)
       case None =>
         && cand.reason == "duplicate-memory" && cand.supersededBy.Some?
         && Keeps(s, listing, cand.supersededBy.value, id, c)
  }

  // ---------------------------------------------------------------- what a group has in common

  // What makes two rows duplicates, column by column: the scope, where none is "global", the category, where
  // none is "other", and the fact key, or without one a text that is not empty.
  ghost predicate Alike(x: Row, y: Row, c: Classifiers) {
    && (x.scope == y.scope || {x.scope, y.scope} == {"", "global"})
    && (x.category == y.category || {x.category, y.category} == {"", "other"})
    && FactKey(x) == FactKey(y) && (FactKey(x) == "" ==> c.canon(x.text) == c.canon(y.text) != "")
  }

  // Scope and category are written without the separator of the group keys.
  predicate Separable(row: Row) {
    '\0' !in row.scope && '\0' !in row.category
  }

  lemma SameUpToSeparator(a: string, b: string, x: string, y: string)
    requires '\0' !in a && '\0' !in b
    ensures a + "\0" + x == b + "\0" + y <==> a == b && x == y
  {
    var s, t := a + "\0" + x, b + "\0" + y;
    assert s[|a|] == '\0' && t[|b|] == '\0';
    assert (forall i :: 0 <= i < |a| ==> s[i] == a[i]) && forall i :: 0 <= i < |b| ==> t[i] == b[i];
    if s == t {
      assert s[..|a|] == a && t[..|b|] == b && s[|a| + 1..] == x && t[|b| + 1..] == y;
    }
  }

  lemma SameName(x: string, y: string, other: string)
    requires other != ""
    ensures OrElse(x, other) == OrElse(y, other) <==> x == y || {x, y} == {"", other}
  {
  }

  lemma SameDuplicateKey(x: Row, y: Row, c: Classifiers)
    ensures DuplicateKey(x, c) != "" && DuplicateKey(x, c) == DuplicateKey(y, c) <==>
      FactKey(x) == FactKey(y) && (FactKey(x) == "" ==> c.canon(x.text) == c.canon(y.text) != "")
  {
    var k, l := DuplicateKey(x, c), DuplicateKey(y, c);
    if k != "" && k == l {
      assert k[0] == l[0] && k[5..] == l[5..];
      assert FactKey(x) != "" ==> k[5..] == FactKey(x);
      assert FactKey(y) != "" ==> l[5..] == FactKey(y);
      assert FactKey(x) == "" ==> k[5..] == c.canon(x.text);
      assert FactKey(y) == "" ==> l[5..] == c.canon(y.text);
    }
  }

  ghost predicate SameNames(scope: string, category: string, scope': string, category': string) {
    OrElse(scope, "global") == OrElse(scope', "global") && OrElse(category, "other") == OrElse(category', "other")
  }

  lemma SameHead(scope: string, category: string, scope': string, category': string, k: string, k': string)
    requires '\0' !in OrElse(scope, "global") + OrElse(category, "other")
    requires '\0' !in OrElse(scope', "global") + OrElse(category', "other")
    ensures Head(scope, category) + k == Head(scope', category') + k' <==>
      SameNames(scope, category, scope', category') && k == k'
  {
    var a, b, a', b' :=
      OrElse(scope, "global"), OrElse(category, "other"), OrElse(scope', "global"), OrElse(category', "other");
    assert Head(scope, category) + k == a + "\0" + (b + "\0" + k);
    assert Head(scope', category') + k' == a' + "\0" + (b' + "\0" + k');
    SameUpToSeparator(a, a', b + "\0" + k, b' + "\0" + k');
    SameUpToSeparator(b, b', k, k');
  }

  lemma AlikeIs(x: Row, y: Row, c: Classifiers)
    ensures Alike(x, y, c) <==>
      SameNames(x.scope, x.category, y.scope, y.category) && DuplicateKey(x, c) != ""
      && DuplicateKey(x, c) == DuplicateKey(y, c)
  {
    SameName(x.scope, y.scope, "global");
    SameName(x.category, y.category, "other");
    SameDuplicateKey(x, y, c);
  }

  // Where names do without the separator, equal keys mean equal columns.
  lemma GroupIsColumns(s: State, x: Id, y: Id, c: Classifiers)
    requires x in s.rows && y in s.rows && Separable(s.rows[x]) && Separable(s.rows[y])
    ensures SameGroup(s, x, y, c) <==> Alike(s.rows[x], s.rows[y], c)
  {
    var a, b := s.rows[x], s.rows[y];
    SameHead(a.scope, a.category, b.scope, b.category, DuplicateKey(a, c), DuplicateKey(b, c));
    AlikeIs(a, b, c);
  }

  // How what follows the head of a key may begin.
  ghost predicate BeginsKey(w: string) {
    "text:" <= w || ("fact:" <= w && Lower(w[5..]) == w[5..] && w[5..] != "" && !IsSpace(w[5]))
  }

  // Otherwise they need not: the head of a group key can be equal to another, or go on from it as a duplicate
  // key may begin.
  ghost predicate Confusable(head: string, other: string) {
    head == other || (head < other && BeginsKey(other[|head|..]))
  }

  ghost predicate Named(row: Row, scope: string, category: string) {
    row.scope == scope && row.category == category
  }

  ghost predicate TakenForDuplicates(x: Row, y: Row, c: Classifiers) {
    DuplicateKey(x, c) != "" && DuplicateKey(y, c) != "" && GroupKey(x, c) == GroupKey(y, c)
  }

  lemma Overlap(h: string, k: string, g: string, l: string)
    requires h + k == g + l && |h| <= |g|
    ensures h <= g && k == g[|h|..] + l
  {
    assert h == (h + k)[..|h|] && g == (g + l)[..|g|];
    assert k == (h + k)[|h|..];
  }

  lemma FactKeyBegins(row: Row, u: string, rest: string)
    requires u != "" && FactKey(row) == u + rest
    ensures Lower(u) == u && !IsSpace(u[0])
  {
    var raw := StrVal(row.metadata, "fact_key");
    var t := Trim(raw);
    TrimStartStops(raw);
    TrimEndKeeps(TrimStart(raw), 'x');
    assert Lower(t)[0] == u[0];
    LowerTwice(t);
    assert Lower(Lower(t)) == Lower(u) + Lower(rest);
    assert Lower(u) == Lower(Lower(t))[..|u|] && u == Lower(t)[..|u|];
  }

  lemma KeyGoesOn(row: Row, w: string, rest: string, c: Classifiers)
    requires DuplicateKey(row, c) == w + rest && w != "" && w[|w| - 1] == '\0'
    ensures BeginsKey(w)
  {
    var k := DuplicateKey(row, c);
    var tag := if FactKey(row) != "" then "fact:" else "text:";
    assert tag <= k && forall i :: 0 <= i < 5 ==> k[i] == tag[i] && tag[i] != '\0';
    assert k[|w| - 1] == '\0';
    assert w[..5] == k[..5] == tag;
    if FactKey(row) != "" {
      assert FactKey(row) == k[5..] == w[5..] + rest;
      FactKeyBegins(row, w[5..], rest);
    }
  }

  lemma TakenAreConfusable(x: Row, y: Row, c: Classifiers)
    requires TakenForDuplicates(x, y, c) && |Head(x.scope, x.category)| <= |Head(y.scope, y.category)|
    ensures Confusable(Head(x.scope, x.category), Head(y.scope, y.category))
  {
    var h, g := Head(x.scope, x.category), Head(y.scope, y.category);
    Overlap(h, DuplicateKey(x, c), g, DuplicateKey(y, c));
    if h != g { KeyGoesOn(x, g[|h|..], DuplicateKey(y, c), c); }
  }

  function Sample(text: string, scope: string, category: string, metadata: Metadata): Row {
    Row(text, category, scope, 0.0, 0, metadata, 0)
  }

  function Plainly(): Classifiers {
    Classifiers(_ => Safety(true, ""), s => s, _ => "", s => s, _ => false)
  }

  lemma TextKey(text: string, scope: string, category: string)
    requires text != ""
    ensures DuplicateKey(Sample(text, scope, category, map[]), Plainly()) == "text:" + text
  {
    assert Trim("") == "";
  }

  lemma FactKeyOf(key: string, scope: string, category: string)
    requires key != "" && Lower(key) == key && !IsSpace(key[0]) && !IsSpace(key[|key| - 1])
    ensures DuplicateKey(Sample("", scope, category, map["fact_key" := Str(key)]), Plainly()) == "fact:" + key
  {
    assert Trim(key) == key;
  }

  lemma LowerGoesOn(u: string, rest: string)
    requires Lower(u) == u && Lower(rest) == rest
    ensures Lower(u + rest) == u + rest
  {
    var all := u + rest;
    assert forall i :: 0 <= i < |u| ==> Lower(u)[i] == u[i] == all[i];
    assert forall i :: |u| <= i < |all| ==> Lower(rest)[i - |u|] == rest[i - |u|] == all[i];
  }

  lemma FactRow(u: string, scope: string, category: string) returns (x: Row)
    requires Lower(u) == u && u != "" && !IsSpace(u[0])
    ensures Named(x, scope, category) && DuplicateKey(x, Plainly()) == "fact:" + (u + "text:y")
  {
    LowerGoesOn(u, "text:y");
    x := Sample("", scope, category, map["fact_key" := Str(u + "text:y")]);
    FactKeyOf(u + "text:y", scope, category);
  }

  lemma TextRow(text: string, scope: string, category: string) returns (x: Row)
    requires text != ""
    ensures Named(x, scope, category) && DuplicateKey(x, Plainly()) == "text:" + text
  {
    x := Sample(text, scope, category, map[]);
    TextKey(text, scope, category);
  }

  lemma TagGoesOn(w: string, tag: string, rest: string)
    requires |tag| == 5 && tag <= w
    ensures tag + (w[5..] + rest) == w + rest
  {
  }

  // A row whose key is w and then that of the text "y".
  lemma RowWithKey(w: string, scope: string, category: string) returns (x: Row)
    requires w == "" || BeginsKey(w)
    ensures Named(x, scope, category) && DuplicateKey(x, Plainly()) == w + "text:y"
  {
    if w == "" {
      x := TextRow("y", scope, category);
    } else if "text:" <= w {
      x := TextRow(w[5..] + "text:y", scope, category);
      TagGoesOn(w, "text:", "text:y");
    } else {
      x := FactRow(w[5..], scope, category);
      TagGoesOn(w, "fact:", "text:y");
    }
  }

  lemma KeysMeet(x: Row, y: Row, c: Classifiers, w: string, k: string)
    requires k != "" && DuplicateKey(x, c) == w + k && DuplicateKey(y, c) == k
    requires Head(x.scope, x.category) + w == Head(y.scope, y.category)
    ensures TakenForDuplicates(x, y, c)
  {
    assert Head(x.scope, x.category) + (w + k) == (Head(x.scope, x.category) + w) + k;
  }

  lemma ConfusedRows(scope: string, category: string, scope': string, category': string)
    returns (x: Row, y: Row, c: Classifiers)
    requires Confusable(Head(scope, category), Head(scope', category'))
    ensures Named(x, scope, category) && Named(y, scope', category') && TakenForDuplicates(x, y, c)
  {
    var h, g := Head(scope, category), Head(scope', category');
    c := Plainly();
    x := RowWithKey(g[|h|..], scope, category);
    y := RowWithKey("", scope', category');
    KeysMeet(x, y, c, g[|h|..], "text:y");
  }

  // Rows of these two scopes and categories are taken for duplicates only when their columns agree: this holds
  // of all such rows exactly when the names are the same or neither head can be confused with the other.
  lemma GroupsFollowColumnsIff(scope: string, category: string, scope': string, category': string)
    ensures var h, g := Head(scope, category), Head(scope', category');
      (forall x, y, c :: Named(x, scope, category) && Named(y, scope', category') && TakenForDuplicates(x, y, c) ==>
        Alike(x, y, c))
      <==> SameNames(scope, category, scope', category') || !(Confusable(h, g) || Confusable(g, h))
  {
    var h, g := Head(scope, category), Head(scope', category');
    forall x, y, c | Named(x, scope, category) && Named(y, scope', category') && TakenForDuplicates(x, y, c)
      ensures SameNames(scope, category, scope', category') ==> Alike(x, y, c)
      ensures Confusable(h, g) || Confusable(g, h)
    {
      AlikeIs(x, y, c);
      if h == g { Overlap(h, DuplicateKey(x, c), g, DuplicateKey(y, c)); }
      if |h| <= |g| { TakenAreConfusable(x, y, c); } else { TakenAreConfusable(y, x, c); }
    }
    if !SameNames(scope, category, scope', category') && Confusable(h, g) {
      var x, y, c := ConfusedRows(scope, category, scope', category');
      AlikeIs(x, y, c);
    }
    if !SameNames(scope, category, scope', category') && Confusable(g, h) {
      var y, x, c := ConfusedRows(scope', category', scope, category);
      AlikeIs(x, y, c);
    }
  }

  // ---------------------------------------------------------------- building the report

  // soft: candidates in insertion order with their entry; hard likewise.
  datatype Report = Report(order: seq<Id>, soft: map<Id, Candidate>, hard: seq<Id>)

  // The rows to hard-delete, in listing order.
  function HardSeq(s: State, listing: seq<Id>, c: Classifiers): (r: seq<Id>)
    ensures forall id :: id in r <==> IsHard(s, listing, id, c)
  {
    if listing == [] then []
    else
      var n := |listing| - 1;
      assert listing == listing[..n] + [listing[n]];
      var before := HardSeq(s, listing[..n], c);
      if listing[n] in s.rows && !IsArchived(s.rows[listing[n]]) && IsSecret(s.rows[listing[n]], c)
      then before + [listing[n]] else before
  }

  // Where the id stands in the list; its length if it does not.
  function Place(ids: seq<Id>, id: Id): (r: nat)
    ensures r <= |ids| && (r < |ids| ==> ids[r] == id) && (r == |ids| ==> id !in ids)
  {
    if ids == [] then 0
    else
      var n := |ids| - 1;
      assert ids == ids[..n] + [ids[n]];
      var before := Place(ids[..n], id);
      if before < n then before else if ids[n] == id then n else n + 1
  }

  predicate Member(s: State, scanned: set<Id>, id: Id, key: string, c: Classifiers) {
    id in scanned && id in s.rows && DuplicateKey(s.rows[id], c) != "" && GroupKey(s.rows[id], c) == key
  }

  // Where the first member of the group stands.
  function LeadPlace(s: State, ids: seq<Id>, key: string, c: Classifiers): (r: nat)
    ensures r <= |ids| && (r < |ids| ==> Member(s, {ids[r]}, ids[r], key, c))
  {
    if ids == [] then 0
    else
      var n := |ids| - 1;
      var before := LeadPlace(s, ids[..n], key, c);
      if before < n then before else if Member(s, {ids[n]}, ids[n], key, c) then n else n + 1
  }

  // Rows with a reason of their own come first, as they are listed. Duplicates follow group by group, as the
  // first rows of their groups are listed, and the older before the younger.
  ghost predicate Comes(s: State, active: seq<Id>, x: Id, y: Id, c: Classifiers) {
    && x in s.rows && y in s.rows
    && match (OwnReason(s.rows[x], c), OwnReason(s.rows[y], c))
       case (Some(_), None) => true
       case (None, Some(_)) => false
       case (Some(_), Some(_)) => Place(active, x) < Place(active, y)
       case (None, None) =>
         var k, l := GroupKey(s.rows[x], c), GroupKey(s.rows[y], c);
         if k == l then Older(s, x, y) else LeadPlace(s, active, k, c) < LeadPlace(s, active, l, c)
  }

  ghost predicate InOrder(s: State, active: seq<Id>, order: seq<Id>, c: Classifiers) {
    forall i, j :: 0 <= i < j < |order| ==> Comes(s, active, order[i], order[j], c)
  }

  function ActiveSeq(s: State, listing: seq<Id>): seq<Id> {
    if listing == [] then []
    else
      var n := |listing| - 1;
      var before := ActiveSeq(s, listing[..n]);
      if listing[n] in s.rows && !IsArchived(s.rows[listing[n]]) then before + [listing[n]] else before
  }

  ghost predicate ReportOk(s: State, listing: seq<Id>, r: Report, c: Classifiers) {
    && NoDup(r.order)
    && (forall id :: id in r.order <==> id in r.soft)
    && (forall id :: id in r.soft <==> IsSoft(s, listing, id, c))
    && (forall id :: id in r.soft ==> CandidateOk(s, listing, id, r.soft[id], c))
    && InOrder(s, ActiveSeq(s, listing), r.order, c)
    && r.hard == HardSeq(s, listing, c)
  }

  // ---------------------------------------------------------------- the order of the candidates

  lemma InOrderInit(s: State, active: seq<Id>, ids: seq<Id>, c: Classifiers)
    requires ids != [] && NoDup(ids) && InOrder(s, active, ids, c)
    ensures NoDup(ids[..|ids| - 1]) && InOrder(s, active, ids[..|ids| - 1], c)
  {
  }

  lemma LastComes(s: State, active: seq<Id>, ids: seq<Id>, x: Id, c: Classifiers)
    requires InOrder(s, active, ids, c) && x in ids
    ensures x == ids[|ids| - 1] || Comes(s, active, x, ids[|ids| - 1], c)
  {
    var i :| 0 <= i < |ids| && ids[i] == x;
  }

  lemma NotBoth(s: State, active: seq<Id>, x: Id, y: Id, c: Classifiers)
    ensures !(Comes(s, active, x, y, c) && Comes(s, active, y, x, c))
  {
  }

  lemma SameLast(s: State, active: seq<Id>, some: seq<Id>, other: seq<Id>, c: Classifiers)
    requires some != [] && other != [] && InOrder(s, active, some, c) && InOrder(s, active, other, c)
    requires forall id: Id :: id in some <==> id in other
    ensures some[|some| - 1] == other[|other| - 1]
  {
    var x, y := some[|some| - 1], other[|other| - 1];
    LastComes(s, active, other, x, c);
    LastComes(s, active, some, y, c);
    NotBoth(s, active, x, y, c);
  }

  lemma {:induction false} InOrderOnce(s: State, active: seq<Id>, some: seq<Id>, other: seq<Id>, c: Classifiers)
    requires NoDup(some) && NoDup(other) && InOrder(s, active, some, c) && InOrder(s, active, other, c)
    requires forall id: Id :: id in some <==> id in other
    ensures some == other
  {
    assert (some != [] ==> some[0] in some) && (other != [] ==> other[0] in other);
    if some != [] {
      var m, n := |some| - 1, |other| - 1;
      SameLast(s, active, some, other, c);
      SameInit(some, m, other, n);
      InOrderInit(s, active, some, c);
      InOrderInit(s, active, other, c);
      InOrderOnce(s, active, some[..m], other[..n], c);
      PrefixGrows(some, m);
      PrefixGrows(other, n);
      assert some[..m + 1] == some && other[..n + 1] == other;
    }
  }

  lemma SameCandidate(s: State, listing: seq<Id>, id: Id, some: Candidate, other: Candidate, c: Classifiers)
    requires CandidateOk(s, listing, id, some, c) && CandidateOk(s, listing, id, other, c)
    ensures some == other
  {
    if OwnReason(s.rows[id], c).None? {
      var k, l := some.supersededBy.value, other.supersededBy.value;
      assert k != l ==> Older(s, k, l) && Older(s, l, k);
    }
  }

  // The report is determined: for the same listing there is only one.
  lemma ReportIsUnique(s: State, listing: seq<Id>, r: Report, q: Report, c: Classifiers)
    requires ReportOk(s, listing, r, c) && ReportOk(s, listing, q, c)
    ensures r == q
  {
    forall id: Id ensures id in r.order <==> id in q.order { assert id in r.soft <==> id in q.soft; }
    InOrderOnce(s, ActiveSeq(s, listing), r.order, q.order, c);
    forall id | id in r.soft ensures id in q.soft && r.soft[id] == q.soft[id] {
      assert IsSoft(s, listing, id, c) && id in q.soft;
      SameCandidate(s, listing, id, r.soft[id], q.soft[id], c);
    }
    assert r.soft.Keys == q.soft.Keys;
  }

  // ---------------------------------------------------------------- the loops

  function Filtered(s: State, active: seq<Id>, c: Classifiers): seq<Id> {
    if active == [] then []
    else
      var n := |active| - 1;
      var before := Filtered(s, active[..n], c);
      if active[n] in s.rows && IsSecret(s.rows[active[n]], c) then before + [active[n]] else before
  }

  lemma {:induction false} HardSeqIsShort(s: State, listing: seq<Id>, c: Classifiers)
    ensures |HardSeq(s, listing, c)| <= |listing|
  {
    if listing != [] { HardSeqIsShort(s, listing[..|listing| - 1], c); }
  }

  lemma {:induction false} HardIsFiltered(s: State, listing: seq<Id>, c: Classifiers)
    ensures HardSeq(s, listing, c) == Filtered(s, ActiveSeq(s, listing), c)
  {
    if listing != [] {
      var n := |listing| - 1;
      HardIsFiltered(s, listing[..n], c);
      var before := ActiveSeq(s, listing[..n]);
      assert (before + [listing[n]])[..|before|] == before;
    }
  }

  ghost predicate InItsBucket(buckets: map<string, seq<Id>>, id: Id, key: string) {
    key in buckets && id in buckets[key]
  }

  // Each bucket holds exactly the scanned rows of its group.
  ghost predicate BucketsOk(s: State, scanned: set<Id>, buckets: map<string, seq<Id>>, c: Classifiers) {
    && (forall key :: key in buckets ==> buckets[key] != [] && NoDup(buckets[key]))
    && (forall key, id :: key in buckets && id in buckets[key] ==> Member(s, scanned, id, key, c))
    && (forall id :: id in scanned && id in s.rows && DuplicateKey(s.rows[id], c) != "" ==>
          InItsBucket(buckets, id, GroupKey(s.rows[id], c)))
  }

  // The keys are in the order in which their groups begin.
  ghost predicate KeysAscend(s: State, ids: seq<Id>, keys: seq<string>, c: Classifiers) {
    forall a, b :: 0 <= a < b < |keys| ==> LeadPlace(s, ids, keys[a], c) < LeadPlace(s, ids, keys[b], c)
  }

  // The keys in the order in which their groups begin.
  ghost predicate KeysOk(s: State, ids: seq<Id>, keys: seq<string>, buckets: map<string, seq<Id>>, c: Classifiers) {
    && (forall key :: key in keys <==> key in buckets)
    && (forall key :: key in keys ==> LeadPlace(s, ids, key, c) < |ids|)
    && KeysAscend(s, ids, keys, c)
  }

  lemma LeadPlaceMore(s: State, ids: seq<Id>, id: Id, key: string, c: Classifiers)
    ensures LeadPlace(s, ids + [id], key, c) ==
      if LeadPlace(s, ids, key, c) < |ids| then LeadPlace(s, ids, key, c)
      else if Member(s, {id}, id, key, c) then |ids| else |ids| + 1
  {
    assert (ids + [id])[..|ids|] == ids;
  }

  lemma OldKeys(s: State, ids: seq<Id>, id: Id, keys: seq<string>, buckets: map<string, seq<Id>>, c: Classifiers)
    requires KeysOk(s, ids, keys, buckets, c)
    ensures forall key :: key in keys ==> LeadPlace(s, ids + [id], key, c) == LeadPlace(s, ids, key, c)
    ensures KeysOk(s, ids + [id], keys, buckets, c)
  {
    forall key | key in keys ensures LeadPlace(s, ids + [id], key, c) == LeadPlace(s, ids, key, c) {
      LeadPlaceMore(s, ids, id, key, c);
    }
    assert forall a :: 0 <= a < |keys| ==> keys[a] in keys;
  }

  lemma LeadIsKnown(s: State, ids: seq<Id>, buckets: map<string, seq<Id>>, key: string, c: Classifiers)
    requires BucketsOk(s, Elems(ids), buckets, c)
    ensures LeadPlace(s, ids, key, c) < |ids| ==> key in buckets
  {
    var at := LeadPlace(s, ids, key, c);
    if at < |ids| { assert ids[at] in Elems(ids); }
  }

  lemma KeyComesLast(s: State, ids: seq<Id>, keys: seq<string>, key: string, c: Classifiers)
    requires KeysAscend(s, ids, keys, c)
    requires forall k :: k in keys ==> LeadPlace(s, ids, k, c) < LeadPlace(s, ids, key, c)
    ensures KeysAscend(s, ids, keys + [key], c)
  {
    assert forall a :: 0 <= a < |keys| ==> keys[a] in keys;
  }

  lemma NewKey(s: State, ids: seq<Id>, id: Id, keys: seq<string>, buckets: map<string, seq<Id>>, bucket: seq<Id>,
               c: Classifiers)
    requires KeysOk(s, ids, keys, buckets, c) && BucketsOk(s, Elems(ids), buckets, c) && id in s.rows
    requires DuplicateKey(s.rows[id], c) != "" && GroupKey(s.rows[id], c) !in buckets
    ensures KeysOk(s, ids + [id], keys + [GroupKey(s.rows[id], c)], buckets[GroupKey(s.rows[id], c) := bucket], c)
  {
    var key := GroupKey(s.rows[id], c);
    OldKeys(s, ids, id, keys, buckets, c);
    LeadPlaceMore(s, ids, id, key, c);
    LeadIsKnown(s, ids, buckets, key, c);
    KeyComesLast(s, ids + [id], keys, key, c);
    var more := keys + [key];
    forall k ensures k in more <==> k in keys || k == key {}
  }

  lemma AppendNoDup(ids: seq<Id>, id: Id)
    requires NoDup(ids) && id !in ids
    ensures NoDup(ids + [id])
  {
    assert forall i :: 0 <= i < |ids| ==> ids[i] in ids;
  }

  lemma FillBucket(s: State, scanned: set<Id>, buckets: map<string, seq<Id>>, id: Id, bucket: seq<Id>, c: Classifiers)
    requires BucketsOk(s, scanned, buckets, c) && id in s.rows && DuplicateKey(s.rows[id], c) != "" && id !in scanned
    requires bucket == var key := GroupKey(s.rows[id], c); if key in buckets then buckets[key] else []
    ensures BucketsOk(s, scanned + {id}, buckets[GroupKey(s.rows[id], c) := bucket + [id]], c)
  {
    var r := buckets[GroupKey(s.rows[id], c) := bucket + [id]];
    forall k, x | k in r && x in r[k] ensures Member(s, scanned + {id}, x, k, c) {
      if k in buckets && x in buckets[k] { assert Member(s, scanned, x, k, c); }
    }
    forall x | x in bucket ensures x != id {
      assert Member(s, scanned, x, GroupKey(s.rows[id], c), c);
    }
    AppendNoDup(bucket, id);
    forall x | x in scanned + {id} && x in s.rows && DuplicateKey(s.rows[x], c) != ""
      ensures InItsBucket(r, x, GroupKey(s.rows[x], c))
    {
      if x != id { assert InItsBucket(buckets, x, GroupKey(s.rows[x], c)); }
    }
  }

  method AddToBucket(s: State, ghost ids: seq<Id>, keys0: seq<string>, buckets0: map<string, seq<Id>>, id: Id,
                     c: Classifiers)
    returns (keys: seq<string>, buckets: map<string, seq<Id>>)
    requires BucketsOk(s, Elems(ids), buckets0, c) && KeysOk(s, ids, keys0, buckets0, c) && id in s.rows && id !in ids
    ensures BucketsOk(s, Elems(ids) + {id}, buckets, c) && KeysOk(s, ids + [id], keys, buckets, c)
  {
    keys, buckets := keys0, buckets0;
    OldKeys(s, ids, id, keys, buckets, c);
    if DuplicateKey(s.rows[id], c) != "" {
      var key := GroupKey(s.rows[id], c);
      var bucket := if key in buckets then buckets[key] else [];
      if key !in buckets {
        NewKey(s, ids, id, keys, buckets, bucket + [id], c);
        keys := keys + [key];
      }
      FillBucket(s, Elems(ids), buckets, id, bucket, c);
      buckets := buckets[key := bucket + [id]];
    }
  }

  // Each is older than those after it.
  ghost predicate ByAge(s: State, ids: seq<Id>) {
    forall i, j :: 0 <= i < j < |ids| ==> Older(s, ids[i], ids[j])
  }

  lemma ByAgeJoin(s: State, x: seq<Id>, y: seq<Id>)
    requires ByAge(s, x) && ByAge(s, y)
    requires forall i, j :: 0 <= i < |x| && 0 <= j < |y| ==> Older(s, x[i], y[j])
    ensures ByAge(s, x + y)
  {
  }

  lemma InsertByAge(s: State, sorted: seq<Id>, k: nat, id: Id)
    requires ByAge(s, sorted) && k <= |sorted| && id in s.rows && id !in sorted
    requires forall x :: x in sorted ==> x in s.rows
    requires forall a :: k <= a < |sorted| ==> Older(s, id, sorted[a])
    requires k > 0 ==> !Older(s, id, sorted[k - 1])
    ensures ByAge(s, sorted[..k] + [id] + sorted[k..])
    ensures forall x: Id :: x in sorted[..k] + [id] + sorted[k..] <==> x in sorted || x == id
  {
    forall a | 0 <= a < k ensures Older(s, sorted[a], id) {
      assert sorted[a] in sorted && sorted[k - 1] in sorted;
      assert a < k - 1 ==> Older(s, sorted[a], sorted[k - 1]);
    }
    var head, tail := sorted[..k], sorted[k..];
    assert sorted == head + tail;
    ByAgeJoin(s, head, [id]);
    ByAgeJoin(s, head + [id], tail);
  }

  // The sort of a bucket, as an insertion sort.
  method SortByAge(s: State, bucket: seq<Id>) returns (sorted: seq<Id>)
    requires NoDup(bucket) && forall id :: id in bucket ==> id in s.rows
    ensures ByAge(s, sorted) && |sorted| == |bucket| && forall id: Id :: id in sorted <==> id in bucket
  {
    sorted := [];
    for i := 0 to |bucket|
      invariant ByAge(s, sorted) && |sorted| == i && forall id: Id :: id in sorted <==> id in bucket[..i]
    {
      assert bucket[..i + 1] == bucket[..i] + [bucket[i]] && bucket[i] !in bucket[..i];
      var k := i;
      while k > 0 && Older(s, bucket[i], sorted[k - 1])
        invariant 0 <= k <= i && forall a :: k <= a < i ==> Older(s, bucket[i], sorted[a])
      {
        k := k - 1;
      }
      InsertByAge(s, sorted, k, bucket[i]);
      sorted := sorted[..k] + [bucket[i]] + sorted[k..];
    }
    assert bucket[..|bucket|] == bucket;
  }

  // Of these rows, those with a reason of their own are in order, with that reason.
  ghost predicate OwnOk(s: State, rows: seq<Id>, order: seq<Id>, soft: map<Id, Candidate>, c: Classifiers) {
    && NoDup(order) && (forall id :: id in order <==> id in soft)
    && (forall id :: id in rows ==> id in s.rows)
    && (forall id :: id in soft <==> id in rows && OwnReason(s.rows[id], c).Some?)
    && (forall id :: id in soft ==> soft[id] == Candidate(OwnReason(s.rows[id], c).value, None))
  }

  lemma OneMoreOwn(s: State, rows: seq<Id>, order: seq<Id>, soft: map<Id, Candidate>, id: Id, reason: Option<string>,
                   c: Classifiers)
    requires OwnOk(s, rows, order, soft, c) && id !in rows && id in s.rows && reason == OwnReason(s.rows[id], c)
    ensures if reason.Some?
      then OwnOk(s, rows + [id], order + [id], soft[id := Candidate(reason.value, None)], c)
      else OwnOk(s, rows + [id], order, soft, c)
  {
  }

  // In the order in which they stand in the list.
  ghost predicate AsListed(ids: seq<Id>, order: seq<Id>) {
    && (forall id :: id in order ==> id in ids)
    && forall i, j :: 0 <= i < j < |order| ==> Place(ids, order[i]) < Place(ids, order[j])
  }

  lemma PlaceMore(ids: seq<Id>, id: Id, x: Id)
    ensures Place(ids + [id], x) ==
      if x in ids then Place(ids, x) else if x == id then |ids| else |ids| + 1
  {
    assert (ids + [id])[..|ids|] == ids;
  }

  lemma AsListedMore(ids: seq<Id>, order: seq<Id>, id: Id)
    requires AsListed(ids, order) && id !in ids
    ensures AsListed(ids + [id], order) && AsListed(ids + [id], order + [id])
  {
    forall x | x in order ensures Place(ids + [id], x) == Place(ids, x) < |ids| { PlaceMore(ids, id, x); }
    PlaceMore(ids, id, id);
    var more := order + [id];
    assert forall i :: 0 <= i < |order| ==> order[i] in order && more[i] == order[i];
  }

  // What the first loop has made of these rows.
  ghost predicate Scanned(s: State, ids: seq<Id>, order: seq<Id>, soft: map<Id, Candidate>, hard: seq<Id>,
                          keys: seq<string>, buckets: map<string, seq<Id>>, c: Classifiers) {
    && OwnOk(s, ids, order, soft, c) && AsListed(ids, order) && hard == Filtered(s, ids, c)
    && BucketsOk(s, Elems(ids), buckets, c) && KeysOk(s, ids, keys, buckets, c)
  }

  lemma ElemsMore(ids: seq<Id>, id: Id)
    ensures Elems(ids + [id]) == Elems(ids) + {id}
  {
  }

  lemma FilteredMore(s: State, ids: seq<Id>, id: Id, c: Classifiers)
    ensures Filtered(s, ids + [id], c) ==
      Filtered(s, ids, c) + (if id in s.rows && IsSecret(s.rows[id], c) then [id] else [])
  {
    assert (ids + [id])[..|ids|] == ids;
  }

  // One pass of the first loop.
  method ScanRow(s: State, ghost ids: seq<Id>, id: Id, order0: seq<Id>, soft0: map<Id, Candidate>, hard0: seq<Id>,
                 keys0: seq<string>, buckets0: map<string, seq<Id>>, c: Classifiers)
    returns (order: seq<Id>, soft: map<Id, Candidate>, hard: seq<Id>, keys: seq<string>, buckets: map<string, seq<Id>>)
    requires Scanned(s, ids, order0, soft0, hard0, keys0, buckets0, c) && id in s.rows && id !in ids
    ensures Scanned(s, ids + [id], order, soft, hard, keys, buckets, c)
  {
    order, soft, hard := order0, soft0, hard0;
    var reason := OwnReason(s.rows[id], c);
    OneMoreOwn(s, ids, order, soft, id, reason, c);
    AsListedMore(ids, order, id);
    if reason.Some? {
      order := order + [id];
      soft := soft[id := Candidate(reason.value, None)];
    }
    FilteredMore(s, ids, id, c);
    if IsSecret(s.rows[id], c) { hard := hard + [id]; }
    keys, buckets := AddToBucket(s, ids, keys0, buckets0, id, c);
    ElemsMore(ids, id);
  }

  // The first loop of buildForgettingReport: own reasons, secrets and duplicate buckets.
  method ScanRows(s: State, active: seq<Id>, c: Classifiers)
    returns (order: seq<Id>, soft: map<Id, Candidate>, hard: seq<Id>, keys: seq<string>, buckets: map<string, seq<Id>>)
    requires NoDup(active) && forall id :: id in active ==> id in s.rows
    ensures Scanned(s, active, order, soft, hard, keys, buckets, c)
  {
    order, soft, hard, keys, buckets := [], map[], [], [], map[];
    for i := 0 to |active|
      invariant Scanned(s, active[..i], order, soft, hard, keys, buckets, c)
    {
      PrefixGrows(active, i);
      order, soft, hard, keys, buckets := ScanRow(s, active[..i], active[i], order, soft, hard, keys, buckets, c);
    }
    assert active[..|active|] == active;
  }

  // The candidates of one more bucket.
  ghost predicate FromBucket(s: State, bucket: seq<Id>, keep: Id, before: map<Id, Candidate>,
                             soft: map<Id, Candidate>) {
    && keep in bucket && (forall id :: id in bucket && id != keep ==> Older(s, keep, id))
    && (forall id :: id in soft <==> id in before || (id in bucket && id != keep))
    && forall id :: id in soft ==>
        soft[id] == if id in before then before[id] else Candidate("duplicate-memory", Some(keep))
  }

  lemma OldestFirst(s: State, sorted: seq<Id>)
    requires sorted != [] && ByAge(s, sorted)
    ensures forall id :: id in sorted && id != sorted[0] ==> Older(s, sorted[0], id)
  {
  }

  lemma AppendByAge(s: State, sorted: seq<Id>, i: nat, added: seq<Id>)
    requires ByAge(s, sorted) && i < |sorted| && ByAge(s, added) && forall id :: id in added ==> id in sorted[..i]
    ensures ByAge(s, added + [sorted[i]])
  {
    forall a | 0 <= a < |added| ensures Older(s, added[a], sorted[i]) { assert added[a] in added; }
  }

  // The loop over one bucket: everything but its oldest row is a duplicate.
  method ArchiveBucket(s: State, bucket: seq<Id>, order0: seq<Id>, soft0: map<Id, Candidate>)
    returns (order: seq<Id>, soft: map<Id, Candidate>, keep: Id, ghost added: seq<Id>)
    requires bucket != [] && NoDup(bucket) && forall id :: id in bucket ==> id in s.rows
    requires forall id :: id in order0 <==> id in soft0
    ensures FromBucket(s, bucket, keep, soft0, soft) && forall id :: id in order <==> id in soft
    ensures order == order0 + added && ByAge(s, added) && forall id: Id :: id in added ==> id in bucket && id !in soft0
  {
    order, soft, added := order0, soft0, [];
    var sorted := SortByAge(s, bucket);
    keep := sorted[0];
    assert keep in sorted;
    for i := 1 to |sorted|
      invariant order == order0 + added && ByAge(s, added)
      invariant forall id: Id :: id in added <==> id in sorted[..i] && id != keep && id !in soft0
      invariant soft.Keys == soft0.Keys + Elems(added)
      invariant forall id :: id in soft ==>
        soft[id] == if id in soft0 then soft0[id] else Candidate("duplicate-memory", Some(keep))
    {
      assert sorted[..i + 1] == sorted[..i] + [sorted[i]];
      var id := sorted[i];
      assert Older(s, keep, id);
      if id !in soft {
        AppendByAge(s, sorted, i, added);
        order := order + [id];
        soft := soft[id := Candidate("duplicate-memory", Some(keep))];
        added := added + [id];
      }
    }
    assert sorted[..|sorted|] == sorted;
    OldestFirst(s, sorted);
  }

  method ActiveRows(s: State, listing: seq<Id>) returns (active: seq<Id>)
    requires NoDup(listing)
    ensures NoDup(active) && active == ActiveSeq(s, listing)
    ensures forall id :: id in active <==> Active(s, listing, id)
  {
    active := [];
    for i := 0 to |listing|
      invariant NoDup(active) && active == ActiveSeq(s, listing[..i])
      invariant forall id :: id in active <==> id in listing[..i] && id in s.rows && !IsArchived(s.rows[id])
    {
      assert listing[..i + 1] == listing[..i] + [listing[i]] && listing[i] !in listing[..i];
      assert listing[..i + 1][..i] == listing[..i];
      if listing[i] in s.rows && !IsArchived(s.rows[listing[i]]) { active := active + [listing[i]]; }
    }
    assert listing[..|listing|] == listing;
  }

  // A candidate that entered as a duplicate.
  ghost predicate DuplicateEntry(s: State, listing: seq<Id>, id: Id, cand: Candidate, c: Classifiers) {
    && IsDuplicate(s, listing, id, c) && cand.reason == "duplicate-memory"
    && cand.supersededBy.Some? && Keeps(s, listing, cand.supersededBy.value, id, c)
  }

  // A row of a bucket other than its oldest is a duplicate, superseded by that oldest row.
  lemma BucketMakesDuplicates(s: State, listing: seq<Id>, active: seq<Id>, buckets: map<string, seq<Id>>,
                              key: string, keep: Id, id: Id, c: Classifiers)
    requires (forall x :: x in active <==> Active(s, listing, x)) && BucketsOk(s, Elems(active), buckets, c)
    requires key in buckets && keep in buckets[key] && id in buckets[key] && id != keep
    requires forall x :: x in buckets[key] && x != keep ==> Older(s, keep, x)
    ensures Active(s, listing, id) && IsDuplicate(s, listing, id, c) && Keeps(s, listing, keep, id, c)
  {
    assert Member(s, Elems(active), keep, key, c) && Member(s, Elems(active), id, key, c);
    assert Active(s, listing, keep) && SameGroup(s, keep, id, c) && Older(s, keep, id);
    forall x | Active(s, listing, x) && SameGroup(s, x, id, c) && x != keep ensures Older(s, keep, x) {
      assert x in active && x in buckets[key];
    }
  }

  // A duplicate sits in its group's bucket and is not the oldest there.
  lemma KeeperIsNoDuplicate(s: State, listing: seq<Id>, active: seq<Id>, buckets: map<string, seq<Id>>,
                            key: string, keep: Id, id: Id, c: Classifiers)
    requires (forall x :: x in active <==> Active(s, listing, x)) && BucketsOk(s, Elems(active), buckets, c)
    requires IsDuplicate(s, listing, id, c) && GroupKey(s.rows[id], c) == key
    requires key in buckets && forall x :: x in buckets[key] && x != keep ==> Older(s, keep, x)
    ensures id in buckets[key] && id != keep
  {
    var x :| Active(s, listing, x) && SameGroup(s, x, id, c) && Older(s, x, id);
    assert x in active && id in active;
    assert x in buckets[key] && id in buckets[key];
  }

  // The rows with a reason of their own.
  ghost predicate OwnOf(s: State, active: seq<Id>, own: map<Id, Candidate>, c: Classifiers) {
    && (forall id :: id in own <==> id in active && id in s.rows && OwnReason(s.rows[id], c).Some?)
    && (forall id :: id in own ==> own[id] == Candidate(OwnReason(s.rows[id], c).value, None))
  }

  // The candidates there are once the first a groups have been archived: own gives those with a reason of
  // their own.
  ghost predicate Grown(s: State, listing: seq<Id>, own: map<Id, Candidate>, soft: map<Id, Candidate>,
                        keys: seq<string>, c: Classifiers) {
    && (forall id :: id in own ==> id in soft && soft[id] == own[id])
    && (forall id :: id in soft && id !in own ==>
          DuplicateEntry(s, listing, id, soft[id], c) && GroupKey(s.rows[id], c) in keys)
    && (forall id :: IsDuplicate(s, listing, id, c) && GroupKey(s.rows[id], c) in keys ==> id in soft)
  }

  lemma GrowsBy(s: State, listing: seq<Id>, active: seq<Id>, buckets: map<string, seq<Id>>, own: map<Id, Candidate>,
                before: map<Id, Candidate>, soft: map<Id, Candidate>, keys: seq<string>, key: string, keep: Id,
                c: Classifiers)
    requires (forall x :: x in active <==> Active(s, listing, x)) && BucketsOk(s, Elems(active), buckets, c)
    requires Grown(s, listing, own, before, keys, c) && key in buckets
    requires FromBucket(s, buckets[key], keep, before, soft)
    ensures Grown(s, listing, own, soft, keys + [key], c)
  {
    forall id | id in soft && id !in own
      ensures DuplicateEntry(s, listing, id, soft[id], c) && GroupKey(s.rows[id], c) in keys + [key]
    {
      if id !in before {
        BucketMakesDuplicates(s, listing, active, buckets, key, keep, id, c);
        assert Member(s, Elems(active), id, key, c);
      }
    }
    forall id | IsDuplicate(s, listing, id, c) && GroupKey(s.rows[id], c) in keys + [key] ensures id in soft {
      if GroupKey(s.rows[id], c) == key { KeeperIsNoDuplicate(s, listing, active, buckets, key, keep, id, c); }
    }
  }

  // What stands in the order so far: rows with a reason of their own, and rows of the groups before the a-th.
  ghost predicate Earlier(s: State, order: seq<Id>, keys: seq<string>, a: nat, c: Classifiers) {
    a <= |keys| && forall id :: id in order ==>
      id in s.rows && (OwnReason(s.rows[id], c).Some? || GroupKey(s.rows[id], c) in keys[..a])
  }

  // What the next group adds.
  ghost predicate Addition(s: State, added: seq<Id>, key: string, c: Classifiers) {
    && ByAge(s, added)
    && forall id :: id in added ==>
        id in s.rows && OwnReason(s.rows[id], c).None? && GroupKey(s.rows[id], c) == key
  }

  lemma AddedComesLater(s: State, active: seq<Id>, keys: seq<string>, buckets: map<string, seq<Id>>, a: nat,
                        x: Id, y: Id, c: Classifiers)
    requires KeysOk(s, active, keys, buckets, c) && a < |keys| && x in s.rows && y in s.rows
    requires OwnReason(s.rows[x], c).Some? || GroupKey(s.rows[x], c) in keys[..a]
    requires OwnReason(s.rows[y], c).None? && GroupKey(s.rows[y], c) == keys[a]
    ensures Comes(s, active, x, y, c)
  {
    if OwnReason(s.rows[x], c).None? {
      var b :| 0 <= b < a && keys[b] == GroupKey(s.rows[x], c);
      assert LeadPlace(s, active, keys[b], c) < LeadPlace(s, active, keys[a], c);
    }
  }

  lemma OrderGrows(s: State, active: seq<Id>, keys: seq<string>, buckets: map<string, seq<Id>>, a: nat,
                   order: seq<Id>, added: seq<Id>, c: Classifiers)
    requires KeysOk(s, active, keys, buckets, c) && a < |keys|
    requires InOrder(s, active, order, c) && Earlier(s, order, keys, a, c) && Addition(s, added, keys[a], c)
    ensures InOrder(s, active, order + added, c) && Earlier(s, order + added, keys, a + 1, c)
  {
    var all := order + added;
    assert keys[..a + 1] == keys[..a] + [keys[a]];
    forall i, j | 0 <= i < j < |all| ensures Comes(s, active, all[i], all[j], c) {
      if j < |order| {
        assert all[i] == order[i] && all[j] == order[j];
      } else if i < |order| {
        assert all[i] in order && all[j] in added;
        AddedComesLater(s, active, keys, buckets, a, all[i], all[j], c);
      } else {
        assert all[i] == added[i - |order|] && all[j] == added[j - |order|];
        assert all[i] in added && all[j] in added;
      }
    }
  }

  lemma BucketRows(s: State, active: seq<Id>, buckets: map<string, seq<Id>>, key: string, c: Classifiers)
    requires BucketsOk(s, Elems(active), buckets, c) && key in buckets
    ensures buckets[key] != [] && NoDup(buckets[key])
    ensures forall id :: id in buckets[key] ==> id in s.rows && id in active && GroupKey(s.rows[id], c) == key
  {
    forall id | id in buckets[key] ensures id in s.rows && id in active && GroupKey(s.rows[id], c) == key {
      assert Member(s, Elems(active), id, key, c);
    }
  }

  lemma IsAddition(s: State, active: seq<Id>, own: map<Id, Candidate>, soft: map<Id, Candidate>, keys: seq<string>,
                   key: string, bucket: seq<Id>, added: seq<Id>, listing: seq<Id>, c: Classifiers)
    requires OwnOf(s, active, own, c) && Grown(s, listing, own, soft, keys, c) && ByAge(s, added)
    requires forall id :: id in bucket ==> id in s.rows && id in active && GroupKey(s.rows[id], c) == key
    requires forall id: Id :: id in added ==> id in bucket && id !in soft
    ensures Addition(s, added, key, c)
  {
  }

  // One pass of the second loop.
  method AddBucket(s: State, listing: seq<Id>, active: seq<Id>, keys: seq<string>, buckets: map<string, seq<Id>>,
                   a: nat, ghost own: map<Id, Candidate>, order0: seq<Id>, soft0: map<Id, Candidate>, c: Classifiers)
    returns (order: seq<Id>, soft: map<Id, Candidate>)
    requires (forall id :: id in active <==> Active(s, listing, id)) && BucketsOk(s, Elems(active), buckets, c)
    requires KeysOk(s, active, keys, buckets, c) && a < |keys| && forall id :: id in order0 <==> id in soft0
    requires OwnOf(s, active, own, c)
    requires Grown(s, listing, own, soft0, keys[..a], c)
    requires InOrder(s, active, order0, c) && Earlier(s, order0, keys, a, c)
    ensures forall id :: id in order <==> id in soft
    ensures Grown(s, listing, own, soft, keys[..a + 1], c)
    ensures InOrder(s, active, order, c) && Earlier(s, order, keys, a + 1, c)
  {
    var key := keys[a];
    PrefixGrows(keys, a);
    BucketRows(s, active, buckets, key, c);
    var keep; ghost var added;
    order, soft, keep, added := ArchiveBucket(s, buckets[key], order0, soft0);
    IsAddition(s, active, own, soft0, keys[..a], key, buckets[key], added, listing, c);
    GrowsBy(s, listing, active, buckets, own, soft0, soft, keys[..a], key, keep, c);
    OrderGrows(s, active, keys, buckets, a, order0, added, c);
  }

  lemma OwnAreInOrder(s: State, active: seq<Id>, order: seq<Id>, soft: map<Id, Candidate>, keys: seq<string>,
                      c: Classifiers)
    requires OwnOk(s, active, order, soft, c) && AsListed(active, order)
    ensures InOrder(s, active, order, c) && Earlier(s, order, keys, 0, c)
  {
    assert forall i :: 0 <= i < |order| ==> order[i] in order && order[i] in soft;
  }

  lemma InOrderHasNoDup(s: State, active: seq<Id>, order: seq<Id>, c: Classifiers)
    requires InOrder(s, active, order, c)
    ensures NoDup(order)
  {
    forall i, j | 0 <= i < j < |order| ensures order[i] != order[j] {
      assert Comes(s, active, order[i], order[j], c);
    }
  }

  // The second loop of buildForgettingReport.
  method AddDuplicates(s: State, listing: seq<Id>, active: seq<Id>, keys: seq<string>, buckets: map<string, seq<Id>>,
                       order0: seq<Id>, soft0: map<Id, Candidate>, c: Classifiers)
    returns (order: seq<Id>, soft: map<Id, Candidate>)
    requires (forall id :: id in active <==> Active(s, listing, id)) && BucketsOk(s, Elems(active), buckets, c)
    requires KeysOk(s, active, keys, buckets, c) && OwnOk(s, active, order0, soft0, c) && AsListed(active, order0)
    ensures forall id :: id in order <==> id in soft
    ensures Grown(s, listing, soft0, soft, keys, c) && InOrder(s, active, order, c)
  {
    order, soft := order0, soft0;
    OwnAreInOrder(s, active, order, soft, keys, c);
    for a := 0 to |keys|
      invariant forall id :: id in order <==> id in soft
      invariant Grown(s, listing, soft0, soft, keys[..a], c)
      invariant InOrder(s, active, order, c) && Earlier(s, order, keys, a, c)
    {
      order, soft := AddBucket(s, listing, active, keys, buckets, a, soft0, order, soft, c);
    }
    assert keys[..|keys|] == keys;
  }

  lemma Twin(s: State, listing: seq<Id>, id: Id, c: Classifiers) returns (x: Id)
    requires IsDuplicate(s, listing, id, c)
    ensures Active(s, listing, x) && SameGroup(s, x, id, c) && x != id
  {
    x :| Active(s, listing, x) && SameGroup(s, x, id, c) && Older(s, x, id);
  }

  lemma EveryCandidate(s: State, listing: seq<Id>, active: seq<Id>, own: map<Id, Candidate>, soft: map<Id, Candidate>,
                       keys: seq<string>, buckets: map<string, seq<Id>>, c: Classifiers)
    requires (forall id :: id in active <==> Active(s, listing, id)) && BucketsOk(s, Elems(active), buckets, c)
    requires (forall key :: key in keys <==> key in buckets) && Grown(s, listing, own, soft, keys, c)
    requires OwnOf(s, active, own, c)
    ensures forall id :: id in soft <==> IsSoft(s, listing, id, c)
    ensures forall id :: id in soft ==> CandidateOk(s, listing, id, soft[id], c)
  {
    forall id | id in soft ensures CandidateOk(s, listing, id, soft[id], c) {
      if id !in own { assert DuplicateEntry(s, listing, id, soft[id], c); }
    }
    forall id | IsSoft(s, listing, id, c) ensures id in soft {
      if OwnReason(s.rows[id], c).None? {
        assert IsDuplicate(s, listing, id, c) && id in active;
        var x := Twin(s, listing, id, c);
        assert GroupKey(s.rows[id], c) in buckets;
      }
    }
  }

  // src/forgetting.ts:150-225
  method BuildForgettingReport(s: State, listing: seq<Id>, c: Classifiers) returns (r: Report)
    requires NoDup(listing)
    ensures ReportOk(s, listing, r, c)
  {
    var active := ActiveRows(s, listing);
    var order0, soft0, hard, keys, buckets := ScanRows(s, active, c);
    var order, soft := AddDuplicates(s, listing, active, keys, buckets, order0, soft0, c);
    r := Report(order, soft, hard);
    InOrderHasNoDup(s, active, order, c);
    EveryCandidate(s, listing, active, soft0, soft, keys, buckets, c);
    HardIsFiltered(s, listing, c);
  }

  ghost predicate AllSeparable(s: State, listing: seq<Id>) {
    forall id :: id in listing && id in s.rows ==> Separable(s.rows[id])
  }

  // An active row that agrees with this one in scope, category and key, and is older.
  ghost predicate HasOlderTwin(s: State, listing: seq<Id>, id: Id, c: Classifiers) {
    exists x :: Active(s, listing, x) && Older(s, x, id) && Alike(s.rows[x], s.rows[id], c)
  }

  // keep agrees with this row in scope, category and key, and was written before all others that do.
  ghost predicate OldestTwin(s: State, listing: seq<Id>, keep: Id, id: Id, c: Classifiers) {
    && Active(s, listing, keep) && keep != id && id in s.rows && Alike(s.rows[keep], s.rows[id], c)
    && forall x :: Active(s, listing, x) && Alike(s.rows[x], s.rows[id], c) ==>
        s.rows[keep].timestamp < s.rows[x].timestamp || (s.rows[keep].timestamp == s.rows[x].timestamp && keep <= x)
  }

  lemma KeeperIsOldestTwin(s: State, listing: seq<Id>, keep: Id, id: Id, c: Classifiers)
    requires Keeps(s, listing, keep, id, c) && IsDuplicate(s, listing, id, c)
    requires forall x :: Active(s, listing, x) ==> (SameGroup(s, x, id, c) <==> Alike(s.rows[x], s.rows[id], c))
    ensures OldestTwin(s, listing, keep, id, c)
  {
    var x :| Active(s, listing, x) && SameGroup(s, x, id, c) && Older(s, x, id);
    assert x != keep ==> Older(s, keep, x);
  }

  // The candidates read off the columns: an active row is one exactly when it has a reason of its own or an
  // older twin, and one that has only the latter is superseded by the oldest of its twins.
  lemma CandidatesByColumns(s: State, listing: seq<Id>, r: Report, c: Classifiers, id: Id)
    requires ReportOk(s, listing, r, c) && AllSeparable(s, listing)
    ensures id in r.soft <==>
      Active(s, listing, id) && (OwnReason(s.rows[id], c).Some? || HasOlderTwin(s, listing, id, c))
    ensures id in r.soft && OwnReason(s.rows[id], c).None? ==>
      && r.soft[id].reason == "duplicate-memory" && r.soft[id].supersededBy.Some?
      && OldestTwin(s, listing, r.soft[id].supersededBy.value, id, c)
  {
    if Active(s, listing, id) {
      forall x | Active(s, listing, x) ensures SameGroup(s, x, id, c) <==> Alike(s.rows[x], s.rows[id], c) {
        GroupIsColumns(s, x, id, c);
      }
      if id in r.soft && OwnReason(s.rows[id], c).None? {
        KeeperIsOldestTwin(s, listing, r.soft[id].supersededBy.value, id, c);
      }
    } else {
      assert !IsSoft(s, listing, id, c);
    }
  }

  ghost predicate Refused(row: Row, c: Classifiers) {
    !c.safety(row.text).allowed && c.safety(row.text).reason != "secret"
  }

  ghost predicate TooShort(row: Row, c: Classifiers) {
    |Trim(c.sanitize(row.text))| <= 12
  }

  ghost predicate IsScratch(row: Row) {
    row.category == "other"
    && Lower(Trim(StrVal(row.metadata, "source"))) in {"turn-assistant", "assistant", "session-summary"}
  }

  // A text refused, though not as a secret, comes before one that is too short, that before an assistant's
  // scratch, and that before a duplicate.
  ghost predicate ReasonFor(row: Row, reason: string, c: Classifiers) {
    && (Refused(row, c) && c.safety(row.text).reason == "" ==> reason == "capture-safety:blocked")
    && (Refused(row, c) && c.safety(row.text).reason != "" ==>
          reason == "capture-safety:" + c.safety(row.text).reason)
    && (!Refused(row, c) && TooShort(row, c) ==> reason == "very-short-low-value")
    && (!Refused(row, c) && !TooShort(row, c) && IsScratch(row) ==> reason == "assistant-or-summary-scratch")
    && (!Refused(row, c) && !TooShort(row, c) && !IsScratch(row) ==> reason == "duplicate-memory")
  }

  lemma OwnReasonIs(row: Row, c: Classifiers)
    ensures OwnReason(row, c).Some? <==> Refused(row, c) || TooShort(row, c) || IsScratch(row)
    ensures OwnReason(row, c).Some? ==> ReasonFor(row, OwnReason(row, c).value, c)
    ensures OwnReason(row, c).None? ==> ReasonFor(row, "duplicate-memory", c)
  {
  }

  // Every candidate is given its reason; the rows to delete are the active ones refused as secrets.
  lemma ReasonsAre(s: State, listing: seq<Id>, r: Report, c: Classifiers, id: Id)
    requires ReportOk(s, listing, r, c)
    ensures id in r.soft ==> id in s.rows && ReasonFor(s.rows[id], r.soft[id].reason, c)
    ensures id in r.soft ==>
      (r.soft[id].supersededBy.None? <==> Refused(s.rows[id], c) || TooShort(s.rows[id], c) || IsScratch(s.rows[id]))
    ensures id in r.hard <==>
      && Active(s, listing, id)
      && !c.safety(s.rows[id].text).allowed && c.safety(s.rows[id].text).reason == "secret"
  {
    if id in r.soft {
      assert CandidateOk(s, listing, id, r.soft[id], c);
      OwnReasonIs(s.rows[id], c);
    }
    assert id in r.hard <==> IsHard(s, listing, id, c);
  }

  // ---------------------------------------------------------------- running it

  function ClampLimit(limit: int): (r: nat)
    ensures 1 <= r <= 1000
    ensures r == limit || (limit < 1 && r == 1) || (limit > 1000 && r == 1000)
  {
    if limit < 1 then 1 else if limit > 1000 then 1000 else limit
  }

  function Take(ids: seq<Id>, limit: nat): seq<Id> {
    if |ids| <= limit then ids else ids[..limit]
  }

  function ForgottenMetadata(m: Metadata, cand: Candidate, at: string): Metadata {
    var archived := m["state" := Str("archived")]["lifecycle" := Str("archived")]["memory_layer" := Str("archive")]
      ["forget_reason" := Str(cand.reason)]["archived_at" := Str(at)];
    if cand.supersededBy.Some? then archived["superseded_by" := Str(Decimal(cand.supersededBy.value))] else archived
  }

  function ForgottenRow(row: Row, cand: Candidate, at: string, now: int): Row {
    row.(metadata := ForgottenMetadata(row.metadata, cand, at), updatedAt := now)
  }

  // The listed soft candidates archived.
  function Archiving(s: State, soft: map<Id, Candidate>, ids: seq<Id>, at: string, now: int): State {
    State(
      map id | id in s.rows ::
        if id in ids && id in soft then ForgottenRow(s.rows[id], soft[id], at, now) else s.rows[id],
      map id | id in s.projection.Keys + (Elems(ids) * s.rows.Keys) ::
        if id in ids && id in s.rows && id in soft then Project(ForgottenRow(s.rows[id], soft[id], at, now))
        else if id in s.projection then s.projection[id] else Project(s.rows[id]),
      s.audit)
  }

  function Deleting(s: State, ids: seq<Id>): State {
    State(s.rows - Elems(ids), s.projection - Elems(ids), s.audit)
  }

  function Forgotten(s: State, r: Report, hardDelete: bool, limit: nat, at: string, now: int): State {
    Deleting(Archiving(s, r.soft, Take(r.order, limit), at, now), if hardDelete then Take(r.hard, limit) else [])
  }

  lemma ArchivingRowsMore(s: State, soft: map<Id, Candidate>, ids: seq<Id>, i: nat, at: string, now: int)
    requires i < |ids| && NoDup(ids) && ids[i] in s.rows && ids[i] in soft
    ensures Archiving(s, soft, ids[..i], at, now).rows[ids[i]] == s.rows[ids[i]]
    ensures Archiving(s, soft, ids[..i + 1], at, now).rows ==
      Archiving(s, soft, ids[..i], at, now).rows[ids[i] := ForgottenRow(s.rows[ids[i]], soft[ids[i]], at, now)]
  {
    assert ids[i] !in ids[..i];
    assert forall x :: x in ids[..i + 1] <==> x in ids[..i] || x == ids[i];
  }

  lemma ArchivingProjectionMore(s: State, soft: map<Id, Candidate>, ids: seq<Id>, i: nat, at: string, now: int)
    requires i < |ids| && NoDup(ids) && ids[i] in s.rows && ids[i] in soft
    ensures Archiving(s, soft, ids[..i + 1], at, now).projection ==
      Archiving(s, soft, ids[..i], at, now).projection[ids[i] :=
        Project(ForgottenRow(s.rows[ids[i]], soft[ids[i]], at, now))]
  {
    assert forall x :: x in ids[..i + 1] <==> x in ids[..i] || x == ids[i];
  }

  lemma ArchivingMore(s: State, soft: map<Id, Candidate>, ids: seq<Id>, i: nat, at: string, now: int)
    requires i < |ids| && NoDup(ids) && ids[i] in s.rows && ids[i] in soft
    ensures var t := Archiving(s, soft, ids[..i], at, now); var id := ids[i];
      && id in t.rows && t.rows[id] == s.rows[id]
      && Archiving(s, soft, ids[..i + 1], at, now) ==
        Put(t, id, ForgottenMetadata(s.rows[id].metadata, soft[id], at), now)
  {
    ArchivingRowsMore(s, soft, ids, i, at, now);
    ArchivingProjectionMore(s, soft, ids, i, at, now);
  }

  lemma ArchivingNone(s: State, soft: map<Id, Candidate>, at: string, now: int)
    ensures Archiving(s, soft, [], at, now) == s
  {
    var t := Archiving(s, soft, [], at, now);
    assert t.rows == s.rows;
    assert t.projection == s.projection;
  }

  // The archive loop of the transaction.
  method ArchiveAll(db: GovernanceDb, soft: map<Id, Candidate>, ids: seq<Id>, at: string, now: int)
    returns (archived: nat)
    requires NoDup(ids) && forall id :: id in ids ==> id in soft && id in db.rows && !IsArchived(db.rows[id])
    modifies db
    ensures db.View() == Archiving(old(db.View()), soft, ids, at, now)
    ensures archived == |ids|
  {
    ghost var s := db.View();
    archived := 0;
    ArchivingNone(s, soft, at, now);
    for i := 0 to |ids|
      invariant db.View() == Archiving(s, soft, ids[..i], at, now) && archived == i
    {
      var id := ids[i];
      assert id in ids;
      ArchivingMore(s, soft, ids, i, at, now);
      if id !in db.rows || Lower(Trim(StrVal(db.rows[id].metadata, "state"))) == "archived" { continue; }
      db.rows := db.rows[id := ForgottenRow(db.rows[id], soft[id], at, now)];
      db.projection := db.projection[id := Project(db.rows[id])];
      archived := archived + 1;
    }
    assert ids[..|ids|] == ids;
  }

  // The delete loop of the transaction.
  method DeleteAll(db: GovernanceDb, ids: seq<Id>) returns (deleted: nat)
    requires NoDup(ids) && forall id :: id in ids ==> id in db.rows
    modifies db
    ensures db.View() == Deleting(old(db.View()), ids)
    ensures deleted == |ids|
  {
    ghost var s := db.View();
    deleted := 0;
    assert s.rows - Elems([]) == s.rows && s.projection - Elems([]) == s.projection;
    for i := 0 to |ids|
      invariant db.View() == Deleting(s, ids[..i]) && deleted == i
    {
      assert ids[i] in ids && ids[i] !in ids[..i];
      ElemsPrefix(ids, i);
      if ids[i] !in db.rows { continue; }
      db.rows := db.rows - {ids[i]};
      db.projection := db.projection - {ids[i]};
      deleted := deleted + 1;
    }
    assert ids[..|ids|] == ids;
  }

  lemma ForgettingInSync(s: State, soft: map<Id, Candidate>, softItems: seq<Id>, hardItems: seq<Id>, at: string,
                         now: int)
    ensures InSync(s) ==> InSync(Deleting(Archiving(s, soft, softItems, at, now), hardItems))
  {
  }

  lemma CandidatesAreRows(s: State, listing: seq<Id>, r: Report, c: Classifiers)
    requires ReportOk(s, listing, r, c)
    ensures forall id :: id in r.order ==> id in r.soft && id in s.rows && !IsArchived(s.rows[id])
    ensures forall id :: id in r.hard ==> id in s.rows && !IsArchived(s.rows[id])
  {
    forall id | id in r.order ensures id in r.soft && id in s.rows && !IsArchived(s.rows[id]) {
      assert IsSoft(s, listing, id, c);
    }
    forall id | id in r.hard ensures id in s.rows && !IsArchived(s.rows[id]) { assert IsHard(s, listing, id, c); }
  }

  // The transaction.
  method CommitForgetting(db: GovernanceDb, ghost listing: seq<Id>, r: Report, softItems: seq<Id>, hardItems: seq<Id>,
                          at: string, now: int, ghost c: Classifiers)
    returns (archived: nat, deleted: nat)
    requires ReportOk(db.View(), listing, r, c) && NoDup(softItems) && NoDup(hardItems)
    requires (forall id :: id in softItems ==> id in r.order) && (forall id :: id in hardItems ==> id in r.hard)
    modifies db
    ensures db.View() == Deleting(Archiving(old(db.View()), r.soft, softItems, at, now), hardItems)
    ensures archived == |softItems| && deleted == |hardItems|
    ensures old(InSync(db.View())) ==> InSync(db.View())
  {
    ghost var s := db.View();
    CandidatesAreRows(s, listing, r, c);
    archived := ArchiveAll(db, r.soft, softItems, at, now);
    deleted := DeleteAll(db, hardItems);
    ForgettingInSync(s, r.soft, softItems, hardItems, at, now);
  }

  lemma {:induction false} HardSeqNoDup(s: State, listing: seq<Id>, c: Classifiers)
    requires NoDup(listing)
    ensures NoDup(HardSeq(s, listing, c))
  {
    if listing != [] {
      var n := |listing| - 1;
      HardSeqNoDup(s, listing[..n], c);
      assert listing[n] !in listing[..n] && !IsHard(s, listing[..n], listing[n], c);
    }
  }

  // src/forgetting.ts:253-294
  method RunForgetting(db: GovernanceDb, listing: seq<Id>, dryRun: bool, hardDelete: bool, limit: int,
                       at: string, now: int, c: Classifiers)
    returns (r: Report, archived: nat, deleted: nat)
    requires NoDup(listing)
    modifies db
    ensures ReportOk(old(db.View()), listing, r, c)
    ensures db.View() ==
      if dryRun then old(db.View()) else Forgotten(old(db.View()), r, hardDelete, ClampLimit(limit), at, now)
    ensures archived == |Take(r.order, ClampLimit(limit))|
    ensures deleted == if hardDelete then |Take(r.hard, ClampLimit(limit))| else 0
    ensures old(InSync(db.View())) ==> InSync(db.View())
  {
    r := BuildForgettingReport(State(db.rows, db.projection, db.audit), listing, c);
    var softItems := Take(r.order, ClampLimit(limit));
    var hardItems := if hardDelete then Take(r.hard, ClampLimit(limit)) else [];
    archived, deleted := |softItems|, |hardItems|;
    if dryRun { return; }
    HardSeqNoDup(db.View(), listing, c);
    archived, deleted := CommitForgetting(db, listing, r, softItems, hardItems, at, now, c);
  }

  // ---------------------------------------------------------------- the fixed point

  // What the same query lists after the run.
  ghost predicate Relisted(s: State, listing: seq<Id>, t: State, listing': seq<Id>) {
    forall id :: id in listing' <==> id in listing && id in t.rows
  }

  // The row has become an archived one, with the reason, the time and what supersedes it; nothing else changed.
  ghost predicate ForgottenAs(was: Row, row: Row, cand: Candidate, at: string, now: int) {
    && StrVal(row.metadata, "state") == "archived" && Val(row.metadata, "lifecycle") == "archived"
    && StrVal(row.metadata, "memory_layer") == "archive"
    && Val(row.metadata, "forget_reason") == cand.reason && Val(row.metadata, "archived_at") == at
    && SameBut(was.metadata, row.metadata, FORGET_KEYS + {"superseded_by"})
    && (cand.supersededBy.None? ==> SameBut(was.metadata, row.metadata, FORGET_KEYS))
    && (cand.supersededBy.Some? ==> Val(row.metadata, "superseded_by") == Decimal(cand.supersededBy.value))
    && row == was.(metadata := row.metadata, updatedAt := now)
  }

  lemma ForgottenReads(row: Row, cand: Candidate, at: string, now: int)
    ensures ForgottenAs(row, ForgottenRow(row, cand, at, now), cand, at, now)
  {
    var m := ForgottenMetadata(row.metadata, cand, at);
    assert m["state"] == Str("archived") && m["lifecycle"] == Str("archived") && m["memory_layer"] == Str("archive");
    assert m["forget_reason"] == Str(cand.reason) && m["archived_at"] == Str(at);
  }

  lemma ForgottenIsArchived(row: Row, cand: Candidate, at: string, now: int)
    ensures IsArchived(ForgottenRow(row, cand, at, now))
  {
    ForgottenReads(row, cand, at, now);
    TrimKeepsWord("archived");
    LowerKeeps("archived");
  }

  const FORGET_KEYS: set<string> := {"state", "lifecycle", "memory_layer", "forget_reason", "archived_at"}

  lemma ForgottenProjects(row: Row, cand: Candidate, at: string, now: int)
    ensures Project(ForgottenRow(row, cand, at, now)).lifecycle == Archived
  {
    ForgottenReads(row, cand, at, now);
    TrimKeepsWord("archived");
    LowerKeeps("archived");
    LifecycleIs(ForgottenRow(row, cand, at, now).metadata);
  }

  ghost predicate NowForgotten(s: State, t: State, id: Id, cand: Candidate, at: string, now: int) {
    && id in s.rows && id in t.rows && id in t.projection
    && ForgottenAs(s.rows[id], t.rows[id], cand, at, now) && t.projection[id].lifecycle == Archived
  }

  ghost predicate Untouched(s: State, t: State, id: Id) {
    && id in s.rows && id in t.rows && t.rows[id] == s.rows[id]
    && (id in t.projection <==> id in s.projection) && (id in s.projection ==> t.projection[id] == s.projection[id])
  }

  // After a live run each of the first limit candidates is archived, in its row and in its projection, unless
  // it was deleted, which with hardDelete befalls the first limit secrets; no other row is touched.
  lemma ForgettingArchives(s: State, listing: seq<Id>, r: Report, hardDelete: bool, limit: nat, at: string, now: int,
                           c: Classifiers, id: Id)
    requires ReportOk(s, listing, r, c) && id in s.rows
    ensures var t := Forgotten(s, r, hardDelete, limit, at, now);
      if hardDelete && id in Take(r.hard, limit) then id !in t.rows && id !in t.projection
      else if id in Take(r.order, limit) then id in r.soft && NowForgotten(s, t, id, r.soft[id], at, now)
      else Untouched(s, t, id)
  {
    if id in Take(r.order, limit) {
      assert id in r.order;
      ForgottenReads(s.rows[id], r.soft[id], at, now);
      ForgottenProjects(s.rows[id], r.soft[id], at, now);
    }
  }

  // Neither padding nor case of the marks matters.
  lemma MarksAreFolded(row: Row, other: Row)
    requires forall key :: key in {"state", "memory_layer", "lifecycle"} ==>
      Lower(Trim(StrVal(row.metadata, key))) == Lower(Trim(StrVal(other.metadata, key)))
    ensures IsArchived(row) <==> IsArchived(other)
  {
  }

  // Values that are read the same with and without trimming and folding.
  ghost predicate PlainlyMarked(m: Metadata) {
    && StrVal(m, "state") == Lower(Trim(StrVal(m, "state")))
    && StrVal(m, "memory_layer") == Lower(Trim(StrVal(m, "memory_layer")))
    && Val(m, "lifecycle") == StrVal(m, "lifecycle")
    && (Missing(m, "state") ==>
          StrVal(m, "source") != "session-summary"
          && (Missing(m, "source") ==> StrVal(m, "type") != "session-summary"))
  }

  // Forgetting and the projection agree on which plainly marked rows are active.
  lemma ActiveIsDynamic(row: Row)
    requires PlainlyMarked(row.metadata)
    ensures !IsArchived(row) <==> Project(row).lifecycle == Dynamic
  {
    LifecycleIs(row.metadata);
  }

  // Rows still active after a live run that covered every soft candidate are exactly the active rows
  // that were no candidate and were not deleted, and they are unchanged.
  lemma Survivors(s: State, listing: seq<Id>, r: Report, hardDelete: bool, limit: nat, at: string, now: int,
                  listing': seq<Id>, c: Classifiers, id: Id)
    requires ReportOk(s, listing, r, c) && |r.order| <= limit
    requires var t := Forgotten(s, r, hardDelete, limit, at, now);
      Relisted(s, listing, t, listing') && Active(t, listing', id)
    ensures Active(s, listing, id) && !IsSoft(s, listing, id, c)
    ensures Forgotten(s, r, hardDelete, limit, at, now).rows[id] == s.rows[id]
  {
    var t := Forgotten(s, r, hardDelete, limit, at, now);
    if id in r.soft {
      assert id in r.order;
      ForgottenIsArchived(s.rows[id], r.soft[id], at, now);
    }
  }

  lemma HasElement(s: seq<Id>)
    ensures s != [] ==> exists x :: x in s
  {
    if s != [] { assert s[0] in s; }
  }

  lemma TwoInAGroup(s: State, listing: seq<Id>, x: Id, y: Id, c: Classifiers)
    requires Active(s, listing, x) && Active(s, listing, y) && SameGroup(s, x, y, c) && x != y
    ensures IsDuplicate(s, listing, x, c) || IsDuplicate(s, listing, y, c)
  {
    assert SameGroup(s, y, x, c);
    assert Older(s, x, y) || Older(s, y, x);
  }

  // A live run whose limit covers every soft candidate leaves nothing for a second run to archive, and
  // no two active rows share scope, category and duplicate key.
  lemma ForgettingReachesAFixedPoint(s: State, listing: seq<Id>, r: Report, hardDelete: bool, limit: nat,
                                     at: string, now: int, listing': seq<Id>, r': Report, c: Classifiers)
    requires ReportOk(s, listing, r, c) && |r.order| <= limit
    requires var t := Forgotten(s, r, hardDelete, limit, at, now);
      Relisted(s, listing, t, listing') && ReportOk(t, listing', r', c)
    ensures r'.order == [] && r'.soft == map[]
    ensures var t := Forgotten(s, r, hardDelete, limit, at, now);
      forall x, y :: Active(t, listing', x) && Active(t, listing', y) && SameGroup(t, x, y, c) ==> x == y
  {
    var t := Forgotten(s, r, hardDelete, limit, at, now);
    forall x, y | Active(t, listing', x) && Active(t, listing', y) && SameGroup(t, x, y, c) ensures x == y {
      Survivors(s, listing, r, hardDelete, limit, at, now, listing', c, x);
      Survivors(s, listing, r, hardDelete, limit, at, now, listing', c, y);
      if x != y { TwoInAGroup(s, listing, x, y, c); }
    }
    forall id ensures !IsSoft(t, listing', id, c) {
      if IsSoft(t, listing', id, c) {
        Survivors(s, listing, r, hardDelete, limit, at, now, listing', c, id);
        if IsDuplicate(t, listing', id, c) { var x := Twin(t, listing', id, c); }
      }
    }
    HasElement(r'.order);
    assert forall id :: id !in r'.soft;
  }

  // Nor do two active rows agree in scope, category and key.
  lemma NoTwinsAreLeft(s: State, listing: seq<Id>, r: Report, hardDelete: bool, limit: nat,
                       at: string, now: int, listing': seq<Id>, c: Classifiers)
    requires ReportOk(s, listing, r, c) && |r.order| <= limit && AllSeparable(s, listing)
    requires Relisted(s, listing, Forgotten(s, r, hardDelete, limit, at, now), listing')
    ensures var t := Forgotten(s, r, hardDelete, limit, at, now);
      forall x, y :: Active(t, listing', x) && Active(t, listing', y) && Alike(t.rows[x], t.rows[y], c) ==> x == y
  {
    var t := Forgotten(s, r, hardDelete, limit, at, now);
    forall x, y | Active(t, listing', x) && Active(t, listing', y) && Alike(t.rows[x], t.rows[y], c) ensures x == y {
      Survivors(s, listing, r, hardDelete, limit, at, now, listing', c, x);
      Survivors(s, listing, r, hardDelete, limit, at, now, listing', c, y);
      GroupIsColumns(s, x, y, c);
      if x != y { TwoInAGroup(s, listing, x, y, c); }
    }
  }

  // ---------------------------------------------------------------- vector companions first

  datatype Answer = Removed | NotRemoved | Threw

  // The call asks for vector deletions before it touches the table.
  predicate Preflights(s: State, listing: seq<Id>, dryRun: bool, hardDelete: bool, limit: nat,
                       callback: Option<Id -> Answer>, c: Classifiers) {
    !dryRun && hardDelete && callback.Some? && Take(HardSeq(s, listing, c), limit) != []
  }

  // The truth rows the call hard-deletes. The preflight asks for the vectors of the rows that are due
  // in s; by the time it has its answers the table may have become t.
  function DeletedWithSync(s: State, listing: seq<Id>, t: State, listing': seq<Id>, dryRun: bool, hardDelete: bool,
                           limit: nat, callback: Option<Id -> Answer>, c: Classifiers): seq<Id> {
    var due := Take(HardSeq(s, listing, c), limit);
    if !Preflights(s, listing, dryRun, hardDelete, limit, callback, c) then []
    else if exists id :: id in due && callback.value(id) != Removed then []
    else Take(HardSeq(t, listing', c), limit)
  }

  // The preflight loop.
  method AskForVectors(due: seq<Id>, answer: Id -> Answer) returns (removed: set<Id>, errors: nat)
    ensures removed == set id | id in due && answer(id) == Removed
    ensures errors == 0 <==> forall id :: id in due ==> answer(id) == Removed
  {
    removed, errors := {}, 0;
    for i := 0 to |due|
      invariant removed == set id | id in due[..i] && answer(id) == Removed
      invariant errors == 0 <==> forall id :: id in due[..i] ==> answer(id) == Removed
    {
      assert due[..i + 1] == due[..i] + [due[i]];
      match answer(due[i])
      case Removed => removed := removed + {due[i]};
      case _ => errors := errors + 1;
    }
    assert due[..|due|] == due;
  }

  // The closing transaction of a run that has, or has not, asked for the vectors.
  ghost predicate Concluded(base: State, listing: seq<Id>, r: Report, gone: seq<Id>, after: State, dryRun: bool,
                            limit: nat, at: string, now: int, c: Classifiers) {
    && ReportOk(base, listing, r, c)
    && after == (if dryRun then base else Deleting(Archiving(base, r.soft, Take(r.order, limit), at, now), gone))
    && (InSync(base) ==> InSync(after))
  }

  // Without a preflight nothing is deleted.
  method ForgetWithoutVectors(db: GovernanceDb, listing: seq<Id>, dryRun: bool, hardDelete: bool, limit: int,
                              at: string, now: int, c: Classifiers)
    returns (r: Report, archived: nat, deleted: nat)
    requires NoDup(listing)
    requires !dryRun && hardDelete ==> Take(HardSeq(db.View(), listing, c), ClampLimit(limit)) == []
    modifies db
    ensures Concluded(old(db.View()), listing, r, [], db.View(), dryRun, ClampLimit(limit), at, now, c)
    ensures archived == |Take(r.order, ClampLimit(limit))| && (!dryRun ==> deleted == 0)
  {
    r, archived, deleted := RunForgetting(db, listing, dryRun, hardDelete, limit, at, now, c);
  }

  // The vectors first, then the transaction on whatever the table has become.
  method ForgetWithVectors(db: GovernanceDb, due: seq<Id>, answer: Id -> Answer, meanwhile: State, listing': seq<Id>,
                           limit: int, at: string, now: int, c: Classifiers)
    returns (r: Report, archived: nat, deleted: nat, vectorDeleted: set<Id>, ghost gone: seq<Id>)
    requires NoDup(listing')
    modifies db
    ensures vectorDeleted == set id | id in due && answer(id) == Removed
    ensures gone == if exists id :: id in due && answer(id) != Removed then []
                    else Take(HardSeq(meanwhile, listing', c), ClampLimit(limit))
    ensures Concluded(meanwhile, listing', r, gone, db.View(), false, ClampLimit(limit), at, now, c)
    ensures archived == |Take(r.order, ClampLimit(limit))| && deleted == |gone|
  {
    var errors;
    vectorDeleted, errors := AskForVectors(due, answer);
    db.rows, db.projection, db.audit := meanwhile.rows, meanwhile.projection, meanwhile.audit;
    r, archived, deleted := RunForgetting(db, listing', false, errors == 0, limit, at, now, c);
    gone := if errors == 0 then Take(r.hard, ClampLimit(limit)) else [];
  }

  // src/forgetting.ts:296-394; meanwhile stands for the steps other writers take while it awaits, base is the
  // table the closing transaction found.
  method RunForgettingWithVectorSync(db: GovernanceDb, listing: seq<Id>, dryRun: bool, hardDelete: bool, limit: int,
                                     callback: Option<Id -> Answer>, meanwhile: State, listing': seq<Id>,
                                     at: string, now: int, c: Classifiers)
    returns (r: Report, archived: nat, deleted: nat, vectorDeleted: set<Id>, ghost base: State, ghost gone: seq<Id>)
    requires NoDup(listing) && NoDup(listing')
    modifies db
    ensures gone == DeletedWithSync(old(db.View()), listing, meanwhile, listing', dryRun, hardDelete,
      ClampLimit(limit), callback, c)
    ensures var asks := Preflights(old(db.View()), listing, dryRun, hardDelete, ClampLimit(limit), callback, c);
      && base == (if asks then meanwhile else old(db.View()))
      && vectorDeleted == (if asks
           then set id |
             id in Take(HardSeq(old(db.View()), listing, c), ClampLimit(limit)) && callback.value(id) == Removed
           else {})
      && Concluded(base, if asks then listing' else listing, r, gone, db.View(), dryRun, ClampLimit(limit), at, now, c)
    ensures archived == |Take(r.order, ClampLimit(limit))| && (!dryRun ==> deleted == |gone|)
  {
    vectorDeleted, base, gone := {}, db.View(), [];
    if !dryRun && hardDelete && callback.None? {
      r, archived, deleted := ForgetWithoutVectors(db, listing, dryRun, false, limit, at, now, c);
      return;
    }
    if !dryRun && hardDelete {
      var report := BuildForgettingReport(State(db.rows, db.projection, db.audit), listing, c);
      var due := Take(report.hard, ClampLimit(limit));
      if due != [] {
        base := meanwhile;
        r, archived, deleted, vectorDeleted, gone :=
          ForgetWithVectors(db, due, callback.value, meanwhile, listing', limit, at, now, c);
        return;
      }
    }
    r, archived, deleted := ForgetWithoutVectors(db, listing, dryRun, hardDelete, limit, at, now, c);
  }

  // The guarantee does fail when a secret turns up while the preflight awaits.
  lemma UnvettedDeletion(secret: Row, c: Classifiers)
    requires IsSecret(secret, c) && !IsArchived(secret)
    ensures var s, t := State(map[1 := secret], map[], []), State(map[1 := secret, 2 := secret], map[], []);
      2 in DeletedWithSync(s, [1], t, [1, 2], false, true, 200, Some((_: Id) => Removed), c)
      && 2 !in HardSeq(s, [1], c)
  {
    var s, t := State(map[1 := secret], map[], []), State(map[1 := secret, 2 := secret], map[], []);
    HardSeqIsShort(s, [1], c);
    HardSeqIsShort(t, [1, 2], c);
    assert IsHard(s, [1], 1, c) && IsHard(t, [1, 2], 2, c);
  }

  // No row is hard-deleted unless its vector was removed first: this holds exactly when nothing is deleted
  // (no callback, nothing due, or a vector delete failed) or every row due at the end was already due when
  // the preflight looked; with nobody writing in between, always.
  lemma DeletionsAreVetted(s: State, listing: seq<Id>, t: State, listing': seq<Id>, limit: nat,
                           callback: Option<Id -> Answer>, c: Classifiers)
    ensures var deleted := DeletedWithSync(s, listing, t, listing', false, true, limit, callback, c);
      var due, later := Take(HardSeq(s, listing, c), limit), Take(HardSeq(t, listing', c), limit);
      (forall id :: id in deleted ==> id in due && callback.Some? && callback.value(id) == Removed)
      <==>
      (callback.None? || due == [] || (exists id :: id in due && callback.value(id) != Removed)
        || Elems(later) <= Elems(due))
    ensures t == s && listing' == listing ==>
      forall id :: id in DeletedWithSync(s, listing, t, listing', false, true, limit, callback, c) ==>
        callback.Some? && callback.value(id) == Removed
  {
  }
}
