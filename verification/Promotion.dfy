/** Automatic review of candidate memories (src/candidate-promotion.ts) over the tables of Governance. */
module Promotion {
  import opened Common
  import opened Governance

  const STABLE_MEMORY_TYPES: set<string> := {
    "case", "cases", "constraint", "decision", "entity", "entities", "event", "events", "fact", "factual",
    "pitfall", "preference", "preferences", "procedure", "profile", "project", "resource", "workflow" }

  const NOISE_MEMORY_TYPES: set<string> := { "summary", "episodic", "tool_trace", "scratch" }

  const PROGRESS_TYPES: set<string> := { "summary", "decision", "project", "events" }

  // risky and stale say whether one of the terms of the two lists occurs.
  datatype Judges = Judges(c: Classifiers, risky: string -> bool, stale: string -> bool)

  datatype Decision = DoPromote | DoArchive | Keep | Skip

  // src/candidate-promotion.ts:179-184
  predicate IsCandidateRow(row: Row) {
    || Lower(Trim(StrVal(row.metadata, "lifecycle"))) == "candidate"
    || Lower(Trim(StrVal(row.metadata, "state"))) == "pending"
  }

  // The WHERE clause, which does not trim.
  predicate IsListed(row: Row) {
    Lower(StrVal(row.metadata, "lifecycle")) == "candidate" || Lower(StrVal(row.metadata, "state")) == "pending"
  }

  function MemoryType(row: Row): string {
    var t, k := Trim(StrVal(row.metadata, "memory_type")), Trim(StrVal(row.metadata, "memory_category"));
    Lower(if t != "" then t else if k != "" then k else if row.category != "" then row.category else "other")
  }

  // What is not empty, on lines of its own.
  function Lines(parts: seq<string>): string {
    if parts == [] then ""
    else
      var rest := Lines(parts[1..]);
      if parts[0] == "" then rest else if rest == "" then parts[0] else parts[0] + "\n" + rest
  }

  function CandidateText(row: Row): string {
    Lines([row.text, Trim(StrVal(row.metadata, "l0_abstract")), Trim(StrVal(row.metadata, "l1_overview")),
           Trim(StrVal(row.metadata, "l2_content"))])
  }

  // metadataNumber(metadata, "confidence", 0.7)
  function Confidence(m: Metadata): real {
    if "confidence" !in m || m["confidence"].Fields? then 0.7
    else if m["confidence"].Null? then 0.0
    else if m["confidence"].number.None? then 0.7
    else m["confidence"].number.value
  }

  datatype Verdict = Verdict(decision: Decision, reason: string)

  // src/candidate-promotion.ts:206-310
  function Classify(row: Row, j: Judges): Verdict {
    var kind, text := MemoryType(row), CandidateText(row);
    var safety, confidence := j.c.safety(text), Confidence(row.metadata);
    if !IsCandidateRow(row) then Verdict(Skip, "not_candidate")
    else if !safety.allowed || safety.reason == "secret" then
      Verdict(Keep, "requires_human_review:" + (if safety.reason == "" then "unsafe" else safety.reason))
    else if j.risky(text) then Verdict(Keep, "high_risk_terms_require_human_review")
    else if kind in NOISE_MEMORY_TYPES || j.c.noise(text) || |Trim(j.c.sanitize(text))| < 20 then
      Verdict(DoArchive, "low_value_memory_type:" + kind)
    else if j.stale(text) && kind in PROGRESS_TYPES then Verdict(DoArchive, "stale_progress_or_release_status")
    else if kind !in STABLE_MEMORY_TYPES then Verdict(Keep, "unsupported_memory_type:" + kind)
    else if confidence >= 0.78 && row.importance >= 0.55 then Verdict(DoPromote, "high_confidence_stable_candidate")
    else if row.importance >= 0.82 && confidence >= 0.62 then Verdict(DoPromote, "high_importance_stable_candidate")
    else Verdict(Keep, "below_auto_promotion_threshold")
  }

  function Effective(row: Row, archiveNoise: bool, j: Judges): Decision {
    if Classify(row, j).decision == DoArchive && !archiveNoise then Keep else Classify(row, j).decision
  }

  predicate Mutates(d: Decision) {
    d == DoPromote || d == DoArchive
  }

  function ReviewedMetadata(m: Metadata, d: Decision, reason: string, st: Stamp): Metadata {
    if d == DoPromote then
      m["lifecycle" := Str("promoted")]["state" := Str("confirmed")]["promoted_at" := Str(st.at)]
        ["promoted_by" := Str(st.actor)]["promotion_reason" := Str(reason)]
        ["candidate_promotion_batch_id" := Str(st.batch)]
    else
      m["lifecycle" := Str("archived")]["state" := Str("archived")]["memory_layer" := Str("archive")]
        ["archived_at" := Str(st.at)]["archived_by" := Str(st.actor)]["archive_reason" := Str(reason)]
        ["candidate_promotion_batch_id" := Str(st.batch)]
  }

  // What is decided for each row, and the metadata it is given when that rewrites it.
  datatype Review = Review(decide: Row -> Decision, after: Row -> Metadata) {
    function Decide(row: Row): Decision { decide(row) }
    function After(row: Row): Metadata { after(row) }
  }

  // The review the code runs; what follows holds of any.
  function AutomaticReview(archiveNoise: bool, st: Stamp, j: Judges): Review {
    Review((row: Row) => Effective(row, archiveNoise, j),
           (row: Row) => ReviewedMetadata(row.metadata, Effective(row, archiveNoise, j), Classify(row, j).reason, st))
  }

  // ---------------------------------------------------------------- what is decided, and what it writes

  // Metadata that reads as a candidate's, padding and case aside.
  ghost predicate ReadsCandidate(m: Metadata) {
    Lower(Trim(StrVal(m, "lifecycle"))) == "candidate" || Lower(Trim(StrVal(m, "state"))) == "pending"
  }

  // Unsafe text, secrets and the risky terms (src/candidate-promotion.ts:215-239).
  predicate Unsafe(row: Row, j: Judges) {
    var safety := j.c.safety(CandidateText(row));
    !safety.allowed || safety.reason == "secret" || j.risky(CandidateText(row))
  }

  // Noise, too little text, or progress that has gone stale.
  ghost predicate LowValue(row: Row, j: Judges) {
    var text, kind := CandidateText(row), MemoryType(row);
    || kind in {"summary", "episodic", "tool_trace", "scratch"} || j.c.noise(text) || |Trim(j.c.sanitize(text))| < 20
    || (j.stale(text) && kind in {"decision", "project", "events"})
  }

  // Both numbers reach the lower bar and one of them the higher.
  ghost predicate Convincing(row: Row) {
    var confidence := Confidence(row.metadata);
    confidence >= 0.62 && row.importance >= 0.55 && (confidence >= 0.78 || row.importance >= 0.82)
  }

  // A candidate that is safe is archived when it is of low value; otherwise it is promoted when it is of a
  // stable kind and convincing. Everything else waits for people.
  lemma ClassifyIs(row: Row, j: Judges)
    ensures Classify(row, j).decision == Skip <==> !ReadsCandidate(row.metadata)
    ensures Classify(row, j).decision == DoArchive <==>
      ReadsCandidate(row.metadata) && !Unsafe(row, j) && LowValue(row, j)
    ensures Classify(row, j).decision == DoPromote <==>
      && ReadsCandidate(row.metadata) && !Unsafe(row, j) && !LowValue(row, j)
      && MemoryType(row) in STABLE_MEMORY_TYPES && Convincing(row)
  {
  }

  ghost predicate NoiseOrShort(row: Row, j: Judges) {
    || MemoryType(row) in {"summary", "episodic", "tool_trace", "scratch"} || j.c.noise(CandidateText(row))
    || |Trim(j.c.sanitize(CandidateText(row)))| < 20
  }

  // The reason recorded for a rewrite tells which bar was met, or why the row is of low value.
  lemma ReasonIs(row: Row, j: Judges)
    ensures Classify(row, j).decision == DoPromote ==>
      Classify(row, j).reason ==
        if Confidence(row.metadata) >= 0.78 then "high_confidence_stable_candidate"
        else "high_importance_stable_candidate"
    ensures Classify(row, j).decision == DoArchive && NoiseOrShort(row, j) ==>
      Classify(row, j).reason == "low_value_memory_type:" + MemoryType(row)
    ensures Classify(row, j).decision == DoArchive && !NoiseOrShort(row, j) ==>
      Classify(row, j).reason == "stale_progress_or_release_status"
  {
    ClassifyIs(row, j);
  }

  // The confidence is what the metadata gives as a number, else 0.7.
  lemma ConfidenceIs(m: Metadata)
    ensures "confidence" in m && m["confidence"].Null? ==> Confidence(m) == 0.0
    ensures "confidence" !in m || m["confidence"].Fields? ==> Confidence(m) == 0.7
    ensures "confidence" in m && !m["confidence"].Null? && !m["confidence"].Fields? ==>
      Confidence(m) == if m["confidence"].number.Some? then m["confidence"].number.value else 0.7
  {
  }

  // The kind is what the metadata names, first as type, then as category, else the category of the row.
  lemma MemoryTypeIs(row: Row)
    ensures MemoryType(row) != ""
    ensures Trim(StrVal(row.metadata, "memory_type")) != "" ==>
      MemoryType(row) == Lower(Trim(StrVal(row.metadata, "memory_type")))
    ensures Trim(StrVal(row.metadata, "memory_type")) == "" && Trim(StrVal(row.metadata, "memory_category")) != "" ==>
      MemoryType(row) == Lower(Trim(StrVal(row.metadata, "memory_category")))
    ensures Trim(StrVal(row.metadata, "memory_type")) == "" && Trim(StrVal(row.metadata, "memory_category")) == "" ==>
      MemoryType(row) == Lower(if row.category == "" then "other" else row.category)
  {
  }

  ghost predicate Within(part: string, text: string) {
    exists i, j :: 0 <= i <= j <= |text| && text[i..j] == part
  }

  lemma WithinMore(part: string, text: string, before: string)
    requires Within(part, text)
    ensures Within(part, before + text)
  {
    var i, j :| 0 <= i <= j <= |text| && text[i..j] == part;
    assert (before + text)[|before| + i..|before| + j] == part;
  }

  lemma {:induction false} LinesHold(parts: seq<string>, k: nat)
    requires k < |parts|
    ensures Within(parts[k], Lines(parts))
  {
    var rest, text := Lines(parts[1..]), Lines(parts);
    if k == 0 {
      assert text[0..|parts[0]|] == parts[0];
    } else {
      LinesHold(parts[1..], k - 1);
      if parts[0] != "" && rest != "" { WithinMore(parts[k], rest, parts[0] + "\n"); }
      if rest == "" { assert parts[k] == ""; assert text[0..0] == ""; }
    }
  }

  // What is judged holds the text and all three digests: a term in any of them is seen.
  lemma AllIsJudged(row: Row)
    ensures Within(row.text, CandidateText(row))
    ensures Within(Trim(StrVal(row.metadata, "l0_abstract")), CandidateText(row))
    ensures Within(Trim(StrVal(row.metadata, "l1_overview")), CandidateText(row))
    ensures Within(Trim(StrVal(row.metadata, "l2_content")), CandidateText(row))
  {
    var parts := [row.text, Trim(StrVal(row.metadata, "l0_abstract")), Trim(StrVal(row.metadata, "l1_overview")),
                  Trim(StrVal(row.metadata, "l2_content"))];
    LinesHold(parts, 0);
    LinesHold(parts, 1);
    LinesHold(parts, 2);
    LinesHold(parts, 3);
  }

  const PROMOTION_KEYS: set<string> :=
    {"lifecycle", "state", "promoted_at", "promoted_by", "promotion_reason", "candidate_promotion_batch_id"}

  const ARCHIVE_KEYS: set<string> :=
    {"lifecycle", "state", "memory_layer", "archived_at", "archived_by", "archive_reason",
     "candidate_promotion_batch_id"}

  // The metadata now reads as promoted; no other key has changed.
  ghost predicate PromotedAs(was: Metadata, m: Metadata, reason: string, st: Stamp) {
    && StrVal(m, "lifecycle") == "promoted" && StrVal(m, "state") == "confirmed"
    && Val(m, "promoted_at") == st.at && Val(m, "promoted_by") == st.actor && Val(m, "promotion_reason") == reason
    && Val(m, "candidate_promotion_batch_id") == st.batch && SameBut(was, m, PROMOTION_KEYS)
  }

  // It now reads as archived; no other key has changed.
  ghost predicate FiledAs(was: Metadata, m: Metadata, reason: string, st: Stamp) {
    && StrVal(m, "lifecycle") == "archived" && StrVal(m, "state") == "archived"
    && StrVal(m, "memory_layer") == "archive" && Val(m, "archived_at") == st.at && Val(m, "archived_by") == st.actor
    && Val(m, "archive_reason") == reason && Val(m, "candidate_promotion_batch_id") == st.batch
    && SameBut(was, m, ARCHIVE_KEYS)
  }

  lemma ReviewedReads(m: Metadata, reason: string, st: Stamp)
    ensures PromotedAs(m, ReviewedMetadata(m, DoPromote, reason, st), reason, st)
    ensures FiledAs(m, ReviewedMetadata(m, DoArchive, reason, st), reason, st)
  {
    var p, f := ReviewedMetadata(m, DoPromote, reason, st), ReviewedMetadata(m, DoArchive, reason, st);
    assert p["lifecycle"] == Str("promoted") && p["state"] == Str("confirmed") && p["promoted_at"] == Str(st.at);
    assert p["promoted_by"] == Str(st.actor) && p["promotion_reason"] == Str(reason);
    assert f["lifecycle"] == Str("archived") && f["state"] == Str("archived") && f["memory_layer"] == Str("archive");
    assert f["archived_at"] == Str(st.at) && f["archived_by"] == Str(st.actor) && f["archive_reason"] == Str(reason);
  }

  // A promoted row is projected as dynamic unless its layer still says archive.
  lemma PromotedProjects(was: Metadata, m: Metadata, reason: string, st: Stamp)
    requires PromotedAs(was, m, reason, st)
    ensures StaticLifecycle(m) == if StrVal(was, "memory_layer") == "archive" then Archived else Dynamic
  {
    assert Val(m, "lifecycle") == "promoted" && StrVal(m, "memory_layer") == StrVal(was, "memory_layer");
    assert Lower(Trim("promoted")) == "promoted" by {
      TrimKeepsWord("promoted");
      LowerKeeps("promoted");
    }
    LifecycleIs(m);
  }

  lemma FiledProjects(was: Metadata, m: Metadata, reason: string, st: Stamp)
    requires FiledAs(was, m, reason, st)
    ensures StaticLifecycle(m) == Archived
  {
    assert Val(m, "lifecycle") == "archived";
    assert Lower(Trim("archived")) == "archived" by {
      TrimKeepsWord("archived");
      LowerKeeps("archived");
    }
    LifecycleIs(m);
  }

  // The rows are read before the transaction begins; what it finds may differ. It rewrites a row that was to be
  // rewritten as seen and is still listed.
  predicate Applies(seen: map<Id, Row>, s: State, id: Id, v: Review) {
    id in seen && Mutates(v.Decide(seen[id])) && id in s.rows && IsListed(s.rows[id])
  }

  // The metadata comes from the row seen, everything else from the row found.
  function ReviewedRow(seen: Row, row: Row, v: Review, st: Stamp): Row {
    row.(metadata := v.After(seen), updatedAt := st.now)
  }

  // The rows a live review rewrites.
  function Touched(seen: map<Id, Row>, s: State, ids: seq<Id>, v: Review): (r: set<Id>)
    ensures forall id :: id in r <==> id in ids && Applies(seen, s, id, v)
  {
    set id | id in ids && Applies(seen, s, id, v)
  }

  function ReviewEvent(row: Row, id: Id, v: Review, st: Stamp): Event {
    Event(if v.Decide(row) == DoPromote then Promote else ArchiveCandidate, id, st.batch, row.metadata, v.After(row))
  }

  function ReviewEvents(seen: map<Id, Row>, s: State, ids: seq<Id>, v: Review, st: Stamp): seq<Event> {
    if ids == [] then []
    else
      var n := |ids| - 1;
      var before := ReviewEvents(seen, s, ids[..n], v, st);
      if Applies(seen, s, ids[n], v) then before + [ReviewEvent(seen[ids[n]], ids[n], v, st)] else before
  }

  function Rewritten(seen: map<Id, Row>, s: State, touched: set<Id>, v: Review, st: Stamp): State
    requires touched <= s.rows.Keys && touched <= seen.Keys
  {
    s.(rows := map id | id in s.rows ::
         if id in touched then ReviewedRow(seen[id], s.rows[id], v, st) else s.rows[id],
       projection := map id | id in s.projection.Keys + touched ::
         if id in touched then Project(ReviewedRow(seen[id], s.rows[id], v, st)) else s.projection[id])
  }

  function Reviewed(seen: map<Id, Row>, s: State, ids: seq<Id>, v: Review, st: Stamp): State {
    Rewritten(seen, s, Touched(seen, s, ids, v), v, st).(audit := s.audit + ReviewEvents(seen, s, ids, v, st))
  }

  lemma RowAfterRun(seen: map<Id, Row>, s: State, ids: seq<Id>, v: Review, st: Stamp, id: Id)
    requires id in s.rows
    ensures id in Reviewed(seen, s, ids, v, st).rows
    ensures Reviewed(seen, s, ids, v, st).rows[id] ==
      if id in ids && Applies(seen, s, id, v) then ReviewedRow(seen[id], s.rows[id], v, st) else s.rows[id]
  {
  }

  // A convincing candidate, and one of low value when those are to be archived.
  ghost predicate ToPromote(row: Row, j: Judges) {
    && IsListed(row) && !Unsafe(row, j) && !LowValue(row, j) && MemoryType(row) in STABLE_MEMORY_TYPES
    && Convincing(row)
  }

  ghost predicate ToArchive(row: Row, archiveNoise: bool, j: Judges) {
    IsListed(row) && !Unsafe(row, j) && LowValue(row, j) && archiveNoise
  }

  lemma TrimKeeps(s: string)
    requires Lower(s) == "candidate" || Lower(s) == "pending"
    ensures Trim(s) == s
  {
    var l := Lower(s);
    var n := |s| - 1;
    assert l[0] == 'c' || l[0] == 'p';
    assert l[n] == 'e' || l[n] == 'g';
    assert !IsSpace(s[0]) && !IsSpace(s[n]);
  }

  // What the query lists reads as a candidate.
  lemma ListedReads(row: Row)
    requires IsListed(row)
    ensures ReadsCandidate(row.metadata)
  {
    var lifecycle, state := StrVal(row.metadata, "lifecycle"), StrVal(row.metadata, "state");
    if Lower(lifecycle) == "candidate" {
      TrimKeeps(lifecycle);
    } else {
      TrimKeeps(state);
    }
  }

  lemma Outcome(row: Row, archiveNoise: bool, j: Judges)
    requires IsListed(row)
    ensures Effective(row, archiveNoise, j) == DoPromote <==> ToPromote(row, j)
    ensures Effective(row, archiveNoise, j) == DoArchive <==> ToArchive(row, archiveNoise, j)
  {
    ListedReads(row);
    ClassifyIs(row, j);
  }

  // What such a row is turned into.
  ghost predicate OutcomeOk(row: Row, after: Row, archiveNoise: bool, reason: string, st: Stamp, j: Judges) {
    && after.(metadata := row.metadata, updatedAt := row.updatedAt) == row
    && (if ToPromote(row, j) then PromotedAs(row.metadata, after.metadata, reason, st)
        else if ToArchive(row, archiveNoise, j) then FiledAs(row.metadata, after.metadata, reason, st)
        else after == row)
  }

  lemma OutcomeOfRow(row: Row, after: Row, archiveNoise: bool, st: Stamp, j: Judges)
    requires var d := Effective(row, archiveNoise, j);
      after == if Mutates(d) && IsListed(row)
        then row.(metadata := ReviewedMetadata(row.metadata, d, Classify(row, j).reason, st), updatedAt := st.now)
        else row
    ensures OutcomeOk(row, after, archiveNoise, Classify(row, j).reason, st, j)
  {
    var d := Effective(row, archiveNoise, j);
    ReviewedReads(row.metadata, Classify(row, j).reason, st);
    if IsListed(row) {
      Outcome(row, archiveNoise, j);
    } else {
      assert !ToPromote(row, j) && !ToArchive(row, archiveNoise, j);
    }
  }

  // What a live run makes of a row it read and nobody else wrote to.
  lemma RunOutcome(s: State, ids: seq<Id>, archiveNoise: bool, st: Stamp, j: Judges, id: Id)
    requires id in s.rows
    ensures var t := Reviewed(s.rows, s, ids, AutomaticReview(archiveNoise, st, j), st);
      && id in t.rows
      && (id in ids ==> OutcomeOk(s.rows[id], t.rows[id], archiveNoise, Classify(s.rows[id], j).reason, st, j))
      && (id !in ids ==> t.rows[id] == s.rows[id])
  {
    var row, v := s.rows[id], AutomaticReview(archiveNoise, st, j);
    RowAfterRun(s.rows, s, ids, v, st, id);
    if id in ids { OutcomeOfRow(row, Reviewed(s.rows, s, ids, v, st).rows[id], archiveNoise, st, j); }
  }

  // ---------------------------------------------------------------- the run

  function Count(seen: map<Id, Row>, ids: seq<Id>, d: Decision, v: Review): nat {
    if ids == [] then 0
    else
      var n := |ids| - 1;
      Count(seen, ids[..n], d, v) + (if ids[n] in seen && v.Decide(seen[ids[n]]) == d then 1 else 0)
  }

  ghost predicate Tally(seen: map<Id, Row>, ids: seq<Id>, v: Review, promoted: nat, archived: nat, kept: nat,
                        skipped: nat) {
    && promoted == Count(seen, ids, DoPromote, v) && archived == Count(seen, ids, DoArchive, v)
    && kept == Count(seen, ids, Keep, v) && skipped == Count(seen, ids, Skip, v)
  }

  lemma TallyMore(seen: map<Id, Row>, ids: seq<Id>, i: nat, v: Review, promoted: nat, archived: nat, kept: nat,
                  skipped: nat)
    requires i < |ids| && ids[i] in seen && Tally(seen, ids[..i], v, promoted, archived, kept, skipped)
    ensures var d := v.Decide(seen[ids[i]]);
      Tally(seen, ids[..i + 1], v,
            promoted + (if d == DoPromote then 1 else 0), archived + (if d == DoArchive then 1 else 0),
            kept + (if d == Keep then 1 else 0), skipped + (if d == Skip then 1 else 0))
  {
    assert ids[..i + 1][..i] == ids[..i];
  }

  lemma RewrittenNone(seen: map<Id, Row>, s: State, v: Review, st: Stamp)
    ensures Rewritten(seen, s, {}, v, st) == s
  {
    assert Rewritten(seen, s, {}, v, st).rows == s.rows;
    assert Rewritten(seen, s, {}, v, st).projection == s.projection;
  }

  lemma RewrittenRowsMore(seen: map<Id, Row>, s: State, touched: set<Id>, id: Id, v: Review, st: Stamp)
    requires touched + {id} <= s.rows.Keys && touched + {id} <= seen.Keys && id !in touched
    ensures Rewritten(seen, s, touched + {id}, v, st).rows ==
      Rewritten(seen, s, touched, v, st).rows[id := ReviewedRow(seen[id], s.rows[id], v, st)]
  {
  }

  lemma RewrittenProjectionMore(seen: map<Id, Row>, s: State, touched: set<Id>, id: Id, v: Review, st: Stamp)
    requires touched + {id} <= s.rows.Keys && touched + {id} <= seen.Keys && id !in touched
    ensures Rewritten(seen, s, touched + {id}, v, st).projection ==
      Rewritten(seen, s, touched, v, st).projection[id := Project(ReviewedRow(seen[id], s.rows[id], v, st))]
  {
  }

  lemma RewrittenMore(seen: map<Id, Row>, s: State, touched: set<Id>, id: Id, v: Review, st: Stamp)
    requires touched + {id} <= s.rows.Keys && touched + {id} <= seen.Keys && id !in touched
    ensures Rewritten(seen, s, touched, v, st).rows[id] == s.rows[id]
    ensures Rewritten(seen, s, touched + {id}, v, st) ==
      Put(Rewritten(seen, s, touched, v, st), id, v.After(seen[id]), st.now)
  {
    RewrittenRowsMore(seen, s, touched, id, v, st);
    RewrittenProjectionMore(seen, s, touched, id, v, st);
  }

  lemma TouchedMore(seen: map<Id, Row>, s: State, ids: seq<Id>, i: nat, v: Review)
    requires i < |ids| && NoDup(ids)
    ensures ids[i] !in Touched(seen, s, ids[..i], v)
    ensures Touched(seen, s, ids[..i + 1], v) ==
      Touched(seen, s, ids[..i], v) + (if Applies(seen, s, ids[i], v) then {ids[i]} else {})
  {
    assert ids[i] !in ids[..i];
    assert ids[..i + 1] == ids[..i] + [ids[i]];
  }

  // Reviewing one more row.
  lemma ReviewedMore(seen: map<Id, Row>, s: State, ids: seq<Id>, i: nat, v: Review, st: Stamp)
    requires i < |ids| && NoDup(ids)
    ensures var t, id := Reviewed(seen, s, ids[..i], v, st), ids[i];
      && (id in t.rows <==> id in s.rows) && (id in s.rows ==> t.rows[id] == s.rows[id])
      && Reviewed(seen, s, ids[..i + 1], v, st) ==
         if Applies(seen, s, id, v)
         then Put(t, id, v.After(seen[id]), st.now).(audit := t.audit + [ReviewEvent(seen[id], id, v, st)])
         else t
  {
    TouchedMore(seen, s, ids, i, v);
    if Applies(seen, s, ids[i], v) { RewrittenMore(seen, s, Touched(seen, s, ids[..i], v), ids[i], v, st); }
    assert ids[..i + 1][..i] == ids[..i];
    assert Touched(seen, s, ids[..i], v) + {} == Touched(seen, s, ids[..i], v);
  }

  // UPDATE ... WHERE id = ? AND it is still listed; then, if that changed a row, the projection and the audit row.
  method WriteReview(db: GovernanceDb, id: Id, seen: Row, v: Review, st: Stamp)
    modifies db
    ensures db.View() ==
      if id in old(db.rows) && IsListed(old(db.rows)[id])
      then Put(old(db.View()), id, v.After(seen), st.now).(audit := old(db.audit) + [ReviewEvent(seen, id, v, st)])
      else old(db.View())
  {
    if id !in db.rows || !IsListed(db.rows[id]) { return; }
    db.rows := db.rows[id := db.rows[id].(metadata := v.After(seen), updatedAt := st.now)];
    db.projection := db.projection[id := Project(db.rows[id])];
    db.audit := db.audit + [ReviewEvent(seen, id, v, st)];
  }

  lemma ReviewedInSync(seen: map<Id, Row>, s: State, ids: seq<Id>, v: Review, st: Stamp)
    ensures InSync(s) ==> InSync(Reviewed(seen, s, ids, v, st))
  {
  }

  // The loop over the rows read; s is the table the transaction found.
  method ReviewAll(db: GovernanceDb, seen: map<Id, Row>, ids: seq<Id>, dryRun: bool, v: Review, st: Stamp)
    returns (promoted: nat, archived: nat, kept: nat, skipped: nat)
    requires NoDup(ids) && forall id :: id in ids ==> id in seen
    modifies db
    ensures db.View() == if dryRun then old(db.View()) else Reviewed(seen, old(db.View()), ids, v, st)
    ensures Tally(seen, ids, v, promoted, archived, kept, skipped)
  {
    ghost var s := db.View();
    promoted, archived, kept, skipped := 0, 0, 0, 0;
    RewrittenNone(seen, s, v, st);
    assert Touched(seen, s, [], v) == {};
    for i := 0 to |ids|
      invariant db.View() == if dryRun then s else Reviewed(seen, s, ids[..i], v, st)
      invariant Tally(seen, ids[..i], v, promoted, archived, kept, skipped)
    {
      var id := ids[i];
      assert id in ids;
      ReviewedMore(seen, s, ids, i, v, st);
      var d := v.Decide(seen[id]);
      TallyMore(seen, ids, i, v, promoted, archived, kept, skipped);
      match d {
        case DoPromote => promoted := promoted + 1;
        case DoArchive => archived := archived + 1;
        case Skip => skipped := skipped + 1;
        case Keep => kept := kept + 1;
      }
      if !dryRun && Mutates(d) { WriteReview(db, id, seen[id], v, st); }
    }
    assert ids[..|ids|] == ids;
  }

  // src/candidate-promotion.ts:454-557. The rows are read first; meanwhile is the table the live transaction then
  // finds. The counters depend on neither dryRun nor meanwhile: a dry run predicts the live one.
  method PromoteMemoryCandidates(db: GovernanceDb, ids: seq<Id>, dryRun: bool, meanwhile: State, v: Review, st: Stamp)
    returns (promoted: nat, archived: nat, kept: nat, skipped: nat)
    requires NoDup(ids) && forall id :: id in ids ==> id in db.rows && IsListed(db.rows[id])
    modifies db
    ensures db.View() == if dryRun then old(db.View()) else Reviewed(old(db.rows), meanwhile, ids, v, st)
    ensures Tally(old(db.rows), ids, v, promoted, archived, kept, skipped)
    ensures InSync(if dryRun then old(db.View()) else meanwhile) ==> InSync(db.View())
  {
    var seen := db.rows;
    if !dryRun {
      db.rows, db.projection, db.audit := meanwhile.rows, meanwhile.projection, meanwhile.audit;
      ReviewedInSync(seen, meanwhile, ids, v, st);
    }
    promoted, archived, kept, skipped := ReviewAll(db, seen, ids, dryRun, v, st);
  }

  // A reviewed row is no candidate any more, so the query will not list it again.
  lemma ReviewedIsNotListed(m: Metadata, d: Decision, reason: string, st: Stamp)
    ensures var lifecycle, state :=
      StrVal(ReviewedMetadata(m, d, reason, st), "lifecycle"), StrVal(ReviewedMetadata(m, d, reason, st), "state");
      Lower(lifecycle) != "candidate" && Lower(state) != "pending"
  {
    var lifecycle, state :=
      StrVal(ReviewedMetadata(m, d, reason, st), "lifecycle"), StrVal(ReviewedMetadata(m, d, reason, st), "state");
    assert lifecycle[0] == 'p' || lifecycle[0] == 'a';
    assert state[0] == 'c' || state[0] == 'a';
    assert Lower(lifecycle)[0] == lifecycle[0] && Lower(state)[0] == state[0];
    assert "candidate"[0] == 'c' && "pending"[0] == 'p';
  }

  lemma {:induction false} NothingToDo(seen: map<Id, Row>, s: State, ids: seq<Id>, v: Review, st: Stamp)
    requires forall id :: id in ids && id in seen ==> !Mutates(v.Decide(seen[id]))
    ensures Count(seen, ids, DoPromote, v) == 0 && Count(seen, ids, DoArchive, v) == 0
    ensures ReviewEvents(seen, s, ids, v, st) == []
  {
    if ids != [] {
      assert ids[|ids| - 1] in ids;
      NothingToDo(seen, s, ids[..|ids| - 1], v, st);
    }
  }

  // After a live run over every candidate, nobody else writing, a second run with the same switch finds nothing
  // to do, whatever its own transaction finds.
  lemma SecondRunChangesNothing(s: State, ids: seq<Id>, archiveNoise: bool, st: Stamp,
                                ids': seq<Id>, st': Stamp, u: State, j: Judges)
    requires forall id :: id in s.rows && IsListed(s.rows[id]) ==> id in ids
    requires var t := Reviewed(s.rows, s, ids, AutomaticReview(archiveNoise, st, j), st);
      forall id :: id in ids' ==> id in t.rows && IsListed(t.rows[id])
    ensures var t := Reviewed(s.rows, s, ids, AutomaticReview(archiveNoise, st, j), st);
      var v' := AutomaticReview(archiveNoise, st', j);
      && Reviewed(t.rows, u, ids', v', st') == u
      && Count(t.rows, ids', DoPromote, v') == 0 && Count(t.rows, ids', DoArchive, v') == 0
  {
    var v, v' := AutomaticReview(archiveNoise, st, j), AutomaticReview(archiveNoise, st', j);
    var t := Reviewed(s.rows, s, ids, v, st);
    forall id | id in ids' ensures !Mutates(v'.Decide(t.rows[id])) {
      assert v'.Decide(t.rows[id]) == v.Decide(t.rows[id]);
      if id in Touched(s.rows, s, ids, v) {
        ReviewedIsNotListed(s.rows[id].metadata, v.Decide(s.rows[id]), Classify(s.rows[id], j).reason, st);
      }
    }
    NothingToDo(t.rows, u, ids', v', st');
    RewrittenNone(t.rows, u, v', st');
    assert Touched(t.rows, u, ids', v') == {};
  }

  // What the query lists is never skipped: the counters of a run add up to promoted, archived and kept.
  lemma ListedIsNotSkipped(row: Row, archiveNoise: bool, j: Judges)
    requires IsListed(row)
    ensures Effective(row, archiveNoise, j) != Skip
  {
    ListedReads(row);
  }

  // The run's audit events are about exactly the rows it rewrote.
  lemma {:induction false} EventsAreOfTouched(seen: map<Id, Row>, s: State, ids: seq<Id>, v: Review, st: Stamp, id: Id)
    ensures (exists e :: e in ReviewEvents(seen, s, ids, v, st) && e.target == id) <==> id in Touched(seen, s, ids, v)
  {
    if ids != [] {
      var n := |ids| - 1;
      EventsAreOfTouched(seen, s, ids[..n], v, st, id);
      assert ids == ids[..n] + [ids[n]];
      var before := ReviewEvents(seen, s, ids[..n], v, st);
      assert forall e :: e in before ==> e in ReviewEvents(seen, s, ids, v, st);
      if ids[n] == id && id in Touched(seen, s, ids, v) {
        assert ReviewEvent(seen[id], id, v, st) in ReviewEvents(seen, s, ids, v, st);
      }
    }
  }

  // A run leaves rows seen unsafe or risky to people, whatever became of them meanwhile: neither row nor
  // projection changes, and no event is about them.
  lemma UnsafeIsLeftToPeople(seen: map<Id, Row>, s: State, ids: seq<Id>, archiveNoise: bool,
                             st: Stamp, j: Judges, id: Id)
    requires id in seen && Unsafe(seen[id], j)
    ensures var t := Reviewed(seen, s, ids, AutomaticReview(archiveNoise, st, j), st);
      && (id in t.rows <==> id in s.rows) && (id in s.rows ==> t.rows[id] == s.rows[id])
      && (id in t.projection <==> id in s.projection) && (id in s.projection ==> t.projection[id] == s.projection[id])
      && s.audit <= t.audit && forall e :: e in t.audit[|s.audit|..] ==> e.target != id
  {
    var v := AutomaticReview(archiveNoise, st, j);
    var t := Reviewed(seen, s, ids, v, st);
    assert !Mutates(v.Decide(seen[id]));
    EventsAreOfTouched(seen, s, ids, v, st, id);
    assert t.audit[|s.audit|..] == ReviewEvents(seen, s, ids, v, st);
  }

  // The row is reviewed as it was seen.
  ghost predicate ReviewedAsSeen(seen: map<Id, Row>, s: State, id: Id, v: Review) {
    && (Applies(seen, s, id, v) <==> Applies(s.rows, s, id, v))
    && (Applies(seen, s, id, v) ==> v.After(seen[id]) == v.After(s.rows[id]))
  }

  // A rewritten row is listed no more.
  lemma RewrittenIsNotListed(seen: Row, row: Row, archiveNoise: bool, st: Stamp, j: Judges)
    ensures !IsListed(ReviewedRow(seen, row, AutomaticReview(archiveNoise, st, j), st))
  {
    ReviewedIsNotListed(seen.metadata, Effective(seen, archiveNoise, j), Classify(seen, j).reason, st);
  }

  // Every rewrite takes the row off the list.
  ghost predicate Settles(v: Review, st: Stamp) {
    forall seen, row :: !IsListed(ReviewedRow(seen, row, v, st))
  }

  lemma AutomaticSettles(archiveNoise: bool, st: Stamp, j: Judges)
    ensures Settles(AutomaticReview(archiveNoise, st, j), st)
  {
    forall seen, row ensures !IsListed(ReviewedRow(seen, row, AutomaticReview(archiveNoise, st, j), st)) {
      RewrittenIsNotListed(seen, row, archiveNoise, st, j);
    }
  }

  lemma RowAsSeenIff(seen: map<Id, Row>, s: State, id: Id, v: Review, st: Stamp, t: Row, t': Row)
    requires Settles(v, st) && id in s.rows
    requires t == if Applies(seen, s, id, v) then ReviewedRow(seen[id], s.rows[id], v, st) else s.rows[id]
    requires t' == if Applies(s.rows, s, id, v) then ReviewedRow(s.rows[id], s.rows[id], v, st) else s.rows[id]
    ensures t == t' <==> ReviewedAsSeen(seen, s, id, v)
  {
  }

  // But a row may have become unsafe, or got other metadata, since it was read. The run does to the table it
  // found what it would have done had it read the rows there, if and only if each of them is reviewed there as it
  // was seen: not rewritten, or rewritten to the same metadata.
  lemma RowsAsSeenIff(seen: map<Id, Row>, s: State, ids: seq<Id>, v: Review, st: Stamp)
    requires Settles(v, st)
    ensures Reviewed(seen, s, ids, v, st).rows == Reviewed(s.rows, s, ids, v, st).rows
      <==> forall id :: id in ids ==> ReviewedAsSeen(seen, s, id, v)
  {
    var t, t' := Reviewed(seen, s, ids, v, st).rows, Reviewed(s.rows, s, ids, v, st).rows;
    assert t.Keys == s.rows.Keys == t'.Keys;
    forall id | id in s.rows ensures t[id] == t'[id] <==> (id in ids ==> ReviewedAsSeen(seen, s, id, v)) {
      if id in ids { RowAsSeenIff(seen, s, id, v, st, t[id], t'[id]); }
    }
    if t == t' {
      forall id | id in ids ensures ReviewedAsSeen(seen, s, id, v) {
        if id in s.rows { assert t[id] == t'[id]; }
      }
    }
  }
}
