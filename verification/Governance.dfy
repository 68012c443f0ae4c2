/** One truth table, its derived lifecycle projection and the audit log, as cleanup
    (src/governance-cleanup.ts), forgetting (src/forgetting.ts) and candidate promotion
    (src/candidate-promotion.ts) see them. Metadata is any JSON object; the regex classifiers are arbitrary
    functions of the text; each operation is one committed transaction. */
module Governance {
  import opened Common

  type Id = nat

  // A JSON value. text is what String() prints for it, number what Number() makes of it, if finite.
  datatype Value =
    | Null
    | Text(text: string, number: Option<real>)
    | Scalar(text: string, number: Option<real>)
    | Items(items: seq<Value>, text: string, number: Option<real>)
    | Fields(fields: map<string, Value>)

  type Metadata = map<string, Value>

  datatype Row = Row(text: string, category: string, scope: string, importance: real, timestamp: int,
                     metadata: Metadata, updatedAt: int)

  datatype Lifecycle = Dynamic | Archived | Inactive

  datatype Projection = Projection(scope: string, lifecycle: Lifecycle, validFrom: int, invalidatedAt: Option<int>,
                                   updatedAt: int)

  datatype Action = SoftArchive | RollbackSoftArchive | Promote | ArchiveCandidate

  datatype Event = Event(action: Action, target: Id, batch: string, before: Metadata, after: Metadata)

  datatype State = State(rows: map<Id, Row>, projection: map<Id, Projection>, audit: seq<Event>)

  // Who runs an operation, under which batch id, and what the clock says.
  datatype Stamp = Stamp(actor: string, batch: string, at: string, now: int)

  datatype Safety = Safety(allowed: bool, reason: string)

  // safety and sanitize are the capture-safety classifiers, cleanup is classifyCleanupReason (empty for
  // none), canon the normalised text used to find duplicates, noise the noise filter.
  datatype Classifiers = Classifiers(
    safety: string -> Safety,
    sanitize: string -> string,
    cleanup: string -> string,
    canon: string -> string,
    noise: string -> bool)

  // A string that reads as no number.
  function Str(text: string): Value {
    Text(text, None)
  }

  // String(m.key || "")
  function Val(m: Metadata, key: string): string {
    if key !in m || m[key].Null? then ""
    else if m[key].Fields? then "[object Object]"
    else if m[key].Scalar? && m[key].text in {"0", "false"} then ""
    else m[key].text
  }

  // The value if it is a string, else the empty string.
  function StrVal(m: Metadata, key: string): string {
    if key in m && m[key].Text? then m[key].text else ""
  }

  predicate Missing(m: Metadata, key: string) {
    key !in m || m[key].Null?
  }

  // ---------------------------------------------------------------- the lifecycle projection

  // src/lifecycle-metadata.ts:36-46, 108-121
  function NormalState(m: Metadata): string {
    var source := if Missing(m, "source") then StrVal(m, "type") else StrVal(m, "source");
    var raw :=
      if !Missing(m, "state") then StrVal(m, "state")
      else if source == "session-summary" then "archived" else "confirmed";
    if raw == "pending" || raw == "confirmed" || raw == "archived" || raw == "rejected" then raw else "confirmed"
  }

  // A missing or unknown layer is never "archive" unless the state already decides the outcome.
  function ExplicitArchiveLayer(m: Metadata): bool {
    StrVal(m, "memory_layer") == "archive"
  }

  // staticLifecycleForMetadata (src/lifecycle-metadata.ts:137-150)
  function StaticLifecycle(m: Metadata): Lifecycle {
    var state := NormalState(m);
    var lifecycle := Lower(Trim(Val(m, "lifecycle")));
    if state == "rejected" || lifecycle == "obsolete" || lifecycle == "rejected" || lifecycle == "superseded"
      then Inactive
    else if state == "archived" || ExplicitArchiveLayer(m) || lifecycle == "archived" then Archived
    else Dynamic
  }

  // normalizeOptionalTimestamp (src/lifecycle-metadata.ts:79-83)
  function Instant(m: Metadata, key: string): Option<int> {
    if key !in m || m[key].Null? || m[key].Fields? || m[key].number.None? || m[key].number.value <= 0.0 then None
    else Some(m[key].number.value.Floor)
  }

  // From when the memory holds, and until when (src/lifecycle-metadata.ts:125-134).
  function ValidFrom(row: Row): int {
    if Instant(row.metadata, "valid_from").Some? then Instant(row.metadata, "valid_from").value else row.timestamp
  }

  function InvalidatedAt(row: Row): Option<int> {
    var at := Instant(row.metadata, "invalidated_at");
    if at.Some? && at.value != 0 && at.value >= ValidFrom(row) then at else None
  }

  // src/sql-lifecycle-projection.ts:176-186
  function Project(row: Row): Projection {
    Projection(if row.scope == "" then "global" else row.scope, StaticLifecycle(row.metadata), ValidFrom(row),
               InvalidatedAt(row), row.updatedAt)
  }

  // What Number() reads under the key, when it is positive and finite.
  predicate ReadsPositive(m: Metadata, key: string, number: real) {
    key in m && !m[key].Null? && !m[key].Fields? && m[key].number == Some(number) && number > 0.0
  }

  // Which rows the projection files as inactive and archived; everything else is dynamic.
  lemma LifecycleIs(m: Metadata)
    ensures StaticLifecycle(m) == Inactive <==>
      StrVal(m, "state") == "rejected" || Lower(Trim(Val(m, "lifecycle"))) in {"obsolete", "rejected", "superseded"}
    ensures StaticLifecycle(m) == Archived <==>
      && StrVal(m, "state") != "rejected" && Lower(Trim(Val(m, "lifecycle"))) !in {"obsolete", "rejected", "superseded"}
      && (|| StrVal(m, "state") == "archived" || StrVal(m, "memory_layer") == "archive"
          || Lower(Trim(Val(m, "lifecycle"))) == "archived"
          || (Missing(m, "state") && StrVal(m, "source") == "session-summary")
          || (Missing(m, "state") && Missing(m, "source") && StrVal(m, "type") == "session-summary"))
  {
  }

  lemma InstantIs(m: Metadata, key: string)
    ensures forall n :: ReadsPositive(m, key, n) ==> Instant(m, key) == Some(n.Floor)
    ensures (forall n :: !ReadsPositive(m, key, n)) ==> Instant(m, key).None?
  {
    if Instant(m, key).Some? { assert ReadsPositive(m, key, m[key].number.value); }
  }

  // The other columns of a projected row: its window starts at a positive valid_from, else at the timestamp,
  // and ends at an invalidated_at that is not before the start.
  lemma ProjectIs(row: Row)
    ensures row.scope != "" ==> Project(row).scope == row.scope
    ensures row.scope == "" ==> Project(row).scope == "global"
    ensures Project(row).lifecycle == StaticLifecycle(row.metadata) && Project(row).updatedAt == row.updatedAt
    ensures forall n :: ReadsPositive(row.metadata, "valid_from", n) ==> Project(row).validFrom == n.Floor
    ensures (forall n :: !ReadsPositive(row.metadata, "valid_from", n)) ==> Project(row).validFrom == row.timestamp
    ensures forall n :: ReadsPositive(row.metadata, "invalidated_at", n) ==>
      Project(row).invalidatedAt ==
        if n.Floor != 0 && n.Floor >= Project(row).validFrom then Some(n.Floor) else None
    ensures (forall n :: !ReadsPositive(row.metadata, "invalidated_at", n)) ==> Project(row).invalidatedAt.None?
  {
    InstantIs(row.metadata, "valid_from");
    InstantIs(row.metadata, "invalidated_at");
  }

  ghost predicate InSync(s: State) {
    s.projection == map id | id in s.rows :: Project(s.rows[id])
  }

  // UPDATE memory_truth ... ; syncLifecycleProjectionFromTruth(id)
  function Put(s: State, id: Id, metadata: Metadata, now: int): State
    requires id in s.rows
  {
    var row := s.rows[id].(metadata := metadata, updatedAt := now);
    s.(rows := s.rows[id := row], projection := s.projection[id := Project(row)])
  }

  // ---------------------------------------------------------------- cleanup

  predicate IsArchivedForCleanup(row: Row) {
    || Lower(Val(row.metadata, "state")) == "archived"
    || Lower(Val(row.metadata, "memory_layer")) == "archive"
    || Lower(Val(row.metadata, "lifecycle")) == "archived"
  }

  predicate CleanupCandidate(row: Row, c: Classifiers) {
    !IsArchivedForCleanup(row) && c.cleanup(row.text) != ""
  }

  function Candidates(rows: map<Id, Row>, c: Classifiers): set<Id> {
    set id | id in rows && CleanupCandidate(rows[id], c)
  }

  // A row is a candidate when it is not yet archived and there is a reason to archive it.
  lemma CandidatesAre(rows: map<Id, Row>, c: Classifiers, id: Id)
    ensures id in Candidates(rows, c) <==>
      && id in rows
      && Lower(Val(rows[id].metadata, "state")) != "archived"
      && Lower(Val(rows[id].metadata, "memory_layer")) != "archive"
      && Lower(Val(rows[id].metadata, "lifecycle")) != "archived"
      && c.cleanup(rows[id].text) != ""
  {
  }

  // The first limit ids of the list that are in the set.
  function FirstOf(listing: seq<Id>, wanted: set<Id>, limit: nat): (r: seq<Id>)
    ensures forall id :: id in r ==> id in listing && id in wanted
    ensures |r| <= limit
  {
    if listing == [] || limit == 0 then []
    else if listing[0] in wanted then [listing[0]] + FirstOf(listing[1..], wanted, limit - 1)
    else FirstOf(listing[1..], wanted, limit)
  }

  // The first limit candidates of the listing the query returns.
  function CleanupIds(rows: map<Id, Row>, listing: seq<Id>, limit: nat, c: Classifiers): (r: seq<Id>)
    ensures forall id :: id in r ==> id in listing && id in rows && CleanupCandidate(rows[id], c)
    ensures |r| <= limit
  {
    FirstOf(listing, Candidates(rows, c), limit)
  }

  // at are places of wanted ids in the list, in their order.
  ghost predicate WantedPlaces(listing: seq<Id>, wanted: set<Id>, at: seq<nat>) {
    && (forall k :: 0 <= k < |at| ==> at[k] < |listing| && listing[at[k]] in wanted)
    && (forall k, l :: 0 <= k < l < |at| ==> at[k] < at[l])
  }

  // Any other such place comes after limit of them.
  ghost predicate MissedLater(at: seq<nat>, i: int, limit: nat) {
    |at| == limit && forall k :: 0 <= k < limit ==> at[k] < i
  }

  ghost predicate FirstPlaces(listing: seq<Id>, wanted: set<Id>, at: seq<nat>, limit: nat) {
    && |at| <= limit && WantedPlaces(listing, wanted, at)
    && forall i: nat :: i < |listing| && listing[i] in wanted && i !in at ==> MissedLater(at, i, limit)
  }

  function Shifted(at: seq<nat>): (r: seq<nat>)
    ensures |r| == |at| && forall k :: 0 <= k < |at| ==> r[k] == at[k] + 1
  {
    seq(|at|, k requires 0 <= k < |at| => at[k] + 1)
  }

  lemma ShiftedHas(at: seq<nat>, i: nat)
    ensures i in at ==> i + 1 in Shifted(at)
  {
    if i in at {
      var k :| 0 <= k < |at| && at[k] == i;
      assert Shifted(at)[k] == i + 1;
    }
  }

  lemma MissedPlace(listing: seq<Id>, wanted: set<Id>, rest: seq<nat>, i: nat, limit: nat)
    requires listing != [] && FirstPlaces(listing[1..], wanted, rest, limit)
    requires i < |listing| && listing[i] in wanted && i != 0 && i !in Shifted(rest)
    ensures MissedLater(Shifted(rest), i, limit)
  {
    ShiftedHas(rest, i - 1);
    assert listing[1..][i - 1] == listing[i];
  }

  lemma SkipPlace(listing: seq<Id>, wanted: set<Id>, rest: seq<nat>, limit: nat)
    requires listing != [] && listing[0] !in wanted && FirstPlaces(listing[1..], wanted, rest, limit)
    ensures FirstPlaces(listing, wanted, Shifted(rest), limit)
  {
    var at := Shifted(rest);
    forall i: nat | i < |listing| && listing[i] in wanted && i !in at ensures MissedLater(at, i, limit) {
      MissedPlace(listing, wanted, rest, i, limit);
    }
  }

  lemma ConsWanted(listing: seq<Id>, wanted: set<Id>, rest: seq<nat>)
    requires listing != [] && listing[0] in wanted && WantedPlaces(listing[1..], wanted, rest)
    ensures WantedPlaces(listing, wanted, [0] + Shifted(rest))
  {
    var at := [0] + Shifted(rest);
    forall k, l | 0 <= k < l < |at| ensures at[k] < at[l] {
      assert at[l] == rest[l - 1] + 1;
      if k > 0 { assert at[k] == rest[k - 1] + 1; }
    }
  }

  lemma ConsLater(rest: seq<nat>, i: nat, limit: nat)
    requires MissedLater(Shifted(rest), i, limit) && i > 0
    ensures MissedLater([0] + Shifted(rest), i, limit + 1)
  {
  }

  lemma TakePlace(listing: seq<Id>, wanted: set<Id>, rest: seq<nat>, limit: nat)
    requires listing != [] && listing[0] in wanted && limit > 0
    requires FirstPlaces(listing[1..], wanted, rest, limit - 1)
    ensures FirstPlaces(listing, wanted, [0] + Shifted(rest), limit)
  {
    var at := [0] + Shifted(rest);
    ConsWanted(listing, wanted, rest);
    assert at[0] == 0 && forall i: nat :: i !in at ==> i !in Shifted(rest);
    forall i: nat | i < |listing| && listing[i] in wanted && i !in at ensures MissedLater(at, i, limit) {
      MissedPlace(listing, wanted, rest, i, limit - 1);
      ConsLater(rest, i, limit - 1);
    }
  }

  // The ids at these places.
  ghost predicate Picks(listing: seq<Id>, at: seq<nat>, ids: seq<Id>) {
    |at| == |ids| && forall k :: 0 <= k < |at| ==> at[k] < |listing| && ids[k] == listing[at[k]]
  }

  lemma PicksLater(listing: seq<Id>, rest: seq<nat>, ids: seq<Id>)
    requires listing != [] && Picks(listing[1..], rest, ids)
    ensures Picks(listing, Shifted(rest), ids) && Picks(listing, [0] + Shifted(rest), [listing[0]] + ids)
  {
    var at := [0] + Shifted(rest);
    assert at[0] == 0 && forall k :: 1 <= k < |at| ==> at[k] == rest[k - 1] + 1;
  }

  // Exactly the first limit wanted ids are found, in the order of the list.
  lemma {:induction false} FirstOfIs(listing: seq<Id>, wanted: set<Id>, limit: nat) returns (at: seq<nat>)
    ensures FirstPlaces(listing, wanted, at, limit) && Picks(listing, at, FirstOf(listing, wanted, limit))
  {
    at := [];
    if listing != [] && limit > 0 {
      var left := if listing[0] in wanted then limit - 1 else limit;
      var rest := FirstOfIs(listing[1..], wanted, left);
      PicksLater(listing, rest, FirstOf(listing[1..], wanted, left));
      if listing[0] in wanted {
        TakePlace(listing, wanted, rest, limit);
        at := [0] + Shifted(rest);
      } else {
        SkipPlace(listing, wanted, rest, limit);
        at := Shifted(rest);
      }
    }
  }

  // Taking some of the wanted ids and then some of those left takes what one go takes.
  lemma {:induction false} TakingTwice(listing: seq<Id>, wanted: set<Id>, left: set<Id>, limit: nat, next: nat)
    requires NoDup(listing)
    requires forall id :: id in listing ==> (id in left <==> id in wanted && id !in FirstOf(listing, wanted, limit))
    ensures FirstOf(listing, wanted, limit) + FirstOf(listing, left, next) == FirstOf(listing, wanted, limit + next)
  {
    if listing != [] {
      var rest := FirstOf(listing[1..], wanted, if listing[0] in wanted && limit > 0 then limit - 1 else limit);
      assert listing[0] in listing && listing[0] !in listing[1..];
      forall id | id in listing[1..] ensures id in listing && (id in FirstOf(listing, wanted, limit) <==> id in rest) {}
      if listing[0] !in wanted {
        TakingTwice(listing[1..], wanted, left, limit, next);
      } else if limit > 0 {
        TakingTwice(listing[1..], wanted, left, limit - 1, next);
      } else if next > 0 {
        TakingTwice(listing[1..], wanted, left, 0, next - 1);
      }
    }
  }

  function CleanedMetadata(row: Row, st: Stamp, c: Classifiers): Metadata {
    row.metadata["state" := Str("archived")]["lifecycle" := Str("archived")]["memory_layer" := Str("archive")]
      ["cleanup_reason" := Str(c.cleanup(row.text))]["archived_at" := Str(st.at)]["archived_by" := Str(st.actor)]
      ["rollback_batch_id" := Str(st.batch)]
  }

  function CleanedRow(row: Row, st: Stamp, c: Classifiers): Row {
    row.(metadata := CleanedMetadata(row, st, c), updatedAt := st.now)
  }

  function CleanEvent(row: Row, id: Id, st: Stamp, c: Classifiers): Event {
    Event(SoftArchive, id, st.batch, row.metadata, CleanedMetadata(row, st, c))
  }

  function CleanEvents(s: State, ids: seq<Id>, st: Stamp, c: Classifiers): seq<Event>
    requires forall id :: id in ids ==> id in s.rows
  {
    seq(|ids|, i requires 0 <= i < |ids| => CleanEvent(s.rows[ids[i]], ids[i], st, c))
  }

  // All listed rows archived, one event each, in order.
  function Cleaned(s: State, ids: seq<Id>, st: Stamp, c: Classifiers): State
    requires forall id :: id in ids ==> id in s.rows
  {
    State(
      map id | id in s.rows :: if id in ids then CleanedRow(s.rows[id], st, c) else s.rows[id],
      map id | id in s.projection.Keys + Elems(ids) ::
        if id in ids then Project(CleanedRow(s.rows[id], st, c)) else s.projection[id],
      s.audit + CleanEvents(s, ids, st, c))
  }

  const CLEANUP_KEYS: set<string> :=
    {"state", "lifecycle", "memory_layer", "cleanup_reason", "archived_at", "archived_by", "rollback_batch_id"}

  // The two agree on every key but these.
  ghost predicate SameBut(was: Metadata, now: Metadata, keys: set<string>) {
    forall k :: k !in keys ==> (k in was <==> k in now) && (k in was ==> now[k] == was[k])
  }

  // The row has become an archived one: all three marks are set, the columns of the operation are written, and
  // nothing else has changed.
  ghost predicate ArchivedAs(was: Row, row: Row, st: Stamp, reason: string) {
    && StrVal(row.metadata, "state") == "archived" && Val(row.metadata, "lifecycle") == "archived"
    && Val(row.metadata, "memory_layer") == "archive"
    && Val(row.metadata, "cleanup_reason") == reason && Val(row.metadata, "archived_at") == st.at
    && Val(row.metadata, "archived_by") == st.actor && Val(row.metadata, "rollback_batch_id") == st.batch
    && SameBut(was.metadata, row.metadata, CLEANUP_KEYS)
    && row == was.(metadata := row.metadata, updatedAt := st.now)
  }

  lemma CleanedIsArchived(row: Row, st: Stamp, c: Classifiers)
    ensures ArchivedAs(row, CleanedRow(row, st, c), st, c.cleanup(row.text))
  {
    var m := CleanedMetadata(row, st, c);
    assert m["state"] == Str("archived") && m["lifecycle"] == Str("archived") && m["memory_layer"] == Str("archive");
    assert m["cleanup_reason"] == Str(c.cleanup(row.text)) && m["archived_at"] == Str(st.at);
    assert m["archived_by"] == Str(st.actor) && m["rollback_batch_id"] == Str(st.batch);
  }

  lemma LowerKeeps(s: string)
    requires forall i :: 0 <= i < |s| ==> !('A' <= s[i] <= 'Z')
    ensures Lower(s) == s
  {
  }

  lemma TrimKeepsWord(s: string)
    requires s != "" && !IsSpace(s[0]) && !IsSpace(s[|s| - 1])
    ensures Trim(s) == s
  {
  }

  // An archived row is projected as archived and is no candidate any more.
  lemma ArchivedReads(was: Row, row: Row, st: Stamp, reason: string)
    requires ArchivedAs(was, row, st, reason)
    ensures Project(row).lifecycle == Archived && IsArchivedForCleanup(row)
  {
    LowerKeeps("archived");
    TrimKeepsWord("archived");
    LifecycleIs(row.metadata);
  }

  // The row was no archived one, there was a reason to archive it, and now it is archived in both tables.
  ghost predicate NowArchived(s: State, t: State, id: Id, st: Stamp, c: Classifiers) {
    && id in s.rows && id in t.rows && id in t.projection
    && !IsArchivedForCleanup(s.rows[id]) && c.cleanup(s.rows[id].text) != ""
    && ArchivedAs(s.rows[id], t.rows[id], st, c.cleanup(s.rows[id].text))
    && t.projection[id] == Project(t.rows[id]) && t.projection[id].lifecycle == Archived
  }

  ghost predicate OthersUntouched(s: State, t: State, ids: seq<Id>) {
    && t.rows.Keys == s.rows.Keys && t.projection.Keys == s.projection.Keys + Elems(ids)
    && (forall id :: id in s.rows && id !in ids ==> t.rows[id] == s.rows[id])
    && forall id :: id in s.projection && id !in ids ==> t.projection[id] == s.projection[id]
  }

  // One event for each id, in order, with the metadata before and after.
  ghost predicate Recorded(s: State, t: State, ids: seq<Id>, batch: string) {
    && |t.audit| == |s.audit| + |ids| && s.audit <= t.audit
    && forall i :: 0 <= i < |ids| ==>
        && ids[i] in s.rows && ids[i] in t.rows
        && t.audit[|s.audit| + i] ==
            Event(SoftArchive, ids[i], batch, s.rows[ids[i]].metadata, t.rows[ids[i]].metadata)
  }

  lemma CleanupIsRecorded(s: State, ids: seq<Id>, st: Stamp, c: Classifiers)
    requires forall id :: id in ids ==> id in s.rows
    ensures Recorded(s, Cleaned(s, ids, st, c), ids, st.batch)
  {
    var t, events := Cleaned(s, ids, st, c), CleanEvents(s, ids, st, c);
    forall i | 0 <= i < |ids| ensures ids[i] in ids && t.rows[ids[i]] == CleanedRow(s.rows[ids[i]], st, c) {}
    assert t.audit == s.audit + events;
    assert forall i :: 0 <= i < |ids| ==> t.audit[|s.audit| + i] == events[i];
  }

  // A cleanup archives every row it returns, each of which was due, records it, and touches nothing else.
  lemma CleanupArchives(s: State, listing: seq<Id>, limit: nat, st: Stamp, c: Classifiers)
    ensures var ids := CleanupIds(s.rows, listing, limit, c); var t := Cleaned(s, ids, st, c);
      && (forall id :: id in ids ==> NowArchived(s, t, id, st, c))
      && OthersUntouched(s, t, ids) && Recorded(s, t, ids, st.batch)
  {
    var ids := CleanupIds(s.rows, listing, limit, c);
    forall id | id in ids ensures NowArchived(s, Cleaned(s, ids, st, c), id, st, c) {
      CleanedIsArchived(s.rows[id], st, c);
      ArchivedReads(s.rows[id], CleanedRow(s.rows[id], st, c), st, c.cleanup(s.rows[id].text));
    }
    CleanupIsRecorded(s, ids, st, c);
  }

  // What a cleanup leaves for the next.
  lemma LeftAfterCleanup(s: State, ids: seq<Id>, st: Stamp, c: Classifiers, id: Id)
    requires forall id :: id in ids ==> id in s.rows
    ensures id in Candidates(Cleaned(s, ids, st, c).rows, c) <==> id in Candidates(s.rows, c) && id !in ids
  {
    if id in ids {
      CleanedIsArchived(s.rows[id], st, c);
      ArchivedReads(s.rows[id], CleanedRow(s.rows[id], st, c), st, c.cleanup(s.rows[id].text));
    }
  }

  // A second run goes on where the first stopped: together they take what one run with both limits takes.
  lemma SecondCleanup(s: State, listing: seq<Id>, limit: nat, next: nat, st: Stamp, c: Classifiers)
    requires NoDup(listing)
    ensures var ids := CleanupIds(s.rows, listing, limit, c);
      ids + CleanupIds(Cleaned(s, ids, st, c).rows, listing, next, c) == CleanupIds(s.rows, listing, limit + next, c)
  {
    var ids := CleanupIds(s.rows, listing, limit, c);
    var left := Candidates(Cleaned(s, ids, st, c).rows, c);
    forall id | id in listing ensures id in left <==> id in Candidates(s.rows, c) && id !in ids {
      LeftAfterCleanup(s, ids, st, c, id);
    }
    TakingTwice(listing, Candidates(s.rows, c), left, limit, next);
  }

  lemma NothingWanted(listing: seq<Id>, wanted: set<Id>, limit: nat)
    requires limit > 0
    ensures FirstOf(listing, wanted, limit) == [] <==> forall id :: id in listing ==> id !in wanted
  {
    var at := FirstOfIs(listing, wanted, limit);
    if FirstOf(listing, wanted, limit) == [] {
      assert forall i: nat :: i < |listing| && listing[i] in wanted ==> i in at;
    } else {
      assert FirstOf(listing, wanted, limit)[0] in listing;
    }
  }

  lemma WithRoomTakesAll(listing: seq<Id>, wanted: set<Id>, limit: nat)
    requires |FirstOf(listing, wanted, limit)| < limit
    ensures forall id :: id in listing && id in wanted ==> id in FirstOf(listing, wanted, limit)
  {
    var ids := FirstOf(listing, wanted, limit);
    var at := FirstOfIs(listing, wanted, limit);
    forall id | id in listing && id in wanted ensures id in ids {
      var i :| 0 <= i < |listing| && listing[i] == id;
      assert i in at;
      var k :| 0 <= k < |at| && at[k] == i;
      assert ids[k] == id;
    }
  }

  // It finds nothing exactly when the first run took every candidate listed, so when that had room for more.
  lemma SecondCleanupFindsNothingIff(s: State, listing: seq<Id>, limit: nat, next: nat, st: Stamp, c: Classifiers)
    requires next > 0
    ensures var ids := CleanupIds(s.rows, listing, limit, c);
      && (CleanupIds(Cleaned(s, ids, st, c).rows, listing, next, c) == [] <==>
            forall id :: id in listing && id in Candidates(s.rows, c) ==> id in ids)
      && (|ids| < limit ==> CleanupIds(Cleaned(s, ids, st, c).rows, listing, next, c) == [])
  {
    var ids := CleanupIds(s.rows, listing, limit, c);
    var left := Candidates(Cleaned(s, ids, st, c).rows, c);
    forall id ensures id in left <==> id in Candidates(s.rows, c) && id !in ids {
      LeftAfterCleanup(s, ids, st, c, id);
    }
    NothingWanted(listing, left, next);
    if |ids| < limit { WithRoomTakesAll(listing, Candidates(s.rows, c), limit); }
  }

  // ---------------------------------------------------------------- rollback

  function BatchEvents(audit: seq<Event>, batch: string): seq<Event> {
    if audit == [] then []
    else
      var before := BatchEvents(audit[..|audit| - 1], batch);
      var e := audit[|audit| - 1];
      if e.batch == batch && e.action == SoftArchive then before + [e] else before
  }

  predicate Tagged(s: State, id: Id, batch: string) {
    id in s.rows && Val(s.rows[id].metadata, "rollback_batch_id") == batch
  }

  // What is left of a value when object keys outside the list are dropped, however deep.
  function Pruned(v: Value, keys: set<string>): Value {
    match v
    case Items(items, text, number) =>
      Items(seq(|items|, i requires 0 <= i < |items| => Pruned(items[i], keys)), text, number)
    case Fields(fields) => Fields(map k | k in fields && k in keys :: Pruned(fields[k], keys))
    case _ => v
  }

  // jsonStable (src/governance-cleanup.ts:64-66): the array given to JSON.stringify names the top-level keys
  // and filters the keys of nested objects by them too.
  function Stable(m: Metadata): Metadata {
    map k | k in m :: Pruned(m[k], m.Keys)
  }

  // Every object key in the value is one of these.
  predicate KeysWithin(v: Value, keys: set<string>) {
    match v
    case Items(items, _, _) => forall i :: 0 <= i < |items| ==> KeysWithin(items[i], keys)
    case Fields(fields) => forall k :: k in fields ==> k in keys && KeysWithin(fields[k], keys)
    case _ => true
  }

  // Every nested key is also a top-level key.
  predicate Survives(m: Metadata) {
    forall k :: k in m ==> KeysWithin(m[k], m.Keys)
  }

  lemma {:induction false} PrunedIff(v: Value, keys: set<string>)
    ensures Pruned(v, keys) == v <==> KeysWithin(v, keys)
  {
    match v
    case Items(items, _, _) =>
      forall i | 0 <= i < |items| ensures Pruned(items[i], keys) == items[i] <==> KeysWithin(items[i], keys) {
        PrunedIff(items[i], keys);
      }
      var r := Pruned(v, keys).items;
      if r == items { assert forall i :: 0 <= i < |items| ==> r[i] == items[i]; }
    case Fields(fields) =>
      forall k | k in fields ensures Pruned(fields[k], keys) == fields[k] <==> KeysWithin(fields[k], keys) {
        PrunedIff(fields[k], keys);
      }
      var r := Pruned(v, keys).fields;
      if r == fields { assert forall k :: k in fields ==> k in r && r[k] == fields[k]; }
      if KeysWithin(v, keys) { assert r == fields; }
    case _ =>
  }

  lemma StableIff(m: Metadata)
    ensures Stable(m) == m <==> Survives(m)
  {
    forall k | k in m ensures Pruned(m[k], m.Keys) == m[k] <==> KeysWithin(m[k], m.Keys) { PrunedIff(m[k], m.Keys); }
    if Stable(m) == m { assert forall k :: k in m ==> Stable(m)[k] == m[k]; }
    if Survives(m) { assert Stable(m) == m; }
  }

  datatype Step = Key(key: string) | At(index: nat)

  // What stands at the end of a path into a value.
  function Reach(v: Value, path: seq<Step>): Option<Value>
    decreases |path|
  {
    if path == [] then Some(v)
    else
      match (v, path[0])
      case (Items(items, _, _), At(i)) => if i < |items| then Reach(items[i], path[1..]) else None
      case (Fields(fields), Key(k)) => if k in fields then Reach(fields[k], path[1..]) else None
      case _ => None
  }

  // What is dropped, path by path: exactly what stands under a key outside the list.
  lemma {:induction false} PrunedReach(v: Value, path: seq<Step>, keys: set<string>)
    ensures Reach(Pruned(v, keys), path) ==
      if Reach(v, path).Some? && forall s: Step :: s in path && s.Key? ==> s.key in keys
      then Some(Pruned(Reach(v, path).value, keys)) else None
    decreases |path|
  {
    if path != [] {
      var rest := path[1..];
      assert path == [path[0]] + rest;
      match (v, path[0])
      case (Items(items, _, _), At(i)) => if i < |items| { PrunedReach(items[i], rest, keys); }
      case (Fields(fields), Key(k)) => if k in fields { PrunedReach(fields[k], rest, keys); }
      case _ =>
    }
  }

  // Whatever it drops, no top-level value reads differently.
  lemma StableReads(m: Metadata, key: string)
    ensures Val(Stable(m), key) == Val(m, key) && StrVal(Stable(m), key) == StrVal(m, key)
    ensures Instant(Stable(m), key) == Instant(m, key) && (Missing(Stable(m), key) <==> Missing(m, key))
  {
  }

  function Undo(s: State, e: Event, now: int): State
    requires e.target in s.rows
  {
    var t := Put(s, e.target, Stable(e.before), now);
    t.(audit := s.audit + [Event(RollbackSoftArchive, e.target, e.batch, s.rows[e.target].metadata, e.before)])
  }

  function UndoIfTagged(done: (State, nat), e: Event, batch: string, now: int): (State, nat) {
    if Tagged(done.0, e.target, batch) then (Undo(done.0, e, now), done.1 + 1) else done
  }

  // Events are undone in order; a row no longer tagged with the batch is left alone.
  function RolledBack(s: State, events: seq<Event>, batch: string, now: int): (State, nat) {
    if events == [] then (s, 0)
    else UndoIfTagged(RolledBack(s, events[..|events| - 1], batch, now), events[|events| - 1], batch, now)
  }

  // ---------------------------------------------------------------- the transactions, as code

  lemma {:induction false} FirstOfNoDup(listing: seq<Id>, wanted: set<Id>, limit: nat)
    requires NoDup(listing)
    ensures NoDup(FirstOf(listing, wanted, limit))
  {
    if listing != [] && limit > 0 {
      FirstOfNoDup(listing[1..], wanted, if listing[0] in wanted then limit - 1 else limit);
      assert listing[0] !in listing[1..];
    }
  }

  // Having found ids before the i-th listed row, the scan ends with the candidates of the whole listing.
  ghost predicate Finds(listing: seq<Id>, wanted: set<Id>, i: nat, ids: seq<Id>, limit: nat) {
    && i <= |listing| && |ids| <= limit
    && ids + FirstOf(listing[i..], wanted, limit - |ids|) == FirstOf(listing, wanted, limit)
  }

  lemma FirstOfAt(listing: seq<Id>, wanted: set<Id>, i: nat, limit: nat)
    requires i < |listing| && limit > 0
    ensures FirstOf(listing[i..], wanted, limit) ==
      if listing[i] in wanted then [listing[i]] + FirstOf(listing[i + 1..], wanted, limit - 1)
      else FirstOf(listing[i + 1..], wanted, limit)
  {
    assert listing[i..][0] == listing[i] && listing[i..][1..] == listing[i + 1..];
  }

  lemma AddFound(ids: seq<Id>, id: Id, found: bool, rest: seq<Id>, all: seq<Id>)
    requires ids + (if found then [id] + rest else rest) == all
    ensures (if found then ids + [id] else ids) + rest == all
  {
    assert ids + ([id] + rest) == (ids + [id]) + rest;
  }

  lemma FindsMore(listing: seq<Id>, wanted: set<Id>, i: nat, ids: seq<Id>, limit: nat)
    requires i < |listing| && |ids| < limit && Finds(listing, wanted, i, ids, limit)
    ensures Finds(listing, wanted, i + 1, if listing[i] in wanted then ids + [listing[i]] else ids, limit)
  {
    var found := listing[i] in wanted;
    var left := limit - |ids|;
    FirstOfAt(listing, wanted, i, left);
    AddFound(ids, listing[i], found, FirstOf(listing[i + 1..], wanted, if found then left - 1 else left),
             FirstOf(listing, wanted, limit));
  }

  lemma RolledBackStep(s: State, events: seq<Event>, i: nat, batch: string, now: int)
    requires i < |events|
    ensures RolledBack(s, events[..i + 1], batch, now) ==
      UndoIfTagged(RolledBack(s, events[..i], batch, now), events[i], batch, now)
  {
    assert events[..i + 1][..i] == events[..i];
  }

  lemma CleanedNone(s: State, st: Stamp, c: Classifiers)
    ensures Cleaned(s, [], st, c) == s
  {
    var t := Cleaned(s, [], st, c);
    assert t.rows == s.rows;
    assert t.projection == s.projection;
    assert t.audit == s.audit;
  }

  lemma CleanEventsMore(s: State, ids: seq<Id>, i: nat, st: Stamp, c: Classifiers)
    requires i < |ids| && forall id :: id in ids ==> id in s.rows
    ensures CleanEvents(s, ids[..i + 1], st, c) ==
      CleanEvents(s, ids[..i], st, c) + [CleanEvent(s.rows[ids[i]], ids[i], st, c)]
  {
  }

  // Two maps that lay values over the same base at ids[..i] and at ids[..i + 1].
  lemma OverlayMore<T>(base: map<Id, T>, ids: seq<Id>, i: nat, r: map<Id, T>, t: map<Id, T>, v: T)
    requires i < |ids|
    requires r.Keys == base.Keys + Elems(ids[..i]) && t.Keys == base.Keys + Elems(ids[..i + 1])
    requires forall x :: x in r && x !in ids[..i] ==> r[x] == base[x]
    requires forall x :: x in t && x !in ids[..i + 1] ==> t[x] == base[x]
    requires forall x :: x in ids[..i] && x != ids[i] ==> x in t && x in r && t[x] == r[x]
    requires ids[i] in t && t[ids[i]] == v
    ensures t == r[ids[i] := v]
  {
    ElemsPrefix(ids, i);
    PrefixGrows(ids, i);
    assert t.Keys == r.Keys + {ids[i]};
  }

  lemma CleanedRowsMore(s: State, ids: seq<Id>, i: nat, st: Stamp, c: Classifiers)
    requires i < |ids| && NoDup(ids) && forall id :: id in ids ==> id in s.rows
    ensures ids[i] in s.rows && Cleaned(s, ids[..i], st, c).rows[ids[i]] == s.rows[ids[i]]
    ensures Cleaned(s, ids[..i + 1], st, c).rows ==
      Cleaned(s, ids[..i], st, c).rows[ids[i] := CleanedRow(s.rows[ids[i]], st, c)]
  {
    var r, t := Cleaned(s, ids[..i], st, c).rows, Cleaned(s, ids[..i + 1], st, c).rows;
    PrefixGrows(ids, i);
    OverlayMore(s.rows, ids, i, r, t, CleanedRow(s.rows[ids[i]], st, c));
  }

  lemma CleanedProjectionMore(s: State, ids: seq<Id>, i: nat, st: Stamp, c: Classifiers)
    requires i < |ids| && NoDup(ids) && forall id :: id in ids ==> id in s.rows
    ensures ids[i] in s.rows
    ensures Cleaned(s, ids[..i + 1], st, c).projection ==
      Cleaned(s, ids[..i], st, c).projection[ids[i] := Project(CleanedRow(s.rows[ids[i]], st, c))]
  {
    var r, t := Cleaned(s, ids[..i], st, c).projection, Cleaned(s, ids[..i + 1], st, c).projection;
    assert ids[i] in ids;
    assert forall x :: x in ids[..i + 1] <==> x in ids[..i] || x == ids[i];
    OverlayMore(s.projection, ids, i, r, t, Project(CleanedRow(s.rows[ids[i]], st, c)));
  }

  lemma CleanedMore(s: State, ids: seq<Id>, i: nat, st: Stamp, c: Classifiers)
    requires i < |ids| && NoDup(ids) && forall id :: id in ids ==> id in s.rows
    ensures var t := Cleaned(s, ids[..i], st, c); var id := ids[i];
      && id in t.rows && t.rows[id] == s.rows[id]
      && Cleaned(s, ids[..i + 1], st, c) ==
         Put(t, id, CleanedMetadata(t.rows[id], st, c), st.now).(audit := t.audit + [CleanEvent(t.rows[id], id, st, c)])
  {
    CleanedRowsMore(s, ids, i, st, c);
    CleanedProjectionMore(s, ids, i, st, c);
    CleanEventsMore(s, ids, i, st, c);
    assert s.audit + (CleanEvents(s, ids[..i], st, c) + [CleanEvent(s.rows[ids[i]], ids[i], st, c)])
      == (s.audit + CleanEvents(s, ids[..i], st, c)) + [CleanEvent(s.rows[ids[i]], ids[i], st, c)];
  }

  lemma CleanedInSync(s: State, ids: seq<Id>, st: Stamp, c: Classifiers)
    requires forall id :: id in ids ==> id in s.rows
    ensures InSync(s) ==> InSync(Cleaned(s, ids, st, c))
  {
  }

  lemma {:induction false} RolledBackInSync(s: State, events: seq<Event>, batch: string, now: int)
    ensures InSync(s) ==> InSync(RolledBack(s, events, batch, now).0)
  {
    if events != [] { RolledBackInSync(s, events[..|events| - 1], batch, now); }
  }

  class GovernanceDb {
    var rows: map<Id, Row>
    var projection: map<Id, Projection>
    var audit: seq<Event>

    ghost function View(): State
      reads this
    {
      State(rows, projection, audit)
    }

    // src/governance-cleanup.ts:150-171
    method FindCleanupCandidates(listing: seq<Id>, limit: nat, c: Classifiers) returns (ids: seq<Id>)
      requires NoDup(listing) && limit >= 1
      ensures ids == CleanupIds(rows, listing, limit, c)
    {
      ids := [];
      var i := 0;
      while i < |listing|
        invariant 0 <= i <= |listing| && |ids| < limit
        invariant Finds(listing, Candidates(rows, c), i, ids, limit)
      {
        var id := listing[i];
        FindsMore(listing, Candidates(rows, c), i, ids, limit);
        if id in rows && CleanupCandidate(rows[id], c) {
          ids := ids + [id];
          if |ids| >= limit { return; }
        }
        i := i + 1;
      }
    }

    // src/governance-cleanup.ts:225-299
    method ApplyCleanup(listing: seq<Id>, dryRun: bool, limit: nat, st: Stamp, c: Classifiers)
      returns (archived: nat, ids: seq<Id>)
      requires NoDup(listing) && limit >= 1
      modifies this
      ensures ids == CleanupIds(old(rows), listing, limit, c)
      ensures View() == if dryRun then old(View()) else Cleaned(old(View()), ids, st, c)
      ensures archived == if dryRun then 0 else |ids|
      ensures old(InSync(View())) ==> InSync(View())
    {
      ids := FindCleanupCandidates(listing, limit, c);
      FirstOfNoDup(listing, Candidates(rows, c), limit);
      archived := 0;
      if dryRun || ids == [] {
        CleanedNone(View(), st, c);
        return;
      }
      ghost var s := View();
      CleanedNone(s, st, c);
      for i := 0 to |ids|
        invariant View() == Cleaned(s, ids[..i], st, c)
        invariant archived == i
      {
        var id := ids[i];
        CleanedMore(s, ids, i, st, c);
        if id !in rows || IsArchivedForCleanup(rows[id]) { continue; }
        var before := rows[id].metadata;
        var metadata := CleanedMetadata(rows[id], st, c);
        rows := rows[id := rows[id].(metadata := metadata, updatedAt := st.now)];
        projection := projection[id := Project(rows[id])];
        audit := audit + [Event(SoftArchive, id, st.batch, before, metadata)];
        archived := archived + 1;
      }
      assert ids[..|ids|] == ids;
      CleanedInSync(s, ids, st, c);
    }

    // src/governance-cleanup.ts:301-359
    method RollbackCleanupBatch(batch: string, dryRun: bool, now: int) returns (restored: nat)
      modifies this
      ensures var (t, n) := RolledBack(old(View()), BatchEvents(old(audit), batch), batch, now);
        View() == (if dryRun then old(View()) else t) && restored == (if dryRun then 0 else n)
      ensures old(InSync(View())) ==> InSync(View())
    {
      var events := BatchEvents(audit, batch);
      if dryRun || events == [] { return 0; }
      RolledBackInSync(View(), events, batch, now);
      restored := UndoAll(events, batch, now);
    }

    method UndoAll(events: seq<Event>, batch: string, now: int) returns (restored: nat)
      modifies this
      ensures (View(), restored) == RolledBack(old(View()), events, batch, now)
    {
      ghost var s := View();
      restored := 0;
      for i := 0 to |events|
        invariant (View(), restored) == RolledBack(s, events[..i], batch, now)
      {
        RolledBackStep(s, events, i, batch, now);
        restored := UndoTagged(events[i], batch, now, restored);
      }
      assert events[..|events|] == events;
    }

    // One pass of the loop.
    method UndoTagged(e: Event, batch: string, now: int, restored0: nat) returns (restored: nat)
      modifies this
      ensures (View(), restored) == UndoIfTagged((old(View()), restored0), e, batch, now)
    {
      restored := restored0;
      if e.target in rows && Val(rows[e.target].metadata, "rollback_batch_id") == batch {
        UndoOne(e, now);
        restored := restored + 1;
      }
    }

    method UndoOne(e: Event, now: int)
      requires e.target in rows
      modifies this
      ensures View() == Undo(old(View()), e, now)
    {
      var current := rows[e.target].metadata;
      rows := rows[e.target := rows[e.target].(metadata := Stable(e.before), updatedAt := now)];
      projection := projection[e.target := Project(rows[e.target])];
      audit := audit + [Event(RollbackSoftArchive, e.target, e.batch, current, e.before)];
    }
  }

  // ---------------------------------------------------------------- the round trip

  predicate DistinctTargets(events: seq<Event>) {
    forall i, j :: 0 <= i < j < |events| ==> events[i].target != events[j].target
  }

  function BeforeOf(events: seq<Event>, id: Id): Option<Metadata> {
    if events == [] then None
    else if events[|events| - 1].target == id then Some(events[|events| - 1].before)
    else BeforeOf(events[..|events| - 1], id)
  }

  // The row a rollback leaves: restored iff it has an event and still carries the batch tag.
  function RestoredRow(row: Row, before: Option<Metadata>, batch: string, now: int): Row {
    if before.Some? && Val(row.metadata, "rollback_batch_id") == batch
    then row.(metadata := Stable(before.value), updatedAt := now) else row
  }

  function RestoredTable(rows: map<Id, Row>, events: seq<Event>, batch: string, now: int): map<Id, Row> {
    map id | id in rows :: RestoredRow(rows[id], BeforeOf(events, id), batch, now)
  }

  lemma {:induction false} BeforeOfAbsent(events: seq<Event>, id: Id)
    requires forall i :: 0 <= i < |events| ==> events[i].target != id
    ensures BeforeOf(events, id) == None
  {
    if events != [] { BeforeOfAbsent(events[..|events| - 1], id); }
  }

  lemma {:induction false} RolledBackIs(s: State, events: seq<Event>, batch: string, now: int)
    requires DistinctTargets(events)
    ensures RolledBack(s, events, batch, now).0.rows == RestoredTable(s.rows, events, batch, now)
  {
    if events != [] {
      var n := |events| - 1;
      var e := events[n];
      var (t, _) := RolledBack(s, events[..n], batch, now);
      RolledBackIs(s, events[..n], batch, now);
      BeforeOfAbsent(events[..n], e.target);
      var u := RolledBack(s, events, batch, now).0;
      assert u.rows.Keys == s.rows.Keys;
      forall id | id in s.rows ensures u.rows[id] == RestoredRow(s.rows[id], BeforeOf(events, id), batch, now) {
        if id == e.target { assert t.rows[id] == s.rows[id]; }
      }
    }
  }

  // No event and no row knows the batch id yet.
  ghost predicate FreshBatch(s: State, batch: string) {
    && (forall e :: e in s.audit ==> e.batch != batch)
    && (forall id :: id in s.rows ==> Val(s.rows[id].metadata, "rollback_batch_id") != batch)
  }

  lemma BatchEventsSnoc(audit: seq<Event>, e: Event, batch: string)
    ensures BatchEvents(audit + [e], batch) ==
      BatchEvents(audit, batch) + (if e.batch == batch && e.action == SoftArchive then [e] else [])
  {
    assert (audit + [e])[..|audit|] == audit;
  }

  lemma Joined(a: seq<Event>, b: seq<Event>, e: Event)
    ensures (a + b) + [e] == a + (b + [e])
  {
  }

  lemma {:induction false} BatchEventsAppend(audit: seq<Event>, more: seq<Event>, batch: string)
    requires forall e :: e in more ==> e.batch == batch && e.action == SoftArchive
    ensures BatchEvents(audit + more, batch) == BatchEvents(audit, batch) + more
    decreases |more|
  {
    if more == [] {
      assert audit + more == audit;
    } else {
      var n := |more| - 1;
      assert more[n] in more && forall e :: e in more[..n] ==> e in more;
      BatchEventsAppend(audit, more[..n], batch);
      BatchEventsSnoc(audit + more[..n], more[n], batch);
      Joined(audit, more[..n], more[n]);
      Joined(BatchEvents(audit, batch), more[..n], more[n]);
      assert more[..n] + [more[n]] == more;
    }
  }

  lemma {:induction false} BatchEventsNone(audit: seq<Event>, batch: string)
    requires forall e :: e in audit ==> e.batch != batch
    ensures BatchEvents(audit, batch) == []
  {
    if audit != [] { BatchEventsNone(audit[..|audit| - 1], batch); }
  }

  lemma {:induction false} BeforeOfAt(events: seq<Event>, i: nat)
    requires i < |events| && DistinctTargets(events)
    ensures BeforeOf(events, events[i].target) == Some(events[i].before)
  {
    var n := |events| - 1;
    if i < n { BeforeOfAt(events[..n], i); }
  }

  lemma CleanEventsDistinct(s: State, ids: seq<Id>, st: Stamp, c: Classifiers)
    requires NoDup(ids) && forall id :: id in ids ==> id in s.rows
    ensures DistinctTargets(CleanEvents(s, ids, st, c))
  {
    var events := CleanEvents(s, ids, st, c);
    assert forall i :: 0 <= i < |events| ==> events[i].target == ids[i];
  }

  // The events a cleanup under a fresh batch id leaves for its rollback.
  lemma CleanupEvents(s: State, ids: seq<Id>, st: Stamp, c: Classifiers)
    requires NoDup(ids) && (forall id :: id in ids ==> id in s.rows) && FreshBatch(s, st.batch)
    ensures BatchEvents(Cleaned(s, ids, st, c).audit, st.batch) == CleanEvents(s, ids, st, c)
    ensures DistinctTargets(CleanEvents(s, ids, st, c))
  {
    CleanEventsDistinct(s, ids, st, c);
    BatchEventsNone(s.audit, st.batch);
    BatchEventsAppend(s.audit, CleanEvents(s, ids, st, c), st.batch);
  }

  lemma CleanEventBefore(s: State, ids: seq<Id>, st: Stamp, c: Classifiers, id: Id)
    requires NoDup(ids) && forall x :: x in ids ==> x in s.rows
    ensures BeforeOf(CleanEvents(s, ids, st, c), id) == if id in ids then Some(s.rows[id].metadata) else None
  {
    if id in ids {
      var i :| 0 <= i < |ids| && ids[i] == id;
      BeforeOfAt(CleanEvents(s, ids, st, c), i);
    } else {
      BeforeOfAbsent(CleanEvents(s, ids, st, c), id);
    }
  }

  function RestoredRows(s: State, ids: seq<Id>, now: int): map<Id, Row> {
    map id | id in s.rows ::
      if id in ids then s.rows[id].(metadata := Stable(s.rows[id].metadata), updatedAt := now) else s.rows[id]
  }

  lemma StableProjects(row: Row, now: int)
    ensures Project(row.(metadata := Stable(row.metadata), updatedAt := now)) == Project(row).(updatedAt := now)
  {
    var m := row.metadata;
    StableReads(m, "source");
    StableReads(m, "type");
    StableReads(m, "state");
    StableReads(m, "memory_layer");
    StableReads(m, "lifecycle");
    StableReads(m, "valid_from");
    StableReads(m, "invalidated_at");
  }

  lemma CleanedIsTagged(row: Row, st: Stamp, c: Classifiers)
    ensures Val(CleanedRow(row, st, c).metadata, "rollback_batch_id") == st.batch
  {
    assert CleanedMetadata(row, st, c)["rollback_batch_id"] == Str(st.batch);
  }

  lemma RestoredAt(s: State, ids: seq<Id>, st: Stamp, now: int, c: Classifiers, id: Id)
    requires NoDup(ids) && (forall x :: x in ids ==> x in s.rows) && id in s.rows
    ensures id in Cleaned(s, ids, st, c).rows
    ensures RestoredRow(Cleaned(s, ids, st, c).rows[id], BeforeOf(CleanEvents(s, ids, st, c), id), st.batch, now) ==
      RestoredRows(s, ids, now)[id]
  {
    CleanEventBefore(s, ids, st, c, id);
    if id in ids { CleanedIsTagged(s.rows[id], st, c); }
  }

  lemma SameTable(a: map<Id, Row>, b: map<Id, Row>)
    requires a.Keys == b.Keys && forall id :: id in a ==> a[id] == b[id]
    ensures a == b
  {
  }

  lemma RestoredTableIs(s: State, ids: seq<Id>, st: Stamp, now: int, c: Classifiers)
    requires NoDup(ids) && forall id :: id in ids ==> id in s.rows
    ensures RestoredTable(Cleaned(s, ids, st, c).rows, CleanEvents(s, ids, st, c), st.batch, now) ==
      RestoredRows(s, ids, now)
  {
    var rows, events := Cleaned(s, ids, st, c).rows, CleanEvents(s, ids, st, c);
    var r := RestoredTable(rows, events, st.batch, now);
    forall id | id in r ensures r[id] == RestoredRows(s, ids, now)[id] {
      RestoredAt(s, ids, st, now, c, id);
    }
    SameTable(r, RestoredRows(s, ids, now));
  }

  lemma FirstRollback(s: State, ids: seq<Id>, st: Stamp, now: int, c: Classifiers)
    requires NoDup(ids) && (forall id :: id in ids ==> id in s.rows) && FreshBatch(s, st.batch)
    ensures RolledBack(Cleaned(s, ids, st, c), CleanEvents(s, ids, st, c), st.batch, now).0.rows ==
      RestoredRows(s, ids, now)
  {
    CleanEventsDistinct(s, ids, st, c);
    RolledBackIs(Cleaned(s, ids, st, c), CleanEvents(s, ids, st, c), st.batch, now);
    RestoredTableIs(s, ids, st, now, c);
  }

  lemma {:induction false} RolledBackNothing(s: State, events: seq<Event>, batch: string, now: int)
    requires forall i :: 0 <= i < |events| ==> !Tagged(s, events[i].target, batch)
    ensures RolledBack(s, events, batch, now) == (s, 0)
  {
    if events != [] { RolledBackNothing(s, events[..|events| - 1], batch, now); }
  }

  // A rollback never adds to the events a later rollback of the batch will read.
  lemma {:induction false} RollbackAddsNoArchive(s: State, events: seq<Event>, batch: string, now: int)
    ensures BatchEvents(RolledBack(s, events, batch, now).0.audit, batch) == BatchEvents(s.audit, batch)
  {
    if events != [] {
      var n := |events| - 1;
      RollbackAddsNoArchive(s, events[..n], batch, now);
      var t := RolledBack(s, events[..n], batch, now).0;
      if Tagged(t, events[n].target, batch) {
        var u := Undo(t, events[n], now);
        assert u.audit[..|u.audit| - 1] == t.audit;
      }
    }
  }

  // Cleanup under a fresh batch id, then its rollback: every archived row has its metadata back but for nested
  // keys that are no top-level keys, other rows are untouched, and a second rollback changes no row.
  lemma CleanupRoundTrip(s: State, ids: seq<Id>, st: Stamp, now: int, later: int, c: Classifiers)
    requires NoDup(ids) && (forall id :: id in ids ==> id in s.rows) && FreshBatch(s, st.batch)
    ensures var s1 := Cleaned(s, ids, st, c);
      var s2 := RolledBack(s1, BatchEvents(s1.audit, st.batch), st.batch, now).0;
      var s3 := RolledBack(s2, BatchEvents(s2.audit, st.batch), st.batch, later);
      && s2.rows == RestoredRows(s, ids, now)
      && s3 == (s2, 0)
  {
    var s1, events := Cleaned(s, ids, st, c), CleanEvents(s, ids, st, c);
    CleanupEvents(s, ids, st, c);
    FirstRollback(s, ids, st, now, c);
    RollbackAddsNoArchive(s1, events, st.batch, now);
    var s2 := RolledBack(s1, events, st.batch, now).0;
    forall i | 0 <= i < |events| ensures !Tagged(s2, events[i].target, st.batch) {
      assert Val(s.rows[ids[i]].metadata, "rollback_batch_id") != st.batch;
      StableReads(s.rows[ids[i]].metadata, "rollback_batch_id");
    }
    RolledBackNothing(s2, events, st.batch, later);
  }

  // All metadata is back exactly when in each archived row every nested key is also a top-level key; the
  // projected columns other than the update time are back in any case.
  lemma RoundTripRestoresIff(s: State, ids: seq<Id>, st: Stamp, now: int, c: Classifiers)
    requires NoDup(ids) && (forall id :: id in ids ==> id in s.rows) && FreshBatch(s, st.batch)
    ensures var s1 := Cleaned(s, ids, st, c);
      var s2 := RolledBack(s1, BatchEvents(s1.audit, st.batch), st.batch, now).0;
      && s2.rows.Keys == s.rows.Keys
      && ((forall id :: id in s.rows ==> s2.rows[id].metadata == s.rows[id].metadata)
          <==> forall id :: id in ids ==> Survives(s.rows[id].metadata))
      && forall id :: id in s.rows ==> Project(s2.rows[id]) == Project(s.rows[id]).(updatedAt := s2.rows[id].updatedAt)
  {
    CleanupRoundTrip(s, ids, st, now, now, c);
    var restored := RestoredRows(s, ids, now);
    forall id | id in s.rows
      ensures restored[id].metadata == s.rows[id].metadata <==> (id in ids ==> Survives(s.rows[id].metadata))
    {
      StableIff(s.rows[id].metadata);
    }
    forall id | id in s.rows
      ensures Project(restored[id]) == Project(s.rows[id]).(updatedAt := restored[id].updatedAt)
    {
      if id in ids { StableProjects(s.rows[id], now); }
    }
  }

  lemma {:induction false} RestoredCount(s: State, events: seq<Event>, batch: string, now: int)
    requires DistinctTargets(events)
    requires forall i :: 0 <= i < |events| ==> Tagged(s, events[i].target, batch)
    ensures RolledBack(s, events, batch, now).1 == |events|
  {
    if events != [] {
      var n := |events| - 1;
      RestoredCount(s, events[..n], batch, now);
      RolledBackIs(s, events[..n], batch, now);
      BeforeOfAbsent(events[..n], events[n].target);
    }
  }

  // The rollback restores exactly as many rows as the cleanup archived.
  lemma RollbackRestoresAll(s: State, ids: seq<Id>, st: Stamp, now: int, c: Classifiers)
    requires NoDup(ids) && (forall id :: id in ids ==> id in s.rows) && FreshBatch(s, st.batch)
    ensures var s1 := Cleaned(s, ids, st, c);
      RolledBack(s1, BatchEvents(s1.audit, st.batch), st.batch, now).1 == |ids|
  {
    CleanupEvents(s, ids, st, c);
    var s1, events := Cleaned(s, ids, st, c), CleanEvents(s, ids, st, c);
    forall i | 0 <= i < |events| ensures Tagged(s1, events[i].target, st.batch) {
      assert ids[i] in ids;
      CleanedIsTagged(s.rows[ids[i]], st, c);
    }
    RestoredCount(s1, events, st.batch, now);
  }

  // The event that undoes an archiving.
  function Mirrored(e: Event): Event {
    Event(RollbackSoftArchive, e.target, e.batch, e.after, e.before)
  }

  function AllMirrored(events: seq<Event>): (r: seq<Event>) {
    if events == [] then []
    else AllMirrored(events[..|events| - 1]) + [Mirrored(events[|events| - 1])]
  }

  // The row is as the event left it.
  ghost predicate AsLeft(s: State, e: Event) {
    Tagged(s, e.target, e.batch) && s.rows[e.target].metadata == e.after
  }

  lemma StaysAsLeft(s: State, events: seq<Event>, e: Event, batch: string, now: int)
    requires DistinctTargets(events + [e]) && AsLeft(s, e)
    ensures AsLeft(RolledBack(s, events, batch, now).0, e)
  {
    assert (events + [e])[|events|] == e && forall i :: 0 <= i < |events| ==> (events + [e])[i] == events[i];
    RolledBackIs(s, events, batch, now);
    BeforeOfAbsent(events, e.target);
  }

  lemma UndoMirrors(done: (State, nat), e: Event, batch: string, now: int)
    requires AsLeft(done.0, e) && e.batch == batch
    ensures UndoIfTagged(done, e, batch, now).0.audit == done.0.audit + [Mirrored(e)]
  {
  }

  lemma {:induction false} UndoIsMirrored(s: State, events: seq<Event>, batch: string, now: int)
    requires DistinctTargets(events) && forall e :: e in events ==> e.batch == batch && AsLeft(s, e)
    ensures RolledBack(s, events, batch, now).0.audit ==
      s.audit + AllMirrored(events)
  {
    if events != [] {
      var n := |events| - 1;
      var e := events[n];
      assert e in events && forall x :: x in events[..n] ==> x in events;
      UndoIsMirrored(s, events[..n], batch, now);
      assert events == events[..n] + [e];
      StaysAsLeft(s, events[..n], e, batch, now);
      UndoMirrors(RolledBack(s, events[..n], batch, now), e, batch, now);
      Joined(s.audit, AllMirrored(events[..n]), Mirrored(e));
    }
  }

  // The log of the rollback is that of the cleanup mirrored: each event again with its metadata swapped.
  lemma RollbackMirrorsCleanup(s: State, ids: seq<Id>, st: Stamp, now: int, c: Classifiers)
    requires NoDup(ids) && (forall id :: id in ids ==> id in s.rows) && FreshBatch(s, st.batch)
    ensures var s1, events := Cleaned(s, ids, st, c), CleanEvents(s, ids, st, c);
      RolledBack(s1, BatchEvents(s1.audit, st.batch), st.batch, now).0.audit ==
        s.audit + events + AllMirrored(events)
  {
    var s1, events := Cleaned(s, ids, st, c), CleanEvents(s, ids, st, c);
    CleanupEvents(s, ids, st, c);
    forall e | e in events ensures e.batch == st.batch && AsLeft(s1, e) {
      var i :| 0 <= i < |events| && events[i] == e;
      assert ids[i] in ids;
      CleanedIsTagged(s.rows[ids[i]], st, c);
    }
    UndoIsMirrored(s1, events, st.batch, now);
  }
}
