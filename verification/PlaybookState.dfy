/** The playbook tables of src/experience-store.ts on values: the supersession graph, the version
    history and the feedback counters, with the invariant every operation keeps. */
module PlaybookState {
  import opened Common

  // body stands for the descriptive columns, which no operation modelled here changes.
  datatype Row = Row(scope: string, shared: string, status: string, supersededBy: string, body: string,
                     success: nat, failure: nat, stale: nat)

  type Table = map<string, Row>

  datatype Version = Version(playbookId: string, number: nat, changeType: string, snapshot: Row)

  datatype Counter = Success | Failure | Stale

  datatype RunRow = RunRow(playbookId: string, counter: Counter)

  datatype State = State(playbooks: Table, versions: seq<Version>, runs: seq<RunRow>)

  // ---------------------------------------------------------------- scopes

  type Scopes = Option<seq<string>>

  // experienceScopeClause: no filter sees everything, a filter without a nonempty scope sees nothing.
  predicate Visible(row: Row, scopes: Scopes) {
    scopes.None? || exists s :: s in scopes.value && s != "" && (s == row.scope || s == row.shared)
  }

  function Seen(t: Table, scopes: Scopes): Table {
    map id | id in t && Visible(t[id], scopes) :: t[id]
  }

  // ---------------------------------------------------------------- supersession chains

  // Following supersededBy from id ends, within n steps and inside the table.
  predicate Ends(t: Table, id: string, n: nat)
    decreases n
  {
    id in t && (t[id].supersededBy == "" || (n > 0 && Ends(t, t[id].supersededBy, n - 1)))
  }

  // ... and never meets p on the way.
  predicate EndsAvoiding(t: Table, id: string, p: string, n: nat)
    decreases n
  {
    id in t && id != p && (t[id].supersededBy == "" || (n > 0 && EndsAvoiding(t, t[id].supersededBy, p, n - 1)))
  }

  // Following supersededBy from id leaves the table, before meeting p.
  predicate BreaksAvoiding(t: Table, id: string, p: string, n: nat)
    decreases n
  {
    id !in t || (id != p && t[id].supersededBy != "" && n > 0 && BreaksAvoiding(t, t[id].supersededBy, p, n - 1))
  }

  ghost predicate Good(t: Table, id: string, p: string) {
    exists n: nat :: EndsAvoiding(t, id, p, n)
  }

  ghost predicate Bad(t: Table, id: string, p: string) {
    exists n: nat :: BreaksAvoiding(t, id, p, n)
  }

  // to is reached from id in exactly n steps.
  predicate Reaches(t: Table, id: string, to: string, n: nat)
    decreases n
  {
    if n == 0 then id == to
    else id in t && t[id].supersededBy != "" && Reaches(t, t[id].supersededBy, to, n - 1)
  }

  // to is reached from id.
  ghost predicate Leads(t: Table, id: string, to: string) {
    exists k: nat :: Reaches(t, id, to, k)
  }

  ghost predicate Terminates(t: Table, id: string) {
    exists n: nat :: Ends(t, id, n)
  }

  ghost predicate AllEnd(t: Table) {
    forall id {:trigger Terminates(t, id)} :: id in t ==> Terminates(t, id)
  }

  // A successor exists and lives in the same scopes.
  predicate EdgeOk(t: Table, id: string)
    requires id in t
  {
    var next := t[id].supersededBy;
    next != "" ==> next in t && t[next].scope == t[id].scope && t[next].shared == t[id].shared
  }

  ghost predicate EdgesOk(t: Table) {
    forall id {:trigger EdgeOk(t, id)} :: id in t ==> EdgeOk(t, id)
  }

  lemma {:induction false} ReachShortens(t: Table, id: string, to: string, p: string, n: nat, k: nat)
    requires EndsAvoiding(t, id, p, n) && Reaches(t, id, to, k)
    ensures k <= n && EndsAvoiding(t, to, p, n - k)
    decreases k
  {
    if k > 0 { ReachShortens(t, t[id].supersededBy, to, p, n - 1, k - 1); }
  }

  lemma {:induction false} ReachBreaksSooner(t: Table, id: string, to: string, p: string, n: nat, k: nat)
    requires BreaksAvoiding(t, id, p, n) && Reaches(t, id, to, k) && to in t
    ensures k <= n && BreaksAvoiding(t, to, p, n - k)
    decreases k
  {
    if k > 0 { ReachBreaksSooner(t, t[id].supersededBy, to, p, n - 1, k - 1); }
  }

  lemma {:induction false} ReachMore(t: Table, id: string, to: string, n: nat)
    requires Reaches(t, id, to, n) && to in t && t[to].supersededBy != ""
    ensures Reaches(t, id, t[to].supersededBy, n + 1)
    decreases n
  {
    if n > 0 { ReachMore(t, t[id].supersededBy, to, n - 1); }
  }

  // A chain that returns to where it was neither ends nor breaks.
  lemma {:induction false} LoopsNeverEnd(t: Table, id: string, p: string, k: nat, n: nat)
    requires k > 0 && Reaches(t, id, id, k)
    ensures !EndsAvoiding(t, id, p, n) && !BreaksAvoiding(t, id, p, n)
    decreases n
  {
    assert id in t;
    if EndsAvoiding(t, id, p, n) {
      ReachShortens(t, id, id, p, n, k);
      LoopsNeverEnd(t, id, p, k, n - k);
    }
    if BreaksAvoiding(t, id, p, n) {
      ReachBreaksSooner(t, id, id, p, n, k);
      LoopsNeverEnd(t, id, p, k, n - k);
    }
  }

  lemma LoopsAreNeither(t: Table, id: string, p: string, k: nat)
    requires k > 0 && Reaches(t, id, id, k)
    ensures !Good(t, id, p) && !Bad(t, id, p)
  {
    forall n: nat ensures !EndsAvoiding(t, id, p, n) && !BreaksAvoiding(t, id, p, n) {
      LoopsNeverEnd(t, id, p, k, n);
    }
  }

  // One step along the chain changes neither verdict.
  lemma StepAlong(t: Table, id: string, p: string)
    requires id in t && id != p && t[id].supersededBy != ""
    ensures Good(t, id, p) <==> Good(t, t[id].supersededBy, p)
    ensures Bad(t, id, p) <==> Bad(t, t[id].supersededBy, p)
  {
    var next := t[id].supersededBy;
    if Good(t, id, p) {
      var n: nat :| EndsAvoiding(t, id, p, n);
      assert EndsAvoiding(t, next, p, n - 1);
    }
    if Good(t, next, p) {
      var n: nat :| EndsAvoiding(t, next, p, n);
      assert EndsAvoiding(t, id, p, n + 1);
    }
    if Bad(t, id, p) {
      var n: nat :| BreaksAvoiding(t, id, p, n);
      assert BreaksAvoiding(t, next, p, n - 1);
    }
    if Bad(t, next, p) {
      var n: nat :| BreaksAvoiding(t, next, p, n);
      assert BreaksAvoiding(t, id, p, n + 1);
    }
  }

  lemma {:induction false} EndsReach(t: Table, id: string, to: string, n: nat, k: nat)
    requires Ends(t, id, n) && Reaches(t, id, to, k)
    ensures k <= n && Ends(t, to, n - k)
    decreases k
  {
    if k > 0 { EndsReach(t, t[id].supersededBy, to, n - 1, k - 1); }
  }

  lemma {:induction false} EndsLoops(t: Table, id: string, k: nat, n: nat)
    requires k > 0 && Reaches(t, id, id, k)
    ensures !Ends(t, id, n)
    decreases n
  {
    if Ends(t, id, n) {
      EndsReach(t, id, id, n, k);
      EndsLoops(t, id, k, n - k);
    }
  }

  // A table whose chains all end has no cycle.
  lemma NoCycles(t: Table)
    requires AllEnd(t)
    ensures forall id, k: nat :: k > 0 ==> !Reaches(t, id, id, k)
  {
    forall id, k: nat | k > 0 ensures !Reaches(t, id, id, k) {
      if Reaches(t, id, id, k) {
        assert Terminates(t, id);
        var n: nat :| Ends(t, id, n);
        EndsLoops(t, id, k, n);
      }
    }
  }

  // ---------------------------------------------------------------- the successor check

  const REQUIRED := "superseded_by_required"
  const SELF := "superseded_by_self"
  const NOT_FOUND := "superseded_by_not_found"
  const SCOPE_MISMATCH := "superseded_by_scope_mismatch"
  const LIFECYCLE := "superseded_by_lifecycle_invalid"
  const CYCLE := "superseded_by_cycle"
  const BROKEN := "superseded_by_chain_broken"

  // What the check answers about the edge id -> successor in the table the caller can see.
  ghost function Verdict(t: Table, id: string, row: Row, successor: string): Option<string> {
    if successor == "" then Some(REQUIRED)
    else if successor == id then Some(SELF)
    else if successor !in t then Some(NOT_FOUND)
    else if t[successor].scope != row.scope || t[successor].shared != row.shared then Some(SCOPE_MISMATCH)
    else if t[successor].status == "superseded" || t[successor].status == "quarantined" then Some(LIFECYCLE)
    else if Good(t, successor, id) then None
    else if Bad(t, successor, id) then Some(BROKEN)
    else Some(CYCLE)
  }

  // ---------------------------------------------------------------- versions

  function History(versions: seq<Version>, id: string): seq<Version> {
    if versions == [] then []
    else
      var before := History(versions[..|versions| - 1], id);
      var last := versions[|versions| - 1];
      if last.playbookId == id then before + [last] else before
  }

  // MAX(version), 0 when there is none.
  function LatestVersion(versions: seq<Version>, id: string): nat {
    if versions == [] then 0
    else
      var before := LatestVersion(versions[..|versions| - 1], id);
      var last := versions[|versions| - 1];
      if last.playbookId == id && last.number > before then last.number else before
  }

  function Lifecycle(r: Row): Row {
    r.(success := 0, failure := 0, stale := 0)
  }

  function RunsOf(runs: seq<RunRow>, id: string, counter: Counter): nat {
    if runs == [] then 0
    else RunsOf(runs[..|runs| - 1], id, counter) + (if runs[|runs| - 1] == RunRow(id, counter) then 1 else 0)
  }

  // Versions of a playbook are numbered 1..n, n >= 1, and the newest shows everything but the counters.
  ghost predicate HistoryOk(s: State, id: string)
    requires id in s.playbooks
  {
    var h := History(s.versions, id);
    && h != []
    && (forall i :: 0 <= i < |h| ==> h[i].number == i + 1)
    && LatestVersion(s.versions, id) == |h|
    && Lifecycle(h[|h| - 1].snapshot) == Lifecycle(s.playbooks[id])
  }

  ghost predicate CountersOk(s: State, id: string)
    requires id in s.playbooks
  {
    && s.playbooks[id].success == RunsOf(s.runs, id, Success)
    && s.playbooks[id].failure == RunsOf(s.runs, id, Failure)
    && s.playbooks[id].stale == RunsOf(s.runs, id, Stale)
  }

  ghost predicate GraphOk(t: Table) {
    "" !in t && AllEnd(t) && EdgesOk(t)
  }

  ghost predicate LogsOk(s: State) {
    && (forall v :: v in s.versions ==> v.playbookId in s.playbooks)
    && (forall r :: r in s.runs ==> r.playbookId in s.playbooks)
  }

  ghost predicate RowsOk(s: State) {
    forall id {:trigger HistoryOk(s, id)} :: id in s.playbooks ==> HistoryOk(s, id) && CountersOk(s, id)
  }

  ghost predicate Inv(s: State) {
    GraphOk(s.playbooks) && LogsOk(s) && RowsOk(s)
  }

  // ---------------------------------------------------------------- the operations

  datatype Outcome = Done | Thrown(message: string) | Refused(error: string)

  datatype Op =
    | Create(id: string, row: Row)
    | UpdateStatus(id: string, status: string, scopes: Scopes)
    | Review(id: string, action: string, successor: string, scopes: Scopes)
    | Feedback(id: string, counter: Counter, scopes: Scopes)

  function Save(s: State, id: string, row: Row, changeType: string): State {
    s.(playbooks := s.playbooks[id := row],
       versions := s.versions + [Version(id, LatestVersion(s.versions, id) + 1, changeType, row)])
  }

  function ActionStatus(action: string): Option<string> {
    match Lower(action)
    case "review" => Some("reviewed")
    case "reviewed" => Some("reviewed")
    case "promote" => Some("promoted")
    case "promoted" => Some("promoted")
    case "needs_review" => Some("needs_review")
    case "quarantine" => Some("quarantined")
    case "quarantined" => Some("quarantined")
    case "supersede" => Some("superseded")
    case "superseded" => Some("superseded")
    case _ => None
  }

  function Bump(row: Row, counter: Counter): Row {
    match counter
    case Success => row.(success := row.success + 1)
    case Failure => row.(failure := row.failure + 1)
    case Stale => row.(stale := row.stale + 1)
  }

  // Ids are random UUIDs: a create never meets an existing one.
  predicate OpOk(s: State, op: Op) {
    op.Create? ==>
      op.id != "" && op.id !in s.playbooks && op.row.supersededBy == ""
        && op.row.(success := 0, failure := 0, stale := 0) == op.row
  }

  function AfterStatus(s: State, id: string, status: string, scopes: Scopes): (State, Outcome) {
    if id !in Seen(s.playbooks, scopes) then (s, Thrown("not found"))
    else (Save(s, id, s.playbooks[id].(status := status), "status_change"), Done)
  }

  ghost function AfterReview(s: State, id: string, action: string, successor: string, scopes: Scopes): (State,
                             Outcome) {
    var status := ActionStatus(action);
    var seen := Seen(s.playbooks, scopes);
    if status.None? then (s, Refused("unsupported_review_action"))
    else if id !in seen then (s, Refused("not_found"))
    else
      var row := s.playbooks[id];
      var supersede := status.value == "superseded";
      var error := if supersede then Verdict(seen, id, row, successor) else None;
      if error.Some? then (s, Refused(error.value))
      else
        var successor' := if supersede then successor else "";
        (Save(s, id, row.(status := status.value, supersededBy := successor'), status.value), Done)
  }

  function AfterFeedback(s: State, id: string, counter: Counter, scopes: Scopes): (State, Outcome) {
    if id !in Seen(s.playbooks, scopes) then (s, Thrown("not found"))
    else
      var row := Bump(s.playbooks[id], counter);
      (s.(playbooks := s.playbooks[id := row], runs := s.runs + [RunRow(id, counter)]), Done)
  }

  ghost function Apply(s: State, op: Op): (State, Outcome) {
    match op
    case Create(id, row) =>
      (s.(playbooks := s.playbooks[id := row], versions := s.versions + [Version(id, 1, "create", row)]), Done)
    case UpdateStatus(id, status, scopes) => AfterStatus(s, id, status, scopes)
    case Review(id, action, successor, scopes) => AfterReview(s, id, action, successor, scopes)
    case Feedback(id, counter, scopes) => AfterFeedback(s, id, counter, scopes)
  }

  // ---------------------------------------------------------------- what one operation does

  // The caller names scopes, and none of those that are no empty strings is one of the row's two.
  ghost predicate Hidden(row: Row, scopes: Scopes) {
    scopes.Some? && forall s :: s in scopes.value && s != "" ==> s != row.scope && s != row.shared
  }

  ghost predicate Absent(t: Table, id: string, scopes: Scopes) {
    id !in t || Hidden(t[id], scopes)
  }

  // The words for each status a review can set, in any case.
  ghost predicate Names(action: string, status: string) {
    || (status == "reviewed" && Lower(action) in {"review", "reviewed"})
    || (status == "promoted" && Lower(action) in {"promote", "promoted"})
    || (status == "needs_review" && Lower(action) == "needs_review")
    || (status == "quarantined" && Lower(action) in {"quarantine", "quarantined"})
    || (status == "superseded" && Lower(action) in {"supersede", "superseded"})
  }

  lemma ActionStatusIs(action: string, status: string)
    ensures ActionStatus(action) == Some(status) <==> Names(action, status)
  {
  }

  lemma SeenIs(t: Table, id: string, scopes: Scopes)
    ensures id in Seen(t, scopes) <==> !Absent(t, id, scopes)
  {
  }

  // Which check refuses a successor: the first that fails.
  lemma RefusalIs(t: Table, id: string, row: Row, successor: string, scopes: Scopes)
    ensures var v := Verdict(Seen(t, scopes), id, row, successor);
      && (v == Some(REQUIRED) <==> successor == "")
      && (v == Some(SELF) <==> successor == id && successor != "")
      && (v == Some(NOT_FOUND) <==> successor !in {"", id} && Absent(t, successor, scopes))
      && (v == Some(SCOPE_MISMATCH) <==>
            successor !in {"", id} && !Absent(t, successor, scopes)
            && (t[successor].scope, t[successor].shared) != (row.scope, row.shared))
      && (v == Some(LIFECYCLE) <==>
            successor !in {"", id} && !Absent(t, successor, scopes)
            && (t[successor].scope, t[successor].shared) == (row.scope, row.shared)
            && t[successor].status in {"superseded", "quarantined"})
  {
    SeenIs(t, successor, scopes);
    assert |REQUIRED| == 22 && |SELF| == 18 && |NOT_FOUND| == 23 && |SCOPE_MISMATCH| == 28 && |LIFECYCLE| == 31;
    assert |CYCLE| == 19 && |BROKEN| == 26;
  }

  // An operation that names a playbook its caller cannot see is told that there is none; no refused operation
  // changes anything.
  lemma HiddenIsNotFound(s: State, op: Op)
    requires !op.Create?
    ensures Apply(s, op).1 in {Thrown("not found"), Refused("not_found")} <==>
      Absent(s.playbooks, op.id, op.scopes) && (op.Review? ==> exists status :: Names(op.action, status))
    ensures !Apply(s, op).1.Done? ==> Apply(s, op).0 == s
  {
    SeenIs(s.playbooks, op.id, op.scopes);
    if op.Review? {
      if ActionStatus(op.action).Some? { ActionStatusIs(op.action, ActionStatus(op.action).value); }
      forall status | Names(op.action, status) ensures ActionStatus(op.action).Some? {
        ActionStatusIs(op.action, status);
      }
      assert |"not_found"| == 9 && |"unsupported_review_action"| == 25;
    }
  }

  // One row changed, if any, and one version of it appended, if any.
  ghost predicate Wrote(s: State, t: State, id: string, row: Row, change: Option<string>) {
    && t.playbooks == s.playbooks[id := row]
    && match change
       case Some(kind) =>
         |t.versions| == |s.versions| + 1 && s.versions <= t.versions
         && t.versions[|s.versions|].playbookId == id && t.versions[|s.versions|].snapshot == row
         && t.versions[|s.versions|].changeType == kind
       case None => t.versions == s.versions
  }

  // What a review that goes through writes: the status its action names, and the successor it was given or none.
  lemma ReviewWrites(s: State, id: string, action: string, successor: string, scopes: Scopes)
    requires Apply(s, Review(id, action, successor, scopes)).1.Done?
    ensures id in s.playbooks && exists status :: Names(action, status)
    ensures forall status :: Names(action, status) ==>
      var t := Apply(s, Review(id, action, successor, scopes)).0;
      var next := if status == "superseded" then successor else "";
      && Wrote(s, t, id, s.playbooks[id].(status := status, supersededBy := next), Some(status)) && t.runs == s.runs
      && (status == "superseded" <==> next != "")
  {
    ActionStatusIs(action, ActionStatus(action).value);
    forall status | Names(action, status) ensures ActionStatus(action) == Some(status) {
      ActionStatusIs(action, status);
    }
  }

  // What feedback that goes through writes: one more run, one more on its counter, no new version.
  lemma FeedbackWrites(s: State, id: string, counter: Counter, scopes: Scopes)
    requires Apply(s, Feedback(id, counter, scopes)).1.Done?
    ensures var t := Apply(s, Feedback(id, counter, scopes)).0;
      && id in s.playbooks && id in t.playbooks && Wrote(s, t, id, t.playbooks[id], None)
      && t.runs == s.runs + [RunRow(id, counter)]
      && var (was, row) := (s.playbooks[id], t.playbooks[id]);
        && Lifecycle(row) == Lifecycle(was)
        && row.success == was.success + (if counter == Success then 1 else 0)
        && row.failure == was.failure + (if counter == Failure then 1 else 0)
        && row.stale == was.stale + (if counter == Stale then 1 else 0)
  {
  }

  // What a create writes.
  lemma CreateWrites(s: State, id: string, row: Row)
    ensures var (t, r) := Apply(s, Create(id, row));
      r == Done && Wrote(s, t, id, row, Some("create")) && t.versions[|s.versions|].number == 1 && t.runs == s.runs
  {
  }

  // What a status change that goes through writes.
  lemma StatusWrites(s: State, id: string, status: string, scopes: Scopes)
    requires Apply(s, UpdateStatus(id, status, scopes)).1.Done?
    ensures var t := Apply(s, UpdateStatus(id, status, scopes)).0;
      && id in s.playbooks && id in t.playbooks && t.playbooks[id].status == status && t.runs == s.runs
      && Wrote(s, t, id, t.playbooks[id], Some("status_change"))
      && t.playbooks[id].(status := s.playbooks[id].status) == s.playbooks[id]
  {
  }

  // ---------------------------------------------------------------- the graph stays acyclic

  lemma {:induction false} SeenChain(t: Table, scopes: Scopes, id: string, p: string, n: nat)
    requires EndsAvoiding(Seen(t, scopes), id, p, n)
    ensures EndsAvoiding(t, id, p, n)
    decreases n
  {
    if t[id].supersededBy != "" { SeenChain(t, scopes, t[id].supersededBy, p, n - 1); }
  }

  // A chain that avoids p survives any change of p's row.
  lemma {:induction false} AvoidingSurvives(t: Table, id: string, p: string, row: Row, n: nat)
    requires EndsAvoiding(t, id, p, n)
    ensures Ends(t[p := row], id, n)
    decreases n
  {
    if t[id].supersededBy != "" { AvoidingSurvives(t, t[id].supersededBy, p, row, n - 1); }
  }

  // If p's new chain ends, so does every chain.
  lemma {:induction false} ChainSurvives(t: Table, id: string, p: string, row: Row, n: nat, m: nat) returns (k: nat)
    requires Ends(t, id, n) && Ends(t[p := row], p, m)
    ensures Ends(t[p := row], id, k)
    decreases n
  {
    if id == p { return m; }
    if t[id].supersededBy == "" { return 0; }
    k := ChainSurvives(t, t[id].supersededBy, p, row, n - 1, m);
    k := k + 1;
  }

  lemma AllChainsSurvive(t: Table, p: string, row: Row, m: nat)
    requires AllEnd(t) && Ends(t[p := row], p, m)
    ensures AllEnd(t[p := row])
  {
    var t' := t[p := row];
    forall id | id in t' ensures Terminates(t', id) {
      if id == p {
        assert Ends(t[p := row], id, m);
      } else {
        assert Terminates(t, id);
        var n: nat :| Ends(t, id, n);
        var k := ChainSurvives(t, id, p, row, n, m);
      }
    }
  }

  // A row whose link is unchanged keeps every chain as it was.
  lemma {:induction false} SameLinks(t: Table, p: string, row: Row, id: string, n: nat)
    requires p in t && row.supersededBy == t[p].supersededBy && Ends(t, id, n)
    ensures Ends(t[p := row], id, n)
    decreases n
  {
    if t[id].supersededBy != "" { SameLinks(t, p, row, t[id].supersededBy, n - 1); }
  }

  lemma RelinkKeepsGraph(t: Table, p: string, row: Row)
    requires GraphOk(t) && p in t
    requires row.scope == t[p].scope && row.shared == t[p].shared
    requires
      || row.supersededBy == t[p].supersededBy
      || row.supersededBy == ""
      || (row.supersededBy in t && t[row.supersededBy].scope == row.scope && t[row.supersededBy].shared == row.shared
          && Good(t, row.supersededBy, p))
    ensures GraphOk(t[p := row])
  {
    var t' := t[p := row];
    forall x | x in t' ensures EdgeOk(t', x) {
      assert EdgeOk(t, x);
    }
    if row.supersededBy == t[p].supersededBy {
      assert Terminates(t, p);
      var m: nat :| Ends(t, p, m);
      SameLinks(t, p, row, p, m);
      AllChainsSurvive(t, p, row, m);
    } else if row.supersededBy == "" {
      AllChainsSurvive(t, p, row, 0);
    } else {
      var n: nat :| EndsAvoiding(t, row.supersededBy, p, n);
      AvoidingSurvives(t, row.supersededBy, p, row, n);
      assert Ends(t[p := row], p, n + 1);
      AllChainsSurvive(t, p, row, n + 1);
    }
  }

  lemma {:induction false} HistoryOfAbsent(versions: seq<Version>, id: string)
    requires forall v :: v in versions ==> v.playbookId != id
    ensures History(versions, id) == [] && LatestVersion(versions, id) == 0
  {
    if versions != [] { HistoryOfAbsent(versions[..|versions| - 1], id); }
  }

  lemma {:induction false} RunsOfAbsent(runs: seq<RunRow>, id: string, counter: Counter)
    requires forall r :: r in runs ==> r.playbookId != id
    ensures RunsOf(runs, id, counter) == 0
  {
    if runs != [] { RunsOfAbsent(runs[..|runs| - 1], id, counter); }
  }

  // The history of one playbook after a version row is appended.
  lemma HistoryAppend(versions: seq<Version>, v: Version, id: string)
    ensures History(versions + [v], id) == History(versions, id) + (if v.playbookId == id then [v] else [])
    ensures LatestVersion(versions + [v], id) ==
      if v.playbookId == id && v.number > LatestVersion(versions, id) then v.number else LatestVersion(versions, id)
  {
    assert (versions + [v])[..|versions|] == versions;
  }

  lemma RunsAppend(runs: seq<RunRow>, r: RunRow, id: string, counter: Counter)
    ensures RunsOf(runs + [r], id, counter) == RunsOf(runs, id, counter) + (if r == RunRow(id, counter) then 1 else 0)
  {
    assert (runs + [r])[..|runs|] == runs;
  }

  lemma SaveKeepsRow(s: State, id: string, row: Row, changeType: string, x: string)
    requires RowsOk(s) && id in s.playbooks && x in s.playbooks
    requires row.success == s.playbooks[id].success && row.failure == s.playbooks[id].failure
    requires row.stale == s.playbooks[id].stale
    ensures HistoryOk(Save(s, id, row, changeType), x) && CountersOk(Save(s, id, row, changeType), x)
  {
    assert HistoryOk(s, x) && CountersOk(s, x);
    HistoryAppend(s.versions, Version(id, LatestVersion(s.versions, id) + 1, changeType, row), x);
  }

  lemma SaveKeepsInv(s: State, id: string, row: Row, changeType: string)
    requires Inv(s) && id in s.playbooks && GraphOk(s.playbooks[id := row])
    requires row.success == s.playbooks[id].success && row.failure == s.playbooks[id].failure
    requires row.stale == s.playbooks[id].stale
    ensures Inv(Save(s, id, row, changeType))
  {
    var t := Save(s, id, row, changeType);
    forall x | x in t.playbooks ensures HistoryOk(t, x) && CountersOk(t, x) {
      SaveKeepsRow(s, id, row, changeType, x);
    }
  }

  lemma CreateStartsRow(s: State, id: string, row: Row)
    requires LogsOk(s) && OpOk(s, Create(id, row))
    ensures HistoryOk(Apply(s, Create(id, row)).0, id) && CountersOk(Apply(s, Create(id, row)).0, id)
  {
    HistoryAppend(s.versions, Version(id, 1, "create", row), id);
    HistoryOfAbsent(s.versions, id);
    RunsOfAbsent(s.runs, id, Success);
    RunsOfAbsent(s.runs, id, Failure);
    RunsOfAbsent(s.runs, id, Stale);
  }

  lemma CreateKeepsOther(s: State, id: string, row: Row, x: string)
    requires RowsOk(s) && OpOk(s, Create(id, row)) && x in s.playbooks && x != id
    ensures HistoryOk(Apply(s, Create(id, row)).0, x) && CountersOk(Apply(s, Create(id, row)).0, x)
  {
    HistoryAppend(s.versions, Version(id, 1, "create", row), x);
    assert HistoryOk(s, x) && CountersOk(s, x);
  }

  lemma CreateKeepsRow(s: State, id: string, row: Row, x: string)
    requires LogsOk(s) && RowsOk(s) && OpOk(s, Create(id, row)) && x in s.playbooks.Keys + {id}
    ensures HistoryOk(Apply(s, Create(id, row)).0, x) && CountersOk(Apply(s, Create(id, row)).0, x)
  {
    if x == id { CreateStartsRow(s, id, row); } else { CreateKeepsOther(s, id, row, x); }
  }

  lemma CreateKeepsInv(s: State, id: string, row: Row)
    requires Inv(s) && OpOk(s, Create(id, row))
    ensures Inv(Apply(s, Create(id, row)).0)
  {
    var t := Apply(s, Create(id, row)).0;
    AllChainsSurvive(s.playbooks, id, row, 0);
    forall x | x in t.playbooks ensures EdgeOk(t.playbooks, x) {
      if x != id { assert EdgeOk(s.playbooks, x); }
    }
    forall x | x in t.playbooks ensures HistoryOk(t, x) && CountersOk(t, x) {
      CreateKeepsRow(s, id, row, x);
    }
  }

  lemma FeedbackKeepsRow(s: State, id: string, counter: Counter, scopes: Scopes, x: string)
    requires RowsOk(s) && id in Seen(s.playbooks, scopes) && x in s.playbooks
    ensures var t := Apply(s, Feedback(id, counter, scopes)).0; HistoryOk(t, x) && CountersOk(t, x)
  {
    assert HistoryOk(s, x) && CountersOk(s, x);
    RunsAppend(s.runs, RunRow(id, counter), x, Success);
    RunsAppend(s.runs, RunRow(id, counter), x, Failure);
    RunsAppend(s.runs, RunRow(id, counter), x, Stale);
  }

  lemma FeedbackKeepsInv(s: State, id: string, counter: Counter, scopes: Scopes)
    requires Inv(s)
    ensures Inv(Apply(s, Feedback(id, counter, scopes)).0)
  {
    var t := Apply(s, Feedback(id, counter, scopes)).0;
    if id in Seen(s.playbooks, scopes) {
      RelinkKeepsGraph(s.playbooks, id, Bump(s.playbooks[id], counter));
      forall x | x in t.playbooks ensures HistoryOk(t, x) && CountersOk(t, x) {
        FeedbackKeepsRow(s, id, counter, scopes, x);
      }
    }
  }

  lemma ReviewKeepsGraph(t: Table, id: string, status: string, successor: string, scopes: Scopes)
    requires GraphOk(t) && id in t
    requires status == "superseded" ==> Verdict(Seen(t, scopes), id, t[id], successor).None?
    ensures GraphOk(t[id := t[id].(status := status, supersededBy := if status == "superseded" then successor else "")])
  {
    if status == "superseded" {
      var n: nat :| EndsAvoiding(Seen(t, scopes), successor, id, n);
      SeenChain(t, scopes, successor, id, n);
    }
    RelinkKeepsGraph(t, id, t[id].(status := status, supersededBy := if status == "superseded" then successor else ""));
  }

  lemma ReviewKeepsInv(s: State, id: string, action: string, successor: string, scopes: Scopes)
    requires Inv(s)
    ensures Inv(Apply(s, Review(id, action, successor, scopes)).0)
  {
    if Apply(s, Review(id, action, successor, scopes)).1.Done? {
      var status := ActionStatus(action).value;
      ReviewKeepsGraph(s.playbooks, id, status, successor, scopes);
      var successor' := if status == "superseded" then successor else "";
      SaveKeepsInv(s, id, s.playbooks[id].(status := status, supersededBy := successor'), status);
    }
  }

  // Every operation keeps the graph acyclic with in-scope targets, the versions gapless, the newest
  // snapshot current and the counters equal to the feedback recorded.
  lemma ApplyKeepsInv(s: State, op: Op)
    requires Inv(s) && OpOk(s, op)
    ensures Inv(Apply(s, op).0)
  {
    match op
    case Create(id, row) => CreateKeepsInv(s, id, row);
    case UpdateStatus(id, status, scopes) =>
      if id in Seen(s.playbooks, scopes) {
        var row := s.playbooks[id].(status := status);
        RelinkKeepsGraph(s.playbooks, id, row);
        SaveKeepsInv(s, id, row, "status_change");
      }
    case Review(id, action, successor, scopes) => ReviewKeepsInv(s, id, action, successor, scopes);
    case Feedback(id, counter, scopes) => FeedbackKeepsInv(s, id, counter, scopes);
  }

  ghost predicate RunOk(s: State, ops: seq<Op>)
    decreases |ops|
  {
    ops == [] || (OpOk(s, ops[0]) && RunOk(Apply(s, ops[0]).0, ops[1..]))
  }

  ghost function Run(s: State, ops: seq<Op>): State
    decreases |ops|
  {
    if ops == [] then s else Run(Apply(s, ops[0]).0, ops[1..])
  }

  // Over any sequence of operations no playbook ever supersedes itself through any chain.
  lemma {:induction false} RunKeepsInv(s: State, ops: seq<Op>)
    requires Inv(s) && RunOk(s, ops)
    ensures Inv(Run(s, ops))
    ensures forall id, k: nat :: k > 0 ==> !Reaches(Run(s, ops).playbooks, id, id, k)
    decreases |ops|
  {
    if ops == [] {
      NoCycles(s.playbooks);
    } else {
      ApplyKeepsInv(s, ops[0]);
      RunKeepsInv(Apply(s, ops[0]).0, ops[1..]);
    }
  }

  lemma {:induction false} MeetsOrEnds(t: Table, id: string, p: string, n: nat) returns (k: nat)
    requires Ends(t, id, n) && p in t
    ensures EndsAvoiding(t, id, p, n) || Reaches(t, id, p, k)
    decreases n
  {
    k := 0;
    if id != p && t[id].supersededBy != "" {
      k := MeetsOrEnds(t, t[id].supersededBy, p, n - 1);
      if Reaches(t, t[id].supersededBy, p, k) { k := k + 1; }
    }
  }

  // A successor is visible to whoever sees the row.
  lemma SeenIsClosed(t: Table, scopes: Scopes, id: string)
    requires EdgesOk(t) && id in Seen(t, scopes) && t[id].supersededBy != ""
    ensures t[id].supersededBy in Seen(t, scopes)
  {
    assert EdgeOk(t, id);
  }

  lemma {:induction false} EndsInSeen(t: Table, scopes: Scopes, id: string, n: nat)
    requires EdgesOk(t) && id in Seen(t, scopes) && Ends(t, id, n)
    ensures Ends(Seen(t, scopes), id, n)
    decreases n
  {
    if t[id].supersededBy != "" {
      SeenIsClosed(t, scopes, id);
      EndsInSeen(t, scopes, t[id].supersededBy, n - 1);
    }
  }

  lemma {:induction false} ReachesInSeen(t: Table, scopes: Scopes, id: string, to: string, k: nat)
    requires EdgesOk(t) && id in Seen(t, scopes)
    ensures Reaches(Seen(t, scopes), id, to, k) <==> Reaches(t, id, to, k)
    decreases k
  {
    if k > 0 && t[id].supersededBy != "" {
      SeenIsClosed(t, scopes, id);
      ReachesInSeen(t, scopes, t[id].supersededBy, to, k - 1);
    }
  }

  lemma LeadsInSeen(t: Table, scopes: Scopes, id: string, to: string)
    requires EdgesOk(t) && id in Seen(t, scopes)
    ensures Leads(Seen(t, scopes), id, to) <==> Leads(t, id, to)
  {
    forall k: nat ensures Reaches(Seen(t, scopes), id, to, k) <==> Reaches(t, id, to, k) {
      ReachesInSeen(t, scopes, id, to, k);
    }
  }

  lemma {:induction false} EndingDoesNotBreak(t: Table, id: string, p: string, n: nat, m: nat)
    requires Ends(t, id, n)
    ensures !BreaksAvoiding(t, id, p, m)
    decreases n
  {
    if t[id].supersededBy != "" && m > 0 { EndingDoesNotBreak(t, t[id].supersededBy, p, n - 1, m - 1); }
  }

  // A chain that ends meets p exactly if it does not end without p, and never breaks.
  lemma MeetsIff(t: Table, id: string, p: string, n: nat)
    requires Ends(t, id, n) && p in t
    ensures Leads(t, id, p) <==> !Good(t, id, p)
    ensures !Bad(t, id, p)
  {
    var k := MeetsOrEnds(t, id, p, n);
    forall m: nat ensures !BreaksAvoiding(t, id, p, m) { EndingDoesNotBreak(t, id, p, n, m); }
    forall m: nat, j: nat ensures !(EndsAvoiding(t, id, p, m) && Reaches(t, id, p, j)) {
      if EndsAvoiding(t, id, p, m) && Reaches(t, id, p, j) { ReachShortens(t, id, p, p, m, j); }
    }
  }

  // The checks before the walk.
  predicate Eligible(t: Table, id: string, row: Row, successor: string) {
    && successor != "" && successor != id && successor in t
    && t[successor].scope == row.scope && t[successor].shared == row.shared
    && t[successor].status != "superseded" && t[successor].status != "quarantined"
  }

  // In a healthy table, whatever part of it the caller sees, the check never reports a broken chain, and it
  // reports a cycle exactly when the edge passes the checks before and would close one.
  lemma CycleIsReported(t: Table, scopes: Scopes, id: string, row: Row, successor: string)
    requires GraphOk(t) && id in Seen(t, scopes)
    ensures var seen := Seen(t, scopes);
      var verdict := Verdict(seen, id, row, successor);
      && verdict != Some(BROKEN)
      && (verdict == Some(CYCLE) <==> Eligible(seen, id, row, successor) && Leads(t, successor, id))
      && (verdict == None <==> Eligible(seen, id, row, successor) && !Leads(t, successor, id))
  {
    var seen := Seen(t, scopes);
    if successor in seen {
      assert Terminates(t, successor);
      var n: nat :| Ends(t, successor, n);
      EndsInSeen(t, scopes, successor, n);
      MeetsIff(seen, successor, id, n);
      LeadsInSeen(t, scopes, successor, id);
    }
  }

  // ---------------------------------------------------------------- superseded playbooks and their successors

  predicate Linked(row: Row) {
    row.status == "superseded" <==> row.supersededBy != ""
  }

  ghost predicate AllLinked(t: Table) {
    forall id :: id in t ==> Linked(t[id])
  }

  // While they are linked nothing can close a cycle: a live successor has no successor itself.
  lemma LinkedNeverCycle(t: Table, scopes: Scopes, id: string, row: Row, successor: string)
    requires GraphOk(t) && AllLinked(t) && id in Seen(t, scopes)
    ensures Verdict(Seen(t, scopes), id, row, successor) != Some(CYCLE)
  {
    CycleIsReported(t, scopes, id, row, successor);
    if Eligible(Seen(t, scopes), id, row, successor) {
      forall k: nat ensures !Reaches(t, successor, id, k) { assert Linked(t[successor]); }
    }
  }

  // The operation went through and set the status of its playbook.
  ghost predicate Sets(s: State, op: Op, id: string) {
    op.id == id && !op.Feedback? && Apply(s, op).1.Done?
  }

  // What can be told before: a review always links; a created playbook must not be superseded; a plain
  // status change must say superseded exactly if there is a successor already.
  ghost predicate Links(s: State, op: Op) {
    match op
    case Create(_, row) => row.status != "superseded"
    case UpdateStatus(id, status, _) =>
      id in s.playbooks && (status == "superseded" <==> s.playbooks[id].supersededBy != "")
    case Review(_, _, _, _) => true
    case Feedback(_, _, _) => true
  }

  // After an operation that set its status a playbook is linked exactly if the operation links. A plain
  // status change can part the two both ways: superseded without a successor, and live with a stale one.
  lemma SetLinksIff(s: State, op: Op, id: string)
    requires GraphOk(s.playbooks) && OpOk(s, op) && Sets(s, op, id)
    ensures id in Apply(s, op).0.playbooks
    ensures Linked(Apply(s, op).0.playbooks[id]) <==> Links(s, op)
  {
  }

  lemma OthersStayLinked(s: State, op: Op, id: string)
    requires OpOk(s, op) && !Sets(s, op, id) && id in Apply(s, op).0.playbooks
    ensures id in s.playbooks
    ensures Linked(Apply(s, op).0.playbooks[id]) <==> Linked(s.playbooks[id])
  {
  }

  // Whether the last operation of the run that set the status of the playbook links it; linked if none did.
  ghost predicate LastLinks(s: State, ops: seq<Op>, id: string, linked: bool)
    decreases |ops|
  {
    if ops == [] then linked
    else LastLinks(Apply(s, ops[0]).0, ops[1..], id, if Sets(s, ops[0], id) then Links(s, ops[0]) else linked)
  }

  // Over every run: a playbook is superseded exactly if it has a successor, if and only if the last operation
  // that set its status was one that links.
  lemma {:induction false} RunLinksIff(s: State, ops: seq<Op>, id: string, linked: bool)
    requires Inv(s) && RunOk(s, ops) && id in Run(s, ops).playbooks
    requires id in s.playbooks ==> (linked <==> Linked(s.playbooks[id]))
    ensures Linked(Run(s, ops).playbooks[id]) <==> LastLinks(s, ops, id, linked)
    decreases |ops|
  {
    if ops != [] {
      var op := ops[0];
      ApplyKeepsInv(s, op);
      if Sets(s, op, id) {
        SetLinksIff(s, op, id);
      } else if id in Apply(s, op).0.playbooks {
        OthersStayLinked(s, op, id);
      }
      RunLinksIff(Apply(s, op).0, ops[1..], id, if Sets(s, op, id) then Links(s, op) else linked);
    } else {
      assert Run(s, ops) == s;
    }
  }
}
