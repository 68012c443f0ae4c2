/** The writing half of src/experience-store.ts and validatePlaybookSuccessor
    (src/experience-playbook-successor-policy.ts:15-41), as methods over tables held in fields. */
module PlaybookStore {
  import opened Common
  import opened PlaybookState

  // The walk terminates on any finite table, cyclic or not, and its answer is the verdict.
  method ValidatePlaybookSuccessor(t: Table, id: string, row: Row, supersededBy: string) returns (error: Option<string>)
    requires id in t
    ensures error == Verdict(t, id, row, supersededBy)
  {
    if supersededBy == "" { return Some(REQUIRED); }
    if supersededBy == id { return Some(SELF); }
    if supersededBy !in t { return Some(NOT_FOUND); }
    var successor := t[supersededBy];
    if successor.scope != row.scope || successor.shared != row.shared { return Some(SCOPE_MISMATCH); }
    if successor.status == "superseded" || successor.status == "quarantined" { return Some(LIFECYCLE); }
    var visited := {id};
    var cursor := supersededBy;
    while t[cursor].supersededBy != ""
      invariant cursor in t && cursor != id && id in visited && visited <= t.Keys
      invariant Good(t, supersededBy, id) <==> Good(t, cursor, id)
      invariant Bad(t, supersededBy, id) <==> Bad(t, cursor, id)
      invariant forall u :: u in visited && u != id ==> Leads(t, u, cursor)
      invariant cursor in visited ==> t[cursor].supersededBy in visited
      decreases |t.Keys - visited|
    {
      var next := t[cursor].supersededBy;
      StepAlong(t, cursor, id);
      if next in visited {
        if next != id {
          assert Leads(t, next, cursor);
          var k: nat :| Reaches(t, next, cursor, k);
          ReachMore(t, next, cursor, k);
          LoopsAreNeither(t, next, id, k + 1);
        }
        assert !Good(t, next, id) && !Bad(t, next, id);
        return Some(CYCLE);
      }
      ghost var before := visited;
      visited := visited + {cursor};
      SubsetSize(t.Keys - visited, t.Keys - before - {cursor});
      if next !in t {
        assert BreaksAvoiding(t, next, id, 0);
        return Some(BROKEN);
      }
      forall u | u in visited && u != id ensures Leads(t, u, next) {
        if u in before {
          assert Leads(t, u, cursor);
          var k: nat :| Reaches(t, u, cursor, k);
          ReachMore(t, u, cursor, k);
        } else {
          assert Reaches(t, u, cursor, 0);
          ReachMore(t, u, cursor, 0);
        }
      }
      cursor := next;
    }
    assert EndsAvoiding(t, cursor, id, 0);
    return None;
  }

  class ExperienceStore {
    var playbooks: Table
    var versions: seq<Version>
    var runs: seq<RunRow>

    ghost function View(): State
      reads this
    {
      State(playbooks, versions, runs)
    }

    ghost predicate Valid()
      reads this
    {
      Inv(View())
    }

    constructor ()
      ensures Valid() && View() == State(map[], [], [])
    {
      playbooks, versions, runs := map[], [], [];
    }

    method CreatePlaybook(id: string, row: Row)
      requires Valid() && OpOk(View(), Create(id, row))
      modifies this
      ensures Valid() && (View(), Done) == Apply(old(View()), Create(id, row))
    {
      ApplyKeepsInv(View(), Create(id, row));
      playbooks := playbooks[id := row];
      CreatePlaybookVersion(id, 1, "create", playbooks[id]);
    }

    method CreatePlaybookVersion(id: string, version: nat, changeType: string, snapshot: Row)
      modifies this`versions
      ensures versions == old(versions) + [Version(id, version, changeType, snapshot)]
    {
      versions := versions + [Version(id, version, changeType, snapshot)];
    }

    // SELECT MAX(version) ... WHERE playbook_id = ?
    method GetLatestVersion(id: string) returns (latest: nat)
      ensures latest == LatestVersion(versions, id)
    {
      latest := 0;
      for i := 0 to |versions|
        invariant latest == LatestVersion(versions[..i], id)
      {
        assert versions[..i + 1][..i] == versions[..i];
        if versions[i].playbookId == id && versions[i].number > latest { latest := versions[i].number; }
      }
      assert versions[..|versions|] == versions;
    }

    method UpdatePlaybookStatus(id: string, status: string, scopes: Scopes) returns (r: Outcome)
      requires Valid()
      modifies this
      ensures Valid() && (View(), r) == Apply(old(View()), UpdateStatus(id, status, scopes))
    {
      ApplyKeepsInv(View(), UpdateStatus(id, status, scopes));
      if id !in playbooks || !Visible(playbooks[id], scopes) { return Thrown("not found"); }
      var currentVersion := GetLatestVersion(id);
      playbooks := playbooks[id := playbooks[id].(status := status)];
      CreatePlaybookVersion(id, currentVersion + 1, "status_change", playbooks[id]);
      return Done;
    }

    method ReviewPlaybook(id: string, action: string, supersededBy: string, scopes: Scopes) returns (r: Outcome)
      requires Valid()
      modifies this
      ensures Valid() && (View(), r) == Apply(old(View()), Review(id, action, supersededBy, scopes))
    {
      ApplyKeepsInv(View(), Review(id, action, supersededBy, scopes));
      var status := ActionStatus(action);
      if status.None? { return Refused("unsupported_review_action"); }
      if id !in playbooks || !Visible(playbooks[id], scopes) { return Refused("not_found"); }
      var row := playbooks[id];
      if status.value == "superseded" {
        var error := ValidatePlaybookSuccessor(Seen(playbooks, scopes), id, row, supersededBy);
        if error.Some? { return Refused(error.value); }
      }
      var currentVersion := GetLatestVersion(id);
      playbooks := playbooks[id := row.(status := status.value,
                                        supersededBy := if status.value == "superseded" then supersededBy else "")];
      CreatePlaybookVersion(id, currentVersion + 1, status.value, playbooks[id]);
      return Done;
    }

    method RecordPlaybookFeedbackAtomically(id: string, counter: Counter, scopes: Scopes) returns (r: Outcome)
      requires Valid()
      modifies this
      ensures Valid() && (View(), r) == Apply(old(View()), Feedback(id, counter, scopes))
    {
      ApplyKeepsInv(View(), Feedback(id, counter, scopes));
      if id !in playbooks || !Visible(playbooks[id], scopes) { return Thrown("not found"); }
      runs := runs + [RunRow(id, counter)];
      playbooks := playbooks[id := Bump(playbooks[id], counter)];
      return Done;
    }
  }
}
