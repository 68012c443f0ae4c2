/** The per-path queue of session saves (src/llm-oauth.ts:20, 545-565). Each call waits for the promise the
    map holds for its path and leaves its own promise there. Between two awaits a call runs undisturbed, so
    the protocol is a machine with three steps: arriving, starting the save, and ending it. */
module OAuthQueue {
  import opened Common

  // Ended says whether the file was replaced; a save that throws may or may not have got that far.
  datatype Phase = Waiting | Running | Ended(written: bool)

  // prev is the call whose promise this one awaits.
  datatype Call = Call(path: string, session: string, prev: Option<nat>, phase: Phase)

  // calls are in order of arrival; queues is the map from path to the last promise.
  datatype State = State(calls: seq<Call>, queues: map<string, nat>, files: map<string, string>)

  datatype Step = Arrive(path: string, session: string) | Start(call: nat) | End(call: nat, written: bool)

  // ---------------------------------------------------------------- steps

  function PhaseOf(s: State, i: nat): Phase {
    if i < |s.calls| then s.calls[i].phase else Waiting
  }

  function PathOf(s: State, i: nat): string {
    if i < |s.calls| then s.calls[i].path else ""
  }

  // The promise a call leaves in the map: it resolves when the one before has and the call has released it.
  predicate Resolved(s: State, i: nat)
    decreases i
  {
    && i < |s.calls| && s.calls[i].phase.Ended?
    && (s.calls[i].prev.Some? ==> s.calls[i].prev.value < i && Resolved(s, s.calls[i].prev.value))
  }

  predicate MayStart(s: State, i: nat) {
    && i < |s.calls| && s.calls[i].phase.Waiting?
    && (s.calls[i].prev.Some? ==> Resolved(s, s.calls[i].prev.value))
  }

  predicate Enabled(s: State, e: Step) {
    match e
    case Arrive(_, _) => true
    case Start(i) => MayStart(s, i)
    case End(i, _) => i < |s.calls| && s.calls[i].phase.Running?
  }

  function Next(s: State, e: Step): State
    requires Enabled(s, e)
  {
    match e
    case Arrive(path, session) =>
      var prev := if path in s.queues then Some(s.queues[path]) else None;
      State(s.calls + [Call(path, session, prev, Waiting)], s.queues[path := |s.calls|], s.files)
    case Start(i) =>
      s.(calls := s.calls[i := s.calls[i].(phase := Running)])
    case End(i, written) =>
      var c := s.calls[i];
      State(
        s.calls[i := c.(phase := Ended(written))],
        if c.path in s.queues && s.queues[c.path] == i then s.queues - {c.path} else s.queues,
        if written then s.files[c.path := c.session] else s.files)
  }

  ghost predicate Legal(s: State, steps: seq<Step>)
    decreases |steps|
  {
    steps == [] || (Enabled(s, steps[0]) && Legal(Next(s, steps[0]), steps[1..]))
  }

  function Initial(files: map<string, string>): State {
    State([], map[], files)
  }

  ghost function Run(s: State, steps: seq<Step>): State
    requires Legal(s, steps)
    decreases |steps|
  {
    if steps == [] then s else Run(Next(s, steps[0]), steps[1..])
  }

  // ---------------------------------------------------------------- the invariant

  // Every earlier call for the same path has ended.
  ghost predicate Clear(s: State, i: nat) {
    forall j: nat :: j < i && PathOf(s, j) == PathOf(s, i) ==> PhaseOf(s, j).Ended?
  }

  // A call waits for the one just before it on its path, if that had not ended when it arrived.
  ghost predicate Chained(s: State, i: nat)
    requires i < |s.calls|
  {
    match s.calls[i].prev
    case None => Clear(s, i)
    case Some(p) =>
      && p < i && PathOf(s, p) == PathOf(s, i)
      && forall j: nat :: p < j < i && PathOf(s, j) == PathOf(s, i) ==> PhaseOf(s, j).Ended?
  }

  // A save that has started finds every earlier one ended: one at a time, in order of arrival.
  ghost predicate InTurn(s: State) {
    forall i: nat :: i < |s.calls| && !PhaseOf(s, i).Waiting? ==> Clear(s, i)
  }

  ghost predicate AllChained(s: State) {
    forall i: nat :: i < |s.calls| ==> Chained(s, i)
  }

  // The map holds the last call of a path while that call has not ended, and nothing else.
  ghost predicate QueuesOk(s: State) {
    && (forall path :: path in s.queues ==>
          var t := s.queues[path];
          t < |s.calls| && PathOf(s, t) == path && !PhaseOf(s, t).Ended?)
    && (forall i: nat :: i < |s.calls| && !PhaseOf(s, i).Ended? ==>
      PathOf(s, i) in s.queues && i <= s.queues[PathOf(s, i)])
    && (forall i: nat :: i < |s.calls| && PathOf(s, i) in s.queues ==> i <= s.queues[PathOf(s, i)])
  }

  ghost predicate Inv(s: State) {
    InTurn(s) && AllChained(s) && QueuesOk(s)
  }

  lemma {:induction false} ResolvedIffAllEnded(s: State, i: nat)
    requires AllChained(s) && i < |s.calls|
    ensures Resolved(s, i) <==> PhaseOf(s, i).Ended? && Clear(s, i)
    decreases i
  {
    assert Chained(s, i);
    match s.calls[i].prev
    case None =>
    case Some(p) => ResolvedIffAllEnded(s, p);
  }

  // A call that may start has no unfinished call before it.
  lemma StartersAreClear(s: State, i: nat)
    requires AllChained(s) && MayStart(s, i)
    ensures Clear(s, i)
  {
    assert Chained(s, i);
    if s.calls[i].prev.Some? { ResolvedIffAllEnded(s, s.calls[i].prev.value); }
  }

  lemma ArriveKeepsInv(s: State, path: string, session: string)
    requires Inv(s)
    ensures Inv(Next(s, Arrive(path, session)))
  {
    var t := Next(s, Arrive(path, session));
    var n := |s.calls|;
    assert forall j: nat :: j < n ==>
      t.calls[j] == s.calls[j] && PathOf(t, j) == PathOf(s, j) && PhaseOf(t, j) == PhaseOf(s, j);
    assert PathOf(t, n) == path && PhaseOf(t, n) == Waiting;
    forall i: nat | i < |t.calls| ensures Chained(t, i) {
      if i < n { assert Chained(s, i); }
    }
    forall i: nat | i < |t.calls| && !PhaseOf(t, i).Waiting? ensures Clear(t, i) { assert Clear(s, i); }
  }

  lemma StartKeepsInv(s: State, i: nat)
    requires Inv(s) && MayStart(s, i)
    ensures Inv(Next(s, Start(i)))
  {
    var t := Next(s, Start(i));
    StartersAreClear(s, i);
    assert forall j: nat :: j < |s.calls| ==>
      PathOf(t, j) == PathOf(s, j) && PhaseOf(t, j) == if j == i then Running else PhaseOf(s, j);
    forall k: nat | k < |t.calls| ensures Chained(t, k) { assert Chained(s, k); }
    forall k: nat | k < |t.calls| && !PhaseOf(t, k).Waiting? ensures Clear(t, k) { assert Clear(s, k); }
  }

  lemma EndKeepsInv(s: State, i: nat, written: bool)
    requires Inv(s) && Enabled(s, End(i, written))
    ensures Inv(Next(s, End(i, written)))
  {
    var t := Next(s, End(i, written));
    assert Clear(s, i);
    assert forall j: nat :: j < |s.calls| ==>
      PathOf(t, j) == PathOf(s, j) && PhaseOf(t, j) == if j == i then Ended(written) else PhaseOf(s, j);
    forall k: nat | k < |t.calls| ensures Chained(t, k) { assert Chained(s, k); }
    forall k: nat | k < |t.calls| && !PhaseOf(t, k).Waiting? ensures Clear(t, k) { assert Clear(s, k); }
  }

  lemma StepKeepsInv(s: State, e: Step)
    requires Inv(s) && Enabled(s, e)
    ensures Inv(Next(s, e))
  {
    match e
    case Arrive(path, session) => ArriveKeepsInv(s, path, session);
    case Start(i) => StartKeepsInv(s, i);
    case End(i, written) => EndKeepsInv(s, i, written);
  }

  // ---------------------------------------------------------------- the file

  // The last call, in order of arrival, that replaced the file.
  function LastWritten(calls: seq<Call>, path: string): (i: int)
    ensures -1 <= i < |calls|
    ensures i >= 0 ==> calls[i].path == path && calls[i].phase == Ended(true)
    ensures forall j :: i < j < |calls| && calls[j].path == path ==> calls[j].phase != Ended(true)
  {
    var n := |calls| - 1;
    if n < 0 || (calls[n].path == path && calls[n].phase == Ended(true)) then n else LastWritten(calls[..n], path)
  }

  function Content(files: map<string, string>, path: string): Option<string> {
    if path in files then Some(files[path]) else None
  }

  // The file holds the session of the latest call that was written, whatever failed in between.
  ghost predicate FilesOk(s: State, files: map<string, string>) {
    forall path ::
      var i := LastWritten(s.calls, path);
      Content(s.files, path) == if i < 0 then Content(files, path) else Some(s.calls[i].session)
  }

  lemma LastWrittenIs(calls: seq<Call>, path: string, i: int)
    requires -1 <= i < |calls| && (i >= 0 ==> calls[i].path == path && calls[i].phase == Ended(true))
    requires forall j :: i < j < |calls| && calls[j].path == path ==> calls[j].phase != Ended(true)
    ensures LastWritten(calls, path) == i
  {
  }

  lemma NothingWrittenAfter(s: State, i: nat)
    requires Inv(s) && PhaseOf(s, i).Running?
    ensures forall j :: i < j < |s.calls| && s.calls[j].path == s.calls[i].path ==> s.calls[j].phase.Waiting?
  {
    forall j | i < j < |s.calls| && s.calls[j].path == s.calls[i].path ensures s.calls[j].phase.Waiting? {
      assert PathOf(s, i) == PathOf(s, j);
      assert !PhaseOf(s, j).Waiting? ==> Clear(s, j);
    }
  }

  // The file of one path after a step.
  lemma StepKeepsFile(s: State, e: Step, path: string, i: int)
    requires Inv(s) && Enabled(s, e) && i == LastWritten(s.calls, path)
    ensures var t := Next(s, e); var wrote := e.End? && e.written && s.calls[e.call].path == path;
      && LastWritten(t.calls, path) == (if wrote then e.call else i)
      && Content(t.files, path) == (if wrote then Some(s.calls[e.call].session) else Content(s.files, path))
  {
    if e.End? && e.written && s.calls[e.call].path == path {
      NothingWrittenAfter(s, e.call);
      LastWrittenIs(Next(s, e).calls, path, e.call);
    } else {
      LastWrittenIs(Next(s, e).calls, path, i);
    }
  }

  lemma StepKeepsFiles(s: State, e: Step, files: map<string, string>)
    requires Inv(s) && Enabled(s, e) && FilesOk(s, files)
    ensures FilesOk(Next(s, e), files)
  {
    var t := Next(s, e);
    forall path
      ensures var i := LastWritten(t.calls, path);
        Content(t.files, path) == if i < 0 then Content(files, path) else Some(t.calls[i].session)
    {
      StepKeepsFile(s, e, path, LastWritten(s.calls, path));
    }
  }

  // ---------------------------------------------------------------- what holds over every run

  lemma {:induction false} RunKeepsInv(s: State, steps: seq<Step>, files: map<string, string>)
    requires Inv(s) && FilesOk(s, files) && Legal(s, steps)
    ensures Inv(Run(s, steps)) && FilesOk(Run(s, steps), files)
    decreases |steps|
  {
    if steps != [] {
      StepKeepsInv(s, steps[0]);
      StepKeepsFiles(s, steps[0], files);
      RunKeepsInv(Next(s, steps[0]), steps[1..], files);
    }
  }

  ghost predicate Reachable(s: State, files: map<string, string>) {
    exists steps :: Legal(Initial(files), steps) && s == Run(Initial(files), steps)
  }

  lemma ReachableIsSound(s: State, files: map<string, string>)
    requires Reachable(s, files)
    ensures Inv(s) && FilesOk(s, files)
  {
    var steps :| Legal(Initial(files), steps) && s == Run(Initial(files), steps);
    RunKeepsInv(Initial(files), steps, files);
  }

  // At most one save per path is running, and no save starts before an earlier one of its path has ended.
  lemma OneAtATimeInOrder(s: State, files: map<string, string>, i: nat, j: nat)
    requires Reachable(s, files) && i < j < |s.calls| && s.calls[i].path == s.calls[j].path
    ensures !s.calls[j].phase.Waiting? ==> s.calls[i].phase.Ended?
    ensures !(s.calls[i].phase.Running? && s.calls[j].phase.Running?)
  {
    ReachableIsSound(s, files);
    assert PathOf(s, i) == PathOf(s, j);
    assert !PhaseOf(s, j).Waiting? ==> Clear(s, j);
  }

  // The map has an entry for a path exactly while a save of that path has not ended.
  lemma EntryIffUnfinished(s: State, files: map<string, string>, path: string)
    requires Reachable(s, files)
    ensures path in s.queues <==> exists i: nat :: i < |s.calls| && PathOf(s, i) == path && !PhaseOf(s, i).Ended?
  {
    ReachableIsSound(s, files);
    if path in s.queues { assert PathOf(s, s.queues[path]) == path; }
  }

  function FirstUnended(calls: seq<Call>, path: string): (i: nat)
    ensures i <= |calls| && (i < |calls| ==> calls[i].path == path && !calls[i].phase.Ended?)
    ensures forall j :: 0 <= j < i && calls[j].path == path ==> calls[j].phase.Ended?
  {
    if calls == [] || (calls[0].path == path && !calls[0].phase.Ended?) then 0 else 1 + FirstUnended(calls[1..], path)
  }

  // No save is ever stuck, whether those before it failed or not: the first unfinished call of a path can
  // start or is running.
  lemma NeverBlocked(s: State, files: map<string, string>, i: nat)
    requires Reachable(s, files) && i < |s.calls| && !s.calls[i].phase.Ended?
    ensures var f := FirstUnended(s.calls, s.calls[i].path);
      f <= i && (Enabled(s, Start(f)) || forall written :: Enabled(s, End(f, written)))
  {
    ReachableIsSound(s, files);
    var f := FirstUnended(s.calls, s.calls[i].path);
    assert f <= i;
    assert Chained(s, f);
    forall j: nat | j < f && PathOf(s, j) == PathOf(s, f) ensures PhaseOf(s, j).Ended? {}
    if s.calls[f].prev.Some? { ResolvedIffAllEnded(s, s.calls[f].prev.value); }
  }

  // ---------------------------------------------------------------- the module's own state

  class OAuthSessionWriter {
    var calls: seq<Call>
    var queues: map<string, nat>
    var files: map<string, string>

    ghost function View(): State
      reads this
    {
      State(calls, queues, files)
    }

    constructor (files: map<string, string>)
      ensures View() == Initial(files)
    {
      this.files := files;
      calls, queues := [], map[];
    }

    // saveOAuthSession up to its await; resolve is the path normalization.
    method Arrive(authPath: string, session: string, resolve: string -> string)
      modifies this
      ensures View() == Next(old(View()), Step.Arrive(resolve(authPath), session))
    {
      var queueKey := resolve(authPath);
      var previous := if queueKey in queues then Some(queues[queueKey]) else None;
      queues := queues[queueKey := |calls|];
      calls := calls + [Call(queueKey, session, previous, Waiting)];
    }

    // The await of the promise before returns.
    method Start(call: nat)
      requires MayStart(View(), call)
      modifies this
      ensures View() == Next(old(View()), Step.Start(call))
    {
      calls := calls[call := calls[call].(phase := Running)];
    }

    // The unlocked save and the finally block.
    method End(call: nat, written: bool)
      requires Enabled(View(), Step.End(call, written))
      modifies this
      ensures View() == Next(old(View()), Step.End(call, written))
    {
      var queueKey := calls[call].path;
      if written { files := files[queueKey := calls[call].session]; }
      calls := calls[call := calls[call].(phase := Ended(written))];
      if queueKey in queues && queues[queueKey] == call { queues := queues - {queueKey}; }
    }
  }
}
