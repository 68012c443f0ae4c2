/** The write-back protocol of AccessTracker (src/access-tracker.ts:48-144, 214-340) as a state machine.
    Every await is a point where any other step may run: more accesses, other flush() calls, the debounce
    timer, destroy(), other writers, and any read or write may fail. */
module AccessProtocol {
  import opened Common

  type Id = string
  type Counts = map<Id, nat>

  const MAX_ACCESS_COUNT := 10_000

  function Clamp(n: int): nat {
    if n < 0 then 0 else if n > MAX_ACCESS_COUNT then MAX_ACCESS_COUNT else n
  }

  function Get(m: Counts, id: Id): nat {
    if id in m then m[id] else 0
  }

  function Plus(m: Counts, id: Id, n: nat): Counts {
    m[id := Get(m, id) + n]
  }

  // One access for every occurrence of an id.
  function Recorded(m: Counts, ids: seq<Id>): Counts {
    map id | id in m.Keys + Elems(ids) :: Get(m, id) + multiset(ids)[id]
  }

  lemma RecordedMore(m: Counts, ids: seq<Id>, i: nat)
    requires i < |ids|
    ensures var r := Recorded(m, ids[..i]); Recorded(m, ids[..i + 1]) == r[ids[i] := Get(r, ids[i]) + 1]
  {
    ElemsPrefix(ids, i);
    assert ids[..i + 1] == ids[..i] + [ids[i]];
    assert ids[i] !in ids[..i] ==> multiset(ids[..i])[ids[i]] == 0;
    var r, t := Recorded(m, ids[..i]), Recorded(m, ids[..i + 1]);
    var expected := r[ids[i] := Get(r, ids[i]) + 1];
    assert t.Keys == expected.Keys;
    forall id | id in t ensures t[id] == expected[id] {}
  }

  // A running doFlush: the part of its batch not yet settled, and the item whose row it has read.
  datatype Body = Body(id: nat, left: Counts, reading: Option<(Id, int)>)

  // promise: the body whose promise flushPromise holds; waiters: the promises other flush() calls await.
  datatype Tracker = Tracker(
    pending: Counts, timer: bool, promise: Option<nat>, bodies: seq<Body>, waiters: seq<nat>, nextBody: nat)

  // What became of the accesses recorded so far. repeated counts those an update wrote before it threw: they
  // are requeued and written once more.
  datatype Ledger = Ledger(recorded: Counts, written: Counts, missing: Counts, destroyed: Counts, repeated: Counts)

  datatype Machine = Machine(t: Tracker, store: map<Id, int>, l: Ledger)

  // ---------------------------------------------------------------- the tracker's synchronous segments

  function Record(t: Tracker, ids: seq<Id>): Tracker {
    t.(pending := Recorded(t.pending, ids), timer := true)
  }

  // flush() up to its first await; doFlush takes its batch before yielding.
  function Enter(t: Tracker): Tracker {
    var u := t.(timer := false);
    if t.promise.Some? then u.(waiters := t.waiters + [t.promise.value])
    else if t.pending == map[] then u
    else u.(pending := map[], promise := Some(t.nextBody),
            bodies := t.bodies + [Body(t.nextBody, t.pending, None)], nextBody := t.nextBody + 1)
  }

  function Settle(t: Tracker, b: nat, id: Id): Tracker
    requires b < |t.bodies|
  {
    var body := t.bodies[b];
    t.(bodies := t.bodies[b := body.(left := body.left - {id}, reading := None)])
  }

  // The catch clause: the delta goes back to pending.
  function Requeue(t: Tracker, b: nat, id: Id): Tracker
    requires b < |t.bodies| && id in t.bodies[b].left
  {
    Settle(t, b, id).(pending := Plus(t.pending, id, t.bodies[b].left[id]))
  }

  // flush() after its await: release the promise, and rearm the timer when more has come in.
  function Leave(t: Tracker, b: nat): Tracker
    requires b < |t.bodies|
  {
    t.(bodies := t.bodies[..b] + t.bodies[b + 1..], promise := None,
       timer := if t.pending != map[] then true else t.timer)
  }

  // A waiting flush() after its await.
  function Resume(t: Tracker, w: nat): Tracker
    requires w < |t.waiters|
  {
    var u := t.(waiters := t.waiters[..w] + t.waiters[w + 1..]);
    if t.pending != map[] then Enter(u) else u
  }

  function Destroy(t: Tracker): Tracker {
    t.(timer := false, pending := map[])
  }

  // ---------------------------------------------------------------- steps

  datatype Step =
    | RecordAccess(ids: seq<Id>)
    | CallFlush
    | TimerFires
    | ReadRow(b: nat, id: Id)
    | ReadMissing(b: nat, id: Id)
    | ReadFails(b: nat, id: Id)
    | WriteRow(b: nat)
    // The update throws; whether the row was replaced first is up to the store.
    | WriteFails(b: nat, replaced: bool)
    | FlushReturns(b: nat)
    | WaiterResumes(w: nat)
    | CallDestroy
    | OtherWrites(id: Id, count: int)
    | OtherDeletes(id: Id)

  predicate Idle(m: Machine, b: nat, id: Id) {
    b < |m.t.bodies| && m.t.bodies[b].reading.None? && id in m.t.bodies[b].left
  }

  predicate Busy(m: Machine, b: nat) {
    b < |m.t.bodies| && m.t.bodies[b].reading.Some? && m.t.bodies[b].reading.value.0 in m.t.bodies[b].left
  }

  predicate Enabled(m: Machine, step: Step) {
    match step
    case TimerFires => m.t.timer
    case ReadRow(b, id) => Idle(m, b, id) && id in m.store
    case ReadMissing(b, id) => Idle(m, b, id) && id !in m.store
    case ReadFails(b, id) => Idle(m, b, id)
    case WriteRow(b) => Busy(m, b)
    case WriteFails(b, _) => Busy(m, b)
    case FlushReturns(b) => b < |m.t.bodies| && m.t.bodies[b].left == map[]
    case WaiterResumes(w) =>
      w < |m.t.waiters| &&
      forall b :: 0 <= b < |m.t.bodies| && m.t.bodies[b].id == m.t.waiters[w] ==> m.t.bodies[b].left == map[]
    case _ => true
  }

  function Next(m: Machine, step: Step): Machine
    requires Enabled(m, step)
  {
    match step
    case RecordAccess(ids) => m.(t := Record(m.t, ids), l := m.l.(recorded := Recorded(m.l.recorded, ids)))
    case CallFlush => m.(t := Enter(m.t))
    case TimerFires => m.(t := Enter(m.t))
    case ReadRow(b, id) =>
      m.(t := m.t.(bodies := m.t.bodies[b := m.t.bodies[b].(reading := Some((id, m.store[id])))]))
    case ReadMissing(b, id) =>
      m.(t := Settle(m.t, b, id), l := m.l.(missing := Plus(m.l.missing, id, m.t.bodies[b].left[id])))
    case ReadFails(b, id) => m.(t := Requeue(m.t, b, id))
    case WriteRow(b) =>
      var (id, read) := m.t.bodies[b].reading.value;
      var delta := m.t.bodies[b].left[id];
      if id in m.store
      then Machine(Settle(m.t, b, id), m.store[id := Clamp(Clamp(read) + delta)],
                   m.l.(written := Plus(m.l.written, id, delta)))
      else m.(t := Settle(m.t, b, id), l := m.l.(missing := Plus(m.l.missing, id, delta)))
    case WriteFails(b, replaced) =>
      var (id, read) := m.t.bodies[b].reading.value;
      var delta := m.t.bodies[b].left[id];
      var t := Requeue(m.t, b, id);
      if replaced && id in m.store
      then Machine(t, m.store[id := Clamp(Clamp(read) + delta)], m.l.(repeated := Plus(m.l.repeated, id, delta)))
      else m.(t := t)
    case FlushReturns(b) => m.(t := Leave(m.t, b))
    case WaiterResumes(w) => m.(t := Resume(m.t, w))
    case CallDestroy =>
      m.(t := Destroy(m.t),
         l := m.l.(destroyed :=
           map id | id in m.l.destroyed.Keys + m.t.pending.Keys :: Get(m.l.destroyed, id) + Get(m.t.pending, id)))
    case OtherWrites(id, count) => m.(store := m.store[id := count])
    case OtherDeletes(id) => m.(store := m.store - {id})
  }

  // ---------------------------------------------------------------- the invariant

  function InFlight(bodies: seq<Body>, id: Id): nat {
    if bodies == [] then 0 else Get(bodies[0].left, id) + InFlight(bodies[1..], id)
  }

  // At most one body is active, and it is the one flushPromise stands for.
  predicate OneBody(t: Tracker) {
    match t.promise
    case None => t.bodies == []
    case Some(p) =>
      && |t.bodies| == 1 && t.bodies[0].id == p
      && (t.bodies[0].reading.Some? ==> t.bodies[0].reading.value.0 in t.bodies[0].left)
  }

  // Pending accesses are never forgotten: a timer or a running flush will look at them.
  predicate Attended(t: Tracker) {
    t.pending != map[] ==> t.timer || t.bodies != []
  }

  // Every access recorded for id is pending, in flight, written, or dropped for a known reason.
  predicate Balanced(m: Machine, id: Id) {
    Get(m.l.recorded, id) ==
      Get(m.t.pending, id) + InFlight(m.t.bodies, id)
      + Get(m.l.written, id) + Get(m.l.missing, id) + Get(m.l.destroyed, id)
  }

  ghost predicate Conserved(m: Machine) {
    forall id :: Balanced(m, id)
  }

  ghost predicate Inv(m: Machine) {
    OneBody(m.t) && Attended(m.t) && Conserved(m)
  }

  const START := Tracker(map[], false, None, [], [], 0)

  ghost function Fresh(store: map<Id, int>): Machine {
    Machine(START, store, Ledger(map[], map[], map[], map[], map[]))
  }

  lemma OneInFlight(t: Tracker, id: Id)
    requires OneBody(t)
    ensures InFlight(t.bodies, id) == if t.bodies == [] then 0 else Get(t.bodies[0].left, id)
  {
    if t.bodies != [] { assert t.bodies[1..] == []; }
  }

  // Settling an item takes exactly its delta out of flight.
  lemma SettleTakes(t: Tracker, b: nat, x: Id, id: Id)
    requires OneBody(t) && b < |t.bodies| && x in t.bodies[b].left
    ensures InFlight(Settle(t, b, x).bodies, id) + (if id == x then t.bodies[b].left[x] else 0) ==
      InFlight(t.bodies, id)
  {
    OneInFlight(t, id);
    OneInFlight(Settle(t, b, x), id);
  }

  lemma EnterMoves(t: Tracker, id: Id)
    requires OneBody(t)
    ensures OneBody(Enter(t))
    ensures Get(Enter(t).pending, id) + InFlight(Enter(t).bodies, id) == Get(t.pending, id) + InFlight(t.bodies, id)
  {
    OneInFlight(t, id);
    OneInFlight(Enter(t), id);
  }

  lemma WriteConserves(m: Machine, b: nat, id: Id)
    requires Inv(m) && Enabled(m, WriteRow(b))
    ensures Balanced(Next(m, WriteRow(b)), id)
  {
    assert Balanced(m, id);
    var x := m.t.bodies[b].reading.value.0;
    SettleTakes(m.t, b, x, id);
    var n := Next(m, WriteRow(b));
    if x in m.store {
      assert Get(n.l.written, id) == Get(m.l.written, id) + if id == x then m.t.bodies[b].left[x] else 0;
    } else {
      assert Get(n.l.missing, id) == Get(m.l.missing, id) + if id == x then m.t.bodies[b].left[x] else 0;
    }
  }

  lemma StepConserves(m: Machine, step: Step, id: Id)
    requires Inv(m) && Enabled(m, step)
    ensures Balanced(Next(m, step), id)
  {
    assert Balanced(m, id);
    var n := Next(m, step);
    match step
    case RecordAccess(ids) =>
      assert id !in ids ==> multiset(ids)[id] == 0;
      assert Balanced(n, id);
    case CallFlush =>
      EnterMoves(m.t, id);
      assert Balanced(n, id);
    case TimerFires =>
      EnterMoves(m.t, id);
      assert Balanced(n, id);
    case ReadRow(b, x) =>
      OneInFlight(m.t, id);
      OneInFlight(n.t, id);
      assert Balanced(n, id);
    case ReadMissing(b, x) =>
      SettleTakes(m.t, b, x, id);
      assert Balanced(n, id);
    case ReadFails(b, x) =>
      SettleTakes(m.t, b, x, id);
      assert Balanced(n, id);
    case WriteRow(b) =>
      WriteConserves(m, b, id);
    case WriteFails(b, _) =>
      SettleTakes(m.t, b, m.t.bodies[b].reading.value.0, id);
      assert Balanced(n, id);
    case FlushReturns(b) =>
      OneInFlight(m.t, id);
      assert n.t.bodies == [];
      assert Balanced(n, id);
    case WaiterResumes(w) =>
      EnterMoves(m.t.(waiters := m.t.waiters[..w] + m.t.waiters[w + 1..]), id);
      assert Balanced(n, id);
    case CallDestroy =>
      assert Balanced(n, id);
    case OtherWrites(_, _) =>
      assert Balanced(n, id);
    case OtherDeletes(_) =>
      assert Balanced(n, id);
  }

  lemma StepKeepsInv(m: Machine, step: Step)
    requires Inv(m) && Enabled(m, step)
    ensures Inv(Next(m, step))
  {
    var n := Next(m, step);
    assert OneBody(n.t) && Attended(n.t);
    forall id ensures Balanced(n, id) {
      StepConserves(m, step, id);
    }
  }

  // ---------------------------------------------------------------- runs

  ghost predicate Possible(m: Machine, steps: seq<Step>)
    decreases |steps|
  {
    steps == [] || (Enabled(m, steps[0]) && Possible(Next(m, steps[0]), steps[1..]))
  }

  ghost function Run(m: Machine, steps: seq<Step>): Machine
    requires Possible(m, steps)
    decreases |steps|
  {
    if steps == [] then m else Run(Next(m, steps[0]), steps[1..])
  }

  // Under every interleaving at most one flush body runs and no access is lost or counted twice.
  lemma {:induction false} RunKeepsInv(m: Machine, steps: seq<Step>)
    requires Inv(m) && Possible(m, steps)
    ensures Inv(Run(m, steps))
    decreases |steps|
  {
    if steps != [] {
      StepKeepsInv(m, steps[0]);
      RunKeepsInv(Next(m, steps[0]), steps[1..]);
    }
  }

  // ---------------------------------------------------------------- a row only the tracker writes

  predicate Touches(step: Step, id: Id) {
    (step.OtherWrites? && step.id == id) || (step.OtherDeletes? && step.id == id)
  }

  // The row holds its first count plus what was written to it, twice where an update wrote and threw, capped;
  // and a body that has read it read that.
  predicate Exact(m: Machine, id: Id, first: int) {
    && id in m.store
    && Clamp(m.store[id]) == Clamp(Clamp(first) + Get(m.l.written, id) + Get(m.l.repeated, id))
    && forall b :: 0 <= b < |m.t.bodies| && m.t.bodies[b].reading.Some? && m.t.bodies[b].reading.value.0 == id ==>
         m.t.bodies[b].reading.value.1 == m.store[id]
  }

  lemma WriteKeepsExact(m: Machine, b: nat, id: Id, first: int)
    requires Inv(m) && Enabled(m, WriteRow(b)) && Exact(m, id, first)
    ensures Exact(Next(m, WriteRow(b)), id, first)
  {
  }

  lemma FailureKeepsExact(m: Machine, b: nat, replaced: bool, id: Id, first: int)
    requires Inv(m) && Enabled(m, WriteFails(b, replaced)) && Exact(m, id, first)
    ensures Exact(Next(m, WriteFails(b, replaced)), id, first)
  {
  }

  lemma StepKeepsExact(m: Machine, step: Step, id: Id, first: int)
    requires Inv(m) && Enabled(m, step) && Exact(m, id, first) && !Touches(step, id)
    ensures Exact(Next(m, step), id, first)
  {
    match step
    case WriteRow(b) => WriteKeepsExact(m, b, id, first);
    case WriteFails(b, replaced) => FailureKeepsExact(m, b, replaced, id, first);
    case FlushReturns(b) => assert Next(m, step).t.bodies == [];
    case _ =>
  }

  lemma {:induction false} RunKeepsExact(m: Machine, steps: seq<Step>, id: Id, first: int)
    requires Inv(m) && Possible(m, steps) && Exact(m, id, first)
    requires forall step :: step in steps ==> !Touches(step, id)
    ensures Exact(Run(m, steps), id, first)
    decreases |steps|
  {
    if steps != [] {
      assert steps[0] in steps && forall step :: step in steps[1..] ==> step in steps;
      StepKeepsInv(m, steps[0]);
      StepKeepsExact(m, steps[0], id, first);
      RunKeepsExact(Next(m, steps[0]), steps[1..], id, first);
    }
  }

  // A row nobody else deletes is never found missing.
  lemma {:induction false} NothingMissing(m: Machine, steps: seq<Step>, id: Id)
    requires Possible(m, steps) && id in m.store && Get(m.l.missing, id) == 0
    requires forall step :: step in steps ==> !Touches(step, id)
    ensures id in Run(m, steps).store && Get(Run(m, steps).l.missing, id) == 0
    decreases |steps|
  {
    if steps != [] {
      assert steps[0] in steps && forall step :: step in steps[1..] ==> step in steps;
      NothingMissing(Next(m, steps[0]), steps[1..], id);
    }
  }

  // With a single writer, once nothing is pending or in flight and destroy dropped nothing: the stored count
  // is min(10000, initial + recorded) exactly when no update wrote and then threw, or the cap hides it.
  lemma QuiescentCountIsExact(store: map<Id, int>, steps: seq<Step>, id: Id)
    requires id in store && Possible(Fresh(store), steps)
    requires forall step :: step in steps ==> !Touches(step, id)
    requires var m := Run(Fresh(store), steps);
      Get(m.t.pending, id) == 0 && m.t.bodies == [] && Get(m.l.destroyed, id) == 0
    ensures var m := Run(Fresh(store), steps); var ideal := Clamp(store[id]) + Get(m.l.recorded, id);
      && id in m.store && Clamp(m.store[id]) == Clamp(ideal + Get(m.l.repeated, id))
      && (Clamp(m.store[id]) == Clamp(ideal) <==> Get(m.l.repeated, id) == 0 || ideal >= MAX_ACCESS_COUNT)
  {
    RunKeepsInv(Fresh(store), steps);
    RunKeepsExact(Fresh(store), steps, id, store[id]);
    NothingMissing(Fresh(store), steps, id);
    assert Balanced(Run(Fresh(store), steps), id);
  }

  lemma RunCons(m: Machine, step: Step, rest: seq<Step>)
    requires Enabled(m, step) && Possible(Next(m, step), rest)
    ensures Possible(m, [step] + rest) && Run(m, [step] + rest) == Run(Next(m, step), rest)
  {
    assert ([step] + rest)[1..] == rest;
  }

  // ---------------------------------------------------------------- what destroy leaves behind

  ghost predicate NothingLeft(t: Tracker) {
    forall b :: b in t.bodies ==> b.left == map[]
  }

  ghost predicate Quiet(m: Machine) {
    OneBody(m.t) && !m.t.timer && m.t.pending == map[] && NothingLeft(m.t)
  }

  ghost predicate NoRecords(steps: seq<Step>) {
    forall step :: step in steps ==> !step.RecordAccess?
  }

  lemma QuietStep(m: Machine, step: Step)
    requires Quiet(m) && Enabled(m, step) && !step.RecordAccess?
    ensures Quiet(Next(m, step))
  {
  }

  lemma {:induction false} QuietRun(m: Machine, steps: seq<Step>)
    requires Quiet(m) && Possible(m, steps) && NoRecords(steps)
    ensures Quiet(Run(m, steps))
    decreases |steps|
  {
    if steps != [] {
      assert steps[0] in steps && forall step :: step in steps[1..] ==> step in steps;
      QuietStep(m, steps[0]);
      QuietRun(Next(m, steps[0]), steps[1..]);
    }
  }

  // A flush whose remaining items all fail ends with the timer armed.
  lemma {:induction false} Drain(m: Machine) returns (steps: seq<Step>)
    requires OneBody(m.t) && m.t.bodies != [] && (m.t.bodies[0].left != map[] || m.t.pending != map[])
    ensures Possible(m, steps) && NoRecords(steps) && Run(m, steps).t.timer
    decreases m.t.bodies[0].left.Keys
  {
    var body := m.t.bodies[0];
    var step: Step, rest: seq<Step> := FlushReturns(0), [];
    if body.left != map[] {
      if body.reading.Some? {
        step := WriteFails(0, false);
      } else {
        var id :| id in body.left;
        step := ReadFails(0, id);
      }
      rest := Drain(Next(m, step));
    }
    steps := [step] + rest;
    RunCons(m, step, rest);
  }

  // destroy() is final, in that no later run without new accesses arms the timer, exactly when the flush in
  // flight, if any, has nothing left to settle.
  lemma DestroyIsFinalIff(m: Machine)
    requires Inv(m)
    ensures NothingLeft(m.t) <==>
      forall steps :: Possible(Next(m, CallDestroy), steps) && NoRecords(steps) ==>
        !Run(Next(m, CallDestroy), steps).t.timer
  {
    var d := Next(m, CallDestroy);
    if NothingLeft(m.t) {
      forall steps | Possible(d, steps) && NoRecords(steps) ensures !Run(d, steps).t.timer { QuietRun(d, steps); }
    } else {
      var b :| b in m.t.bodies && b.left != map[];
      assert d.t.bodies == m.t.bodies && m.t.bodies[0] == b;
      var steps := Drain(d);
    }
  }

  // Both cases are reachable: a flush with something left, from one access, and one without, when its read fails.
  lemma FlushInFlight(id: Id)
    ensures var steps := [RecordAccess([id]), CallFlush];
      Possible(Fresh(map[]), steps) && Idle(Run(Fresh(map[]), steps), 0, id)
    ensures var steps := [RecordAccess([id]), CallFlush, ReadFails(0, id)];
      Possible(Fresh(map[]), steps) && Run(Fresh(map[]), steps).t.bodies != []
        && NothingLeft(Run(Fresh(map[]), steps).t)
  {
    var m1 := Next(Fresh(map[]), RecordAccess([id]));
    assert id in m1.t.pending && m1.t.pending.Keys == {id};
    var m2 := Next(m1, CallFlush);
    assert Idle(m2, 0, id) && m2.t.bodies[0].left.Keys == {id};
    var m3 := Next(m2, ReadFails(0, id));
    assert m3.t.bodies[0].left == map[];
    RunCons(m2, ReadFails(0, id), []);
    RunCons(m1, CallFlush, []);
    RunCons(m1, CallFlush, [ReadFails(0, id)]);
    RunCons(Fresh(map[]), RecordAccess([id]), [CallFlush]);
    RunCons(Fresh(map[]), RecordAccess([id]), [CallFlush, ReadFails(0, id)]);
  }
}
