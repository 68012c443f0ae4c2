/** The compare-and-set retry around an LLM merge (src/llm-memory-merge.ts:40-87), with other writers free to
    change the store at every await. The store is modelled by the contract of its update
    (src/memory-store-ports.ts:71-91, src/store.ts:1253-1298): a write goes through only if the row still
    matches the expected snapshot. */
module LlmMerge {
  import opened Common

  datatype Entry = Entry(text: string, category: string, scope: string, importance: real, timestamp: nat,
                         metadata: Option<string>, vector: seq<real>)

  // The fields a snapshot compares; the vector is not one of them.
  datatype Snapshot = Snapshot(text: string, category: string, scope: string, importance: real, timestamp: nat,
    metadata: string)

  function SnapshotOf(e: Entry): Snapshot {
    Snapshot(e.text, e.category, e.scope, e.importance, e.timestamp,
             if e.metadata.Some? then e.metadata.value else "{}")
  }

  datatype Updates = Updates(text: string, vector: seq<real>, metadata: string)

  function Updated(e: Entry, u: Updates): Entry {
    e.(text := u.text, vector := u.vector, metadata := Some(u.metadata))
  }

  // The caller's callbacks: what may be sent out, what of the provider's output is accepted, the text to embed
  // for a payload, and the updates.
  datatype Policy<!Output, !Payload> = Policy(
    safe: Entry -> bool, accept: Output -> Option<Payload>, spoken: Payload -> string,
    build: (Entry, Payload, seq<real>) -> Updates)

  datatype Read = Found(entry: Entry) | Missing | ReadThrows
  datatype Update = Done(entry: Entry) | Gone | Conflict | UpdateThrows
  datatype Reply<Output> = Reply(output: Output) | ProviderThrows
  datatype Result<Payload> = Merged(entry: Entry, payload: Payload) | Fallback(reason: string) | Threw

  // What a throwing update leaves behind (src/store.ts:1395-1426): the old row, the new one, or none when
  // the rollback fails too.
  datatype Damage = Untouched | Written | Lost

  type Table = map<string, Entry>

  // What the run saw and did, in order, each at its instant: reads, prompts with the entry they were built from
  // and the reply, embeddings, and updates that found no row, were refused, wrote or threw; with the table
  // found, and the one left where it may differ.
  datatype Event<Output> =
    | Looked(time: nat, table: Table)
    | ReadFailed(time: nat)
    | Prompted(time: nat, entry: Entry, reply: Reply<Output>)
    | Embedded(time: nat, text: string, vector: Option<seq<real>>)
    | Vanished(time: nat, table: Table)
    | Refused(time: nat, table: Table)
    | Wrote(time: nat, table: Table, after: Table)
    | Broke(time: nat, table: Table, after: Table)
  {
    predicate Reads() { Looked? || Vanished? || Refused? || Wrote? || Broke? }

    predicate Writes() { Wrote? || Broke? }
  }

  // What a throwing update may leave: the table it found, or, over a row that matched, the new row or none.
  ghost predicate LeftBy(id: string, u: Updates, expected: Snapshot, table: Table, after: Table) {
    || after == table
    || (id in table && SnapshotOf(table[id]) == expected
        && (after == table[id := Updated(table[id], u)] || after == table - {id}))
  }

  // What an update answers, and the event it is.
  ghost predicate Answers<Output>(id: string, u: Updates, expected: Snapshot, r: Update, e: Event<Output>) {
    match r
    case UpdateThrows => e.Broke? && LeftBy(id, u, expected, e.table, e.after)
    case Gone => e.Vanished? && id !in e.table
    case Conflict => e.Refused? && id in e.table && SnapshotOf(e.table[id]) != expected
    case Done(entry) =>
      && e.Wrote? && id in e.table && SnapshotOf(e.table[id]) == expected
      && entry == Updated(e.table[id], u) && e.after == e.table[id := entry]
  }

  class World<Output(!new)> {
    var rows: Table
    var clock: nat
    ghost var log: seq<Event<Output>>
    // Other writers: what the table is when the next step at this time begins.
    const others: (nat, Table) -> Table
    const readFails: nat -> bool
    const updateFails: nat -> Option<Damage>
    const provider: (nat, Entry) -> Reply<Output>
    const embedder: (nat, string) -> Option<seq<real>>

    constructor (rows: Table, others: (nat, Table) -> Table,
                 readFails: nat -> bool, updateFails: nat -> Option<Damage>,
                 provider: (nat, Entry) -> Reply<Output>, embedder: (nat, string) -> Option<seq<real>>)
      ensures this.rows == rows && log == []
    {
      this.rows, this.others, this.readFails, this.updateFails := rows, others, readFails, updateFails;
      this.provider, this.embedder := provider, embedder;
      clock, log := 0, [];
    }

    // The event is what the provider, the embedder and the store answered at its instant.
    ghost predicate Truthful(e: Event<Output>) {
      match e
      case ReadFailed(time) => readFails(time)
      case Prompted(time, entry, reply) => reply == provider(time, entry)
      case Embedded(time, text, vector) => vector == embedder(time, text)
      case Broke(time, _, _) => updateFails(time).Some?
      case _ => true
    }

    // What the other writers alone make of the table from one instant to another.
    ghost function Drift(table: Table, from: nat, end: nat): Table
      requires from <= end
      decreases end
    {
      if from == end then table else others(end - 1, Drift(table, from, end - 1))
    }

    // One event was added, at an instant of this call; up to it, and from it on, only others changed the table.
    twostate predicate Logged(new e: Event<Output>)
      reads this
    {
      && log == old(log) + [e] && Truthful(e) && old(clock) <= e.time < clock
      && (e.Reads() ==> e.table == Drift(old(rows), old(clock), e.time + 1))
      && rows == (if e.Writes() then Drift(e.after, e.time + 1, clock) else Drift(old(rows), old(clock), clock))
    }

    method Await() returns (now: nat)
      modifies this`rows, this`clock
      ensures now == old(clock) && clock == now + 1 && rows == others(now, old(rows))
    {
      now := clock;
      rows := others(now, rows);
      clock := now + 1;
    }

    method GetById(id: string) returns (r: Read, ghost e: Event<Output>)
      modifies this
      ensures Logged(e)
      ensures if r.ReadThrows? then e.ReadFailed?
        else e.Looked? && r == if id in e.table then Found(e.table[id]) else Missing
    {
      var now := Await();
      assert rows == Drift(old(rows), old(clock), clock);
      if readFails(now) {
        r, e := ReadThrows, ReadFailed(now);
      } else {
        r, e := if id in rows then Found(rows[id]) else Missing, Looked(now, rows);
      }
      log := log + [e];
      now := Await();
    }

    // The prompt is a function of the entry, so the entry stands for it.
    method CompleteJson(existing: Entry) returns (r: Reply<Output>, ghost e: Event<Output>)
      modifies this
      ensures Logged(e) && e.Prompted? && e.entry == existing && e.reply == r
    {
      var now := Await();
      assert rows == Drift(old(rows), old(clock), clock);
      r := provider(now, existing);
      e := Prompted(now, existing, r);
      log := log + [e];
      now := Await();
    }

    method Embed(text: string) returns (vector: Option<seq<real>>, ghost e: Event<Output>)
      modifies this
      ensures Logged(e) && e.Embedded? && e.text == text && e.vector == vector
    {
      var now := Await();
      assert rows == Drift(old(rows), old(clock), clock);
      vector := embedder(now, text);
      e := Embedded(now, text, vector);
      log := log + [e];
      now := Await();
    }

    // store.update with an expected snapshot.
    method UpdateExpecting(id: string, u: Updates, expected: Snapshot) returns (r: Update, ghost e: Event<Output>)
      modifies this
      ensures Logged(e)
      ensures Answers(id, u, expected, r, e)
    {
      var now := Await();
      assert rows == Drift(old(rows), old(clock), clock);
      ghost var before := rows;
      if updateFails(now).Some? {
        Break(id, u, expected, updateFails(now).value);
        r, e := UpdateThrows, Broke(now, before, rows);
      } else if id !in rows {
        r, e := Gone, Vanished(now, rows);
      } else if SnapshotOf(rows[id]) != expected {
        r, e := Conflict, Refused(now, rows);
      } else {
        r := Done(Updated(rows[id], u));
        rows := rows[id := r.entry];
        e := Wrote(now, before, rows);
      }
      log := log + [e];
      now := Await();
    }

    // An update that throws; only over a row that matches has it done anything.
    method Break(id: string, u: Updates, expected: Snapshot, damage: Damage)
      modifies this`rows
      ensures LeftBy(id, u, expected, old(rows), rows)
    {
      if id in rows && SnapshotOf(rows[id]) == expected {
        match damage {
          case Untouched =>
          case Written => rows := rows[id := Updated(rows[id], u)];
          case Lost => rows := rows - {id};
        }
      }
    }
  }

  // The attempt read a row fit to be sent out and built its prompt from it.
  ghost predicate PromptsFor<Output, Payload>(id: string, policy: Policy<Output, Payload>, events: seq<Event<Output>>) {
    && |events| >= 2 && events[0].Looked? && id in events[0].table && policy.safe(events[0].table[id])
    && events[1].Prompted? && events[1].entry == events[0].table[id]
  }

  // What is accepted of the reply to the attempt's own prompt.
  ghost function Accepted<Output, Payload>(policy: Policy<Output, Payload>,
                                           events: seq<Event<Output>>): Option<Payload> {
    if |events| >= 2 && events[1].Prompted? && events[1].reply.Reply?
    then policy.accept(events[1].reply.output) else None
  }

  // The reply was accepted and its payload sent to the embedder.
  ghost predicate Embeds<Output, Payload>(id: string, policy: Policy<Output, Payload>, events: seq<Event<Output>>) {
    && PromptsFor(id, policy, events) && Accepted(policy, events).Some?
    && |events| >= 3 && events[2].Embedded? && events[2].text == policy.spoken(Accepted(policy, events).value)
  }

  // The updates the attempt asks for.
  ghost function Asked<Output, Payload>(id: string, policy: Policy<Output, Payload>,
                                        events: seq<Event<Output>>): Updates
    requires Embeds(id, policy, events) && events[2].vector.Some?
  {
    policy.build(events[1].entry, Accepted(policy, events).value, events[2].vector.value)
  }

  // The attempt came as far as the update.
  ghost predicate Updating<Output, Payload>(id: string, policy: Policy<Output, Payload>, events: seq<Event<Output>>) {
    |events| == 4 && Embeds(id, policy, events) && events[2].vector.Some?
  }

  // An attempt that lost the race: by the time of the update the row was not the one prompted for.
  ghost predicate LostRace<Output, Payload>(id: string, policy: Policy<Output, Payload>, events: seq<Event<Output>>) {
    && Updating(id, policy, events) && events[3].Refused?
    && id in events[3].table && SnapshotOf(events[3].table[id]) != SnapshotOf(events[1].entry)
  }

  // Nothing, or one lost race, and only in the second case is there a second attempt.
  ghost predicate EarlierAttempts<Output, Payload>(id: string, policy: Policy<Output, Payload>,
                                                   events: seq<Event<Output>>, attempt: nat) {
    if attempt == 0 then events == [] else attempt == 1 && LostRace(id, policy, events)
  }

  // The attempt of a merge: the write replaced the very revision the prompt was built from, with the updates
  // made from that revision, the payload accepted of the reply to that prompt and the vector of that payload,
  // and changed nothing else.
  ghost predicate MergedFrom<Output, Payload>(id: string, policy: Policy<Output, Payload>,
                                              events: seq<Event<Output>>, entry: Entry, payload: Payload) {
    && Updating(id, policy, events) && events[3].Wrote? && id in events[3].table
    && SnapshotOf(events[3].table[id]) == SnapshotOf(events[1].entry)
    && Accepted(policy, events) == Some(payload)
    && entry == Updated(events[3].table[id], Asked(id, policy, events))
    && events[3].after == events[3].table[id := entry]
  }

  // Two revisions count as the same exactly when they agree in everything but the vector, no metadata being
  // the same as empty metadata.
  lemma SameRevisionIff(a: Entry, b: Entry)
    ensures SnapshotOf(a) == SnapshotOf(b) <==>
      && a.text == b.text && a.category == b.category && a.scope == b.scope
      && a.importance == b.importance && a.timestamp == b.timestamp
      && (a.metadata == b.metadata || {a.metadata, b.metadata} == {None, Some("{}")})
  {
  }

  // What a merge makes of the row: text, vector and metadata are those built from the revision prompted for;
  // the rest is as in that revision, and no other row has changed.
  lemma MergeWrites<Output, Payload>(id: string, policy: Policy<Output, Payload>, events: seq<Event<Output>>,
                                     entry: Entry, payload: Payload)
    requires MergedFrom(id, policy, events, entry, payload)
    ensures var was, u := events[1].entry, policy.build(events[1].entry, payload, events[2].vector.value);
      && entry.text == u.text && entry.vector == u.vector && entry.metadata == Some(u.metadata)
      && entry.category == was.category && entry.scope == was.scope
      && entry.importance == was.importance && entry.timestamp == was.timestamp
    ensures id in events[3].after && events[3].after[id] == entry
    ensures forall x :: x != id ==>
      (x in events[3].table <==> x in events[3].after)
      && (x in events[3].table ==> events[3].after[x] == events[3].table[x])
  {
    SameRevisionIff(events[3].table[id], events[1].entry);
  }

  // An attempt that stopped without a merge, and why.
  ghost predicate Stopped<Output, Payload>(id: string, policy: Policy<Output, Payload>, events: seq<Event<Output>>,
                                           r: Result<Payload>)
    requires !r.Merged?
  {
    match r
    case Threw =>
      || (|events| == 3 && Embeds(id, policy, events) && events[2].vector.None?)
      || (Updating(id, policy, events) && events[3].Broke?
          && LeftBy(id, Asked(id, policy, events), SnapshotOf(events[1].entry), events[3].table, events[3].after))
    case Fallback(reason) =>
      || (reason == "source read failed" && |events| == 1 && events[0].ReadFailed?)
      || (reason == "source missing or unsafe" && |events| == 1 && events[0].Looked?
          && (id in events[0].table ==> !policy.safe(events[0].table[id])))
      || (reason == "provider failed" && |events| == 2 && PromptsFor(id, policy, events)
          && events[1].reply.ProviderThrows?)
      || (reason == "output rejected" && |events| == 2 && PromptsFor(id, policy, events)
          && events[1].reply.Reply? && Accepted(policy, events).None?)
      || (reason == "source disappeared" && Updating(id, policy, events) && events[3].Vanished?
          && id !in events[3].table)
  }

  // The whole run: at most two attempts, the second only after a lost race.
  ghost predicate Explains<Output, Payload(!new)>(id: string, policy: Policy<Output, Payload>,
                                                  events: seq<Event<Output>>, retries: nat, r: Result<Payload>) {
    var k := 4 * retries;
    k <= |events| && EarlierAttempts(id, policy, events[..k], retries) &&
    if r.Merged? then MergedFrom(id, policy, events[k..], r.entry, r.payload)
    else if r == Fallback("source changed concurrently") then retries == 1 && LostRace(id, policy, events[k..])
    else Stopped(id, policy, events[k..], r)
  }

  // What one attempt did; None is a lost race.
  ghost predicate OneAttempt<Output, Payload(!new)>(id: string, policy: Policy<Output, Payload>,
                                                    events: seq<Event<Output>>, r: Option<Result<Payload>>) {
    match r
    case None => LostRace(id, policy, events)
    case Some(Merged(entry, payload)) => MergedFrom(id, policy, events, entry, payload)
    case Some(stop) => Stopped(id, policy, events, stop) && stop != Fallback("source changed concurrently")
  }

  // Before the given attempt of the loop, or after its end.
  ghost predicate Underway<Output, Payload(!new)>(id: string, policy: Policy<Output, Payload>,
                                                  events: seq<Event<Output>>, attempt: nat) {
    if attempt <= 1 then |events| == 4 * attempt && EarlierAttempts(id, policy, events, attempt)
    else Explains(id, policy, events, 1, Fallback("source changed concurrently"))
  }

  // What the run did, once an attempt is added to the earlier ones.
  lemma Concludes<Output, Payload(!new)>(id: string, policy: Policy<Output, Payload>, earlier: seq<Event<Output>>,
                                         more: seq<Event<Output>>, attempt: nat, r: Option<Result<Payload>>)
    requires attempt <= 1 && Underway(id, policy, earlier, attempt) && OneAttempt(id, policy, more, r)
    ensures if r.Some? then Explains(id, policy, earlier + more, attempt, r.value)
      else Underway(id, policy, earlier + more, attempt + 1)
  {
    assert (earlier + more)[..4 * attempt] == earlier && (earlier + more)[4 * attempt..] == more;
    if attempt == 0 { assert earlier + more == more; }
  }

  // ---------------------------------------------------------------- the table over a run

  // The event happened at an instant between these, and saw the table the other writers alone had made of the
  // first one by then.
  ghost predicate Fits<Output(!new)>(w: World<Output>, e: Event<Output>, first: Table, from: nat, end: nat) {
    w.Truthful(e) && from <= e.time < end && (e.Reads() ==> e.table == w.Drift(first, from, e.time + 1))
  }

  // In their order, and only the last may have written.
  ghost predicate InOrder<Output>(events: seq<Event<Output>>) {
    forall i, j :: 0 <= i < j < |events| ==> events[i].time < events[j].time && !events[i].Writes()
  }

  ghost predicate Happened<Output(!new)>(w: World<Output>, events: seq<Event<Output>>, first: Table, from: nat,
                                         end: nat) {
    InOrder(events) && forall e :: e in events ==> Fits(w, e, first, from, end)
  }

  // The table at the end: what the last event left or, when it is no write, the first table, with what the
  // others made of it.
  ghost function Left<Output(!new)>(w: World<Output>, events: seq<Event<Output>>, first: Table, from: nat,
                             end: nat): Table
    requires from <= end && Happened(w, events, first, from, end)
  {
    var n := |events| - 1;
    if n >= 0 && events[n].Writes() then
      assert events[n] in events;
      w.Drift(events[n].after, events[n].time + 1, end)
    else w.Drift(first, from, end)
  }

  // The run so far.
  ghost predicate Ran<Output(!new)>(w: World<Output>, events: seq<Event<Output>>, first: Table, from: nat, rows: Table,
                                    end: nat) {
    from <= end && Happened(w, events, first, from, end) && rows == Left(w, events, first, from, end)
  }

  ghost predicate NoWrite<Output>(events: seq<Event<Output>>) {
    forall e :: e in events ==> !e.Writes()
  }

  lemma {:induction false} DriftTwice<Output(!new)>(w: World<Output>, table: Table, from: nat, mid: nat, end: nat)
    requires from <= mid <= end
    ensures w.Drift(w.Drift(table, from, mid), mid, end) == w.Drift(table, from, end)
    decreases end
  {
    if end > mid { DriftTwice(w, table, from, mid, end - 1); }
  }

  lemma InOrderOn<Output>(events: seq<Event<Output>>, more: seq<Event<Output>>, mid: nat)
    requires InOrder(events) && InOrder(more) && NoWrite(events)
    requires (forall e :: e in events ==> e.time < mid) && (forall e :: e in more ==> mid <= e.time)
    ensures InOrder(events + more)
  {
    var all := events + more;
    forall i, j | 0 <= i < j < |all| ensures all[i].time < all[j].time && !all[i].Writes() {
      if i < |events| { assert all[i] in events; }
      if j >= |events| { assert all[j] in more; }
    }
  }

  lemma FitsLater<Output(!new)>(w: World<Output>, e: Event<Output>, first: Table, from: nat, mid: nat, end: nat)
    requires from <= mid && Fits(w, e, w.Drift(first, from, mid), mid, end)
    ensures Fits(w, e, first, from, end)
  {
    DriftTwice(w, first, from, mid, e.time + 1);
  }

  // Two parts of a run, the first without a write.
  lemma RanOn<Output(!new)>(w: World<Output>, events: seq<Event<Output>>, more: seq<Event<Output>>, first: Table,
                            from: nat, mid: nat, there: Table, rows: Table, end: nat)
    requires NoWrite(events) && Ran(w, events, first, from, there, mid) && Ran(w, more, there, mid, rows, end)
    ensures Ran(w, events + more, first, from, rows, end)
  {
    assert there == w.Drift(first, from, mid) by {
      if events != [] { assert events[|events| - 1] in events; }
    }
    InOrderOn(events, more, mid);
    forall e | e in events + more ensures Fits(w, e, first, from, end) {
      if e in more { FitsLater(w, e, first, from, mid, end); }
    }
    DriftTwice(w, first, from, mid, end);
    if more == [] { assert events + more == events; }
  }

  // One call is a run of one event.
  twostate lemma OneCall<Output(!new)>(w: World<Output>, new e: Event<Output>)
    requires w.Logged(e)
    ensures Ran(w, [e], old(w.rows), old(w.clock), w.rows, w.clock)
  {
    assert [e][0] == e;
  }

  lemma Appended<T>(log: seq<T>, events: seq<T>, more: seq<T>)
    ensures log + events + more == log + (events + more)
  {
  }

  // The entry prompted for, and the payload accepted of the reply.
  ghost predicate AskedFor<Output, Payload>(id: string, policy: Policy<Output, Payload>, events: seq<Event<Output>>,
                                            existing: Entry, payload: Payload) {
    && |events| == 2 && PromptsFor(id, policy, events)
    && events[1].entry == existing && Accepted(policy, events) == Some(payload)
  }

  // What the update's answer makes of the attempt.
  function ResultOf<Payload>(updated: Update, payload: Payload): Option<Result<Payload>> {
    match updated
    case UpdateThrows => Some(Threw)
    case Gone => Some(Fallback("source disappeared"))
    case Done(entry) => Some(Merged(entry, payload))
    case Conflict => None
  }

  lemma UpdateDecides<Output, Payload(!new)>(id: string, policy: Policy<Output, Payload>, existing: Entry,
                                      payload: Payload,
                                        asked: seq<Event<Output>>, e2: Event<Output>, e3: Event<Output>,
                                        updated: Update)
    requires AskedFor(id, policy, asked, existing, payload)
    requires e2.Embedded? && e2.text == policy.spoken(payload) && e2.vector.Some?
    requires Answers(id, policy.build(existing, payload, e2.vector.value), SnapshotOf(existing), updated, e3)
    ensures OneAttempt(id, policy, asked + ([e2] + [e3]), ResultOf(updated, payload))
  {
    var events := asked + ([e2] + [e3]);
    assert events[0] == asked[0] && events[1] == asked[1] && events[2] == e2 && events[3] == e3;
  }

  lemma NotEmbedded<Output, Payload(!new)>(id: string, policy: Policy<Output, Payload>, existing: Entry,
                                    payload: Payload,
                                           asked: seq<Event<Output>>, e2: Event<Output>)
    requires AskedFor(id, policy, asked, existing, payload)
    requires e2.Embedded? && e2.text == policy.spoken(payload) && e2.vector.None?
    ensures OneAttempt(id, policy, asked + [e2], Some(Threw))
  {
    var events := asked + [e2];
    assert events[0] == asked[0] && events[1] == asked[1] && events[2] == e2;
  }

  // Reading and prompting: the reason to stop, or the entry prompted for and the payload accepted.
  method Prompt<Output(!new), Payload(!new)>(w: World<Output>, id: string, policy: Policy<Output, Payload>)
    returns (stop: Option<Result<Payload>>, got: Option<(Entry, Payload)>, ghost events: seq<Event<Output>>)
    modifies w
    ensures w.log == old(w.log) + events && NoWrite(events)
    ensures Ran(w, events, old(w.rows), old(w.clock), w.rows, w.clock)
    ensures stop.Some? ==> OneAttempt(id, policy, events, stop)
    ensures stop.None? ==> got.Some? && AskedFor(id, policy, events, got.value.0, got.value.1)
  {
    label Start:
    ghost var first, from := w.rows, w.clock;
    var existing, e0 := w.GetById(id);
    OneCall@Start(w, e0);
    events := [e0];
    if existing.ReadThrows? { return Some(Fallback("source read failed")), None, events; }
    if existing.Missing? || !policy.safe(existing.entry) {
      return Some(Fallback("source missing or unsafe")), None, events;
    }
    label Prompting:
    ghost var there, mid := w.rows, w.clock;
    var reply, e1 := w.CompleteJson(existing.entry);
    OneCall@Prompting(w, e1);
    RanOn(w, events, [e1], first, from, mid, there, w.rows, w.clock);
    events := [e0, e1];
    if reply.ProviderThrows? { return Some(Fallback("provider failed")), None, events; }
    var decision := policy.accept(reply.output);
    if decision.None? { return Some(Fallback("output rejected")), None, events; }
    return None, Some((existing.entry, decision.value)), events;
  }

  // The update that ends an attempt.
  method Store<Output(!new), Payload(!new)>(w: World<Output>, id: string, policy: Policy<Output, Payload>,
                                            existing: Entry, payload: Payload, vector: seq<real>,
                                            ghost asked: seq<Event<Output>>, ghost e2: Event<Output>)
    returns (r: Option<Result<Payload>>, ghost e: Event<Output>)
    requires AskedFor(id, policy, asked, existing, payload)
    requires e2.Embedded? && e2.text == policy.spoken(payload) && e2.vector == Some(vector)
    modifies w
    ensures w.log == old(w.log) + [e]
    ensures Ran(w, [e], old(w.rows), old(w.clock), w.rows, w.clock)
    ensures OneAttempt(id, policy, asked + ([e2] + [e]), r)
  {
    label Start:
    var updated;
    updated, e := w.UpdateExpecting(id, policy.build(existing, payload, vector), SnapshotOf(existing));
    OneCall@Start(w, e);
    UpdateDecides(id, policy, existing, payload, asked, e2, e, updated);
    r := ResultOf(updated, payload);
  }

  // Embedding and updating.
  method Write<Output(!new), Payload(!new)>(w: World<Output>, id: string, policy: Policy<Output, Payload>,
                                            existing: Entry, payload: Payload, ghost asked: seq<Event<Output>>)
    returns (r: Option<Result<Payload>>, ghost events: seq<Event<Output>>)
    requires AskedFor(id, policy, asked, existing, payload)
    modifies w
    ensures w.log == old(w.log) + events
    ensures Ran(w, events, old(w.rows), old(w.clock), w.rows, w.clock)
    ensures OneAttempt(id, policy, asked + events, r)
  {
    label Start:
    var vector, e2 := w.Embed(policy.spoken(payload));
    OneCall@Start(w, e2);
    if vector.None? {
      NotEmbedded(id, policy, existing, payload, asked, e2);
      return Some(Threw), [e2];
    }
    ghost var there, mid := w.rows, w.clock;
    ghost var e3;
    r, e3 := Store(w, id, policy, existing, payload, vector.value, asked, e2);
    RanOn(w, [e2], [e3], old(w.rows), old(w.clock), mid, there, w.rows, w.clock);
    Appended(old(w.log), [e2], [e3]);
    events := [e2] + [e3];
  }

  // One round of the loop; None is a lost race, after which the loop goes on.
  method Attempt<Output(!new), Payload(!new)>(w: World<Output>, id: string, policy: Policy<Output, Payload>)
    returns (r: Option<Result<Payload>>, ghost events: seq<Event<Output>>)
    modifies w
    ensures w.log == old(w.log) + events
    ensures Ran(w, events, old(w.rows), old(w.clock), w.rows, w.clock)
    ensures OneAttempt(id, policy, events, r)
  {
    var got;
    r, got, events := Prompt(w, id, policy);
    if r.Some? { return; }
    ghost var there, mid := w.rows, w.clock;
    ghost var more;
    r, more := Write(w, id, policy, got.value.0, got.value.1, events);
    RanOn(w, events, more, old(w.rows), old(w.clock), mid, there, w.rows, w.clock);
    Appended(old(w.log), events, more);
    events := events + more;
  }

  // Of these events only the last may be a write or a failed update, and only the second is a prompt.
  ghost predicate PlainAttempt<Output>(events: seq<Event<Output>>, wrote: bool, mayBreak: bool) {
    && (forall i :: 0 <= i < |events| && events[i].Wrote? ==> i == 3)
    && (wrote <==> |events| == 4 && events[3].Wrote?)
    && (forall i :: 0 <= i < |events| && events[i].Prompted? ==> i == 1)
    && (!mayBreak ==> forall i :: 0 <= i < |events| ==> !events[i].Broke?)
  }

  lemma PlainSteps<Output, Payload(!new)>(id: string, policy: Policy<Output, Payload>, events: seq<Event<Output>>,
                                          r: Result<Payload>)
    requires if r.Merged? then MergedFrom(id, policy, events, r.entry, r.payload)
      else LostRace(id, policy, events) || Stopped(id, policy, events, r)
    ensures PlainAttempt(events, r.Merged?, r.Threw?)
  {
  }

  // A write is reported as a merge, and only a write is; a run asks the provider at most twice; an update that
  // breaks is passed on.
  lemma MergedIffWrote<Output, Payload(!new)>(id: string, policy: Policy<Output, Payload>, events: seq<Event<Output>>,
                                              retries: nat, r: Result<Payload>)
    requires Explains(id, policy, events, retries, r)
    ensures r.Merged? <==> exists i :: 0 <= i < |events| && events[i].Wrote?
    ensures forall i :: 0 <= i < |events| && events[i].Prompted? ==> i == 1 || i == 5
    ensures (exists i :: 0 <= i < |events| && events[i].Broke?) ==> r.Threw?
    ensures r.Merged? ==> events != [] && events[|events| - 1].Wrote?
  {
    var k := 4 * retries;
    var first, last := events[..k], events[k..];
    PlainSteps(id, policy, last, r);
    if k > 0 { PlainSteps(id, policy, first, Fallback("source changed concurrently")); }
    forall i | 0 <= i < |events| ensures events[i] == if i < k then first[i] else last[i - k] {}
    if r.Merged? { assert events[k + 3].Wrote?; }
  }

  // A fallback has left the table to the other writers: it is what they alone made of the first one.
  lemma FallbackWroteNothing<Output(!new), Payload(!new)>(w: World<Output>, id: string, policy: Policy<Output, Payload>,
                                                          events: seq<Event<Output>>, retries: nat, r: Result<Payload>,
                                                          first: Table, from: nat, rows: Table, end: nat)
    requires Explains(id, policy, events, retries, r) && Ran(w, events, first, from, rows, end)
    ensures r.Fallback? ==> rows == w.Drift(first, from, end)
  {
    MergedIffWrote(id, policy, events, retries, r);
  }

  // A merge replaced the row in what they alone had made of the table by its instant, and nothing else since.
  lemma MergeWroteOnce<Output(!new), Payload(!new)>(w: World<Output>, id: string, policy: Policy<Output, Payload>,
                                                    events: seq<Event<Output>>, retries: nat, r: Result<Payload>,
                                                    first: Table, from: nat, rows: Table, end: nat)
    requires Explains(id, policy, events, retries, r) && Ran(w, events, first, from, rows, end) && r.Merged?
    ensures events != []
    ensures var t := events[|events| - 1].time;
      from <= t < end && rows == w.Drift(w.Drift(first, from, t + 1)[id := r.entry], t + 1, end)
  {
    MergedIffWrote(id, policy, events, retries, r);
    var last := events[|events| - 1];
    assert last in events && last == events[4 * retries..][3];
  }

  // One more round.
  lemma Round<Output(!new), Payload(!new)>(w: World<Output>, id: string, policy: Policy<Output, Payload>,
                                           events: seq<Event<Output>>, more: seq<Event<Output>>, attempt: nat,
                                           r: Option<Result<Payload>>, first: Table, from: nat, there: Table, mid: nat,
                                           rows: Table, end: nat)
    requires attempt <= 1 && Underway(id, policy, events, attempt) && OneAttempt(id, policy, more, r)
    requires Ran(w, events, first, from, there, mid) && Ran(w, more, there, mid, rows, end)
    ensures Ran(w, events + more, first, from, rows, end)
    ensures if r.Some? then Explains(id, policy, events + more, attempt, r.value)
      else Underway(id, policy, events + more, attempt + 1)
    ensures r.Some? && r.value.Fallback? ==> rows == w.Drift(first, from, end)
  {
    RanOn(w, events, more, first, from, mid, there, rows, end);
    Concludes(id, policy, events, more, attempt, r);
    if r.Some? { FallbackWroteNothing(w, id, policy, events + more, attempt, r.value, first, from, rows, end); }
  }

  // applyLlmMemoryMergeWithCas (src/llm-memory-merge.ts:38-87).
  method ApplyLlmMemoryMergeWithCas<Output(!new), Payload(!new)>(w: World<Output>, id: string,
                                                                 policy: Policy<Output, Payload>)
    returns (r: Result<Payload>, ghost events: seq<Event<Output>>, ghost retries: nat)
    modifies w
    ensures w.log == old(w.log) + events
    ensures Ran(w, events, old(w.rows), old(w.clock), w.rows, w.clock)
    ensures Explains(id, policy, events, retries, r)
    ensures r.Fallback? ==> w.rows == w.Drift(old(w.rows), old(w.clock), w.clock)
  {
    events, retries := [], 0;
    var attempt := 0;
    while attempt < 2
      invariant 0 <= attempt <= 2 && w.log == old(w.log) + events
      invariant Ran(w, events, old(w.rows), old(w.clock), w.rows, w.clock)
      invariant Underway(id, policy, events, attempt)
    {
      retries := attempt;
      ghost var there, mid := w.rows, w.clock;
      var answer, more := Attempt(w, id, policy);
      Round(w, id, policy, events, more, attempt, answer, old(w.rows), old(w.clock), there, mid, w.rows, w.clock);
      Appended(old(w.log), events, more);
      events := events + more;
      if answer.Some? { return answer.value, events, retries; }
      attempt := attempt + 1;
    }
    r, retries := Fallback("source changed concurrently"), 1;
    FallbackWroteNothing(w, id, policy, events, retries, r, old(w.rows), old(w.clock), w.rows, w.clock);
  }
}
