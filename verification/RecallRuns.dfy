/** What any run of the recall cache promises, whatever the clock readings and aliases are. */
module RecallRuns {
  import opened Common
  import opened RecallState

  datatype Op =
    | RememberOp(i: Ingress)
    | SelectOp(p: Prompt)
    | ClearOp(now: int, exact: seq<string>, sessions: seq<string>)
    | SizeOp(now: int)

  ghost function Step(s: State, cfg: Config, op: Op): State
    requires Inv(s)
  {
    match op
    case RememberOp(i) => Remember(s, cfg, i).0
    case SelectOp(p) => Select(s, cfg, p).0
    case ClearOp(now, exact, sessions) => Clear(s, cfg, now, exact, sessions).0
    case SizeOp(now) => Prune(s, cfg, now)
  }

  lemma StepKeepsInv(s: State, cfg: Config, op: Op)
    requires Inv(s)
    ensures Inv(Step(s, cfg, op))
    ensures |Step(s, cfg, op).entries| <= cfg.maxEntries
  {
    match op
    case RememberOp(i) => RememberKeepsInv(s, cfg, i);
    case SelectOp(p) => SelectKeepsInv(s, cfg, p);
    case ClearOp(now, exact, sessions) => ClearKeepsInv(s, cfg, now, exact, sessions);
    case SizeOp(now) => PruneKeepsInv(s, cfg, now);
  }

  // The entry this step hands out with duplicate == false, if any.
  ghost function Delivered(s: State, cfg: Config, op: Op): Option<(Id, Route)>
    requires Inv(s)
  {
    if op.SelectOp? then
      var (s1, choice) := Choose(s, cfg, op.p);
      ChooseKeepsInv(s, cfg, op.p);
      if choice.Chosen? && !s1.entries[choice.id].claimed then Some((choice.id, choice.route)) else None
    else None
  }

  ghost function Run(s: State, cfg: Config, ops: seq<Op>): State
    requires Inv(s)
    decreases |ops|
  {
    if ops == [] then s
    else
      StepKeepsInv(s, cfg, ops[0]);
      Run(Step(s, cfg, ops[0]), cfg, ops[1..])
  }

  ghost function Deliveries(s: State, cfg: Config, ops: seq<Op>): seq<Id>
    requires Inv(s)
    decreases |ops|
  {
    if ops == [] then []
    else
      StepKeepsInv(s, cfg, ops[0]);
      var rest := Deliveries(Step(s, cfg, ops[0]), cfg, ops[1..]);
      var d := Delivered(s, cfg, ops[0]);
      if d.Some? then [d.value.0] + rest else rest
  }

  lemma {:induction false} RunKeepsInv(s: State, cfg: Config, ops: seq<Op>)
    requires Inv(s) && |s.entries| <= cfg.maxEntries
    ensures Inv(Run(s, cfg, ops))
    ensures |Run(s, cfg, ops).entries| <= cfg.maxEntries
    decreases |ops|
  {
    if ops != [] {
      StepKeepsInv(s, cfg, ops[0]);
      RunKeepsInv(Step(s, cfg, ops[0]), cfg, ops[1..]);
    }
  }

  const EMPTY_STATE := State(map[], map[], map[], map[], 1)

  ghost predicate Reachable(s: State, cfg: Config) {
    Inv(EMPTY_STATE) && exists ops :: s == Run(EMPTY_STATE, cfg, ops)
  }

  // Every state reached from the empty cache is consistent and within its capacity.
  lemma ReachableInv(s: State, cfg: Config)
    requires Reachable(s, cfg)
    ensures Inv(s) && |s.entries| <= cfg.maxEntries
  {
    var ops :| s == Run(EMPTY_STATE, cfg, ops);
    RunKeepsInv(EMPTY_STATE, cfg, ops);
  }

  lemma {:induction false} RunMore(s: State, cfg: Config, ops: seq<Op>, op: Op)
    requires Inv(s)
    ensures Inv(Run(s, cfg, ops)) && Run(s, cfg, ops + [op]) == Step(Run(s, cfg, ops), cfg, op)
    decreases |ops|
  {
    if ops == [] {
      StepKeepsInv(s, cfg, op);
      assert ops + [op] == [op] && [op][1..] == [];
    } else {
      StepKeepsInv(s, cfg, ops[0]);
      RunMore(Step(s, cfg, ops[0]), cfg, ops[1..], op);
      assert (ops + [op])[0] == ops[0] && (ops + [op])[1..] == ops[1..] + [op];
    }
  }

  // The empty cache is one of them, and every operation leads to another.
  lemma ReachableSteps(s: State, cfg: Config, op: Op)
    requires Reachable(s, cfg)
    ensures Reachable(EMPTY_STATE, cfg) && Inv(s) && Reachable(Step(s, cfg, op), cfg)
  {
    ReachableInv(s, cfg);
    assert EMPTY_STATE == Run(EMPTY_STATE, cfg, []);
    var ops :| s == Run(EMPTY_STATE, cfg, ops);
    RunMore(EMPTY_STATE, cfg, ops, op);
  }

  // ---------------------------------------------------------------- at most one fresh delivery

  // An id that can never be handed out as fresh again: gone for good, or claimed.
  ghost predicate Spent(s: State, id: Id) {
    id < s.nextId && (id in s.entries ==> s.entries[id].claimed)
  }

  lemma {:induction false} FirstPendingKeepsClaims(s: State, queues: seq<string>)
    ensures var t := FirstPending(s, queues).0;
      && t.nextId == s.nextId && t.exactOf == s.exactOf && t.boundOf == s.boundOf
      && forall id :: id in t.entries ==>
           id in s.entries && t.entries[id] == s.entries[id].(queues := t.entries[id].queues)
    decreases |queues|
  {
    if queues != [] {
      FirstPendingKeepsClaims(s.(pending := s.pending - {queues[0]}), queues[1..]);
    }
  }

  lemma RememberKeepsSpent(s: State, cfg: Config, i: Ingress, id: Id)
    requires Inv(s) && Spent(s, id)
    ensures Spent(Remember(s, cfg, i).0, id)
  {
  }

  lemma SelectKeepsSpent(s: State, cfg: Config, p: Prompt, id: Id)
    requires Inv(s) && Spent(s, id)
    ensures Spent(Select(s, cfg, p).0, id)
  {
    ChooseKeepsInv(s, cfg, p);
    FirstPendingKeepsClaims(Prune(s, cfg, p.start), p.queues);
  }

  lemma StepKeepsSpent(s: State, cfg: Config, op: Op, id: Id)
    requires Inv(s) && Spent(s, id)
    ensures Spent(Step(s, cfg, op), id)
  {
    match op
    case RememberOp(i) => RememberKeepsSpent(s, cfg, i, id);
    case SelectOp(p) => SelectKeepsSpent(s, cfg, p, id);
    case ClearOp(now, exact, sessions) =>
    case SizeOp(now) =>
  }

  lemma DeliverySpends(s: State, cfg: Config, op: Op)
    requires Inv(s) && Delivered(s, cfg, op).Some?
    ensures !Spent(s, Delivered(s, cfg, op).value.0)
    ensures Spent(Step(s, cfg, op), Delivered(s, cfg, op).value.0)
  {
    ChooseKeepsInv(s, cfg, op.p);
    FirstPendingKeepsClaims(Prune(s, cfg, op.p.start), op.p.queues);
  }

  // Over any run, no turn is delivered as fresh twice.
  lemma {:induction false} DeliveredAtMostOnce(s: State, cfg: Config, ops: seq<Op>)
    requires Inv(s)
    ensures NoDup(Deliveries(s, cfg, ops))
    ensures forall id :: id in Deliveries(s, cfg, ops) ==> !Spent(s, id)
    decreases |ops|
  {
    if ops != [] {
      StepKeepsInv(s, cfg, ops[0]);
      var t := Step(s, cfg, ops[0]);
      DeliveredAtMostOnce(t, cfg, ops[1..]);
      forall id | id in Deliveries(t, cfg, ops[1..]) ensures !Spent(s, id) {
        if Spent(s, id) { StepKeepsSpent(s, cfg, ops[0], id); }
      }
      if Delivered(s, cfg, ops[0]).Some? { DeliverySpends(s, cfg, ops[0]); }
    }
  }

  // ---------------------------------------------------------------- which route a fresh delivery takes

  // Index of the first queue that still holds an unclaimed entry.
  function FirstLive(s: State, queues: seq<string>): nat {
    if queues == [] || Unclaimed(s.entries, s.pending, queues[0]) != [] then 0
    else 1 + FirstLive(s, queues[1..])
  }

  lemma {:induction false} FirstLiveIs(s: State, queues: seq<string>)
    ensures FirstLive(s, queues) <= |queues|
    ensures forall j :: 0 <= j < FirstLive(s, queues) ==> Unclaimed(s.entries, s.pending, queues[j]) == []
    ensures FirstLive(s, queues) < |queues| ==> Unclaimed(s.entries, s.pending, queues[FirstLive(s, queues)]) != []
  {
    if queues != [] && Unclaimed(s.entries, s.pending, queues[0]) == [] {
      FirstLiveIs(s, queues[1..]);
    }
  }

  lemma {:induction false} NarrowKeepsFirstLive(s: State, q: string, queues: seq<string>)
    requires Unclaimed(s.entries, s.pending, q) == []
    ensures FirstLive(s.(pending := s.pending - {q}), queues) == FirstLive(s, queues)
  {
    if queues != [] {
      NarrowKeepsFirstLive(s, q, queues[1..]);
    }
  }

  // The loop's choice, said without the loop: only the first queue with an unclaimed entry counts,
  // it must hold exactly one, and more than one is refused.
  lemma {:induction false} FirstPendingIs(s: State, queues: seq<string>)
    ensures var k := FirstLive(s, queues);
      && k <= |queues|
      && FirstPending(s, queues).1 ==
         if k == |queues| then Nothing
         else
           var live := Unclaimed(s.entries, s.pending, queues[k]);
           if |live| == 1 then Matched(queues[k], live[0]) else Ambiguous(queues[k])
    decreases |queues|
  {
    FirstLiveIs(s, queues);
    if queues != [] && Unclaimed(s.entries, s.pending, queues[0]) == [] {
      var q := queues[0];
      var t := s.(pending := s.pending - {q});
      NarrowKeepsFirstLive(s, q, queues[1..]);
      FirstPendingIs(t, queues[1..]);
      FirstLiveIs(s, queues[1..]);
    }
  }

  // A session binding only ever answers with a turn that was already claimed.
  lemma BoundIsClaimed(s: State, cfg: Config, p: Prompt)
    requires Inv(s)
    ensures var (s1, choice) := Choose(s, cfg, p);
      choice.Chosen? && choice.route == ViaBound ==> choice.id in s1.entries && s1.entries[choice.id].claimed
  {
    PruneKeepsInv(s, cfg, p.start);
    FirstPendingKeepsInv(Prune(s, cfg, p.start), p.queues);
    var s1 := FirstPending(Prune(s, cfg, p.start), p.queues).0;
    LookupIsLive(s1.boundOf, s1.entries, p.sessions);
  }

  // A fresh delivery comes from an exact alias, or is the sole unclaimed entry of the first queue that
  // has one.
  lemma FreshRoute(s: State, cfg: Config, p: Prompt)
    requires Inv(s) && Delivered(s, cfg, SelectOp(p)).Some?
    ensures var s0 := Prune(s, cfg, p.start);
      match Delivered(s, cfg, SelectOp(p)).value
      case (id, ViaExact) => exists a :: a in p.exact && a in s0.exactOf && s0.exactOf[a] == id
      case (id, ViaQueue) =>
        && (forall a :: a in p.exact ==> a !in s0.exactOf)
        && FirstLive(s0, p.queues) < |p.queues|
        && Unclaimed(s0.entries, s0.pending, p.queues[FirstLive(s0, p.queues)]) == [id]
      case (id, ViaBound) => false
  {
    PruneKeepsInv(s, cfg, p.start);
    var s0 := Prune(s, cfg, p.start);
    LookupIsLive(s0.exactOf, s0.entries, p.exact);
    FirstPendingIs(s0, p.queues);
    BoundIsClaimed(s, cfg, p);
  }

  // ---------------------------------------------------------------- ambiguity fails closed

  lemma {:induction false} RefusalIs(s: State, queues: seq<string>)
    requires Inv(s) && FirstPending(s, queues).1.Ambiguous?
    ensures var (t, pick) := FirstPending(s, queues);
      && pick.queue !in t.pending
      && t.exactOf == s.exactOf
      && t.entries.Keys <= s.entries.Keys
      && (forall id :: id in t.entries ==>
           t.entries[id].claimed == s.entries[id].claimed && t.entries[id].exact == s.entries[id].exact)
      && (forall id :: id in s.entries && s.entries[id].exact != {} ==> id in t.entries)
    decreases |queues|
  {
    var q := queues[0];
    var live := Unclaimed(s.entries, s.pending, q);
    NarrowKeepsInv(s, q);
    if live == [] {
      RefusalIs(s.(pending := s.pending - {q}), queues[1..]);
    } else {
      DropAll(live, Elems(live));
    }
  }

  // An ambiguous prompt gets no turn: nothing is claimed, the ambiguous queue is emptied, every turn that has an
  // exact id stays, and every exact id names the turn it named.
  lemma AmbiguityFailsClosed(s: State, cfg: Config, p: Prompt)
    requires Inv(s) && Choose(s, cfg, p).1 == Refused
    ensures Select(s, cfg, p).1 == AmbiguousCorrelation
    ensures Delivered(s, cfg, SelectOp(p)).None?
    ensures var s0, t := Prune(s, cfg, p.start), Select(s, cfg, p).0;
      && FirstLive(s0, p.queues) < |p.queues|
      && |Unclaimed(s0.entries, s0.pending, p.queues[FirstLive(s0, p.queues)])| > 1
      && p.queues[FirstLive(s0, p.queues)] !in t.pending
      && t.exactOf == s0.exactOf
      && t.entries.Keys <= s0.entries.Keys
      && (forall id :: id in t.entries ==>
           t.entries[id].claimed == s0.entries[id].claimed && t.entries[id].exact == s0.entries[id].exact)
      && (forall id :: id in s0.entries && s0.entries[id].exact != {} ==> id in t.entries)
  {
    var s0 := Prune(s, cfg, p.start);
    PruneKeepsInv(s, cfg, p.start);
    FirstPendingIs(s0, p.queues);
    FirstLiveIs(s0, p.queues);
    RefusalIs(s0, p.queues);
  }

  // ---------------------------------------------------------------- what select answers

  // The k-th alias is the first the index knows, and names the entry.
  ghost predicate FirstKnown(index: map<string, Id>, aliases: seq<string>, k: nat, id: Id) {
    && k < |aliases| && aliases[k] in index && index[aliases[k]] == id
    && forall j :: 0 <= j < k ==> aliases[j] !in index
  }

  ghost predicate NoneKnown(index: map<string, Id>, aliases: seq<string>) {
    forall a :: a in aliases ==> a !in index
  }

  // The entry stands in the queue and nobody has claimed it.
  ghost predicate Waits(s: State, q: string, id: Id) {
    q in s.pending && id in s.pending[q] && id in s.entries && !s.entries[id].claimed
  }

  ghost predicate NoneWaits(s: State, queues: seq<string>) {
    forall q, id :: q in queues ==> !Waits(s, q, id)
  }

  // The k-th queue is the first with something waiting.
  ghost predicate FirstWaiting(s: State, queues: seq<string>, k: nat) {
    k < |queues| && NoneWaits(s, queues[..k]) && exists id :: Waits(s, queues[k], id)
  }

  lemma {:induction false} LookupFirst(index: map<string, Id>, aliases: seq<string>, k: nat, id: Id)
    requires FirstKnown(index, aliases, k, id)
    ensures Lookup(index, aliases) == Some(id)
  {
    if k > 0 {
      assert aliases[0] !in index;
      LookupFirst(index, aliases[1..], k - 1, id);
    }
  }

  lemma {:induction false} LookupNone(index: map<string, Id>, aliases: seq<string>)
    requires NoneKnown(index, aliases)
    ensures Lookup(index, aliases).None?
  {
    if aliases != [] {
      assert aliases[0] in aliases;
      LookupNone(index, aliases[1..]);
    }
  }

  lemma {:induction false} LookupFinds(index: map<string, Id>, aliases: seq<string>) returns (k: nat)
    requires !NoneKnown(index, aliases)
    ensures k < |aliases| && aliases[k] in index && FirstKnown(index, aliases, k, index[aliases[k]])
  {
    k := 0;
    if aliases[0] !in index {
      k := LookupFinds(index, aliases[1..]);
      k := k + 1;
    }
  }

  // What waits in a queue is what the loop filters it to.
  lemma WaitingIsUnclaimed(s: State, q: string)
    ensures Unclaimed(s.entries, s.pending, q) == [] <==> forall id :: !Waits(s, q, id)
    ensures forall id :: id in Unclaimed(s.entries, s.pending, q) <==> Waits(s, q, id)
  {
    var live := Unclaimed(s.entries, s.pending, q);
    if live != [] {
      assert live[0] in live && Waits(s, q, live[0]);
    } else {
      forall id ensures !Waits(s, q, id) { assert id !in live; }
    }
  }

  lemma {:induction false} FirstLiveWaits(s: State, queues: seq<string>, k: nat)
    requires FirstWaiting(s, queues, k)
    ensures FirstLive(s, queues) == k
  {
    WaitingIsUnclaimed(s, queues[0]);
    if k > 0 {
      assert queues[0] in queues[..k];
      assert forall q :: q in queues[1..][..k - 1] ==> q in queues[..k];
      FirstLiveWaits(s, queues[1..], k - 1);
    }
  }

  lemma {:induction false} NoneLive(s: State, queues: seq<string>)
    requires NoneWaits(s, queues)
    ensures FirstLive(s, queues) == |queues|
  {
    if queues != [] {
      assert queues[0] in queues;
      WaitingIsUnclaimed(s, queues[0]);
      NoneLive(s, queues[1..]);
    }
  }

  // Unless it refuses, the loop changes nothing but queues, and those only by entries that do not wait.
  lemma {:induction false} PickingKeeps(s: State, queues: seq<string>)
    requires !FirstPending(s, queues).1.Ambiguous?
    ensures var t := FirstPending(s, queues).0;
      && t.entries == s.entries && t.exactOf == s.exactOf && t.boundOf == s.boundOf && t.nextId == s.nextId
      && forall q, id :: Waits(t, q, id) <==> Waits(s, q, id)
    decreases |queues|
  {
    if queues != [] {
      var q := queues[0];
      WaitingIsUnclaimed(s, q);
      if Unclaimed(s.entries, s.pending, q) == [] { PickingKeeps(s.(pending := s.pending - {q}), queues[1..]); }
    }
  }

  // The aliases name the entry now, all others what they named.
  ghost predicate Names(index: map<string, Id>, aliases: seq<string>, id: Id, more: map<string, Id>) {
    && (forall a :: a in aliases ==> a in more && more[a] == id)
    && (forall a :: a !in aliases ==> (a in more <==> a in index) && (a in index ==> more[a] == index[a]))
  }

  // What the answer leaves: the entry is claimed and stamped, waits nowhere, and is the one the prompt's exact ids
  // and sessions name from now on; everything else is as before.
  ghost predicate ClaimedFor(s: State, p: Prompt, id: Id, t: State) {
    && id in s.entries && t.entries.Keys == s.entries.Keys && t.nextId == s.nextId
    && (forall x :: x in s.entries && x != id ==> t.entries[x] == s.entries[x])
    && t.entries[id].claimed && t.entries[id].updatedAt == p.stamp
    && t.entries[id].query == s.entries[id].query && t.entries[id].turnKey == s.entries[id].turnKey
    && t.entries[id].exact == s.entries[id].exact + Elems(p.exact)
    && t.entries[id].sessions == s.entries[id].sessions + Elems(p.sessions)
    && Names(s.exactOf, p.exact, id, t.exactOf) && Names(s.boundOf, p.sessions, id, t.boundOf)
    && forall q, x :: Waits(t, q, x) <==> Waits(s, q, x) && x != id
  }

  lemma ClaimIs(s: State, p: Prompt, id: Id)
    requires Inv(s) && id in s.entries
    ensures ClaimedFor(s, p, id, Claim(s, p, id))
  {
    var t := Claim(s, p, id);
    forall q, x ensures Waits(t, q, x) <==> Waits(s, q, x) && x != id {
      if q in s.pending { assert QueueOk(s, q); }
    }
  }

  function AnswerOf(e: Entry, duplicate: bool): Selection {
    Cached(e.query, duplicate, e.turnKey)
  }

  // An exact id wins over everything: its entry is the answer, a duplicate if it had been claimed.
  lemma ExactAnswers(s: State, cfg: Config, p: Prompt, k: nat, id: Id)
    requires Inv(s) && FirstKnown(Prune(s, cfg, p.start).exactOf, p.exact, k, id)
    ensures var s0 := Prune(s, cfg, p.start);
      && id in s0.entries && Select(s, cfg, p).1 == AnswerOf(s0.entries[id], s0.entries[id].claimed)
      && ClaimedFor(s0, p, id, Select(s, cfg, p).0)
  {
    PruneKeepsInv(s, cfg, p.start);
    LookupFirst(Prune(s, cfg, p.start).exactOf, p.exact, k, id);
    ClaimIs(Prune(s, cfg, p.start), p, id);
  }

  lemma OnlyOne(s: State, q: string, id: Id)
    requires Inv(s) && forall x :: Waits(s, q, x) <==> x == id
    ensures Unclaimed(s.entries, s.pending, q) == [id]
  {
    var live := Unclaimed(s.entries, s.pending, q);
    WaitingIsUnclaimed(s, q);
    assert Waits(s, q, id) && QueueOk(s, q);
    NoDupSize(live);
    assert Elems(live) == {id};
    assert |live| == 1 && live[0] in live;
  }

  lemma SoleIsPicked(s: State, queues: seq<string>, k: nat, id: Id)
    requires Inv(s) && FirstWaiting(s, queues, k) && forall x :: Waits(s, queues[k], x) <==> x == id
    ensures FirstPending(s, queues).1 == Matched(queues[k], id)
    ensures id in s.entries && !s.entries[id].claimed
  {
    FirstPendingIs(s, queues);
    FirstLiveWaits(s, queues, k);
    OnlyOne(s, queues[k], id);
    assert Waits(s, queues[k], id);
  }

  lemma ClaimAfterPicking(s: State, p: Prompt, id: Id)
    requires Inv(s) && !FirstPending(s, p.queues).1.Ambiguous? && id in s.entries
    ensures var s1 := FirstPending(s, p.queues).0; Inv(s1) && id in s1.entries && ClaimedFor(s, p, id, Claim(s1, p, id))
  {
    FirstPendingKeepsInv(s, p.queues);
    PickingKeeps(s, p.queues);
    ClaimIs(FirstPending(s, p.queues).0, p, id);
  }

  lemma SelectClaims(s: State, cfg: Config, p: Prompt, id: Id, route: Route)
    requires Inv(s) && Choose(s, cfg, p).1 == Chosen(id, route)
    ensures var s1 := Choose(s, cfg, p).0;
      id in s1.entries && Select(s, cfg, p) == (Claim(s1, p, id), AnswerOf(s1.entries[id], s1.entries[id].claimed))
  {
    ChooseKeepsInv(s, cfg, p);
  }

  lemma PendingIsChosen(s: State, cfg: Config, p: Prompt, k: nat, id: Id)
    requires Inv(s) && NoneKnown(Prune(s, cfg, p.start).exactOf, p.exact)
    requires FirstWaiting(Prune(s, cfg, p.start), p.queues, k)
    requires forall x :: Waits(Prune(s, cfg, p.start), p.queues[k], x) <==> x == id
    ensures Choose(s, cfg, p) == (FirstPending(Prune(s, cfg, p.start), p.queues).0, Chosen(id, ViaQueue))
    ensures var s0 := Prune(s, cfg, p.start);
      Inv(s0) && id in s0.entries && !s0.entries[id].claimed && !FirstPending(s0, p.queues).1.Ambiguous?
  {
    PruneKeepsInv(s, cfg, p.start);
    LookupNone(Prune(s, cfg, p.start).exactOf, p.exact);
    SoleIsPicked(Prune(s, cfg, p.start), p.queues, k, id);
  }

  // Next come the queues: of the first in which somebody waits the only one is the answer, and fresh, whatever
  // the sessions are bound to.
  lemma PendingAnswers(s: State, cfg: Config, p: Prompt, k: nat, id: Id)
    requires Inv(s) && NoneKnown(Prune(s, cfg, p.start).exactOf, p.exact)
    requires FirstWaiting(Prune(s, cfg, p.start), p.queues, k)
    requires forall x :: Waits(Prune(s, cfg, p.start), p.queues[k], x) <==> x == id
    ensures var s0 := Prune(s, cfg, p.start);
      && id in s0.entries && Select(s, cfg, p).1 == AnswerOf(s0.entries[id], false)
      && ClaimedFor(s0, p, id, Select(s, cfg, p).0)
  {
    PendingIsChosen(s, cfg, p, k, id);
    SelectClaims(s, cfg, p, id, ViaQueue);
    PickingKeeps(Prune(s, cfg, p.start), p.queues);
    ClaimAfterPicking(Prune(s, cfg, p.start), p, id);
  }

  predicate OtherSession(o: string, q: string) {
    o != q && ("pending:session-key:" <= o || "pending:session-id:" <= o)
  }

  ghost predicate LetGoOf(s: State, q: string, t: State, x: Id)
    requires x in s.entries
  {
    && (x in t.entries <==> s.entries[x].exact != {} || exists o :: o in s.entries[x].queues && OtherSession(o, q))
    && (x in t.entries ==> t.entries[x] == s.entries[x].(queues := t.entries[x].queues))
    && forall o :: Waits(t, o, x) <==> Waits(s, o, x) && OtherSession(o, q)
  }

  ghost predicate StaysPut(s: State, t: State, x: Id)
    requires x in s.entries
  {
    x in t.entries && t.entries[x] == s.entries[x] && forall o :: Waits(t, o, x) <==> Waits(s, o, x)
  }

  // Those who waited in the queue wait only in queues of other sessions now, and are gone if they have neither
  // such a queue nor an exact id; nothing else changes.
  ghost predicate LetGo(s: State, q: string, t: State) {
    && q !in t.pending && t.exactOf == s.exactOf && t.boundOf == s.boundOf && t.nextId == s.nextId
    && (forall x :: x in s.entries && !Waits(s, q, x) ==> StaysPut(s, t, x))
    && (forall x :: Waits(s, q, x) ==> LetGoOf(s, q, t, x))
  }

  lemma DetachLetsGoOf(s: State, q: string, live: seq<Id>, x: Id)
    requires Inv(s) && live == Unclaimed(s.entries, s.pending, q) && Waits(s, q, x)
    ensures LetGoOf(s, q, Detach(s.(pending := s.pending[q := live]), q, Elems(live)), x)
  {
    var t := Detach(s.(pending := s.pending[q := live]), q, Elems(live));
    WaitingIsUnclaimed(s, q);
    assert x in live;
    forall o ensures o in StillListed(s.entries[x], q) <==> o in s.entries[x].queues && OtherSession(o, q) {}
    forall o ensures Waits(t, o, x) <==> Waits(s, o, x) && OtherSession(o, q) {
      if o in s.pending { assert QueueOk(s, o); }
    }
  }

  lemma DetachKeeps(s: State, q: string, live: seq<Id>, x: Id)
    requires Inv(s) && live == Unclaimed(s.entries, s.pending, q) && x in s.entries && !Waits(s, q, x)
    ensures StaysPut(s, Detach(s.(pending := s.pending[q := live]), q, Elems(live)), x)
  {
    WaitingIsUnclaimed(s, q);
    assert x !in live;
  }

  lemma DetachLetsGo(s: State, q: string, live: seq<Id>)
    requires Inv(s) && live != [] && live == Unclaimed(s.entries, s.pending, q)
    ensures LetGo(s, q, Detach(s.(pending := s.pending[q := live]), q, Elems(live)))
  {
    var n := s.(pending := s.pending[q := live]);
    var t := Detach(n, q, Elems(live));
    WaitingIsUnclaimed(s, q);
    DropAll(live, Elems(live));
    forall x | Waits(s, q, x) ensures LetGoOf(s, q, t, x) { DetachLetsGoOf(s, q, live, x); }
    forall x | x in s.entries && !Waits(s, q, x) ensures StaysPut(s, t, x) { DetachKeeps(s, q, live, x); }
  }

  ghost predicate SameButQueues(s: State, n: State) {
    && n.entries == s.entries && n.exactOf == s.exactOf && n.boundOf == s.boundOf && n.nextId == s.nextId
    && forall o, x :: Waits(n, o, x) <==> Waits(s, o, x)
  }

  lemma LetGoSame(s: State, n: State, q: string, t: State)
    requires SameButQueues(s, n) && LetGo(n, q, t)
    ensures LetGo(s, q, t)
  {
    forall x | Waits(s, q, x) ensures LetGoOf(s, q, t, x) { assert LetGoOf(n, q, t, x); }
    forall x | x in s.entries && !Waits(s, q, x) ensures StaysPut(s, t, x) { assert StaysPut(n, t, x); }
  }

  // Skipping a queue in which nobody waits.
  lemma SkipQueue(s: State, queues: seq<string>, k: nat)
    requires Inv(s) && k > 0 && FirstWaiting(s, queues, k)
    ensures var n := s.(pending := s.pending - {queues[0]});
      && Unclaimed(s.entries, s.pending, queues[0]) == [] && Inv(n) && SameButQueues(s, n)
      && FirstWaiting(n, queues[1..], k - 1)
  {
    var q := queues[0];
    WaitingIsUnclaimed(s, q);
    NarrowKeepsInv(s, q);
    assert q in queues[..k];
    var n := s.(pending := s.pending - {q});
    assert forall o, x :: Waits(n, o, x) <==> Waits(s, o, x);
    assert forall o :: o in queues[1..][..k - 1] ==> o in queues[..k];
    assert queues[1..][k - 1] == queues[k];
  }

  lemma SkipsOn(s: State, queues: seq<string>)
    requires queues != [] && Unclaimed(s.entries, s.pending, queues[0]) == []
    ensures FirstPending(s, queues) == FirstPending(s.(pending := s.pending - {queues[0]}), queues[1..])
  {
  }

  lemma RefusingHere(s: State, queues: seq<string>)
    requires Inv(s) && FirstWaiting(s, queues, 0) && FirstPending(s, queues).1.Ambiguous?
    ensures LetGo(s, queues[0], FirstPending(s, queues).0)
  {
    WaitingIsUnclaimed(s, queues[0]);
    DetachLetsGo(s, queues[0], Unclaimed(s.entries, s.pending, queues[0]));
  }

  // Skipping all of them.
  lemma {:induction false} SkipTo(s: State, queues: seq<string>, k: nat) returns (n: State)
    requires Inv(s) && FirstWaiting(s, queues, k)
    ensures Inv(n) && SameButQueues(s, n) && FirstWaiting(n, queues[k..], 0)
    ensures FirstPending(s, queues) == FirstPending(n, queues[k..])
    decreases k
  {
    n := s;
    if k == 0 {
      assert queues[0..] == queues;
    } else {
      SkipQueue(s, queues, k);
      SkipsOn(s, queues);
      n := SkipTo(s.(pending := s.pending - {queues[0]}), queues[1..], k - 1);
      assert queues[1..][k - 1..] == queues[k..];
    }
  }

  lemma RefusingLetsGo(s: State, queues: seq<string>, k: nat)
    requires Inv(s) && FirstWaiting(s, queues, k) && FirstPending(s, queues).1.Ambiguous?
    ensures LetGo(s, queues[k], FirstPending(s, queues).0)
  {
    var n := SkipTo(s, queues, k);
    RefusingHere(n, queues[k..]);
    LetGoSame(s, n, queues[k], FirstPending(s, queues).0);
  }

  lemma SeveralArePicked(s: State, queues: seq<string>, k: nat, x: Id, y: Id)
    requires FirstWaiting(s, queues, k) && x != y && Waits(s, queues[k], x) && Waits(s, queues[k], y)
    ensures FirstPending(s, queues).1.Ambiguous?
  {
    FirstPendingIs(s, queues);
    FirstLiveWaits(s, queues, k);
    WaitingIsUnclaimed(s, queues[k]);
  }

  // With several waiting there the prompt is refused, and the queue lets go of them.
  lemma SeveralAreRefused(s: State, cfg: Config, p: Prompt, k: nat, x: Id, y: Id)
    requires Inv(s) && NoneKnown(Prune(s, cfg, p.start).exactOf, p.exact)
    requires FirstWaiting(Prune(s, cfg, p.start), p.queues, k) && x != y
    requires Waits(Prune(s, cfg, p.start), p.queues[k], x) && Waits(Prune(s, cfg, p.start), p.queues[k], y)
    ensures Select(s, cfg, p).1 == AmbiguousCorrelation
    ensures LetGo(Prune(s, cfg, p.start), p.queues[k], Select(s, cfg, p).0)
  {
    var s0 := Prune(s, cfg, p.start);
    PruneKeepsInv(s, cfg, p.start);
    LookupNone(s0.exactOf, p.exact);
    SeveralArePicked(s0, p.queues, k, x, y);
    RefusingLetsGo(s0, p.queues, k);
  }

  // A binding answers only when nobody waits in any queue, with the turn it names, as a duplicate.
  lemma BoundAnswers(s: State, cfg: Config, p: Prompt, k: nat, id: Id)
    requires Inv(s) && NoneKnown(Prune(s, cfg, p.start).exactOf, p.exact)
    requires NoneWaits(Prune(s, cfg, p.start), p.queues)
    requires FirstKnown(Prune(s, cfg, p.start).boundOf, p.sessions, k, id)
    ensures var s0 := Prune(s, cfg, p.start);
      && id in s0.entries && Select(s, cfg, p).1 == AnswerOf(s0.entries[id], true)
      && ClaimedFor(s0, p, id, Select(s, cfg, p).0)
  {
    var s0 := Prune(s, cfg, p.start);
    PruneKeepsInv(s, cfg, p.start);
    LookupNone(s0.exactOf, p.exact);
    FirstPendingIs(s0, p.queues);
    NoneLive(s0, p.queues);
    PickingKeeps(s0, p.queues);
    LookupFirst(s0.boundOf, p.sessions, k, id);
    ClaimAfterPicking(s0, p, id);
  }

  lemma NothingAnswers(s: State, cfg: Config, p: Prompt)
    requires Inv(s) && NoneKnown(Prune(s, cfg, p.start).exactOf, p.exact)
    requires NoneWaits(Prune(s, cfg, p.start), p.queues) && NoneKnown(Prune(s, cfg, p.start).boundOf, p.sessions)
    ensures Select(s, cfg, p).1 == Empty
  {
    var s0 := Prune(s, cfg, p.start);
    LookupNone(s0.exactOf, p.exact);
    FirstPendingIs(s0, p.queues);
    NoneLive(s0, p.queues);
    PickingKeeps(s0, p.queues);
    LookupNone(s0.boundOf, p.sessions);
  }

  // ---------------------------------------------------------------- what pruning keeps

  lemma WaitsAfterPrune(s: State, cfg: Config, now: int, q: string, x: Id)
    requires Inv(s)
    ensures Waits(Prune(s, cfg, now), q, x) <==> Waits(s, q, x) && x in Prune(s, cfg, now).entries
  {
  }

  lemma NewestIff(ids: set<Id>, max: nat, id: Id)
    ensures id in Newest(ids, max) <==> id in ids && |set x | x in ids && x > id| < max
  {
    NewestIs(ids, max);
    var kept, above := Newest(ids, max), set x | x in ids && x > id;
    if id in kept {
      assert above <= kept - {id} by {
        forall x | x in above ensures x in kept { assert x !in kept ==> x in ids - kept; }
      }
      SubsetSize(above, kept - {id});
    } else if id in ids {
      assert id in ids - kept;
      assert kept <= above;
      SubsetSize(kept, above);
    }
  }

  // Exactly the unexpired entries with fewer than maxEntries unexpired ones after them.
  lemma PruneIs(s: State, cfg: Config, now: int, id: Id)
    requires Inv(s)
    ensures var t := Prune(s, cfg, now);
      && (id in t.entries <==>
           && id in s.entries && now - s.entries[id].updatedAt < cfg.ttlMs
           && |set x | x in s.entries && now - s.entries[x].updatedAt < cfg.ttlMs && x > id| < cfg.maxEntries)
      && (id in t.entries ==> t.entries[id] == s.entries[id])
  {
    PruneKeepsInv(s, cfg, now);
    NewestIff(Fresh(s, cfg, now), cfg.maxEntries, id);
    assert (set x | x in Fresh(s, cfg, now) && x > id)
      == set x | x in s.entries && now - s.entries[x].updatedAt < cfg.ttlMs && x > id;
  }

  // And every alias, binding and place in a queue of those.
  lemma PruneKeepsLinks(s: State, cfg: Config, now: int)
    requires Inv(s)
    ensures var t := Prune(s, cfg, now);
      && (forall a :: a in t.exactOf <==> a in s.exactOf && s.exactOf[a] in t.entries)
      && (forall a :: a in t.exactOf ==> t.exactOf[a] == s.exactOf[a])
      && (forall b :: b in t.boundOf <==> b in s.boundOf && s.boundOf[b] in t.entries)
      && (forall b :: b in t.boundOf ==> t.boundOf[b] == s.boundOf[b])
      && forall q, x :: Waits(t, q, x) <==> Waits(s, q, x) && x in t.entries
  {
    PruneKeepsInv(s, cfg, now);
    forall q, x ensures Waits(Prune(s, cfg, now), q, x) <==> Waits(s, q, x) && x in Prune(s, cfg, now).entries {
      WaitsAfterPrune(s, cfg, now, q, x);
    }
  }

  // ---------------------------------------------------------------- what clear may delete

  lemma PruneKeepsFresh(s: State, cfg: Config, now: int, id: Id)
    requires Inv(s) && |s.entries| <= cfg.maxEntries
    ensures id in Prune(s, cfg, now).entries <==> id in Fresh(s, cfg, now)
    ensures id in Fresh(s, cfg, now) ==> Prune(s, cfg, now).entries[id] == s.entries[id]
  {
    PruneKeepsInv(s, cfg, now);
    assert |s.entries.Keys| == |s.entries|;
    SubsetSize(Fresh(s, cfg, now), s.entries.Keys);
  }

  // Among the unexpired entries, clear deletes exactly the ones it is entitled to: with exact ids, the
  // turns carrying one of them; without, only claimed turns of one of the sessions.
  lemma ClearIsTargeted(s: State, cfg: Config, now: int, exact: seq<string>, sessions: seq<string>, id: Id)
    requires Inv(s) && |s.entries| <= cfg.maxEntries
    requires id in s.entries && now - s.entries[id].updatedAt < cfg.ttlMs
    ensures var t := Clear(s, cfg, now, exact, sessions).0; var e := s.entries[id];
      && (id in t.entries ==> t.entries[id] == e)
      && (id !in t.entries <==>
           if exact != [] then e.exact * Elems(exact) != {} else e.claimed && e.sessions * Elems(sessions) != {})
      && Clear(s, cfg, now, exact, sessions).1 ==
           (if sessions != [] then Some(sessions[0]) else if exact != [] then Some(exact[0]) else None)
  {
    PruneKeepsFresh(s, cfg, now, id);
    if exact != [] { assert exact[0] in Elems(exact); }
  }

  // ---------------------------------------------------------------- exact ids win

  lemma NewestKeepsGreatest(ids: set<Id>, max: nat, id: Id)
    requires max >= 1 && id in ids
    requires forall x :: x in ids ==> x <= id
    ensures id in Newest(ids, max)
  {
    NewestIs(ids, max);
    var k :| k in Newest(ids, max);
    assert k <= id;
  }

  lemma AllAreNewest(ids: set<Id>, max: nat)
    requires |ids| <= max
    ensures Newest(ids, max) == ids
  {
  }

  // One newcomer, or none, is not what a prune gives up.
  lemma KeptByPruning(young: set<Id>, known: set<Id>, id: Id, max: nat)
    requires id in young && young <= known + {id} && |known| <= max && max >= 1
    requires id !in known ==> forall x :: x in known ==> x < id
    ensures id in Newest(young, max)
  {
    if id in known {
      SubsetSize(young, known);
      AllAreNewest(young, max);
    } else {
      NewestKeepsGreatest(young, max, id);
    }
  }

  // Linking an ingress to an entry never makes that entry the one pruning gives up.
  lemma PruneKeepsLanded(p: State, cfg: Config, i: Ingress)
    requires Inv(p) && |p.entries| <= cfg.maxEntries && cfg.Valid()
    requires i.finish - i.stamp < cfg.ttlMs
    ensures var (id, e) := Landed(p, i); var u := LinkIngress(p, i, id, e);
      id in Newest(Fresh(u, cfg, i.finish), cfg.maxEntries)
  {
    var (id, e) := Landed(p, i);
    var u := LinkIngress(p, i, id, e);
    var young := Fresh(u, cfg, i.finish);
    assert u.entries.Keys == p.entries.Keys + {id};
    assert u.entries[id].updatedAt == i.stamp;
    assert |p.entries.Keys| == |p.entries|;
    KeptByPruning(young, p.entries.Keys, id, cfg.maxEntries);
  }

  // What is not given up keeps its entry and its exact ids.
  lemma NewestStays(s: State, cfg: Config, now: int, id: Id)
    requires id in Newest(Fresh(s, cfg, now), cfg.maxEntries)
    ensures var t := Prune(s, cfg, now);
      && id in s.entries && id in t.entries && t.entries[id] == s.entries[id]
      && forall a :: a in s.exactOf && s.exactOf[a] == id ==> a in t.exactOf && t.exactOf[a] == id
  {
    NewestIs(Fresh(s, cfg, now), cfg.maxEntries);
  }

  lemma RememberKeepsItsEntry(s: State, cfg: Config, i: Ingress)
    requires Inv(s) && cfg.Valid() && i.text != "" && i.exact + i.sessions + i.queues != []
    requires i.finish - i.stamp < cfg.ttlMs
    ensures var p := Prune(s, cfg, i.start); var (id, e) := Landed(p, i); var t := Remember(s, cfg, i).0;
      && id in t.entries && t.entries[id] == LinkIngress(p, i, id, e).entries[id]
      && forall a :: a in i.exact ==> a in t.exactOf && t.exactOf[a] == id
  {
    PruneKeepsInv(s, cfg, i.start);
    var p := Prune(s, cfg, i.start);
    var (id, e) := Landed(p, i);
    PruneKeepsLanded(p, cfg, i);
    NewestStays(LinkIngress(p, i, id, e), cfg, i.finish, id);
  }

  // A prompt whose first known exact id is one of the message just remembered is answered with exactly that
  // message, and is fresh iff the turn had not been claimed before.
  lemma ExactIdWins(s: State, cfg: Config, i: Ingress, p: Prompt, k: nat)
    requires Inv(s) && cfg.Valid() && i.text != ""
    requires k < |p.exact| && p.exact[k] in i.exact
    requires forall j :: 0 <= j < k ==> p.exact[j] !in Remember(s, cfg, i).0.exactOf
    requires i.finish - i.stamp < cfg.ttlMs && p.start - i.stamp < cfg.ttlMs
    ensures var (t, key) := Remember(s, cfg, i);
      Inv(t) && key.Some? &&
      Select(t, cfg, p).1 ==
        Cached(i.text, Landed(Prune(s, cfg, i.start), i).1.claimed, key.value)
  {
    RememberKeepsItsEntry(s, cfg, i);
    RememberKeepsInv(s, cfg, i);
    var t := Remember(s, cfg, i).0;
    var id := Landed(Prune(s, cfg, i.start), i).0;
    PruneKeepsFresh(t, cfg, p.start, id);
    ExactAnswers(t, cfg, p, k, id);
  }

  // ---------------------------------------------------------------- what remember keeps

  // The entry of a message, and what its exact ids and queues are from now on; no other entry changes, and no
  // session is bound.
  ghost predicate RememberedIn(s: State, i: Ingress, id: Id, t: State) {
    && id in t.entries && t.entries[id].query == i.text && t.entries[id].updatedAt == i.stamp
    && (forall x :: x in t.entries && x != id ==> x in s.entries && t.entries[x] == s.entries[x])
    && (forall a :: a in i.exact ==> a in t.exactOf && t.exactOf[a] == id)
    && (forall a :: a in t.exactOf && a !in i.exact ==> a in s.exactOf && t.exactOf[a] == s.exactOf[a])
    && (forall b :: b in t.boundOf ==> b in s.boundOf && t.boundOf[b] == s.boundOf[b])
    && (forall q, x :: Waits(t, q, x) && x != id ==> Waits(s, q, x))
  }

  lemma LinkIs(p: State, i: Ingress)
    requires Inv(p)
    ensures var (id, e) := Landed(p, i); var u := LinkIngress(p, i, id, e);
      RememberedIn(p, i, id, u) && forall q :: q in i.queues && !e.claimed ==> Waits(u, q, id)
  {
    var (id, e) := Landed(p, i);
    var u := LinkIngress(p, i, id, e);
    forall q | q in i.queues && !e.claimed ensures Waits(u, q, id) { AppendHas(p.pending, q, id); }
    forall q, x | Waits(u, q, x) && x != id ensures Waits(p, q, x) {}
  }

  lemma PruneRemembers(p: State, i: Ingress, id: Id, u: State, cfg: Config, now: int)
    requires Inv(u) && RememberedIn(p, i, id, u) && id in Prune(u, cfg, now).entries
    ensures RememberedIn(p, i, id, Prune(u, cfg, now))
  {
    PruneKeepsLinks(u, cfg, now);
  }

  // Remembering is landing, linking and a prune that spares the entry.
  lemma RememberIs(s: State, cfg: Config, i: Ingress)
    requires Inv(s) && cfg.Valid() && i.text != "" && i.exact + i.sessions + i.queues != []
    requires i.finish - i.stamp < cfg.ttlMs
    ensures var p := Prune(s, cfg, i.start); var (id, e) := Landed(p, i); var u := LinkIngress(p, i, id, e);
      && Inv(p) && Inv(u) && Remember(s, cfg, i) == (Prune(u, cfg, i.finish), Some(e.turnKey))
      && id in Prune(u, cfg, i.finish).entries && Prune(u, cfg, i.finish).entries[id] == u.entries[id]
  {
    RememberKeepsItsEntry(s, cfg, i);
    PruneKeepsInv(s, cfg, i.start);
    LinkIngressKeepsInv(Prune(s, cfg, i.start), i);
  }

  lemma RememberKeepsOthers(s: State, cfg: Config, i: Ingress)
    requires Inv(s) && cfg.Valid() && i.text != "" && i.exact + i.sessions + i.queues != []
    requires i.finish - i.stamp < cfg.ttlMs
    ensures var p := Prune(s, cfg, i.start); var (id, e) := Landed(p, i); var t := Remember(s, cfg, i).0;
      RememberedIn(p, i, id, t) && forall q :: q in i.queues && !e.claimed ==> Waits(t, q, id)
  {
    RememberIs(s, cfg, i);
    var p := Prune(s, cfg, i.start);
    var (id, e) := Landed(p, i);
    var u := LinkIngress(p, i, id, e);
    LinkIs(p, i);
    PruneRemembers(p, i, id, u, cfg, i.finish);
    PruneKeepsLinks(u, cfg, i.finish);
  }

  // A message with a known exact id goes to the turn that has it: same key, same claim, one text.
  lemma KnownTurnIsUpdated(s: State, cfg: Config, i: Ingress, k: nat, id: Id)
    requires Inv(s) && cfg.Valid() && i.text != "" && i.finish - i.stamp < cfg.ttlMs
    requires FirstKnown(Prune(s, cfg, i.start).exactOf, i.exact, k, id)
    ensures var p := Prune(s, cfg, i.start); var (t, key) := Remember(s, cfg, i);
      && id in p.entries && RememberedIn(p, i, id, t) && key == Some(p.entries[id].turnKey)
      && t.entries[id].turnKey == p.entries[id].turnKey && t.entries[id].claimed == p.entries[id].claimed
      && t.entries[id].exact == p.entries[id].exact + Elems(i.exact)
      && forall q :: q in i.queues && !p.entries[id].claimed ==> Waits(t, q, id)
  {
    var p := Prune(s, cfg, i.start);
    PruneKeepsInv(s, cfg, i.start);
    LookupFirst(p.exactOf, i.exact, k, id);
    RememberIs(s, cfg, i);
    RememberKeepsOthers(s, cfg, i);
  }

  ghost predicate NewTurn(i: Ingress, id: Id, e: Entry) {
    && e.turnKey == (if i.exact != [] then i.exact[0] else "cache-entry:" + Decimal(id))
    && !e.claimed && e.exact == Elems(i.exact) && e.sessions == Elems(i.sessions)
  }

  lemma NewLands(p: State, i: Ingress)
    requires NoneKnown(p.exactOf, i.exact)
    ensures var (id, e) := Landed(p, i);
      id == p.nextId && !e.claimed && NewTurn(i, id, LinkIngress(p, i, id, e).entries[id])
  {
    LookupNone(p.exactOf, i.exact);
  }

  // Any other gets a new turn, with its first exact id as the key, or a key made of its number.
  lemma NewTurnIsMade(s: State, cfg: Config, i: Ingress)
    requires Inv(s) && cfg.Valid() && i.text != "" && i.finish - i.stamp < cfg.ttlMs
    requires i.exact + i.sessions + i.queues != [] && NoneKnown(Prune(s, cfg, i.start).exactOf, i.exact)
    ensures var p := Prune(s, cfg, i.start); var (t, key) := Remember(s, cfg, i); var id := p.nextId;
      && id !in p.entries && RememberedIn(p, i, id, t) && NewTurn(i, id, t.entries[id])
      && key == Some(t.entries[id].turnKey) && forall q :: q in i.queues ==> Waits(t, q, id)
  {
    RememberIs(s, cfg, i);
    RememberKeepsOthers(s, cfg, i);
    NewLands(Prune(s, cfg, i.start), i);
  }

  // A message without text, or without any alias, is not kept; its first alias is the answer.
  lemma NothingToRemember(s: State, cfg: Config, i: Ingress)
    requires i.text == "" || i.exact + i.sessions + i.queues == []
    ensures var all := i.exact + i.sessions + i.queues;
      Remember(s, cfg, i) == (Prune(s, cfg, i.start), if all == [] then None else Some(all[0]))
  {
  }

  // ---------------------------------------------------------------- a session without exact ids

  // A new turn waits in the queues of its message; whoever waited still does.
  lemma WaitsAfterLink(s: State, i: Ingress, q: string, x: Id)
    requires Inv(s) && Landed(s, i).0 == s.nextId
    ensures var (id, e) := Landed(s, i);
      Waits(LinkIngress(s, i, id, e), q, x) <==> Waits(s, q, x) || (x == id && q in i.queues)
  {
    if q in s.pending { assert QueueOk(s, q); }
    AppendHas(s.pending, q, s.nextId);
  }

  // Of a message without exact ids, remembered where nobody waits, the turn is the only one to wait there.
  lemma WaitsAlone(s: State, cfg: Config, i: Ingress, q: string, now: int)
    requires Inv(s) && cfg.Valid() && i.text != "" && i.exact == [] && q in i.queues
    requires forall x :: !Waits(Prune(s, cfg, i.start), q, x)
    requires i.finish - i.stamp < cfg.ttlMs && now - i.stamp < cfg.ttlMs
    ensures var id := Prune(s, cfg, i.start).nextId; var (t, key) := Remember(s, cfg, i); var s0 := Prune(t, cfg, now);
      && Inv(t) && |t.entries| <= cfg.maxEntries
      && id in s0.entries && s0.entries[id].query == i.text && key == Some(s0.entries[id].turnKey)
      && forall x :: Waits(s0, q, x) <==> x == id
  {
    RememberKeepsItsEntry(s, cfg, i);
    RememberKeepsInv(s, cfg, i);
    var p0, t := Prune(s, cfg, i.start), Remember(s, cfg, i).0;
    PruneKeepsInv(s, cfg, i.start);
    LinkIngressKeepsInv(p0, i);
    var (id, e) := Landed(p0, i);
    PruneKeepsFresh(t, cfg, now, id);
    forall x ensures Waits(Prune(t, cfg, now), q, x) <==> x == id {
      WaitsAfterPrune(t, cfg, now, q, x);
      WaitsAfterPrune(LinkIngress(p0, i, id, e), cfg, i.finish, q, x);
      WaitsAfterLink(p0, i, q, x);
    }
  }

  // The next prompt of the session then gets exactly that message, fresh, whatever turn the session was bound to.
  lemma NextMessageWins(s: State, cfg: Config, i: Ingress, p: Prompt)
    requires Inv(s) && cfg.Valid() && i.text != "" && i.exact == []
    requires p.queues != [] && p.queues[0] in i.queues
    requires forall x :: !Waits(Prune(s, cfg, i.start), p.queues[0], x)
    requires NoneKnown(Remember(s, cfg, i).0.exactOf, p.exact)
    requires i.finish - i.stamp < cfg.ttlMs && p.start - i.stamp < cfg.ttlMs
    ensures var (t, key) := Remember(s, cfg, i);
      Inv(t) && key.Some? && Select(t, cfg, p).1 == Cached(i.text, false, key.value)
  {
    WaitsAlone(s, cfg, i, p.queues[0], p.start);
    var t, id := Remember(s, cfg, i).0, Prune(s, cfg, i.start).nextId;
    var s0 := Prune(t, cfg, p.start);
    assert Waits(s0, p.queues[0], id) && p.queues[..0] == [];
    PendingAnswers(t, cfg, p, 0, id);
  }

  // And while nothing new waits, the next prompt of the session gets the same turn again, as a duplicate. s is the
  // pruned state of the prompt before, t what that prompt left.
  lemma SameTurnAgain(s: State, p: Prompt, id: Id, t: State, cfg: Config, again: Prompt)
    requires Inv(t) && |t.entries| <= cfg.maxEntries && ClaimedFor(s, p, id, t)
    requires again.sessions != [] && again.sessions[0] in p.sessions && again.start - p.stamp < cfg.ttlMs
    requires NoneKnown(Prune(t, cfg, again.start).exactOf, again.exact)
    requires NoneWaits(Prune(t, cfg, again.start), again.queues)
    ensures Select(t, cfg, again).1 == Cached(s.entries[id].query, true, s.entries[id].turnKey)
  {
    PruneKeepsFresh(t, cfg, again.start, id);
    BoundAnswers(t, cfg, again, 0, id);
  }
}
