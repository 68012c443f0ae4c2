/** What AutoRecallSessionCache (src/auto-recall-session-boundary.ts) means, on values.
    The class in RecallCache.dfy is proved to compute exactly these functions; RecallRuns.dfy
    proves what they promise over whole runs. */
module RecallState {
  import opened Common

  type Id = nat

  datatype Entry = Entry(
    turnKey: string,
    query: string,
    exact: set<string>,
    sessions: set<string>,
    queues: set<string>,
    claimed: bool,
    updatedAt: int)

  datatype State = State(
    entries: map<Id, Entry>,
    exactOf: map<string, Id>,
    boundOf: map<string, Id>,
    pending: map<string, seq<Id>>,
    nextId: Id)

  datatype Config = Config(maxEntries: nat, ttlMs: int) {
    predicate Valid() { maxEntries >= 1 && ttlMs > 0 }
  }

  // ---------------------------------------------------------------- the invariant

  ghost predicate ExactOk(s: State) {
    forall a :: a in s.exactOf ==> s.exactOf[a] in s.entries && a in s.entries[s.exactOf[a]].exact
  }

  ghost predicate BoundOk(s: State) {
    forall b :: b in s.boundOf ==>
      s.boundOf[b] in s.entries && b in s.entries[s.boundOf[b]].sessions && s.entries[s.boundOf[b]].claimed
  }

  ghost predicate QueueOk(s: State, q: string)
    requires q in s.pending
  {
    && s.pending[q] != []
    && NoDup(s.pending[q])
    && forall id :: id in s.pending[q] ==> id in s.entries && q in s.entries[id].queues
  }

  ghost predicate QueuesOk(s: State) {
    forall q :: q in s.pending ==> QueueOk(s, q)
  }

  // An unclaimed entry sits in every queue it lists (a claimed one may list a queue it has left).
  ghost predicate ListedOk(s: State) {
    forall id, q :: id in s.entries && !s.entries[id].claimed && q in s.entries[id].queues ==>
      q in s.pending && id in s.pending[q]
  }

  ghost predicate Inv(s: State) {
    && (forall id :: id in s.entries ==> id < s.nextId)
    && ExactOk(s) && BoundOk(s) && QueuesOk(s) && ListedOk(s)
  }

  // ---------------------------------------------------------------- removal

  function Drop(queue: seq<Id>, gone: set<Id>): (r: seq<Id>)
    ensures forall x :: x in r <==> x in queue && x !in gone
    ensures NoDup(queue) ==> NoDup(r)
  {
    if queue == [] then []
    else
      var rest := Drop(queue[1..], gone);
      if queue[0] in gone then rest else [queue[0]] + rest
  }

  lemma {:induction false} DropTwice(queue: seq<Id>, a: set<Id>, b: set<Id>)
    ensures Drop(Drop(queue, a), b) == Drop(queue, a + b)
  {
    if queue != [] {
      DropTwice(queue[1..], a, b);
      if queue[0] !in a {
        var rest := Drop(queue[1..], a);
        assert ([queue[0]] + rest)[1..] == rest;
      }
    }
  }

  lemma {:induction false} DropNone(queue: seq<Id>, gone: set<Id>)
    requires forall x :: x in queue ==> x !in gone
    ensures Drop(queue, gone) == queue
  {
    if queue != [] {
      DropNone(queue[1..], gone);
    }
  }

  lemma {:induction false} DropAll(queue: seq<Id>, gone: set<Id>)
    requires forall x :: x in queue ==> x in gone
    ensures Drop(queue, gone) == []
  {
    if queue != [] {
      DropAll(queue[1..], gone);
    }
  }

  lemma QueuesNameTheirIds(s: State)
    requires Inv(s)
    ensures forall q :: q in s.pending ==> s.pending[q] != []
    ensures forall q, x :: q in s.pending && x in s.pending[q] ==> x in s.entries && q in s.entries[x].queues
  {
    forall q | q in s.pending
      ensures s.pending[q] != []
      ensures forall x :: x in s.pending[q] ==> x in s.entries && q in s.entries[x].queues
    {
      assert QueueOk(s, q);
    }
  }

  // Remove the given ids from the queues named in keys; a queue left empty is deleted.
  function DropIn(pending: map<string, seq<Id>>, keys: set<string>, gone: set<Id>): map<string, seq<Id>> {
    map q | q in pending && (q in keys ==> Drop(pending[q], gone) != []) ::
      if q in keys then Drop(pending[q], gone) else pending[q]
  }

  function Without(s: State, gone: set<Id>): State {
    State(
      map id | id in s.entries && id !in gone :: s.entries[id],
      map a | a in s.exactOf && s.exactOf[a] !in gone :: s.exactOf[a],
      map b | b in s.boundOf && s.boundOf[b] !in gone :: s.boundOf[b],
      DropIn(s.pending, s.pending.Keys, gone),
      s.nextId)
  }

  lemma DropInTwice(p: map<string, seq<Id>>, keys: set<string>, keys': set<string>, a: set<Id>, b: set<Id>)
    requires keys' == keys * DropIn(p, keys, a).Keys
    ensures DropIn(DropIn(p, keys, a), keys', b) == DropIn(p, keys, a + b)
  {
    var p1 := DropIn(p, keys, a);
    var l, r := DropIn(p1, keys', b), DropIn(p, keys, a + b);
    forall q | q in p
      ensures q in l <==> q in r
      ensures q in l ==> l[q] == r[q]
    {
      DropTwice(p[q], a, b);
      if q in keys && Drop(p[q], a) == [] { assert Drop([], b) == []; }
    }
    assert l.Keys == r.Keys;
  }

  // Which queues are filtered matters only where the id actually sits.
  lemma DropWhereListed(p: map<string, seq<Id>>, keys: set<string>, keys': set<string>, id: Id)
    requires forall q :: q in p ==> p[q] != []
    requires forall q :: q in p && id in p[q] ==> (q in keys <==> q in keys')
    ensures DropIn(p, keys, {id}) == DropIn(p, keys', {id})
  {
    forall q | q in p && id !in p[q] ensures Drop(p[q], {id}) == p[q] {
      DropNone(p[q], {id});
    }
    var a, b := DropIn(p, keys, {id}), DropIn(p, keys', {id});
    assert a.Keys == b.Keys;
    forall q | q in a ensures a[q] == b[q] {}
    assert a == b;
  }

  lemma WithoutKeepsInv(s: State, gone: set<Id>)
    requires Inv(s)
    ensures Inv(Without(s, gone))
  {
    var t := Without(s, gone);
    forall q | q in t.pending ensures QueueOk(t, q) {
      assert QueueOk(s, q);
    }
  }

  // Deleting one entry touches only the queues it lists.
  lemma WithoutOne(s: State, id: Id)
    requires Inv(s) && id in s.entries
    ensures var t := Without(s, {id});
      && Inv(t) && t.entries == s.entries - {id}
      && t.exactOf == (map a | a in s.exactOf && s.exactOf[a] != id :: s.exactOf[a])
      && t.boundOf == (map b | b in s.boundOf && s.boundOf[b] != id :: s.boundOf[b])
      && t.pending == DropIn(s.pending, s.entries[id].queues, {id})
  {
    QueuesNameTheirIds(s);
    DropWhereListed(s.pending, s.pending.Keys, s.entries[id].queues, id);
    WithoutKeepsInv(s, {id});
  }

  lemma WithoutTwice(s: State, a: set<Id>, b: set<Id>)
    ensures Without(Without(s, a), b) == Without(s, a + b)
  {
    DropInTwice(s.pending, s.pending.Keys, DropIn(s.pending, s.pending.Keys, a).Keys, a, b);
    var l, r := Without(Without(s, a), b), Without(s, a + b);
    assert l.entries == r.entries;
    assert l.exactOf == r.exactOf;
    assert l.boundOf == r.boundOf;
  }

  lemma WithoutNone(s: State)
    requires Inv(s)
    ensures Without(s, {}) == s
  {
    forall q | q in s.pending ensures Drop(s.pending[q], {}) == s.pending[q] {
      DropNone(s.pending[q], {});
      assert QueueOk(s, q);
    }
    assert Without(s, {}).pending == s.pending;
    assert Without(s, {}).exactOf == s.exactOf;
    assert Without(s, {}).boundOf == s.boundOf;
    assert Without(s, {}).entries == s.entries;
  }

  lemma WithoutDead(s: State, id: Id)
    requires Inv(s) && id !in s.entries
    ensures Without(s, {id}) == s
  {
    assert forall q :: q in s.pending ==> QueueOk(s, q);
    DropWhereListed(s.pending, s.pending.Keys, {}, id);
    assert DropIn(s.pending, {}, {id}) == s.pending;
    var t := Without(s, {id});
    assert t.entries == s.entries;
    assert t.exactOf == s.exactOf;
    assert t.boundOf == s.boundOf;
  }

  // ---------------------------------------------------------------- pruning

  predicate IsLeast(m: Id, ids: set<Id>) {
    m in ids && forall x :: x in ids ==> m <= x
  }

  lemma {:induction false} LeastExists(ids: set<Id>) returns (m: Id)
    requires ids != {}
    ensures IsLeast(m, ids)
    decreases |ids|
  {
    m :| m in ids;
    var rest := ids - {m};
    if rest != {} {
      var k := LeastExists(rest);
      var one := m;
      m := if one <= k then one else k;
      forall x | x in ids ensures m <= x {
        if x != one { assert x in rest; }
      }
    } else {
      assert forall x :: x in ids ==> x == m || x in rest;
    }
  }

  ghost function Least(ids: set<Id>): (m: Id)
    requires ids != {}
    ensures IsLeast(m, ids)
  {
    assert exists m :: IsLeast(m, ids) by { var m := LeastExists(ids); }
    var m :| IsLeast(m, ids);
    m
  }

  // Ids are handed out in increasing order and never re-inserted, so the Map's oldest key is the least id.
  ghost function Newest(ids: set<Id>, max: nat): set<Id>
    decreases |ids|
  {
    if |ids| <= max then ids else Newest(ids - {Least(ids)}, max)
  }

  lemma NewestDropsLeast(ids: set<Id>, m: Id, max: nat)
    requires IsLeast(m, ids) && |ids| > max
    ensures Newest(ids - {m}, max) == Newest(ids, max)
  {
    var l := Least(ids);
    assert l in ids && m in ids;
    assert m == l;
  }

  // Newest keeps as many as fit, and everything it keeps is newer than everything it drops.
  lemma {:induction false} NewestIs(ids: set<Id>, max: nat)
    ensures Newest(ids, max) <= ids
    ensures |Newest(ids, max)| == if |ids| <= max then |ids| else max
    ensures forall k, d :: k in Newest(ids, max) && d in ids - Newest(ids, max) ==> d < k
    decreases |ids|
  {
    if |ids| > max {
      var rest := ids - {Least(ids)};
      NewestIs(rest, max);
      forall k, d | k in Newest(rest, max) && d in ids - Newest(rest, max) ensures d < k {
        if d == Least(ids) { assert k in rest; } else { assert d in rest - Newest(rest, max); }
      }
    }
  }

  ghost function Fresh(s: State, cfg: Config, now: int): set<Id> {
    set id | id in s.entries && now - s.entries[id].updatedAt < cfg.ttlMs
  }

  ghost function Prune(s: State, cfg: Config, now: int): State {
    Without(s, s.entries.Keys - Newest(Fresh(s, cfg, now), cfg.maxEntries))
  }

  lemma PruneKeepsInv(s: State, cfg: Config, now: int)
    requires Inv(s)
    ensures Inv(Prune(s, cfg, now))
    ensures |Prune(s, cfg, now).entries| <= cfg.maxEntries
    ensures Prune(s, cfg, now).entries.Keys == Newest(Fresh(s, cfg, now), cfg.maxEntries)
  {
    var keep := Newest(Fresh(s, cfg, now), cfg.maxEntries);
    NewestIs(Fresh(s, cfg, now), cfg.maxEntries);
    WithoutKeepsInv(s, s.entries.Keys - keep);
    assert Prune(s, cfg, now).entries.Keys == keep;
  }

  // ---------------------------------------------------------------- lookups and links

  function Lookup(index: map<string, Id>, aliases: seq<string>): Option<Id> {
    if aliases == [] then None
    else if aliases[0] in index then Some(index[aliases[0]])
    else Lookup(index, aliases[1..])
  }

  // The first alias whose entry is still live.
  function LookupLive(index: map<string, Id>, entries: map<Id, Entry>, aliases: seq<string>): Option<Id> {
    if aliases == [] then None
    else if aliases[0] in index && index[aliases[0]] in entries then Some(index[aliases[0]])
    else LookupLive(index, entries, aliases[1..])
  }

  lemma {:induction false} LookupIsLive(index: map<string, Id>, entries: map<Id, Entry>, aliases: seq<string>)
    requires forall a :: a in index ==> index[a] in entries
    ensures LookupLive(index, entries, aliases) == Lookup(index, aliases)
    ensures Lookup(index, aliases).Some? ==>
      exists a :: a in aliases && a in index && index[a] == Lookup(index, aliases).value
    ensures Lookup(index, aliases).None? ==> forall a :: a in aliases ==> a !in index
  {
    if aliases != [] {
      LookupIsLive(index, entries, aliases[1..]);
      if aliases[0] in index {
        assert aliases[0] in aliases;
      }
    }
  }

  function Bind(index: map<string, Id>, aliases: seq<string>, id: Id): map<string, Id> {
    map a | a in index.Keys + Elems(aliases) :: if a in aliases then id else index[a]
  }

  function Append(pending: map<string, seq<Id>>, q: string, id: Id): seq<Id> {
    var queue := if q in pending then pending[q] else [];
    if id in queue then queue else queue + [id]
  }

  lemma AppendHas(pending: map<string, seq<Id>>, q: string, id: Id)
    ensures id in Append(pending, q, id)
  {
    var queue := if q in pending then pending[q] else [];
    assert (queue + [id])[|queue|] == id;
  }

  function EnqueueAll(pending: map<string, seq<Id>>, queues: seq<string>, id: Id): map<string, seq<Id>> {
    map q | q in pending.Keys + Elems(queues) :: if q in queues then Append(pending, q, id) else pending[q]
  }

  lemma SameBut(now: map<string, seq<Id>>, more: map<string, seq<Id>>, q: string, queue: seq<Id>)
    requires more.Keys == now.Keys + {q} && more[q] == queue
    requires forall x :: x in now && x != q ==> more[x] == now[x]
    ensures more == now[q := queue]
  {
  }

  lemma EnqueueStep(pending: map<string, seq<Id>>, queues: seq<string>, i: nat, id: Id)
    requires i < |queues|
    ensures var now := EnqueueAll(pending, queues[..i], id);
      EnqueueAll(pending, queues[..i + 1], id) == now[queues[i] := Append(now, queues[i], id)]
  {
    var q := queues[i];
    var now, more := EnqueueAll(pending, queues[..i], id), EnqueueAll(pending, queues[..i + 1], id);
    ElemsPrefix(queues, i);
    assert forall x :: x in queues[..i + 1] <==> x in queues[..i] || x == q;
    AppendHas(pending, q, id);
    SameBut(now, more, q, Append(now, q, id));
  }

  // ---------------------------------------------------------------- remember

  // One ingress hook: the three clock readings remember makes, the cleaned text and the aliases.
  datatype Ingress = Ingress(
    start: int, stamp: int, finish: int,
    text: string, exact: seq<string>, sessions: seq<string>, queues: seq<string>)

  function FreshEntry(id: Id, i: Ingress): Entry {
    Entry(if i.exact != [] then i.exact[0] else "cache-entry:" + Decimal(id),
          i.text, {}, {}, {}, false, i.stamp)
  }

  // The entry an ingress lands on, before it is linked.
  function Landed(s: State, i: Ingress): (Id, Entry) {
    var hit := Lookup(s.exactOf, i.exact);
    if hit.Some? && hit.value in s.entries
    then (hit.value, s.entries[hit.value].(query := i.text, updatedAt := i.stamp))
    else (s.nextId, FreshEntry(s.nextId, i))
  }

  function LinkIngress(s: State, i: Ingress, id: Id, e: Entry): State {
    State(
      s.entries[id := e.(exact := e.exact + Elems(i.exact), sessions := e.sessions + Elems(i.sessions),
                         queues := e.queues + Elems(i.queues))],
      Bind(s.exactOf, i.exact, id),
      s.boundOf,
      EnqueueAll(s.pending, i.queues, id),
      if id == s.nextId then s.nextId + 1 else s.nextId)
  }

  ghost function Remember(s: State, cfg: Config, i: Ingress): (State, Option<string>) {
    var p := Prune(s, cfg, i.start);
    var aliases := i.exact + i.sessions + i.queues;
    if aliases == [] then (p, None)
    else if i.text == "" then (p, Some(aliases[0]))
    else
      var (id, e) := Landed(p, i);
      (Prune(LinkIngress(p, i, id, e), cfg, i.finish), Some(e.turnKey))
  }

  lemma LinkIngressKeepsInv(s: State, i: Ingress)
    requires Inv(s)
    ensures var (id, e) := Landed(s, i); Inv(LinkIngress(s, i, id, e))
  {
    var (id, e) := Landed(s, i);
    var t := LinkIngress(s, i, id, e);
    forall q | q in t.pending ensures QueueOk(t, q) {
      if q in s.pending { assert QueueOk(s, q); }
    }
    forall x, q | x in t.entries && !t.entries[x].claimed && q in t.entries[x].queues
      ensures q in t.pending && x in t.pending[q]
    {
      if x != id || q !in i.queues {
        assert x in s.entries && q in s.entries[x].queues;
        assert q in s.pending;
      }
    }
    forall b | b in t.boundOf
      ensures t.boundOf[b] in t.entries && b in t.entries[t.boundOf[b]].sessions && t.entries[t.boundOf[b]].claimed
    {
      assert s.boundOf[b] in s.entries;
    }
    forall a | a in t.exactOf
      ensures t.exactOf[a] in t.entries && a in t.entries[t.exactOf[a]].exact
    {
      if a !in i.exact { assert a in s.exactOf && s.exactOf[a] in s.entries; }
    }
  }

  lemma RememberKeepsInv(s: State, cfg: Config, i: Ingress)
    requires Inv(s)
    ensures Inv(Remember(s, cfg, i).0)
    ensures |Remember(s, cfg, i).0.entries| <= cfg.maxEntries
  {
    PruneKeepsInv(s, cfg, i.start);
    var p := Prune(s, cfg, i.start);
    LinkIngressKeepsInv(p, i);
    var (id, e) := Landed(p, i);
    PruneKeepsInv(LinkIngress(p, i, id, e), cfg, i.finish);
  }

  // ---------------------------------------------------------------- select

  predicate IsSessionQueue(q: string) {
    "pending:session-key:" <= q || "pending:session-id:" <= q
  }

  function Unclaimed(entries: map<Id, Entry>, pending: map<string, seq<Id>>, q: string): (r: seq<Id>)
    ensures forall x :: x in r <==> q in pending && x in pending[q] && x in entries && !entries[x].claimed
    ensures q in pending && NoDup(pending[q]) ==> NoDup(r)
  {
    if q !in pending then []
    else Drop(pending[q], set x | x in pending[q] && (x !in entries || entries[x].claimed))
  }

  predicate Detached(k: string, q: string) {
    k == q || !IsSessionQueue(k)
  }

  // Queues an ambiguous entry may stay in: exact sessions other than the ambiguous queue.
  function StillListed(e: Entry, q: string): set<string> {
    set k | k in e.queues && !Detached(k, q)
  }

  predicate Doomed(e: Entry, q: string) {
    e.exact == {} && StillListed(e, q) == {}
  }

  function Detach(s: State, q: string, ids: set<Id>): State {
    State(
      map id | id in s.entries && (id in ids ==> !Doomed(s.entries[id], q)) ::
        if id in ids then s.entries[id].(queues := StillListed(s.entries[id], q)) else s.entries[id],
      s.exactOf, s.boundOf,
      DropIn(s.pending, (set k | k in s.pending && Detached(k, q)), ids),
      s.nextId)
  }

  datatype Pick = Nothing | Ambiguous(queue: string) | Matched(queue: string, id: Id)

  // Drop exhausted queues until one still holds an unclaimed entry.
  function FirstPending(s: State, queues: seq<string>): (State, Pick)
    decreases |queues|
  {
    if queues == [] then (s, Nothing)
    else
      var q := queues[0];
      var live := Unclaimed(s.entries, s.pending, q);
      if live == [] then FirstPending(s.(pending := s.pending - {q}), queues[1..])
      else
        var t := s.(pending := s.pending[q := live]);
        if |live| > 1 then (Detach(t, q, Elems(live)), Ambiguous(q))
        else (t, Matched(q, live[0]))
  }

  // One prompt hook: two clock readings and the prompt's aliases.
  datatype Prompt = Prompt(start: int, stamp: int, exact: seq<string>, sessions: seq<string>, queues: seq<string>)

  datatype Route = ViaExact | ViaQueue | ViaBound

  datatype Choice = NoEntry | Refused | Chosen(id: Id, route: Route)

  // State after pruning and looking up, and the entry found.
  ghost function Choose(s: State, cfg: Config, p: Prompt): (State, Choice) {
    var s0 := Prune(s, cfg, p.start);
    var exact := Lookup(s0.exactOf, p.exact);
    if exact.Some? then (s0, Chosen(exact.value, ViaExact))
    else
      var (s1, pick) := FirstPending(s0, p.queues);
      match pick
      case Ambiguous(_) => (s1, Refused)
      case Matched(_, id) => (s1, Chosen(id, ViaQueue))
      case Nothing =>
        var bound := Lookup(s1.boundOf, p.sessions);
        (s1, if bound.Some? then Chosen(bound.value, ViaBound) else NoEntry)
  }

  function Claim(s: State, p: Prompt, id: Id): State
    requires id in s.entries
  {
    var e := s.entries[id];
    State(
      s.entries[id := e.(exact := e.exact + Elems(p.exact), sessions := e.sessions + Elems(p.sessions),
                         queues := {}, claimed := true, updatedAt := p.stamp)],
      Bind(s.exactOf, p.exact, id),
      Bind(s.boundOf, p.sessions, id),
      DropIn(s.pending, e.queues, {id}),
      s.nextId)
  }

  datatype Selection = Empty | AmbiguousCorrelation | Cached(query: string, duplicate: bool, turnKey: string)

  lemma DetachKeepsInv(s: State, q: string, ids: set<Id>)
    requires Inv(s)
    requires forall id :: id in ids ==> id in s.entries && !s.entries[id].claimed
    ensures Inv(Detach(s, q, ids))
  {
    var t := Detach(s, q, ids);
    forall a | a in t.exactOf ensures t.exactOf[a] in t.entries && a in t.entries[t.exactOf[a]].exact {
      assert a in s.entries[s.exactOf[a]].exact;
    }
    forall k | k in t.pending ensures QueueOk(t, k) {
      assert QueueOk(s, k);
      forall id | id in t.pending[k] ensures id in t.entries && k in t.entries[id].queues {
        assert id in s.pending[k] && k in s.entries[id].queues;
        if id in ids { assert k in StillListed(s.entries[id], q); }
      }
    }
  }

  // The two ways firstPending narrows a queue it looks at.
  lemma NarrowKeepsInv(s: State, q: string)
    requires Inv(s)
    ensures var live := Unclaimed(s.entries, s.pending, q);
      && NoDup(live)
      && Inv(s.(pending := if live == [] then s.pending - {q} else s.pending[q := live]))
  {
    var live := Unclaimed(s.entries, s.pending, q);
    var t := s.(pending := if live == [] then s.pending - {q} else s.pending[q := live]);
    if q in s.pending { assert QueueOk(s, q); }
    forall k | k in t.pending ensures QueueOk(t, k) { assert QueueOk(s, k); }
    if live == [] {
      assert forall id :: id in s.entries && !s.entries[id].claimed ==> q !in s.entries[id].queues;
    }
  }

  lemma {:induction false} FirstPendingKeepsInv(s: State, queues: seq<string>)
    requires Inv(s)
    ensures Inv(FirstPending(s, queues).0)
    ensures FirstPending(s, queues).0.entries.Keys <= s.entries.Keys
    ensures FirstPending(s, queues).0.nextId == s.nextId
    ensures FirstPending(s, queues).1.Matched? ==> FirstPending(s, queues).1.id in FirstPending(s, queues).0.entries
    decreases |queues|
  {
    if queues != [] {
      var q := queues[0];
      var live := Unclaimed(s.entries, s.pending, q);
      NarrowKeepsInv(s, q);
      if live == [] {
        FirstPendingKeepsInv(s.(pending := s.pending - {q}), queues[1..]);
      } else {
        assert live[0] in live;
        DetachKeepsInv(s.(pending := s.pending[q := live]), q, Elems(live));
      }
    }
  }

  // Detach for one entry, before an entry left with no way to be found is deleted.
  function Loosen(s: State, q: string, id: Id): State
    requires id in s.entries
  {
    var e := s.entries[id];
    s.(entries := s.entries[id := e.(queues := StillListed(e, q))],
       pending := DropIn(s.pending, (set k | k in e.queues && Detached(k, q)), {id}))
  }

  lemma LoosenKeepsInv(s: State, q: string, id: Id)
    requires Inv(s) && id in s.entries && !s.entries[id].claimed
    ensures Inv(Loosen(s, q, id))
    ensures Loosen(s, q, id).pending == Detach(s, q, {id}).pending
  {
    var e, u := s.entries[id], Loosen(s, q, id);
    var all, own := (set k | k in s.pending && Detached(k, q)), (set k | k in e.queues && Detached(k, q));
    forall k | k in u.pending ensures QueueOk(u, k) { assert QueueOk(s, k); }
    forall k | k in s.pending ensures s.pending[k] != [] && (id in s.pending[k] ==> (k in all <==> k in own)) {
      assert QueueOk(s, k);
    }
    DropWhereListed(s.pending, all, own, id);
  }

  lemma DetachOne(s: State, q: string, id: Id)
    requires Inv(s) && id in s.entries && !s.entries[id].claimed
    ensures Detach(s, q, {id}) == if Doomed(s.entries[id], q) then Without(Loosen(s, q, id), {id}) else Loosen(s, q, id)
  {
    LoosenKeepsInv(s, q, id);
    var u, d := Loosen(s, q, id), Detach(s, q, {id});
    if Doomed(s.entries[id], q) {
      var w := Without(u, {id});
      forall k | k in u.pending ensures u.pending[k] != [] && id !in u.pending[k] { assert QueueOk(u, k); }
      DropWhereListed(u.pending, u.pending.Keys, {}, id);
      assert DropIn(u.pending, {}, {id}) == u.pending;
      assert w.exactOf == d.exactOf;
      assert w.boundOf == d.boundOf;
      assert w.entries == d.entries;
    } else {
      assert u.entries == d.entries;
    }
  }

  lemma DetachNone(s: State, q: string)
    requires Inv(s)
    ensures Detach(s, q, {}) == s
  {
    forall k | k in s.pending ensures Drop(s.pending[k], {}) == s.pending[k] != [] {
      assert QueueOk(s, k);
      DropNone(s.pending[k], {});
    }
    assert Detach(s, q, {}).entries == s.entries;
    assert Detach(s, q, {}).pending == s.pending;
  }

  lemma DetachMore(s: State, q: string, ids: set<Id>, id: Id)
    requires id !in ids && id in s.entries
    ensures id in Detach(s, q, ids).entries && Detach(s, q, ids).entries[id] == s.entries[id]
    ensures Detach(Detach(s, q, ids), q, {id}) == Detach(s, q, ids + {id})
  {
    var keys := set k | k in s.pending && Detached(k, q);
    var d := Detach(s, q, ids);
    DropInTwice(s.pending, keys, (set k | k in d.pending && Detached(k, q)), ids, {id});
    assert Detach(d, q, {id}).entries == Detach(s, q, ids + {id}).entries;
  }

  lemma ChooseKeepsInv(s: State, cfg: Config, p: Prompt)
    requires Inv(s)
    ensures Inv(Choose(s, cfg, p).0)
    ensures |Choose(s, cfg, p).0.entries| <= cfg.maxEntries
    ensures Choose(s, cfg, p).0.nextId == s.nextId
    ensures Choose(s, cfg, p).1.Chosen? ==> Choose(s, cfg, p).1.id in Choose(s, cfg, p).0.entries
  {
    PruneKeepsInv(s, cfg, p.start);
    var s0 := Prune(s, cfg, p.start);
    LookupIsLive(s0.exactOf, s0.entries, p.exact);
    FirstPendingKeepsInv(s0, p.queues);
    var s1 := FirstPending(s0, p.queues).0;
    SubsetSize(s1.entries.Keys, s0.entries.Keys);
    LookupIsLive(s1.boundOf, s1.entries, p.sessions);
  }

  ghost function Select(s: State, cfg: Config, p: Prompt): (State, Selection)
    requires Inv(s)
  {
    var (s1, choice) := Choose(s, cfg, p);
    match choice
    case NoEntry => (s1, Empty)
    case Refused => (s1, AmbiguousCorrelation)
    case Chosen(id, _) =>
      ChooseKeepsInv(s, cfg, p);
      (Claim(s1, p, id), Cached(s1.entries[id].query, s1.entries[id].claimed, s1.entries[id].turnKey))
  }

  lemma ClaimKeepsInv(s: State, p: Prompt, id: Id)
    requires Inv(s) && id in s.entries
    ensures Inv(Claim(s, p, id))
    ensures Claim(s, p, id).entries.Keys == s.entries.Keys
  {
    var t := Claim(s, p, id);
    forall k | k in t.pending ensures QueueOk(t, k) {
      assert QueueOk(s, k);
    }
    forall x, q | x in t.entries && !t.entries[x].claimed && q in t.entries[x].queues
      ensures q in t.pending && x in t.pending[q]
    {
      assert q in s.pending && x in s.pending[q];
    }
  }

  lemma SelectKeepsInv(s: State, cfg: Config, p: Prompt)
    requires Inv(s)
    ensures Inv(Select(s, cfg, p).0)
    ensures |Select(s, cfg, p).0.entries| <= cfg.maxEntries
  {
    ChooseKeepsInv(s, cfg, p);
    var (s1, choice) := Choose(s, cfg, p);
    if choice.Chosen? {
      ClaimKeepsInv(s1, p, choice.id);
      assert |Claim(s1, p, choice.id).entries.Keys| == |s1.entries.Keys|;
    }
  }

  // ---------------------------------------------------------------- clear

  ghost function Ended(s: State, exact: set<string>, sessions: set<string>): set<Id> {
    if exact != {} then set id | id in s.entries && s.entries[id].exact * exact != {}
    else set id | id in s.entries && s.entries[id].sessions * sessions != {} && s.entries[id].claimed
  }

  ghost function Clear(s: State, cfg: Config, now: int, exact: seq<string>, sessions: seq<string>): (State,
                       Option<string>) {
    var p := Prune(s, cfg, now);
    var names := sessions + exact;
    if names == [] then (p, None)
    else (Without(p, Ended(p, Elems(exact), Elems(sessions))), Some(names[0]))
  }

  lemma ClearKeepsInv(s: State, cfg: Config, now: int, exact: seq<string>, sessions: seq<string>)
    requires Inv(s)
    ensures Inv(Clear(s, cfg, now, exact, sessions).0)
    ensures |Clear(s, cfg, now, exact, sessions).0.entries| <= cfg.maxEntries
  {
    PruneKeepsInv(s, cfg, now);
    var p := Prune(s, cfg, now);
    var gone := Ended(p, Elems(exact), Elems(sessions));
    WithoutKeepsInv(p, gone);
    SubsetSize(Without(p, gone).entries.Keys, p.entries.Keys);
  }
}
