/** The class AutoRecallSessionCache (src/auto-recall-session-boundary.ts:116-356): four Maps and
    a counter changed in place. Every public method keeps Valid() and is proved equal to the
    function of the same name in RecallState; the private methods are the source's helpers. */
module RecallCache {
  import opened Common
  import opened RecallState

  class AutoRecallSessionCache {
    const maxEntries: nat
    const ttlMs: int
    var entries: map<Id, Entry>
    var exactAliasToEntry: map<string, Id>
    var boundSessionToEntry: map<string, Id>
    var pendingByQueue: map<string, seq<Id>>
    var nextId: Id

    ghost function View(): State
      reads this
    {
      State(entries, exactAliasToEntry, boundSessionToEntry, pendingByQueue, nextId)
    }

    ghost function Cfg(): Config { Config(maxEntries, ttlMs) }

    ghost predicate Valid()
      reads this
    {
      Cfg().Valid() && Inv(View())
    }

    constructor (maxEntries: nat, ttlMs: int)
      requires maxEntries >= 1 && ttlMs > 0
      ensures Valid() && View() == State(map[], map[], map[], map[], 1)
      ensures Cfg() == Config(maxEntries, ttlMs)
    {
      this.maxEntries, this.ttlMs := maxEntries, ttlMs;
      entries, exactAliasToEntry, boundSessionToEntry, pendingByQueue := map[], map[], map[], map[];
      nextId := 1;
    }

    // The loop body of removeFromPendingQueues. The source also filters ids that are no longer live;
    // the precondition says the entry itself is the only one that can be.
    method LeaveQueue(id: Id, queueKey: string)
      requires forall q, x :: q in pendingByQueue && x in pendingByQueue[q] && x != id ==> x in entries
      modifies this`pendingByQueue
      ensures pendingByQueue == DropIn(old(pendingByQueue), {queueKey}, {id})
    {
      ghost var p := pendingByQueue;
      if queueKey in pendingByQueue {
        var queue := pendingByQueue[queueKey];
        var gone := set x | x in queue && (x == id || x !in entries);
        var next := Drop(queue, gone);
        assert next == Drop(queue, {id}) by {
          if id in queue { assert gone == {id}; } else { DropNone(queue, gone); DropNone(queue, {id}); }
        }
        if next != [] {
          pendingByQueue := pendingByQueue[queueKey := next];
        } else {
          pendingByQueue := pendingByQueue - {queueKey};
        }
      }
      assert pendingByQueue.Keys == DropIn(p, {queueKey}, {id}).Keys;
    }

    method RemoveFromPendingQueues(id: Id, queues: set<string>)
      requires forall q, x :: q in pendingByQueue && x in pendingByQueue[q] && x != id ==> x in entries
      modifies this`pendingByQueue
      ensures pendingByQueue == DropIn(old(pendingByQueue), queues, {id})
    {
      var todo := queues;
      while todo != {}
        invariant todo <= queues
        invariant pendingByQueue == DropIn(old(pendingByQueue), queues - todo, {id})
      {
        var q :| q in todo;
        LeaveQueue(id, q);
        todo := todo - {q};
      }
    }

    // The two closing loops of deleteEntry: forget the aliases that still name the entry.
    static method Unlink(index: map<string, Id>, aliases: set<string>, id: Id) returns (r: map<string, Id>)
      requires forall a :: a in index && index[a] == id ==> a in aliases
      ensures r == map a | a in index && index[a] != id :: index[a]
    {
      r := index;
      var todo := aliases;
      while todo != {}
        invariant r == map a | a in index && (index[a] == id ==> a in todo) :: index[a]
      {
        var alias :| alias in todo;
        if alias in r && r[alias] == id {
          r := r - {alias};
        }
        todo := todo - {alias};
      }
    }

    method DeleteEntry(id: Id)
      requires Valid()
      modifies this
      ensures Valid() && View() == Without(old(View()), {id})
    {
      ghost var s := View();
      if id !in entries {
        WithoutDead(s, id);
        return;
      }
      var entry := entries[id];
      entries := entries - {id};
      QueuesNameTheirIds(s);
      WithoutOne(s, id);
      RemoveFromPendingQueues(id, entry.queues);
      exactAliasToEntry := Unlink(exactAliasToEntry, entry.exact, id);
      boundSessionToEntry := Unlink(boundSessionToEntry, entry.sessions, id);
    }

    // The first loop of prune.
    method DeleteExpired(now: int)
      requires Valid()
      modifies this
      ensures Valid()
      ensures View() == Without(old(View()), old(entries).Keys - Fresh(old(View()), Cfg(), now))
    {
      ghost var s := View();
      ghost var gone: set<Id> := {};
      WithoutNone(s);
      var todo := entries.Keys;
      while todo != {}
        invariant Valid() && View() == Without(s, gone)
        invariant todo <= s.entries.Keys && todo !! gone
        invariant gone == (s.entries.Keys - Fresh(s, Cfg(), now)) - todo
      {
        var id :| id in todo;
        if now - entries[id].updatedAt >= ttlMs {
          DeleteEntry(id);
          WithoutTwice(s, gone, {id});
          gone := gone + {id};
        }
        todo := todo - {id};
      }
      assert gone == s.entries.Keys - Fresh(s, Cfg(), now);
    }

    // The second loop of prune.
    method DeleteOverflow()
      requires Valid()
      modifies this
      ensures Valid()
      ensures View() == Without(old(View()), old(entries).Keys - Newest(old(entries).Keys, maxEntries))
    {
      ghost var s := View();
      ghost var gone: set<Id> := {};
      WithoutNone(s);
      while |entries| > maxEntries
        invariant Valid() && View() == Without(s, gone) && gone <= s.entries.Keys
        invariant Newest(entries.Keys, maxEntries) == Newest(s.entries.Keys, maxEntries)
        decreases |entries|
      {
        ghost var before := entries.Keys;
        assert |before| == |entries| > 0;
        ghost var least := LeastExists(before);
        var oldest :| IsLeast(oldest, entries.Keys);
        NewestDropsLeast(before, oldest, maxEntries);
        DeleteEntry(oldest);
        assert entries.Keys == before - {oldest};
        WithoutTwice(s, gone, {oldest});
        gone := gone + {oldest};
      }
      assert |entries.Keys| == |entries|;
      assert gone == s.entries.Keys - entries.Keys;
    }

    method Prune(now: int)
      requires Valid()
      modifies this
      ensures Valid() && View() == RecallState.Prune(old(View()), Cfg(), now)
    {
      ghost var s := View();
      ghost var young := Fresh(s, Cfg(), now);
      DeleteExpired(now);
      assert entries.Keys == young;
      DeleteOverflow();
      WithoutTwice(s, s.entries.Keys - young, young - Newest(young, maxEntries));
      NewestIs(young, maxEntries);
      assert (s.entries.Keys - young) + (young - Newest(young, maxEntries)) ==
        s.entries.Keys - Newest(young, maxEntries);
    }

    method LinkExact(id: Id, aliases: seq<string>)
      requires id in entries
      modifies this`entries, this`exactAliasToEntry
      ensures entries == old(entries)[id := old(entries)[id].(exact := old(entries)[id].exact + Elems(aliases))]
      ensures exactAliasToEntry == Bind(old(exactAliasToEntry), aliases, id)
    {
      ghost var e0 := entries[id];
      ghost var all := e0.exact;
      for i := 0 to |aliases|
        invariant all == e0.exact + Elems(aliases[..i])
        invariant entries == old(entries)[id := e0.(exact := all)]
        invariant exactAliasToEntry == Bind(old(exactAliasToEntry), aliases[..i], id)
      {
        var e := entries[id];
        ElemsPrefix(aliases, i);
        entries := entries[id := e.(exact := e.exact + {aliases[i]})];
        exactAliasToEntry := exactAliasToEntry[aliases[i] := id];
        all := all + {aliases[i]};
      }
      assert aliases[..|aliases|] == aliases;
    }

    method LinkSessions(id: Id, aliases: seq<string>, bind: bool)
      requires id in entries
      modifies this`entries, this`boundSessionToEntry
      ensures entries == old(entries)[id := old(entries)[id].(sessions := old(entries)[id].sessions + Elems(aliases))]
      ensures boundSessionToEntry ==
        if bind then Bind(old(boundSessionToEntry), aliases, id) else old(boundSessionToEntry)
    {
      ghost var e0 := entries[id];
      ghost var all := e0.sessions;
      for i := 0 to |aliases|
        invariant all == e0.sessions + Elems(aliases[..i])
        invariant entries == old(entries)[id := e0.(sessions := all)]
        invariant boundSessionToEntry ==
          if bind then Bind(old(boundSessionToEntry), aliases[..i], id) else old(boundSessionToEntry)
      {
        var e := entries[id];
        ElemsPrefix(aliases, i);
        entries := entries[id := e.(sessions := e.sessions + {aliases[i]})];
        if bind { boundSessionToEntry := boundSessionToEntry[aliases[i] := id]; }
        all := all + {aliases[i]};
      }
      assert aliases[..|aliases|] == aliases;
    }

    // linkExact, then linkSessions.
    method Link(id: Id, exact: seq<string>, sessions: seq<string>, bind: bool)
      requires id in entries
      modifies this`entries, this`exactAliasToEntry, this`boundSessionToEntry
      ensures var e := old(entries)[id];
        entries == old(entries)[id := e.(exact := e.exact + Elems(exact), sessions := e.sessions + Elems(sessions))]
      ensures exactAliasToEntry == Bind(old(exactAliasToEntry), exact, id)
      ensures boundSessionToEntry ==
        if bind then Bind(old(boundSessionToEntry), sessions, id) else old(boundSessionToEntry)
    {
      LinkExact(id, exact);
      LinkSessions(id, sessions, bind);
    }

    method Enqueue(id: Id, queues: seq<string>)
      requires id in entries
      modifies this`entries, this`pendingByQueue
      ensures entries == old(entries)[id := old(entries)[id].(queues := old(entries)[id].queues + Elems(queues))]
      ensures pendingByQueue == EnqueueAll(old(pendingByQueue), queues, id)
    {
      ghost var e0 := entries[id];
      ghost var all := e0.queues;
      for i := 0 to |queues|
        invariant all == e0.queues + Elems(queues[..i])
        invariant entries == old(entries)[id := e0.(queues := all)]
        invariant pendingByQueue == EnqueueAll(old(pendingByQueue), queues[..i], id)
      {
        var key := queues[i];
        var queue := if key in pendingByQueue then pendingByQueue[key] else [];
        if id !in queue { queue := queue + [id]; }
        ElemsPrefix(queues, i);
        EnqueueStep(old(pendingByQueue), queues, i, id);
        pendingByQueue := pendingByQueue[key := queue];
        var e := entries[id];
        entries := entries[id := e.(queues := e.queues + {key})];
        all := all + {key};
      }
      assert queues[..|queues|] == queues;
    }

    // Finding or creating the entry of an ingress.
    method FindOrCreate(i: Ingress) returns (id: Id)
      requires Valid()
      modifies this`entries, this`nextId
      ensures id in entries && (id, entries[id]) == Landed(old(View()), i)
      ensures entries == old(entries)[id := Landed(old(View()), i).1]
      ensures nextId == if id == old(nextId) then old(nextId) + 1 else old(nextId)
    {
      var existing := Lookup(exactAliasToEntry, i.exact);
      if existing.Some? && existing.value in entries {
        id := existing.value;
        entries := entries[id := entries[id].(query := i.text, updatedAt := i.stamp)];
      } else {
        id := nextId;
        nextId := nextId + 1;
        entries := entries[id := FreshEntry(id, i)];
      }
    }

    // The part of remember between its two prunes, for a nonempty text.
    method Land(i: Ingress) returns (turnKey: string)
      requires Valid()
      modifies this
      ensures Valid()
      ensures View() == LinkIngress(old(View()), i, Landed(old(View()), i).0, Landed(old(View()), i).1)
      ensures turnKey == Landed(old(View()), i).1.turnKey
    {
      ghost var s := View();
      LinkIngressKeepsInv(s, i);
      var id := FindOrCreate(i);
      ghost var e := entries[id];
      turnKey := entries[id].turnKey;
      Link(id, i.exact, i.sessions, false);
      Enqueue(id, i.queues);
      ghost var target := LinkIngress(s, i, id, e);
      assert entries[id] == target.entries[id];
      assert entries == target.entries;
      assert View() == target;
    }

    method Remember(i: Ingress) returns (r: Option<string>)
      requires Valid()
      modifies this
      ensures Valid() && (View(), r) == RecallState.Remember(old(View()), Cfg(), i)
      ensures |entries| <= maxEntries
    {
      RememberKeepsInv(View(), Cfg(), i);
      Prune(i.start);
      if i.exact == [] && i.sessions == [] && i.queues == [] { return None; }
      if i.text == "" {
        return Some(if i.exact != [] then i.exact[0] else if i.sessions != [] then i.sessions[0] else i.queues[0]);
      }
      var turnKey := Land(i);
      Prune(i.finish);
      return Some(turnKey);
    }

    // The two nested loops of detachAmbiguousCorrelation, one entry at a time.
    method DetachEntry(queueKey: string, id: Id)
      requires Valid() && id in entries && !entries[id].claimed
      modifies this
      ensures Valid() && View() == Detach(old(View()), queueKey, {id})
    {
      ghost var s := View();
      var e := entries[id];
      var keys := set k | k in e.queues && Detached(k, queueKey);
      QueuesNameTheirIds(s);
      RemoveFromPendingQueues(id, keys);
      entries := entries[id := e.(queues := e.queues - keys)];
      assert e.queues - keys == StillListed(e, queueKey);
      DetachOne(s, queueKey, id);
      LoosenKeepsInv(s, queueKey, id);
      assert View() == Loosen(s, queueKey, id);
      if e.exact == {} && entries[id].queues == {} {
        DeleteEntry(id);
      }
    }

    method DetachAmbiguousCorrelation(queueKey: string, ids: seq<Id>)
      requires Valid() && NoDup(ids)
      requires forall id :: id in ids ==> id in entries && !entries[id].claimed
      modifies this
      ensures Valid() && View() == Detach(old(View()), queueKey, Elems(ids))
    {
      ghost var s := View();
      DetachNone(s, queueKey);
      assert Elems(ids[..0]) == {};
      for i := 0 to |ids|
        invariant Valid() && View() == Detach(s, queueKey, Elems(ids[..i]))
      {
        assert ids[i] !in ids[..i];
        assert ids[i] in ids;
        ElemsPrefix(ids, i);
        DetachMore(s, queueKey, Elems(ids[..i]), ids[i]);
        DetachEntry(queueKey, ids[i]);
      }
      assert ids[..|ids|] == ids;
    }

    method FirstPending(queues: seq<string>) returns (pick: Pick)
      requires Valid()
      modifies this
      ensures Valid() && (View(), pick) == RecallState.FirstPending(old(View()), queues)
    {
      ghost var s := View();
      FirstPendingKeepsInv(s, queues);
      var i := 0;
      while i < |queues|
        invariant 0 <= i <= |queues|
        invariant Valid()
        invariant RecallState.FirstPending(View(), queues[i..]) == RecallState.FirstPending(s, queues)
      {
        var q := queues[i];
        var live := Unclaimed(entries, pendingByQueue, q);
        NarrowKeepsInv(View(), q);
        assert queues[i..][0] == q && queues[i..][1..] == queues[i + 1..];
        if live != [] {
          pendingByQueue := pendingByQueue[q := live];
          if |live| > 1 {
            DetachAmbiguousCorrelation(q, live);
            return Ambiguous(q);
          }
          return Matched(q, live[0]);
        }
        pendingByQueue := pendingByQueue - {q};
        i := i + 1;
      }
      return Nothing;
    }

    // The closing statements of select: bind the entry to the prompt and set the claim latch.
    method ClaimEntry(p: Prompt, id: Id) returns (before: Entry)
      requires Valid() && id in entries
      modifies this
      ensures Valid() && View() == Claim(old(View()), p, id)
      ensures before.query == old(entries)[id].query && before.turnKey == old(entries)[id].turnKey
      ensures before.claimed == old(entries)[id].claimed
    {
      ghost var s := View();
      entries := entries[id := entries[id].(updatedAt := p.stamp)];
      Link(id, p.exact, p.sessions, true);
      QueuesNameTheirIds(s);
      before := entries[id];
      RemoveFromPendingQueues(id, before.queues);
      entries := entries[id := before.(queues := {}, claimed := true)];
      ghost var target := Claim(s, p, id);
      assert entries == target.entries;
      assert View() == target;
      ClaimKeepsInv(s, p, id);
    }

    method Select(p: Prompt) returns (r: Selection)
      requires Valid()
      modifies this
      ensures Valid() && (View(), r) == RecallState.Select(old(View()), Cfg(), p)
      ensures |entries| <= maxEntries
    {
      ghost var s := View();
      SelectKeepsInv(s, Cfg(), p);
      Prune(p.start);
      LookupIsLive(exactAliasToEntry, entries, p.exact);
      var entry := LookupLive(exactAliasToEntry, entries, p.exact);
      if entry.None? {
        var pending := FirstPending(p.queues);
        if pending.Ambiguous? { return AmbiguousCorrelation; }
        if pending.Matched? {
          entry := Some(pending.id);
        } else {
          LookupIsLive(boundSessionToEntry, entries, p.sessions);
          entry := LookupLive(boundSessionToEntry, entries, p.sessions);
        }
      }
      if entry.None? { return Empty; }
      ChooseKeepsInv(s, Cfg(), p);
      var e := ClaimEntry(p, entry.value);
      return Cached(e.query, e.claimed, e.turnKey);
    }

    method Clear(now: int, exact: seq<string>, sessions: seq<string>) returns (r: Option<string>)
      requires Valid()
      modifies this
      ensures Valid() && (View(), r) == RecallState.Clear(old(View()), Cfg(), now, exact, sessions)
      ensures |entries| <= maxEntries
    {
      ClearKeepsInv(View(), Cfg(), now, exact, sessions);
      Prune(now);
      if exact == [] && sessions == [] { return None; }
      DeleteEnded(exact, sessions);
      return Some(if sessions != [] then sessions[0] else exact[0]);
    }

    static predicate Meets(owned: set<string>, given: seq<string>)
      ensures Meets(owned, given) <==> owned * Elems(given) != {}
    {
      assert (exists a :: a in owned && a in given) ==> owned * Elems(given) != {} by {
        if exists a :: a in owned && a in given {
          var a :| a in owned && a in given;
          assert a in owned * Elems(given);
        }
      }
      exists a :: a in owned && a in given
    }

    // The loop of clear.
    method DeleteEnded(exact: seq<string>, sessions: seq<string>)
      requires Valid()
      modifies this
      ensures Valid() && View() == Without(old(View()), Ended(old(View()), Elems(exact), Elems(sessions)))
    {
      ghost var s := View();
      ghost var ended := Ended(s, Elems(exact), Elems(sessions));
      ghost var gone: set<Id> := {};
      WithoutNone(s);
      assert exact != [] ==> exact[0] in Elems(exact);
      var todo := entries.Keys;
      while todo != {}
        invariant Valid() && View() == Without(s, gone)
        invariant todo <= s.entries.Keys && todo !! gone
        invariant gone == ended - todo
      {
        var id :| id in todo;
        var e := entries[id];
        assert e == s.entries[id];
        var over := if |exact| > 0 then Meets(e.exact, exact) else Meets(e.sessions, sessions) && e.claimed;
        assert over <==> id in ended;
        if over {
          DeleteEntry(id);
          WithoutTwice(s, gone, {id});
          gone := gone + {id};
        }
        todo := todo - {id};
      }
      assert gone == ended;
    }

    method Size(now: int) returns (n: nat)
      requires Valid()
      modifies this
      ensures Valid() && View() == RecallState.Prune(old(View()), Cfg(), now)
      ensures n == |entries| && n <= maxEntries
    {
      PruneKeepsInv(View(), Cfg(), now);
      Prune(now);
      return |entries|;
    }
  }
}
