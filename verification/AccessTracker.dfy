/** The class AccessTracker (src/access-tracker.ts:214-340): each method is a stretch of its code between
    two awaits, proved to be the tracker segment of the same meaning in AccessProtocol. */
module AccessTracker {
  import opened Common
  import opened AccessProtocol

  class AccessTracker {
    var pending: Counts
    var timerSet: bool
    var flushPromise: Option<nat>
    var bodies: seq<Body>
    var waiters: seq<nat>
    var nextBody: nat

    ghost function View(): Tracker
      reads this
    {
      Tracker(pending, timerSet, flushPromise, bodies, waiters, nextBody)
    }

    constructor ()
      ensures View() == START
    {
      pending, timerSet, flushPromise, bodies, waiters, nextBody := map[], false, None, [], [], 0;
    }

    method RecordAccess(ids: seq<Id>)
      modifies this`pending, this`timerSet
      ensures View() == Record(old(View()), ids)
    {
      for i := 0 to |ids|
        invariant pending == Recorded(old(pending), ids[..i])
      {
        var current := Get(pending, ids[i]);
        RecordedMore(old(pending), ids, i);
        pending := pending[ids[i] := current + 1];
      }
      assert ids[..|ids|] == ids;
      timerSet := true;
    }

    // flush() up to its first await.
    method Flush()
      modifies this
      ensures View() == Enter(old(View()))
    {
      timerSet := false;
      if flushPromise.Some? {
        waiters := waiters + [flushPromise.value];
        return;
      }
      if pending == map[] { return; }
      var batch := pending;
      pending := map[];
      bodies := bodies + [Body(nextBody, batch, None)];
      flushPromise := Some(nextBody);
      nextBody := nextBody + 1;
    }

    // The catch clause of doFlush.
    method RequeueFailed(b: nat, id: Id)
      requires b < |bodies| && id in bodies[b].left
      modifies this`pending, this`bodies
      ensures View() == Requeue(old(View()), b, id)
    {
      var body := bodies[b];
      pending := pending[id := Get(pending, id) + body.left[id]];
      bodies := bodies[b := body.(left := body.left - {id}, reading := None)];
    }

    // flush() after the body it awaits is done.
    method AfterFlush(b: nat)
      requires b < |bodies|
      modifies this`flushPromise, this`timerSet, this`bodies
      ensures View() == Leave(old(View()), b)
    {
      bodies := bodies[..b] + bodies[b + 1..];
      flushPromise := None;
      if pending != map[] { timerSet := true; }
    }

    // flush() after awaiting another caller's body.
    method AfterWait(w: nat)
      requires w < |waiters|
      modifies this
      ensures View() == Resume(old(View()), w)
    {
      waiters := waiters[..w] + waiters[w + 1..];
      if pending != map[] { Flush(); }
    }

    method Dispose()
      modifies this`pending, this`timerSet
      ensures View() == Destroy(old(View()))
    {
      timerSet := false;
      pending := map[];
    }
  }
}
