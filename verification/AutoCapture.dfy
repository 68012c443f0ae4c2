/** The auto-capture cursor (src/auto-capture-session-state.ts:25-30, 101-232): pending ingress texts per
    conversation, and how much of each session's history has been seen. Text extraction, the skip rules and
    the key patterns are inputs. */
module AutoCapture {
  import opened Common

  type Text = string

  // A Map in insertion order; storing under a present key keeps its place.
  datatype Pair<V> = Pair(key: string, value: V)

  datatype Limits = Limits(maxEntries: nat, recentTextLimit: nat)

  datatype State = State(seen: seq<Pair<nat>>, pending: seq<Pair<seq<Text>>>, recent: seq<Pair<seq<Text>>>)

  // exact and conversation are the keys the session key stands for, if any.
  datatype Session = Session(name: string, exact: Option<string>, conversation: Option<string>)

  datatype Op = Record(key: string, text: Text) | Consume(session: Session, eligible: seq<Text>)

  datatype Selection = Selection(newTexts: seq<Text>, texts: seq<Text>, pendingIngressCount: nat)

  // ---------------------------------------------------------------- ordered maps

  function Find<V>(t: seq<Pair<V>>, key: string): (i: nat)
    ensures i <= |t| && (i < |t| ==> t[i].key == key)
    ensures forall j :: 0 <= j < i ==> t[j].key != key
  {
    if t == [] || t[0].key == key then 0 else 1 + Find(t[1..], key)
  }

  predicate Has<V>(t: seq<Pair<V>>, key: string) {
    Find(t, key) < |t|
  }

  function Lookup<V>(t: seq<Pair<V>>, key: string): Option<V> {
    var i := Find(t, key);
    if i < |t| then Some(t[i].value) else None
  }

  function Put<V>(t: seq<Pair<V>>, key: string, value: V): seq<Pair<V>> {
    var i := Find(t, key);
    if i < |t| then t[i := Pair(key, value)] else t + [Pair(key, value)]
  }

  function Remove<V>(t: seq<Pair<V>>, key: string): seq<Pair<V>> {
    var i := Find(t, key);
    if i < |t| then t[..i] + t[i + 1..] else t
  }

  // The last n elements.
  function Last<T>(s: seq<T>, n: nat): (r: seq<T>)
    ensures |r| == if |s| > n then n else |s|
    ensures r == s[|s| - |r|..]
  {
    if |s| > n then s[|s| - n..] else s
  }

  ghost predicate UniqueKeys<V>(t: seq<Pair<V>>) {
    forall i, j :: 0 <= i < j < |t| ==> t[i].key != t[j].key
  }

  lemma LookupIs<V>(t: seq<Pair<V>>, key: string, i: nat)
    requires i < |t| && t[i].key == key && forall j :: 0 <= j < i ==> t[j].key != key
    ensures Lookup(t, key) == Some(t[i].value)
  {
  }

  lemma LookupNone<V>(t: seq<Pair<V>>, key: string)
    ensures Lookup(t, key).None? <==> forall j :: 0 <= j < |t| ==> t[j].key != key
  {
  }

  lemma PutUnique<V>(t: seq<Pair<V>>, key: string, value: V)
    requires UniqueKeys(t)
    ensures UniqueKeys(Put(t, key, value))
  {
  }

  lemma PutAt<V>(t: seq<Pair<V>>, key: string, value: V, k: string)
    ensures Lookup(Put(t, key, value), k) == if k == key then Some(value) else Lookup(t, k)
  {
    var r, i, j := Put(t, key, value), Find(t, key), Find(t, k);
    if k == key {
      LookupIs(r, key, i);
    } else if j < |t| {
      LookupIs(r, k, j);
    } else {
      LookupNone(r, k);
    }
  }

  lemma RemoveUnique<V>(t: seq<Pair<V>>, key: string)
    requires UniqueKeys(t)
    ensures UniqueKeys(Remove(t, key))
  {
  }

  lemma RemoveAt<V>(t: seq<Pair<V>>, key: string, k: string)
    requires UniqueKeys(t)
    ensures Lookup(Remove(t, key), k) == if k == key then None else Lookup(t, k)
  {
    var r, i, j := Remove(t, key), Find(t, key), Find(t, k);
    forall a | 0 <= a < |r| ensures r[a] == (if a < i then t[a] else t[a + 1]) {}
    if k == key || j == |t| {
      assert forall a :: 0 <= a < |r| ==> r[a].key != k;
      LookupNone(r, k);
    } else {
      LookupIs(r, k, if j < i then j else j - 1);
    }
  }

  lemma LastUnique<V>(t: seq<Pair<V>>, n: nat)
    requires UniqueKeys(t)
    ensures UniqueKeys(Last(t, n))
  {
  }

  lemma KeptAt<V>(t: seq<Pair<V>>, r: seq<Pair<V>>, d: nat, j: nat)
    requires UniqueKeys(t) && d <= j < |t| && r == t[d..]
    ensures Lookup(r, t[j].key) == Some(t[j].value)
  {
    forall a | 0 <= a < j - d ensures r[a].key != t[j].key { assert r[a] == t[d + a]; }
    LookupIs(r, t[j].key, j - d);
  }

  lemma LastKeeps<V>(t: seq<Pair<V>>, n: nat, k: string)
    requires UniqueKeys(t) && Find(t, k) >= |t| - |Last(t, n)|
    ensures Lookup(Last(t, n), k) == Lookup(t, k)
  {
    var r, j := Last(t, n), Find(t, k);
    var d := |t| - |r|;
    if j < |t| {
      KeptAt(t, r, d, j);
    } else {
      forall a | 0 <= a < |r| ensures r[a].key != k { assert r[a] == t[d + a]; }
      LookupNone(r, k);
    }
  }

  lemma LastLoses<V>(t: seq<Pair<V>>, n: nat, k: string)
    requires UniqueKeys(t) && Find(t, k) < |t| - |Last(t, n)|
    ensures Lookup(Last(t, n), k).None?
  {
    var r, j := Last(t, n), Find(t, k);
    forall a | 0 <= a < |r| ensures r[a].key != k {
      assert r[a] == t[|t| - |r| + a];
      assert t[j].key != t[|t| - |r| + a].key;
    }
    LookupNone(r, k);
  }

  lemma LastAt<V>(t: seq<Pair<V>>, n: nat, k: string)
    requires UniqueKeys(t)
    ensures Lookup(Last(t, n), k) == if Find(t, k) >= |t| - |Last(t, n)| then Lookup(t, k) else None
  {
    if Find(t, k) >= |t| - |Last(t, n)| { LastKeeps(t, n, k); } else { LastLoses(t, n, k); }
  }

  // ---------------------------------------------------------------- the pending prefix

  // How many leading texts of pending the available texts cover, each use counting once.
  function Covered(pending: seq<Text>, available: multiset<Text>): (n: nat)
    ensures n <= |pending|
  {
    if pending == [] || available[pending[0]] == 0 then 0
    else 1 + Covered(pending[1..], available - multiset{pending[0]})
  }

  function Taken(pending: seq<Text>, eligible: seq<Text>): (n: nat)
    ensures n <= |pending|
  {
    var n := Covered(pending, multiset(eligible));
    if n == 0 && pending != [] then 1 else n
  }

  // The longest prefix that is a sub-multiset of what is available.
  lemma {:induction false} CoveredIsLongest(pending: seq<Text>, available: multiset<Text>, k: nat)
    requires k <= |pending|
    ensures multiset(pending[..k]) <= available <==> k <= Covered(pending, available)
  {
    if k > 0 {
      var rest := pending[1..];
      assert pending[..k] == [pending[0]] + rest[..k - 1];
      assert multiset(pending[..k]) == multiset{pending[0]} + multiset(rest[..k - 1]);
      if available[pending[0]] > 0 {
        CoveredIsLongest(rest, available - multiset{pending[0]}, k - 1);
      } else {
        assert multiset(pending[..k])[pending[0]] > 0;
      }
    }
  }

  function Count(m: map<Text, nat>, t: Text): nat {
    if t in m then m[t] else 0
  }

  ghost predicate Counts(m: map<Text, nat>, bag: multiset<Text>) {
    forall t :: Count(m, t) == bag[t]
  }

  method CountTexts(eligible: seq<Text>) returns (available: map<Text, nat>)
    ensures Counts(available, multiset(eligible))
  {
    available := map[];
    for i := 0 to |eligible|
      invariant Counts(available, multiset(eligible[..i]))
    {
      assert eligible[..i + 1] == eligible[..i] + [eligible[i]];
      available := available[eligible[i] := Count(available, eligible[i]) + 1];
    }
    assert eligible[..|eligible|] == eligible;
  }

  // n is the length of the longest prefix the bag covers.
  ghost predicate LongestPrefix(pending: seq<Text>, bag: multiset<Text>, n: nat) {
    && n <= |pending| && multiset(pending[..n]) <= bag
    && (n < |pending| ==> !(multiset(pending[..n + 1]) <= bag))
  }

  lemma LongestPrefixIs(pending: seq<Text>, bag: multiset<Text>, n: nat)
    requires LongestPrefix(pending, bag, n)
    ensures n == Covered(pending, bag)
  {
    CoveredIsLongest(pending, bag, n);
    if n < |pending| { CoveredIsLongest(pending, bag, n + 1); }
  }

  lemma OneMore(pending: seq<Text>, bag: multiset<Text>, n: nat)
    requires n < |pending| && multiset(pending[..n]) <= bag
    ensures multiset(pending[..n + 1]) == multiset(pending[..n]) + multiset{pending[n]}
    ensures multiset(pending[..n + 1]) <= bag <==> (bag - multiset(pending[..n]))[pending[n]] > 0
  {
    assert pending[..n + 1] == pending[..n] + [pending[n]];
  }

  lemma TakeOne(m: map<Text, nat>, bag: multiset<Text>, text: Text)
    requires Counts(m, bag) && Count(m, text) > 0
    ensures Counts(if Count(m, text) == 1 then m - {text} else m[text := Count(m, text) - 1], bag - multiset{text})
  {
  }

  // The loop of consumePendingPrefix.
  method CountPrefix(pending: seq<Text>, eligible: seq<Text>) returns (consumedCount: nat)
    ensures LongestPrefix(pending, multiset(eligible), consumedCount)
  {
    var available := CountTexts(eligible);
    ghost var bag, rest := multiset(eligible), multiset(eligible);
    consumedCount := 0;
    while consumedCount < |pending|
      invariant consumedCount <= |pending| && multiset(pending[..consumedCount]) <= bag
      invariant rest == bag - multiset(pending[..consumedCount]) && Counts(available, rest)
    {
      var text := pending[consumedCount];
      var count := Count(available, text);
      OneMore(pending, bag, consumedCount);
      if count == 0 { break; }
      TakeOne(available, rest, text);
      consumedCount, rest := consumedCount + 1, rest - multiset{text};
      available := if count == 1 then available - {text} else available[text := count - 1];
    }
  }

  // consumePendingPrefix (src/auto-capture-session-state.ts:101-125).
  method ConsumePendingPrefix(pending: seq<Text>, eligible: seq<Text>) returns (consumed: seq<Text>,
                              remaining: seq<Text>)
    ensures consumed == pending[..Taken(pending, eligible)] && remaining == pending[Taken(pending, eligible)..]
  {
    if pending == [] { return [], []; }
    var consumedCount := CountPrefix(pending, eligible);
    LongestPrefixIs(pending, multiset(eligible), consumedCount);
    if consumedCount == 0 { consumedCount := 1; }
    return pending[..consumedCount], pending[consumedCount..];
  }

  // ---------------------------------------------------------------- the two operations

  function Get<V>(t: seq<Pair<V>>, key: string, fallback: V): V {
    match Lookup(t, key)
    case Some(v) => v
    case None => fallback
  }

  function Queue(s: State, key: string): seq<Text> {
    Get(s.pending, key, [])
  }

  function SeenCount(s: State, name: string): nat {
    Get(s.seen, name, 0)
  }

  function Recent(s: State, name: string): seq<Text> {
    Get(s.recent, name, [])
  }

  // The queue a session reads: its exact key if something waits there, else its conversation.
  function PendingKey(s: State, session: Session): Option<string> {
    if session.exact.Some? && Has(s.pending, session.exact.value) then session.exact else session.conversation
  }

  function Consumed(s: State, session: Session, eligible: seq<Text>): seq<Text> {
    match PendingKey(s, session)
    case None => []
    case Some(key) => Queue(s, key)[..Taken(Queue(s, key), eligible)]
  }

  function NewTexts(s: State, session: Session, eligible: seq<Text>): seq<Text> {
    var seen := SeenCount(s, session.name);
    if Consumed(s, session, eligible) != [] then Consumed(s, session, eligible)
    else if seen > 0 && |eligible| >= seen then eligible[seen..]
    else eligible
  }

  // A bare request to remember is joined with the text before it.
  function WithPrior(texts: seq<Text>, prior: seq<Text>, remember: Text -> bool): seq<Text> {
    if |texts| == 1 && remember(Trim(texts[0])) && prior != [] then [prior[|prior| - 1]] + texts else texts
  }

  function Texts(s: State, session: Session, eligible: seq<Text>, remember: Text -> bool): seq<Text> {
    WithPrior(NewTexts(s, session, eligible), Recent(s, session.name), remember)
  }

  function Left(s: State, session: Session, eligible: seq<Text>): seq<Pair<seq<Text>>> {
    match PendingKey(s, session)
    case None => s.pending
    case Some(key) =>
      var rest := Queue(s, key)[Taken(Queue(s, key), eligible)..];
      if rest != [] then Put(s.pending, key, rest) else Remove(s.pending, key)
  }

  function Recorded(l: Limits, s: State, key: string, text: Text): State {
    s.(pending := Last(Put(s.pending, key, Last(Queue(s, key) + [text], l.recentTextLimit)), l.maxEntries))
  }

  function AfterConsume(l: Limits, s: State, session: Session, eligible: seq<Text>): State {
    var latest := NewTexts(s, session, eligible);
    State(
      Last(Put(s.seen, session.name, |eligible|), l.maxEntries),
      Left(s, session, eligible),
      if latest == [] then s.recent
      else Last(Put(s.recent, session.name, Last(Recent(s, session.name) + latest, l.recentTextLimit)), l.maxEntries))
  }

  function Next(l: Limits, s: State, op: Op): State {
    match op
    case Record(key, text) => Recorded(l, s, key, text)
    case Consume(session, eligible) => AfterConsume(l, s, session, eligible)
  }

  function Run(l: Limits, ops: seq<Op>): State {
    if ops == [] then State([], [], [])
    else Next(l, Run(l, ops[..|ops| - 1]), ops[|ops| - 1])
  }

  // ---------------------------------------------------------------- the class

  class AutoCaptureSessionState {
    const limits: Limits
    var seenTextCount: seq<Pair<nat>>
    var pendingIngressTexts: seq<Pair<seq<Text>>>
    var recentTexts: seq<Pair<seq<Text>>>

    function View(): State
      reads this
    {
      State(seenTextCount, pendingIngressTexts, recentTexts)
    }

    constructor (limits: Limits)
      ensures this.limits == limits && View() == State([], [], [])
    {
      this.limits := limits;
      seenTextCount, pendingIngressTexts, recentTexts := [], [], [];
    }

    static method PruneOldest<V>(t: seq<Pair<V>>, maximum: nat) returns (r: seq<Pair<V>>)
      ensures r == Last(t, maximum)
    {
      r := t;
      while |r| > maximum
        invariant |r| <= |t| && r == t[|t| - |r|..] && (|r| == |t| || |r| >= maximum)
      {
        r := r[1..];
      }
    }

    // key is the exact session key or the conversation key; normalized is None for a skipped message.
    method RecordIngress(key: Option<string>, normalized: Option<Text>) returns (recorded: bool)
      modifies this
      ensures recorded == (key.Some? && normalized.Some?)
      ensures View() == if recorded then Next(limits, old(View()), Record(key.value, normalized.value)) else old(View())
    {
      if key.None? || normalized.None? { return false; }
      var queue := Get(pendingIngressTexts, key.value, []);
      queue := Last(queue + [normalized.value], limits.recentTextLimit);
      pendingIngressTexts := Put(pendingIngressTexts, key.value, queue);
      pendingIngressTexts := PruneOldest(pendingIngressTexts, limits.maxEntries);
      return true;
    }

    method TakePending(session: Session, eligible: seq<Text>) returns (consumed: seq<Text>)
      modifies this`pendingIngressTexts
      ensures consumed == Consumed(old(View()), session, eligible)
      ensures pendingIngressTexts == Left(old(View()), session, eligible)
    {
      consumed := [];
      var key :=
        if session.exact.Some? && Has(pendingIngressTexts, session.exact.value)
        then session.exact else session.conversation;
      if key.Some? {
        var queue := Get(pendingIngressTexts, key.value, []);
        var remaining;
        consumed, remaining := ConsumePendingPrefix(queue, eligible);
        if |remaining| > 0 {
          pendingIngressTexts := Put(pendingIngressTexts, key.value, remaining);
        } else {
          pendingIngressTexts := Remove(pendingIngressTexts, key.value);
        }
      }
    }

    method ConsumeAgentEnd(session: Session, eligible: seq<Text>, remember: Text -> bool) returns (r: Selection)
      modifies this
      ensures View() == Next(limits, old(View()), Consume(session, eligible))
      ensures r.newTexts == NewTexts(old(View()), session, eligible)
      ensures r.texts == Texts(old(View()), session, eligible, remember)
      ensures r.pendingIngressCount == |Consumed(old(View()), session, eligible)|
    {
      var pending := TakePending(session, eligible);
      var previous := Get(seenTextCount, session.name, 0);
      var newTexts := eligible;
      if |pending| > 0 {
        newTexts := pending;
      } else if previous > 0 && |eligible| >= previous {
        newTexts := eligible[previous..];
      }
      assert newTexts == NewTexts(old(View()), session, eligible);
      seenTextCount := Put(seenTextCount, session.name, |eligible|);
      seenTextCount := PruneOldest(seenTextCount, limits.maxEntries);
      var prior := Get(recentTexts, session.name, []);
      assert prior == Recent(old(View()), session.name);
      var texts := WithPrior(newTexts, prior, remember);
      if |newTexts| > 0 {
        recentTexts := Put(recentTexts, session.name, Last(prior + newTexts, limits.recentTextLimit));
        recentTexts := PruneOldest(recentTexts, limits.maxEntries);
      }
      return Selection(newTexts, texts, |pending|);
    }
  }

  // ---------------------------------------------------------------- what leaves a queue, and how

  datatype Fate = Delivered | Overflowed | Evicted

  datatype Gone = Gone(text: Text, fate: Fate)

  function Mark(texts: seq<Text>, fate: Fate): seq<Gone> {
    seq(|texts|, i requires 0 <= i < |texts| => Gone(texts[i], fate))
  }

  function Unmark(gone: seq<Gone>): seq<Text> {
    seq(|gone|, i requires 0 <= i < |gone| => gone[i].text)
  }

  // What the operation records under the key.
  function Adds(op: Op, key: string): seq<Text> {
    if op.Record? && op.key == key then [op.text] else []
  }

  // What a record pushes out of its queue.
  function Overflow(l: Limits, queue: seq<Text>): seq<Text> {
    queue[..|queue| - |Last(queue, l.recentTextLimit)|]
  }

  // What a record under k loses under key, because the key was among the oldest of too many.
  function Evictees(l: Limits, s: State, k: string, text: Text, key: string): seq<Text> {
    var all := Put(s.pending, k, Last(Queue(s, k) + [text], l.recentTextLimit));
    if Lookup(Last(all, l.maxEntries), key).None? then Get(all, key, []) else []
  }

  // What leaves the key's queue, oldest first: delivered to a session, dropped as the oldest beyond the
  // limit, or lost with the whole queue when too many conversations are pending.
  function Leaves(l: Limits, s: State, op: Op, key: string): seq<Gone> {
    match op
    case Record(k, text) =>
      Mark(if k == key then Overflow(l, Queue(s, k) + [text]) else [], Overflowed)
      + Mark(Evictees(l, s, k, text, key), Evicted)
    case Consume(session, eligible) =>
      Mark(if PendingKey(s, session) == Some(key) then Consumed(s, session, eligible) else [], Delivered)
  }

  function AllAdded(ops: seq<Op>, key: string): seq<Text> {
    if ops == [] then [] else AllAdded(ops[..|ops| - 1], key) + Adds(ops[|ops| - 1], key)
  }

  function AllGone(l: Limits, ops: seq<Op>, key: string): seq<Gone> {
    if ops == [] then []
    else AllGone(l, ops[..|ops| - 1], key) + Leaves(l, Run(l, ops[..|ops| - 1]), ops[|ops| - 1], key)
  }

  ghost predicate Inv(l: Limits, s: State) {
    && UniqueKeys(s.seen) && UniqueKeys(s.pending) && UniqueKeys(s.recent)
    && |s.seen| <= l.maxEntries && |s.pending| <= l.maxEntries && |s.recent| <= l.maxEntries
    && (forall key :: |Queue(s, key)| <= l.recentTextLimit)
    && (forall name :: |Recent(s, name)| <= l.recentTextLimit)
  }

  lemma LeftUnique(s: State, session: Session, eligible: seq<Text>)
    requires UniqueKeys(s.pending)
    ensures UniqueKeys(Left(s, session, eligible)) && |Left(s, session, eligible)| <= |s.pending|
  {
    match PendingKey(s, session)
    case None =>
    case Some(key) =>
      PutUnique(s.pending, key, Queue(s, key)[Taken(Queue(s, key), eligible)..]);
      RemoveUnique(s.pending, key);
  }

  lemma StepKeepsUnique(l: Limits, s: State, op: Op)
    requires Inv(l, s)
    ensures var t := Next(l, s, op); UniqueKeys(t.seen) && UniqueKeys(t.pending) && UniqueKeys(t.recent)
    ensures var t := Next(l, s, op);
      |t.seen| <= l.maxEntries && |t.pending| <= l.maxEntries && |t.recent| <= l.maxEntries
  {
    match op
    case Record(key, text) =>
      var all := Put(s.pending, key, Last(Queue(s, key) + [text], l.recentTextLimit));
      PutUnique(s.pending, key, Last(Queue(s, key) + [text], l.recentTextLimit));
      LastUnique(all, l.maxEntries);
    case Consume(session, eligible) =>
      PutUnique(s.seen, session.name, |eligible|);
      LastUnique(Put(s.seen, session.name, |eligible|), l.maxEntries);
      LeftUnique(s, session, eligible);
      var texts := Last(Recent(s, session.name) + NewTexts(s, session, eligible), l.recentTextLimit);
      PutUnique(s.recent, session.name, texts);
      LastUnique(Put(s.recent, session.name, texts), l.maxEntries);
  }

  // Storing under a key and dropping the oldest keys leaves every other key as it was, or gone.
  lemma StoredAt<V>(t: seq<Pair<V>>, key: string, value: V, n: nat, k: string)
    requires UniqueKeys(t)
    ensures var r := Lookup(Last(Put(t, key, value), n), k);
      r.None? || r == if k == key then Some(value) else Lookup(t, k)
  {
    PutUnique(t, key, value);
    PutAt(t, key, value, k);
    LastAt(Put(t, key, value), n, k);
  }

  // What a consume leaves under a key.
  lemma LeftAt(s: State, session: Session, eligible: seq<Text>, key: string)
    requires UniqueKeys(s.pending)
    ensures Get(Left(s, session, eligible), key, []) ==
      if PendingKey(s, session) == Some(key) then Queue(s, key)[Taken(Queue(s, key), eligible)..] else Queue(s, key)
  {
    match PendingKey(s, session)
    case None =>
    case Some(k) =>
      PutAt(s.pending, k, Queue(s, k)[Taken(Queue(s, k), eligible)..], key);
      RemoveAt(s.pending, k, key);
  }

  lemma QueueBounded(l: Limits, s: State, op: Op, key: string)
    requires Inv(l, s)
    ensures |Queue(Next(l, s, op), key)| <= l.recentTextLimit
  {
    assert |Queue(s, key)| <= l.recentTextLimit;
    match op
    case Record(k, text) => StoredAt(s.pending, k, Last(Queue(s, k) + [text], l.recentTextLimit), l.maxEntries, key);
    case Consume(session, eligible) => LeftAt(s, session, eligible, key);
  }

  lemma RecentBounded(l: Limits, s: State, op: Op, name: string)
    requires Inv(l, s)
    ensures |Recent(Next(l, s, op), name)| <= l.recentTextLimit
  {
    assert |Recent(s, name)| <= l.recentTextLimit;
    if op.Consume? {
      var texts := Last(Recent(s, op.session.name) + NewTexts(s, op.session, op.eligible), l.recentTextLimit);
      StoredAt(s.recent, op.session.name, texts, l.maxEntries, name);
    }
  }

  lemma StepKeepsInv(l: Limits, s: State, op: Op)
    requires Inv(l, s)
    ensures Inv(l, Next(l, s, op))
  {
    StepKeepsUnique(l, s, op);
    forall key ensures |Queue(Next(l, s, op), key)| <= l.recentTextLimit { QueueBounded(l, s, op, key); }
    forall name ensures |Recent(Next(l, s, op), name)| <= l.recentTextLimit { RecentBounded(l, s, op, name); }
  }

  // Every table and every queue stays within its bound over every run.
  lemma {:induction false} RunKeepsInv(l: Limits, ops: seq<Op>)
    ensures Inv(l, Run(l, ops))
  {
    if ops != [] {
      RunKeepsInv(l, ops[..|ops| - 1]);
      StepKeepsInv(l, Run(l, ops[..|ops| - 1]), ops[|ops| - 1]);
    }
  }

  lemma UnmarkCat(a: seq<Gone>, b: seq<Gone>)
    ensures Unmark(a + b) == Unmark(a) + Unmark(b)
  {
  }

  lemma UnmarkMark(texts: seq<Text>, fate: Fate)
    ensures Unmark(Mark(texts, fate)) == texts
  {
  }

  lemma UnmarkTwo(a: seq<Text>, f: Fate, b: seq<Text>, g: Fate)
    ensures Unmark(Mark(a, f) + Mark(b, g)) == a + b
  {
    UnmarkCat(Mark(a, f), Mark(b, g));
    UnmarkMark(a, f);
    UnmarkMark(b, g);
  }

  // What the record leaves under the key, and what it takes from there.
  lemma StoredOrEvicted(l: Limits, s: State, k: string, text: Text, key: string)
    requires UniqueKeys(s.pending)
    ensures var kept := Last(Queue(s, k) + [text], l.recentTextLimit);
      Evictees(l, s, k, text, key) + Queue(Recorded(l, s, k, text), key) == if k == key then kept else Queue(s, key)
  {
    var kept := Last(Queue(s, k) + [text], l.recentTextLimit);
    PutUnique(s.pending, k, kept);
    PutAt(s.pending, k, kept, key);
    LastAt(Put(s.pending, k, kept), l.maxEntries, key);
  }

  lemma Overflowing(l: Limits, queue: seq<Text>)
    ensures Overflow(l, queue) + Last(queue, l.recentTextLimit) == queue
  {
  }

  lemma Shifted(a: seq<Text>, b: seq<Text>, c: seq<Text>)
    ensures a + b + c == a + (b + c)
    ensures a == [] ==> a + b + c == b + c
  {
  }

  lemma RecordConserves(l: Limits, s: State, k: string, text: Text, key: string)
    requires UniqueKeys(s.pending)
    ensures var op := Record(k, text);
      Queue(s, key) + Adds(op, key) == Unmark(Leaves(l, s, op, key)) + Queue(Next(l, s, op), key)
  {
    var over := if k == key then Overflow(l, Queue(s, k) + [text]) else [];
    var out, left := Evictees(l, s, k, text, key), Queue(Recorded(l, s, k, text), key);
    StoredOrEvicted(l, s, k, text, key);
    UnmarkTwo(over, Overflowed, out, Evicted);
    Shifted(over, out, left);
    if k == key { Overflowing(l, Queue(s, k) + [text]); } else { assert Queue(s, key) + [] == Queue(s, key); }
  }

  lemma ConsumeConserves(l: Limits, s: State, session: Session, eligible: seq<Text>, key: string)
    requires UniqueKeys(s.pending)
    ensures var op := Consume(session, eligible);
      Queue(s, key) + Adds(op, key) == Unmark(Leaves(l, s, op, key)) + Queue(Next(l, s, op), key)
  {
    LeftAt(s, session, eligible, key);
    UnmarkMark(if PendingKey(s, session) == Some(key) then Consumed(s, session, eligible) else [], Delivered);
    assert Queue(s, key) + [] == Queue(s, key);
  }

  lemma StepConserves(l: Limits, s: State, op: Op, key: string)
    requires Inv(l, s)
    ensures Queue(s, key) + Adds(op, key) == Unmark(Leaves(l, s, op, key)) + Queue(Next(l, s, op), key)
  {
    match op
    case Record(k, text) => RecordConserves(l, s, k, text, key);
    case Consume(session, eligible) => ConsumeConserves(l, s, session, eligible, key);
  }

  lemma Regroup(gone: seq<Text>, queue: seq<Text>, added: seq<Text>, leaving: seq<Text>, left: seq<Text>)
    requires queue + added == leaving + left
    ensures gone + queue + added == gone + leaving + left
  {
    assert gone + queue + added == gone + (queue + added);
    assert gone + leaving + left == gone + (leaving + left);
  }

  // First in, first out, without loss or repetition: the texts recorded under a key are, in order, those
  // that left its queue (each once, as delivered, overflowed or evicted) followed by those still pending.
  lemma {:induction false} EveryTextOnce(l: Limits, ops: seq<Op>, key: string)
    ensures AllAdded(ops, key) == Unmark(AllGone(l, ops, key)) + Queue(Run(l, ops), key)
  {
    if ops != [] {
      var before, op := ops[..|ops| - 1], ops[|ops| - 1];
      var s := Run(l, before);
      EveryTextOnce(l, before, key);
      RunKeepsInv(l, before);
      StepConserves(l, s, op, key);
      UnmarkCat(AllGone(l, before, key), Leaves(l, s, op, key));
      Regroup(Unmark(AllGone(l, before, key)), Queue(s, key), Adds(op, key), Unmark(Leaves(l, s, op, key)),
        Queue(Next(l, s, op), key));
    }
  }

  // What a session is given while something is pending for it is the oldest part of the queue: the longest
  // prefix its snapshot covers, each text used once, or else exactly one text.
  lemma DeliversLongestPrefix(l: Limits, ops: seq<Op>, session: Session, eligible: seq<Text>, key: string, k: nat)
    requires PendingKey(Run(l, ops), session) == Some(key) && Queue(Run(l, ops), key) != []
    ensures var s := Run(l, ops); var q := Queue(s, key);
      && NewTexts(s, session, eligible) != [] && NewTexts(s, session, eligible) <= q
      && (0 < k <= |q| ==>
            (k <= |NewTexts(s, session, eligible)| <==> k == 1 || multiset(q[..k]) <= multiset(eligible)))
  {
    var q := Queue(Run(l, ops), key);
    if k <= |q| { CoveredIsLongest(q, multiset(eligible), k); }
    assert q[..Taken(q, eligible)] <= q;
  }

  // ---------------------------------------------------------------- which queue, which texts

  // The texts waiting under the exact key of the session, and those under its conversation.
  ghost predicate Waiting(s: State, key: Option<string>) {
    key.Some? && Lookup(s.pending, key.value).Some?
  }

  // After the consume every queue but this one is as it was; this one has lost what was delivered.
  ghost predicate ReadFrom(l: Limits, s: State, session: Session, eligible: seq<Text>, key: string) {
    var t, given := Next(l, s, Consume(session, eligible)), NewTexts(s, session, eligible);
    && Queue(s, key) == given + Queue(t, key)
    && forall k :: k != key ==> Queue(t, k) == Queue(s, k)
  }

  lemma ReadsQueue(l: Limits, s: State, session: Session, eligible: seq<Text>, key: string)
    requires UniqueKeys(s.pending) && PendingKey(s, session) == Some(key) && Queue(s, key) != []
    ensures NewTexts(s, session, eligible) != [] && ReadFrom(l, s, session, eligible, key)
  {
    forall k ensures Queue(Next(l, s, Consume(session, eligible)), k) ==
      if k == key then Queue(s, key)[Taken(Queue(s, key), eligible)..] else Queue(s, k)
    {
      LeftAt(s, session, eligible, k);
    }
  }

  // An agent run reads the queue of its exact key if there is one, though its conversation may have one too.
  // Without it, it reads that of the conversation.
  lemma ReadsExactFirst(l: Limits, ops: seq<Op>, session: Session, eligible: seq<Text>)
    ensures var s := Run(l, ops);
      && (Waiting(s, session.exact) && Queue(s, session.exact.value) != [] ==>
            NewTexts(s, session, eligible) != [] && ReadFrom(l, s, session, eligible, session.exact.value))
      && (!Waiting(s, session.exact) && Waiting(s, session.conversation)
          && Queue(s, session.conversation.value) != [] ==>
            NewTexts(s, session, eligible) != [] && ReadFrom(l, s, session, eligible, session.conversation.value))
  {
    var s := Run(l, ops);
    RunKeepsInv(l, ops);
    if Waiting(s, session.exact) && Queue(s, session.exact.value) != [] {
      ReadsQueue(l, s, session, eligible, session.exact.value);
    }
    if !Waiting(s, session.exact) && Waiting(s, session.conversation) && Queue(s, session.conversation.value) != [] {
      ReadsQueue(l, s, session, eligible, session.conversation.value);
    }
  }

  function History(ops: seq<Op>, name: string): seq<Text> {
    if ops == [] then []
    else
      var op := ops[|ops| - 1];
      if op.Consume? && op.session.name == name then op.eligible else History(ops[..|ops| - 1], name)
  }

  lemma {:induction false} CursorCounts(l: Limits, ops: seq<Op>, name: string)
    ensures var cursor := Lookup(Run(l, ops).seen, name); cursor.Some? ==> cursor.value == |History(ops, name)|
  {
    if ops != [] {
      var before, op := ops[..|ops| - 1], ops[|ops| - 1];
      CursorCounts(l, before, name);
      RunKeepsInv(l, before);
      if op.Consume? { StoredAt(Run(l, before).seen, op.session.name, |op.eligible|, l.maxEntries, name); }
    }
  }

  // When nothing waits it is given what its history has grown by since its last report, all of it if it has
  // become shorter or the session is not remembered; and no queue changes.
  lemma WithoutQueue(l: Limits, ops: seq<Op>, session: Session, eligible: seq<Text>)
    requires !Waiting(Run(l, ops), session.exact) && !Waiting(Run(l, ops), session.conversation)
    ensures var s, known := Run(l, ops), |History(ops, session.name)|;
      && NewTexts(s, session, eligible) ==
           (if Lookup(s.seen, session.name).Some? && known <= |eligible| then eligible[known..] else eligible)
      && forall k :: Queue(Next(l, s, Consume(session, eligible)), k) == Queue(s, k)
  {
    RunKeepsInv(l, ops);
    CursorCounts(l, ops, session.name);
    forall k ensures Queue(Next(l, Run(l, ops), Consume(session, eligible)), k) == Queue(Run(l, ops), k) {
      LeftAt(Run(l, ops), session, eligible, k);
    }
  }

  // ---------------------------------------------------------------- append-only histories

  // All texts reported as new to the session.
  function Reported(l: Limits, ops: seq<Op>, name: string): seq<Text> {
    if ops == [] then []
    else
      var before, op := ops[..|ops| - 1], ops[|ops| - 1];
      Reported(l, before, name)
      + (if op.Consume? && op.session.name == name then NewTexts(Run(l, before), op.session, op.eligible) else [])
  }

  function Names(ops: seq<Op>): set<string> {
    if ops == [] then {}
    else
      var op := ops[|ops| - 1];
      Names(ops[..|ops| - 1]) + (if op.Consume? then {op.session.name} else {})
  }

  lemma LastOfLast(a: seq<Text>, b: seq<Text>, n: nat)
    ensures Last(Last(a, n) + b, n) == Last(a + b, n)
  {
    var all, d := a + b, |a| - |Last(a, n)|;
    assert Last(a, n) + b == all[d..];
    if |all| - d > n {
      assert all[d..][|all| - d - n..] == all[|all| - n..];
    } else {
      assert d == 0 || |all| - d == n;
    }
  }

  function KeysOf<V>(t: seq<Pair<V>>): set<string> {
    set i | 0 <= i < |t| :: t[i].key
  }

  lemma KeysOfSnoc<V>(t: seq<Pair<V>>, p: Pair<V>)
    ensures KeysOf(t + [p]) == KeysOf(t) + {p.key}
  {
    var r := t + [p];
    forall k ensures k in KeysOf(r) <==> k in KeysOf(t) + {p.key} {
      if k in KeysOf(t) {
        var i :| 0 <= i < |t| && t[i].key == k;
        assert r[i].key == k;
      }
      assert r[|t|].key == p.key;
    }
  }

  lemma {:induction false} UniqueSize<V>(t: seq<Pair<V>>)
    requires UniqueKeys(t)
    ensures |KeysOf(t)| == |t|
  {
    if t != [] {
      var n := |t| - 1;
      UniqueSize(t[..n]);
      KeysOfSnoc(t[..n], t[n]);
      assert t[..n] + [t[n]] == t;
      assert t[n].key !in KeysOf(t[..n]);
    }
  }

  lemma PutKeys<V>(t: seq<Pair<V>>, key: string, value: V)
    ensures KeysOf(Put(t, key, value)) == KeysOf(t) + {key}
  {
    var r, i := Put(t, key, value), Find(t, key);
    assert r[i].key == key;
    forall k | k in KeysOf(t) ensures k in KeysOf(r) {
      var j :| 0 <= j < |t| && t[j].key == k;
      assert r[j].key == k;
    }
  }

  lemma RecentGrows(l: Limits, ops: seq<Op>, session: Session, eligible: seq<Text>, name: string)
    requires KeysOf(Run(l, ops).recent) <= Names(ops) && |Names(ops) + {session.name}| <= l.maxEntries
    requires Recent(Run(l, ops), name) == Last(Reported(l, ops, name), l.recentTextLimit)
    ensures var t := AfterConsume(l, Run(l, ops), session, eligible);
      && KeysOf(t.recent) <= Names(ops) + {session.name}
      && Recent(t, name) == Last(
           Reported(l, ops, name) + (if session.name == name then NewTexts(Run(l, ops), session, eligible) else []),
           l.recentTextLimit)
  {
    var s, texts := Run(l, ops), NewTexts(Run(l, ops), session, eligible);
    RunKeepsInv(l, ops);
    if texts != [] {
      var kept := Last(Recent(s, session.name) + texts, l.recentTextLimit);
      var all := Put(s.recent, session.name, kept);
      PutUnique(s.recent, session.name, kept);
      PutAt(s.recent, session.name, kept, name);
      PutKeys(s.recent, session.name, kept);
      UniqueSize(all);
      SubsetSize(KeysOf(all), Names(ops) + {session.name});
      assert Last(all, l.maxEntries) == all;
      LastOfLast(Reported(l, ops, name), texts, l.recentTextLimit);
    }
    assert Reported(l, ops, name) + [] == Reported(l, ops, name);
  }

  // With no more sessions than the limit, what is kept of each are the last texts reported to it.
  lemma {:induction false} RecentIsReported(l: Limits, ops: seq<Op>, name: string)
    requires |Names(ops)| <= l.maxEntries
    ensures KeysOf(Run(l, ops).recent) <= Names(ops)
    ensures Recent(Run(l, ops), name) == Last(Reported(l, ops, name), l.recentTextLimit)
  {
    if ops != [] {
      var before, op := ops[..|ops| - 1], ops[|ops| - 1];
      SubsetSize(Names(before), Names(ops));
      RecentIsReported(l, before, name);
      if op.Consume? { RecentGrows(l, before, op.session, op.eligible, name); }
    }
  }

  // A bare request to remember comes with the last text reported before it; anything else comes alone.
  lemma RequestsComeWithPrior(l: Limits, ops: seq<Op>, session: Session, eligible: seq<Text>, remember: Text -> bool)
    requires |Names(ops)| <= l.maxEntries && l.recentTextLimit > 0
    ensures var s, before := Run(l, ops), Reported(l, ops, session.name);
      var texts := NewTexts(s, session, eligible);
      Texts(s, session, eligible, remember) ==
        if |texts| == 1 && remember(Trim(texts[0])) && before != [] then [before[|before| - 1], texts[0]] else texts
  {
    RecentIsReported(l, ops, session.name);
  }

  // No ingress, and the session's history only ever grows at its end.
  ghost predicate AppendOnly(ops: seq<Op>, name: string) {
    ops == [] ||
    var before, op := ops[..|ops| - 1], ops[|ops| - 1];
    && AppendOnly(before, name) && op.Consume?
    && (op.session.name == name ==> History(before, name) <= op.eligible)
  }

  lemma NothingPending(s: State, session: Session, eligible: seq<Text>)
    requires s.pending == []
    ensures Consumed(s, session, eligible) == [] && Left(s, session, eligible) == []
  {
  }

  // With no more sessions than the limit, none is forgotten.
  lemma {:induction false} NoneForgotten(l: Limits, ops: seq<Op>, name: string)
    requires |Names(ops)| <= l.maxEntries && AppendOnly(ops, name)
    ensures Run(l, ops).pending == [] && KeysOf(Run(l, ops).seen) <= Names(ops)
    ensures Lookup(Run(l, ops).seen, name) == if name in Names(ops) then Some(|History(ops, name)|) else None
  {
    if ops != [] {
      var before, op := ops[..|ops| - 1], ops[|ops| - 1];
      var s := Run(l, before);
      SubsetSize(Names(before), Names(ops));
      NoneForgotten(l, before, name);
      RunKeepsInv(l, before);
      PutUnique(s.seen, op.session.name, |op.eligible|);
      PutAt(s.seen, op.session.name, |op.eligible|, name);
      var all := Put(s.seen, op.session.name, |op.eligible|);
      PutKeys(s.seen, op.session.name, |op.eligible|);
      UniqueSize(all);
      SubsetSize(KeysOf(all), Names(ops));
      assert Last(all, l.maxEntries) == all;
      NothingPending(s, op.session, op.eligible);
    }
  }

  lemma NewAfterHistory(s: State, session: Session, eligible: seq<Text>, history: seq<Text>)
    requires Consumed(s, session, eligible) == [] && SeenCount(s, session.name) == |history| && history <= eligible
    ensures history + NewTexts(s, session, eligible) == eligible
  {
  }

  // Whenever the session reports with something reported before, its cursor is still there.
  ghost predicate NeverForgotten(l: Limits, ops: seq<Op>, name: string) {
    ops == [] ||
    var before, op := ops[..|ops| - 1], ops[|ops| - 1];
    && NeverForgotten(l, before, name)
    && (op.Consume? && op.session.name == name && History(before, name) != [] ==>
          Lookup(Run(l, before).seen, name).Some?)
  }

  // A cursor that is there counts the history.
  lemma {:induction false} CursorIsHistory(l: Limits, ops: seq<Op>, name: string)
    requires AppendOnly(ops, name)
    ensures Run(l, ops).pending == []
    ensures var cursor := Lookup(Run(l, ops).seen, name); cursor.Some? ==> cursor.value == |History(ops, name)|
  {
    if ops != [] {
      var before, op := ops[..|ops| - 1], ops[|ops| - 1];
      CursorIsHistory(l, before, name);
      RunKeepsInv(l, before);
      NothingPending(Run(l, before), op.session, op.eligible);
      StoredAt(Run(l, before).seen, op.session.name, |op.eligible|, l.maxEntries, name);
    }
  }

  lemma {:induction false} ReportedIs(l: Limits, ops: seq<Op>, name: string)
    requires AppendOnly(ops, name)
    ensures if NeverForgotten(l, ops, name) then Reported(l, ops, name) == History(ops, name)
      else |Reported(l, ops, name)| > |History(ops, name)|
  {
    if ops != [] {
      var before, op := ops[..|ops| - 1], ops[|ops| - 1];
      ReportedIs(l, before, name);
      CursorIsHistory(l, before, name);
      NothingPending(Run(l, before), op.session, op.eligible);
      if op.session.name == name && (Lookup(Run(l, before).seen, name).Some? || History(before, name) == []) {
        NewAfterHistory(Run(l, before), op.session, op.eligible, History(before, name));
      }
    }
  }

  // Without ingress, an append-only history is reported exactly once, in order, if and only if the session
  // is never forgotten between two of its reports.
  lemma ReportedOnceIff(l: Limits, ops: seq<Op>, name: string)
    requires AppendOnly(ops, name)
    ensures Reported(l, ops, name) == History(ops, name) <==> NeverForgotten(l, ops, name)
  {
    ReportedIs(l, ops, name);
  }

  lemma {:induction false} NoHistory(ops: seq<Op>, name: string)
    ensures name !in Names(ops) ==> History(ops, name) == []
  {
    if ops != [] { NoHistory(ops[..|ops| - 1], name); }
  }

  lemma {:induction false} FewAreNeverForgotten(l: Limits, ops: seq<Op>, name: string)
    requires AppendOnly(ops, name) && |Names(ops)| <= l.maxEntries
    ensures NeverForgotten(l, ops, name)
  {
    if ops != [] {
      var before := ops[..|ops| - 1];
      SubsetSize(Names(before), Names(ops));
      FewAreNeverForgotten(l, before, name);
      NoneForgotten(l, before, name);
      NoHistory(before, name);
    }
  }

  // With no more sessions than the limit, an append-only history is reported exactly once, in order.
  lemma HistoryReportedOnce(l: Limits, ops: seq<Op>, name: string)
    requires AppendOnly(ops, name) && |Names(ops)| <= l.maxEntries
    ensures Reported(l, ops, name) == History(ops, name)
  {
    FewAreNeverForgotten(l, ops, name);
    ReportedOnceIff(l, ops, name);
  }

  lemma Snoc(l: Limits, ops: seq<Op>, session: Session, eligible: seq<Text>, name: string)
    ensures var op := Consume(session, eligible); var more := ops + [op];
      && Run(l, more) == AfterConsume(l, Run(l, ops), session, eligible)
      && History(more, name) == (if session.name == name then eligible else History(ops, name))
      && Reported(l, more, name) ==
           Reported(l, ops, name) + (if session.name == name then NewTexts(Run(l, ops), session, eligible) else [])
      && (AppendOnly(more, name) <==>
           AppendOnly(ops, name) && (session.name == name ==> History(ops, name) <= eligible))
  {
    assert (ops + [Consume(session, eligible)])[..|ops|] == ops;
  }

  // A session that is not remembered is given its whole history again.
  lemma ForgottenIsRepeated(l: Limits, ops: seq<Op>, session: Session, eligible: seq<Text>)
    requires Run(l, ops).pending == [] && Lookup(Run(l, ops).seen, session.name).None?
    ensures Reported(l, ops + [Consume(session, eligible)], session.name) == Reported(l, ops, session.name) + eligible
  {
    Snoc(l, ops, session, eligible, session.name);
    NothingPending(Run(l, ops), session, eligible);
  }

  // Sessions told apart by their names.
  ghost predicate Distinct(a: Session, others: nat -> Session) {
    && (forall i: nat :: others(i).name != a.name)
    && (forall i: nat, j: nat :: i < j ==> others(i).name != others(j).name)
  }

  lemma PutNew(t: seq<Pair<nat>>, key: string, value: nat)
    requires forall i :: 0 <= i < |t| ==> t[i].key != key
    ensures Put(t, key, value) == t + [Pair(key, value)]
  {
  }

  lemma NamesMore(ops: seq<Op>, session: Session, eligible: seq<Text>)
    ensures Names(ops + [Consume(session, eligible)]) == Names(ops) + {session.name}
  {
    assert (ops + [Consume(session, eligible)])[..|ops|] == ops;
  }

  // Nothing is pending, and the cursors are these: a's, and those of the first k others.
  ghost predicate Holding(l: Limits, a: Session, others: nat -> Session, k: nat, ops: seq<Op>,
                          cursors: seq<Pair<nat>>) {
    && Run(l, ops).pending == [] && Run(l, ops).seen == cursors
    && |cursors| == k + 1 && cursors[0].key == a.name && forall i :: 0 < i <= k ==> cursors[i].key == others(i - 1).name
  }

  // These sessions have reported.
  ghost predicate Reporting(a: Session, others: nat -> Session, k: nat, ops: seq<Op>) {
    && |Names(ops)| == k + 1 && a.name in Names(ops)
    && forall n :: n in Names(ops) ==> n == a.name || exists i :: 0 <= i < k && n == others(i).name
  }

  // The history has been reported, once.
  ghost predicate ReportedOnce(l: Limits, name: string, history: seq<Text>, ops: seq<Op>) {
    AppendOnly(ops, name) && History(ops, name) == history && Reported(l, ops, name) == history
  }

  lemma OthersChangeNothing(l: Limits, name: string, history: seq<Text>, ops: seq<Op>, other: Session)
    requires ReportedOnce(l, name, history, ops) && other.name != name
    ensures ReportedOnce(l, name, history, ops + [Consume(other, [])])
  {
    Snoc(l, ops, other, [], name);
  }

  // A report by a session without a cursor, with nothing pending.
  lemma NewCursor(l: Limits, ops: seq<Op>, session: Session, eligible: seq<Text>)
    requires Run(l, ops).pending == []
    requires forall i :: 0 <= i < |Run(l, ops).seen| ==> Run(l, ops).seen[i].key != session.name
    ensures var s := Run(l, ops + [Consume(session, eligible)]);
      s.pending == [] && s.seen == Last(Run(l, ops).seen + [Pair(session.name, |eligible|)], l.maxEntries)
  {
    Snoc(l, ops, session, eligible, session.name);
    NothingPending(Run(l, ops), session, eligible);
    PutNew(Run(l, ops).seen, session.name, |eligible|);
  }

  lemma OneMoreName(a: Session, others: nat -> Session, k: nat, ops: seq<Op>)
    requires Distinct(a, others) && Reporting(a, others, k, ops)
    ensures Reporting(a, others, k + 1, ops + [Consume(others(k), [])])
  {
    NamesMore(ops, others(k), []);
  }

  lemma OneMoreCursor(l: Limits, a: Session, others: nat -> Session, k: nat, ops: seq<Op>, cursors: seq<Pair<nat>>)
    requires Distinct(a, others) && Holding(l, a, others, k, ops, cursors) && k + 1 < l.maxEntries
    ensures Holding(l, a, others, k + 1, ops + [Consume(others(k), [])], cursors + [Pair(others(k).name, 0)])
  {
    var more := cursors + [Pair(others(k).name, 0)];
    NewCursor(l, ops, others(k), []);
    assert |more| <= l.maxEntries && Last(more, l.maxEntries) == more;
  }

  lemma FirstIsLost(cursors: seq<Pair<nat>>, name: string)
    requires cursors != [] && forall i :: 0 < i < |cursors| ==> cursors[i].key != name
    ensures Lookup(Last(cursors, |cursors| - 1), name).None?
  {
    LookupNone(Last(cursors, |cursors| - 1), name);
  }

  // One cursor too many: the first goes.
  lemma FirstGoes(l: Limits, a: Session, others: nat -> Session, k: nat, ops: seq<Op>, cursors: seq<Pair<nat>>)
    requires Distinct(a, others) && Holding(l, a, others, k, ops, cursors) && k + 1 == l.maxEntries
    ensures var s := Run(l, ops + [Consume(others(k), [])]); s.pending == [] && Lookup(s.seen, a.name).None?
  {
    var more := cursors + [Pair(others(k).name, 0)];
    NewCursor(l, ops, others(k), []);
    FirstIsLost(more, a.name);
  }

  lemma FirstName(a: Session, others: nat -> Session, history: seq<Text>, none: seq<Op>)
    requires none == []
    ensures Reporting(a, others, 0, none + [Consume(a, history)])
  {
    assert Names(none) == {};
    NamesMore(none, a, history);
  }

  lemma LastFits<T>(s: seq<T>, t: seq<T>, n: nat)
    requires s == [] + t
    ensures |t| <= n ==> Last(s, n) == t
    ensures n == 0 ==> Last(s, n) == []
  {
  }

  lemma FirstCursor(l: Limits, a: Session, others: nat -> Session, history: seq<Text>, none: seq<Op>)
    requires none == []
    ensures var ops := none + [Consume(a, history)];
      if l.maxEntries == 0 then Run(l, ops).pending == [] && Run(l, ops).seen == []
      else Holding(l, a, others, 0, ops, [Pair(a.name, |history|)])
  {
    var first: seq<Pair<nat>> := [Pair(a.name, |history|)];
    NewCursor(l, none, a, history);
    LastFits(Run(l, none).seen + first, first, l.maxEntries);
  }

  lemma FirstHistory(l: Limits, a: Session, history: seq<Text>, none: seq<Op>)
    requires none == []
    ensures ReportedOnce(l, a.name, history, none + [Consume(a, history)])
  {
    assert Run(l, none) == State([], [], []) && Reported(l, none, a.name) == [];
    Snoc(l, none, a, history, a.name);
    ForgottenIsRepeated(l, none, a, history);
  }

  // After a's report have come k other sessions, each with nothing to report.
  ghost predicate Busy(l: Limits, a: Session, others: nat -> Session, history: seq<Text>, k: nat, ops: seq<Op>) {
    Reporting(a, others, k, ops) && ReportedOnce(l, a.name, history, ops)
  }

  lemma Busier(l: Limits, a: Session, others: nat -> Session, history: seq<Text>, k: nat, ops: seq<Op>)
    requires Distinct(a, others) && Busy(l, a, others, history, k, ops)
    ensures Busy(l, a, others, history, k + 1, ops + [Consume(others(k), [])])
  {
    OneMoreName(a, others, k, ops);
    OthersChangeNothing(l, a.name, history, ops, others(k));
  }

  lemma FirstReport(l: Limits, a: Session, others: nat -> Session, history: seq<Text>)
    returns (ops: seq<Op>, cursors: seq<Pair<nat>>)
    ensures if l.maxEntries == 0 then Run(l, ops).pending == [] && Run(l, ops).seen == []
      else Holding(l, a, others, 0, ops, cursors)
    ensures Busy(l, a, others, history, 0, ops)
  {
    var none: seq<Op> := [];
    ops, cursors := none + [Consume(a, history)], [Pair(a.name, |history|)];
    FirstName(a, others, history, none);
    FirstCursor(l, a, others, history, none);
    FirstHistory(l, a, history, none);
  }

  lemma NextBusy(l: Limits, a: Session, others: nat -> Session, history: seq<Text>, k: nat, before: seq<Op>,
                 held: seq<Pair<nat>>)
    returns (ops: seq<Op>, cursors: seq<Pair<nat>>)
    requires Distinct(a, others) && k + 1 < l.maxEntries
    requires Holding(l, a, others, k, before, held) && Busy(l, a, others, history, k, before)
    ensures Holding(l, a, others, k + 1, ops, cursors) && Busy(l, a, others, history, k + 1, ops)
  {
    Busier(l, a, others, history, k, before);
    OneMoreCursor(l, a, others, k, before, held);
    ops, cursors := before + [Consume(others(k), [])], held + [Pair(others(k).name, 0)];
  }

  lemma {:induction false} GetBusy(l: Limits, a: Session, others: nat -> Session, history: seq<Text>, k: nat)
    returns (ops: seq<Op>, cursors: seq<Pair<nat>>)
    requires Distinct(a, others) && k < l.maxEntries
    ensures Holding(l, a, others, k, ops, cursors) && Busy(l, a, others, history, k, ops)
  {
    if k == 0 {
      ops, cursors := FirstReport(l, a, others, history);
    } else {
      ops, cursors := GetBusy(l, a, others, history, k - 1);
      ops, cursors := NextBusy(l, a, others, history, k - 1, ops, cursors);
    }
  }

  // So many others that a is forgotten.
  lemma TooBusy(l: Limits, a: Session, others: nat -> Session, history: seq<Text>) returns (ops: seq<Op>)
    requires Distinct(a, others)
    ensures Run(l, ops).pending == [] && Lookup(Run(l, ops).seen, a.name).None?
    ensures Busy(l, a, others, history, l.maxEntries, ops)
  {
    if l.maxEntries == 0 {
      var cursors;
      ops, cursors := FirstReport(l, a, others, history);
    } else {
      var k := l.maxEntries - 1;
      var before, held := GetBusy(l, a, others, history, k);
      Busier(l, a, others, history, k, before);
      FirstGoes(l, a, others, k, before, held);
      ops := before + [Consume(others(k), [])];
    }
  }

  // Whatever the limit, one session more than that is enough: the history of a is reported twice.
  lemma OneSessionTooMany(l: Limits, a: Session, others: nat -> Session, history: seq<Text>)
    requires Distinct(a, others)
    ensures exists ops ::
      && AppendOnly(ops, a.name) && |Names(ops)| == l.maxEntries + 1
      && History(ops, a.name) == history && Reported(l, ops, a.name) == history + history
  {
    var before := TooBusy(l, a, others, history);
    ForgottenIsRepeated(l, before, a, history);
    Snoc(l, before, a, history, a.name);
    NamesMore(before, a, history);
    assert Names(before) + {a.name} == Names(before);
  }

  // Sessions named x, xx, xxx, ...
  function Numbered(k: nat): Session {
    Session(seq(k, _ => 'x'), None, None)
  }

  lemma NumberedAreDistinct()
    ensures Distinct(Numbered(0), (i: nat) => Numbered(i + 1))
  {
    assert forall i: nat :: |Numbered(i).name| == i;
  }

  // So a caller can tell: with at most k sessions every append-only history is reported exactly once, in order,
  // in every run, if and only if k is within the limit.
  lemma ReportedOnceWithinLimitIff(l: Limits, k: nat)
    ensures k <= l.maxEntries <==>
      forall ops, name :: AppendOnly(ops, name) && |Names(ops)| <= k ==> Reported(l, ops, name) == History(ops, name)
  {
    if k <= l.maxEntries {
      forall ops, name | AppendOnly(ops, name) && |Names(ops)| <= k
        ensures Reported(l, ops, name) == History(ops, name)
      {
        HistoryReportedOnce(l, ops, name);
      }
    } else {
      var history := ["text"];
      NumberedAreDistinct();
      OneSessionTooMany(l, Numbered(0), (i: nat) => Numbered(i + 1), history);
      var ops :| AppendOnly(ops, Numbered(0).name) && |Names(ops)| == l.maxEntries + 1
        && History(ops, Numbered(0).name) == history && Reported(l, ops, Numbered(0).name) == history + history;
      assert |history + history| == 2;
    }
  }
}
