/** The bounded expiring map (src/bounded-ttl-map.ts:17-94): a key-value map in touch order, with eviction by
    age and by count. The class keeps the entries in the order of the source's Map; the specification
    explains its answers by the log of touches alone. */
module BoundedTtlMap {
  import opened Common

  // An entry of the map; also one record of the touch log.
  datatype Touch<K, V> = Touch(key: K, value: V, at: int)

  datatype Limits = Limits(ttlMs: nat, maxEntries: nat) {
    predicate Valid() { ttlMs > 0 && maxEntries > 0 }
  }

  datatype State<K, V> = State(entries: seq<Touch<K, V>>, ttlEvictions: nat, capacityEvictions: nat)

  datatype Op<K, V> = Get(key: K) | Set(key: K, value: V) | Delete(key: K) | Prune

  datatype Event<K, V> = Event(op: Op<K, V>, now: int)

  // ---------------------------------------------------------------- what the operations do

  predicate IsFresh(l: Limits, at: int, now: int) {
    now - at < l.ttlMs
  }

  function Fresh<K, V>(l: Limits, entries: seq<Touch<K, V>>, now: int): (r: seq<Touch<K, V>>)
    ensures |r| <= |entries|
  {
    if entries == [] then []
    else
      var n := |entries| - 1;
      Fresh(l, entries[..n], now) + (if IsFresh(l, entries[n].at, now) then [entries[n]] else [])
  }

  lemma FreshMore<K, V>(l: Limits, entries: seq<Touch<K, V>>, i: nat, now: int)
    requires i < |entries|
    ensures Fresh(l, entries[..i + 1], now) ==
      Fresh(l, entries[..i], now) + (if IsFresh(l, entries[i].at, now) then [entries[i]] else [])
  {
    assert entries[..i + 1][..i] == entries[..i];
  }

  lemma SkipOrKeep<K, V>(kept: seq<Touch<K, V>>, before: seq<Touch<K, V>>, i: nat)
    requires i < |before|
    ensures var r := kept + before[i..];
      && r[|kept|] == before[i] && r[..|kept|] + r[|kept| + 1..] == kept + before[i + 1..]
      && r == kept + [before[i]] + before[i + 1..]
  {
  }

  function Newest<K, V>(l: Limits, entries: seq<Touch<K, V>>): (r: seq<Touch<K, V>>) {
    if |entries| > l.maxEntries then entries[|entries| - l.maxEntries..] else entries
  }

  function PruneAt<K, V>(l: Limits, s: State<K, V>, now: int): State<K, V> {
    var young := Fresh(l, s.entries, now);
    var left := Newest(l, young);
    State(left, s.ttlEvictions + |s.entries| - |young|, s.capacityEvictions + |young| - |left|)
  }

  function Position<K(==), V>(entries: seq<Touch<K, V>>, key: K): (p: nat)
    ensures p <= |entries|
    ensures p < |entries| ==> entries[p].key == key
    ensures forall j :: 0 <= j < p ==> entries[j].key != key
  {
    if entries == [] || entries[0].key == key then 0 else 1 + Position(entries[1..], key)
  }

  predicate Has<K(==), V>(entries: seq<Touch<K, V>>, key: K) {
    Position(entries, key) < |entries|
  }

  function Cut<K, V>(entries: seq<Touch<K, V>>, p: nat): (r: seq<Touch<K, V>>)
    requires p < |entries|
    ensures |r| == |entries| - 1
  {
    entries[..p] + entries[p + 1..]
  }

  function Drop<K(==), V>(entries: seq<Touch<K, V>>, key: K): seq<Touch<K, V>> {
    var p := Position(entries, key);
    if p < |entries| then Cut(entries, p) else entries
  }

  // Removing and inserting again moves a key to the young end.
  function TouchAt<K(==), V>(entries: seq<Touch<K, V>>, key: K, value: V, now: int): seq<Touch<K, V>> {
    Drop(entries, key) + [Touch(key, value, now)]
  }

  function Step<K(==), V>(l: Limits, s: State<K, V>, e: Event<K, V>): State<K, V> {
    match e.op
    case Prune => PruneAt(l, s, e.now)
    case Delete(key) => s.(entries := Drop(s.entries, key))
    case Get(key) =>
      var s1 := PruneAt(l, s, e.now);
      if Has(s1.entries, key)
      then s1.(entries := TouchAt(s1.entries, key, s1.entries[Position(s1.entries, key)].value, e.now))
      else s1
    case Set(key, value) =>
      var s1 := PruneAt(l, s, e.now);
      PruneAt(l, s1.(entries := TouchAt(s1.entries, key, value, e.now)), e.now)
  }

  // The answer of get.
  function Answer<K(==), V>(l: Limits, s: State<K, V>, key: K, now: int): Option<V> {
    var entries := PruneAt(l, s, now).entries;
    if Has(entries, key) then Some(entries[Position(entries, key)].value) else None
  }

  function Run<K(==), V>(l: Limits, log: seq<Event<K, V>>): State<K, V> {
    if log == [] then State([], 0, 0)
    else Step(l, Run(l, log[..|log| - 1]), log[|log| - 1])
  }

  // ---------------------------------------------------------------- the class

  class TtlMap<K(==), V> {
    var entries: seq<Touch<K, V>>
    var ttlEvictions: nat
    var capacityEvictions: nat
    const limits: Limits

    function Abs(): State<K, V>
      reads this
    {
      State(entries, ttlEvictions, capacityEvictions)
    }

    constructor (limits: Limits)
      requires limits.Valid()
      ensures this.limits == limits && Abs() == State([], 0, 0)
    {
      this.limits := limits;
      entries, ttlEvictions, capacityEvictions := [], 0, 0;
    }

    // The first loop of prune.
    method EvictByAge(now: int)
      modifies this`entries, this`ttlEvictions
      ensures entries == Fresh(limits, old(entries), now)
      ensures ttlEvictions == old(ttlEvictions) + |old(entries)| - |entries|
    {
      ghost var before := entries;
      ghost var seen := 0;
      var i := 0;
      while i < |entries|
        invariant seen <= |before| && i == |Fresh(limits, before[..seen], now)|
        invariant entries == Fresh(limits, before[..seen], now) + before[seen..]
        invariant ttlEvictions == old(ttlEvictions) + seen - i
        decreases |before| - seen
      {
        FreshMore(limits, before, seen, now);
        SkipOrKeep(Fresh(limits, before[..seen], now), before, seen);
        if now - entries[i].at >= limits.ttlMs {
          entries := entries[..i] + entries[i + 1..];
          ttlEvictions := ttlEvictions + 1;
        } else {
          i := i + 1;
        }
        seen := seen + 1;
      }
      assert before[..seen] == before;
    }

    // The second loop of prune.
    method EvictByCount()
      modifies this`entries, this`capacityEvictions
      ensures entries == Newest(limits, old(entries))
      ensures capacityEvictions == old(capacityEvictions) + |old(entries)| - |entries|
    {
      ghost var before := entries;
      while |entries| > limits.maxEntries
        invariant |entries| <= |before| && entries == before[|before| - |entries|..]
        invariant |entries| >= |Newest(limits, before)|
        invariant capacityEvictions == old(capacityEvictions) + |before| - |entries|
      {
        entries := entries[1..];
        capacityEvictions := capacityEvictions + 1;
      }
    }

    method PruneNow(now: int)
      modifies this
      ensures Abs() == PruneAt(limits, old(Abs()), now)
    {
      EvictByAge(now);
      EvictByCount();
    }

    method Get(key: K, now: int) returns (r: Option<V>)
      modifies this
      ensures r == Answer(limits, old(Abs()), key, now)
      ensures Abs() == Step(limits, old(Abs()), Event(Op.Get(key), now))
    {
      PruneNow(now);
      var p := Position(entries, key);
      if p == |entries| { return None; }
      r := Some(entries[p].value);
      entries := entries[..p] + entries[p + 1..];
      entries := entries + [Touch(key, r.value, now)];
    }

    method Set(key: K, value: V, now: int)
      modifies this
      ensures Abs() == Step(limits, old(Abs()), Event(Op.Set(key, value), now))
    {
      PruneNow(now);
      entries := Drop(entries, key);
      entries := entries + [Touch(key, value, now)];
      PruneNow(now);
    }

    method Delete(key: K) returns (removed: bool)
      modifies this
      ensures removed == Has(old(entries), key)
      ensures forall now :: Abs() == Step(limits, old(Abs()), Event(Op.Delete(key), now))
    {
      removed := Has(entries, key);
      entries := Drop(entries, key);
    }

    method Keys(now: int) returns (keys: seq<K>)
      modifies this
      ensures Abs() == Step(limits, old(Abs()), Event(Op.Prune, now))
      ensures |keys| == |entries| && forall i :: 0 <= i < |keys| ==> keys[i] == entries[i].key
    {
      PruneNow(now);
      keys := seq(|entries|, i requires 0 <= i < |entries| reads this => entries[i].key);
    }

    method Stats(now: int) returns (size: nat, byAge: nat, byCount: nat)
      modifies this
      ensures Abs() == Step(limits, old(Abs()), Event(Op.Prune, now))
      ensures size == |Abs().entries| && byAge == Abs().ttlEvictions && byCount == Abs().capacityEvictions
    {
      PruneNow(now);
      return |entries|, ttlEvictions, capacityEvictions;
    }
  }

  // ---------------------------------------------------------------- conservation

  // A set of a key that is not there when it is stored.
  function Inserts<K(==), V>(l: Limits, s: State<K, V>, e: Event<K, V>): nat {
    if e.op.Set? && !Has(PruneAt(l, s, e.now).entries, e.op.key) then 1 else 0
  }

  function Deletes<K(==), V>(s: State<K, V>, e: Event<K, V>): nat {
    if e.op.Delete? && Has(s.entries, e.op.key) then 1 else 0
  }

  function Inserted<K(==), V>(l: Limits, log: seq<Event<K, V>>): nat {
    if log == [] then 0
    else Inserted(l, log[..|log| - 1]) + Inserts(l, Run(l, log[..|log| - 1]), log[|log| - 1])
  }

  function Deleted<K(==), V>(l: Limits, log: seq<Event<K, V>>): nat {
    if log == [] then 0
    else Deleted(l, log[..|log| - 1]) + Deletes(Run(l, log[..|log| - 1]), log[|log| - 1])
  }

  // Whatever the clock does, every key ever inserted is still there, was deleted, or was counted as evicted.
  lemma {:induction false} NothingUncounted<K, V>(l: Limits, log: seq<Event<K, V>>)
    ensures var s := Run(l, log);
      Inserted(l, log) == |s.entries| + s.ttlEvictions + s.capacityEvictions + Deleted(l, log)
  {
    if log != [] { NothingUncounted(l, log[..|log| - 1]); }
  }

  // Only a set makes the map grow, and it ends with a prune.
  lemma {:induction false} NeverTooLarge<K, V>(l: Limits, log: seq<Event<K, V>>)
    ensures |Run(l, log).entries| <= l.maxEntries
  {
    if log != [] { NeverTooLarge(l, log[..|log| - 1]); }
  }

  // ---------------------------------------------------------------- the touch log

  function LastIndex<K(==), V>(touches: seq<Touch<K, V>>, key: K): (i: int)
    ensures -1 <= i < |touches|
    ensures i >= 0 ==> touches[i].key == key
    ensures forall j :: i < j < |touches| ==> touches[j].key != key
  {
    var n := |touches| - 1;
    if n < 0 || touches[n].key == key then n else LastIndex(touches[..n], key)
  }

  ghost function KeysOf<K, V>(touches: seq<Touch<K, V>>): set<K> {
    set t | t in touches :: t.key
  }

  // Younger than the limit, and fewer distinct keys touched since than the map may hold.
  ghost predicate Present<K, V>(l: Limits, touches: seq<Touch<K, V>>, key: K, now: int) {
    var i := LastIndex(touches, key);
    i >= 0 && now - touches[i].at < l.ttlMs && |KeysOf(touches[i + 1..])| < l.maxEntries
  }

  // What get should answer, going by the touch log.
  ghost function Expected<K, V>(l: Limits, touches: seq<Touch<K, V>>, key: K, now: int): Option<V> {
    if Present(l, touches, key, now) then Some(touches[LastIndex(touches, key)].value) else None
  }

  // A set touches its key; a get touches it when the log says it is there.
  ghost function Touched<K, V>(l: Limits, touches: seq<Touch<K, V>>, e: Event<K, V>): seq<Touch<K, V>> {
    match e.op
    case Set(key, value) => [Touch(key, value, e.now)]
    case Get(key) =>
      if Present(l, touches, key, e.now) then [Touch(key, touches[LastIndex(touches, key)].value, e.now)] else []
    case _ => []
  }

  ghost function Touches<K, V>(l: Limits, log: seq<Event<K, V>>): seq<Touch<K, V>> {
    if log == [] then []
    else
      var before := Touches(l, log[..|log| - 1]);
      before + Touched(l, before, log[|log| - 1])
  }

  // The clock never goes back and nothing is deleted.
  ghost predicate Steady<K, V>(log: seq<Event<K, V>>) {
    && (forall i :: 0 <= i < |log| ==> !log[i].op.Delete?)
    && (forall i, j :: 0 <= i < j < |log| ==> log[i].now <= log[j].now)
  }

  // ---- the recency list: each touched key once, by its last touch

  function Recency<K(==), V>(touches: seq<Touch<K, V>>): seq<Touch<K, V>> {
    if touches == [] then []
    else
      var n := |touches| - 1;
      Drop(Recency(touches[..n]), touches[n].key) + [touches[n]]
  }

  ghost predicate Unique<K, V>(r: seq<Touch<K, V>>) {
    forall i, j :: 0 <= i < j < |r| ==> r[i].key != r[j].key
  }

  ghost predicate Aging<K, V>(r: seq<Touch<K, V>>) {
    forall i, j :: 0 <= i < j < |r| ==> r[i].at <= r[j].at
  }

  lemma {:induction false} UniqueSize<K, V>(r: seq<Touch<K, V>>)
    requires Unique(r)
    ensures |KeysOf(r)| == |r|
  {
    if r != [] {
      var n := |r| - 1;
      UniqueSize(r[..n]);
      assert r == r[..n] + [r[n]];
      assert KeysOf(r) == KeysOf(r[..n]) + {r[n].key};
      assert r[n].key !in KeysOf(r[..n]);
    }
  }

  lemma KeysOfCat<K, V>(a: seq<Touch<K, V>>, b: seq<Touch<K, V>>)
    ensures KeysOf(a + b) == KeysOf(a) + KeysOf(b)
  {
  }

  lemma KeysOfMore<K, V>(r: seq<Touch<K, V>>, from: nat, t: Touch<K, V>)
    requires from <= |r|
    ensures KeysOf((r + [t])[from..]) == KeysOf(r[from..]) + {t.key}
  {
    assert (r + [t])[from..] == r[from..] + [t];
    KeysOfCat(r[from..], [t]);
    assert KeysOf([t]) == {t.key} by { assert [t][0] == t; }
  }

  lemma CutAt<K, V>(r: seq<Touch<K, V>>, p: nat, i: nat)
    requires p < |r| && i < |r| - 1
    ensures Cut(r, p)[i] == r[if i < p then i else i + 1]
  {
  }

  lemma CutKeeps<K, V>(r: seq<Touch<K, V>>, p: nat)
    requires p < |r|
    ensures Unique(r) ==> Unique(Cut(r, p)) && forall i :: 0 <= i < |r| - 1 ==> Cut(r, p)[i].key != r[p].key
    ensures Aging(r) ==> Aging(Cut(r, p))
  {
    forall i | 0 <= i < |r| - 1 ensures Cut(r, p)[i] == r[if i < p then i else i + 1] { CutAt(r, p, i); }
  }

  lemma DropKeeps<K, V>(r: seq<Touch<K, V>>, key: K)
    requires Unique(r)
    ensures Unique(Drop(r, key)) && !Has(Drop(r, key), key)
    ensures Aging(r) ==> Aging(Drop(r, key))
  {
    if Has(r, key) { CutKeeps(r, Position(r, key)); }
  }

  lemma {:induction false} RecencyUnique<K, V>(touches: seq<Touch<K, V>>)
    ensures Unique(Recency(touches))
  {
    if touches != [] {
      var n := |touches| - 1;
      RecencyUnique(touches[..n]);
      DropKeeps(Recency(touches[..n]), touches[n].key);
      var d := Drop(Recency(touches[..n]), touches[n].key);
      assert Position(d, touches[n].key) == |d|;
    }
  }

  // Where a key stands in the recency list: after it come exactly the keys touched since.
  ghost predicate Stands<K, V>(r: seq<Touch<K, V>>, touches: seq<Touch<K, V>>, key: K) {
    var i := LastIndex(touches, key);
    if i < 0 then !Has(r, key)
    else
      && Has(r, key) && r[Position(r, key)] == touches[i]
      && KeysOf(r[Position(r, key) + 1..]) == KeysOf(touches[i + 1..])
  }

  lemma Readd<K>(a: set<K>, b: set<K>, key: K)
    requires a == b - {key}
    ensures a + {key} == b + {key}
  {
  }

  lemma PositionIs<K, V>(r: seq<Touch<K, V>>, p: nat)
    requires p < |r| && forall j :: 0 <= j < p ==> r[j].key != r[p].key
    ensures Position(r, r[p].key) == p
  {
  }

  lemma FoundAfterAppend<K, V>(d: seq<Touch<K, V>>, j: nat, t: Touch<K, V>)
    requires Unique(d) && j < |d|
    ensures Position(d + [t], d[j].key) == j && (d + [t])[j] == d[j]
    ensures KeysOf((d + [t])[j + 1..]) == KeysOf(d[j + 1..]) + {t.key}
  {
    KeysOfMore(d, j + 1, t);
    assert (d + [t])[j] == d[j];
    PositionIs(d + [t], j);
  }

  lemma LastAfterAppend<K, V>(before: seq<Touch<K, V>>, key: K, t: Touch<K, V>)
    requires t.key != key && LastIndex(before, key) >= 0
    ensures LastIndex(before + [t], key) == LastIndex(before, key)
    ensures var i := LastIndex(before, key);
      (before + [t])[i] == before[i] && KeysOf((before + [t])[i + 1..]) == KeysOf(before[i + 1..]) + {t.key}
  {
    KeysOfMore(before, LastIndex(before, key) + 1, t);
    assert (before + [t])[..|before|] == before;
  }

  // Where an entry stands once another key is removed.
  function After<K(==), V>(r: seq<Touch<K, V>>, p: nat, other: K): int {
    if Position(r, other) < p then p - 1 else p
  }

  lemma AfterDrop<K, V>(r: seq<Touch<K, V>>, p: nat, other: K)
    requires Unique(r) && p < |r| && r[p].key != other
    ensures var d, j := Drop(r, other), After(r, p, other);
      0 <= j < |d| && d[j] == r[p] && KeysOf(d[j + 1..]) == KeysOf(r[p + 1..]) - {other}
  {
    var q, d, j := Position(r, other), Drop(r, other), After(r, p, other);
    if q < p {
      assert d[j + 1..] == r[p + 1..];
      assert other !in KeysOf(r[p + 1..]);
    } else if q < |r| {
      assert d[j + 1..] == r[p + 1..q] + r[q + 1..];
      assert r[p + 1..] == r[p + 1..q] + [r[q]] + r[q + 1..];
      KeysOfCat(r[p + 1..q], r[q + 1..]);
      KeysOfCat(r[p + 1..q] + [r[q]], r[q + 1..]);
      KeysOfCat(r[p + 1..q], [r[q]]);
      assert other !in KeysOf(r[p + 1..q]) && other !in KeysOf(r[q + 1..]);
    } else {
      assert other !in KeysOf(r[p + 1..]);
    }
  }

  lemma OtherKeyStands<K, V>(r: seq<Touch<K, V>>, before: seq<Touch<K, V>>, t: Touch<K, V>, key: K)
    requires Unique(r) && Stands(r, before, key) && t.key != key && LastIndex(before, key) >= 0
    ensures Stands(Drop(r, t.key) + [t], before + [t], key)
  {
    var d, i, p := Drop(r, t.key), LastIndex(before, key), Position(r, key);
    var j := After(r, p, t.key);
    DropKeeps(r, t.key);
    AfterDrop(r, p, t.key);
    FoundAfterAppend(d, j, t);
    LastAfterAppend(before, key, t);
    Readd(KeysOf(d[j + 1..]), KeysOf(before[i + 1..]), t.key);
  }

  lemma StepByRecency<K, V>(r: seq<Touch<K, V>>, before: seq<Touch<K, V>>, t: Touch<K, V>, key: K)
    requires Unique(r) && Stands(r, before, key)
    ensures Stands(Drop(r, t.key) + [t], before + [t], key)
  {
    var d := Drop(r, t.key);
    DropKeeps(r, t.key);
    assert (before + [t])[..|before|] == before;
    if t.key == key {
      PositionIs(d + [t], |d|);
    } else if LastIndex(before, key) >= 0 {
      OtherKeyStands(r, before, t, key);
    } else {
      assert forall j :: 0 <= j < |d| ==> d[j].key != key;
      assert Position(d + [t], key) == |d + [t]|;
    }
  }

  lemma {:induction false} StandsByRecency<K, V>(touches: seq<Touch<K, V>>, key: K)
    ensures Stands(Recency(touches), touches, key)
  {
    if touches != [] {
      var n := |touches| - 1;
      var t, before := touches[n], touches[..n];
      StandsByRecency(before, key);
      RecencyUnique(before);
      StepByRecency(Recency(before), before, t, key);
      assert touches == before + [t];
    }
  }

  // ---- the map is the young end of the recency list

  ghost predicate Suffix<K, V>(e: seq<Touch<K, V>>, r: seq<Touch<K, V>>) {
    |e| <= |r| && forall j :: 0 <= j < |e| ==> e[j] == r[|r| - |e| + j]
  }

  // The entries before the d-th are beyond the capacity or too old.
  ghost predicate Missing<K, V>(l: Limits, r: seq<Touch<K, V>>, d: int, now: int) {
    d <= |r| && forall j :: 0 <= j < d ==> j < |r| - l.maxEntries || !IsFresh(l, r[j].at, now)
  }

  // What is missing from entries is beyond the capacity or too old.
  ghost predicate Tracks<K, V>(l: Limits, entries: seq<Touch<K, V>>, r: seq<Touch<K, V>>, now: int) {
    Suffix(entries, r) && |entries| <= l.maxEntries && Missing(l, r, |r| - |entries|, now)
  }

  ghost predicate AllFresh<K, V>(l: Limits, entries: seq<Touch<K, V>>, now: int) {
    forall t :: t in entries ==> IsFresh(l, t.at, now)
  }

  ghost predicate NotLater<K, V>(r: seq<Touch<K, V>>, now: int) {
    Aging(r) && forall t :: t in r ==> t.at <= now
  }

  lemma {:induction false} FreshIsSuffix<K, V>(l: Limits, entries: seq<Touch<K, V>>, now: int)
    requires Aging(entries)
    ensures var c := |entries| - |Fresh(l, entries, now)|;
      && Fresh(l, entries, now) == entries[c..]
      && (forall j :: 0 <= j < c ==> !IsFresh(l, entries[j].at, now))
      && (forall j :: c <= j < |entries| ==> IsFresh(l, entries[j].at, now))
  {
    if entries != [] {
      var n := |entries| - 1;
      FreshIsSuffix(l, entries[..n], now);
      var c := n - |Fresh(l, entries[..n], now)|;
      if IsFresh(l, entries[n].at, now) {
        assert entries[c..] == entries[..n][c..] + [entries[n]];
        assert forall j :: 0 <= j < n ==> entries[..n][j] == entries[j];
      } else {
        forall j | 0 <= j < n ensures !IsFresh(l, entries[j].at, now) {
          assert entries[j].at <= entries[n].at;
        }
      }
    }
  }

  lemma PruneTracks<K, V>(l: Limits, s: State<K, V>, r: seq<Touch<K, V>>, now: int)
    requires Tracks(l, s.entries, r, now) && Aging(r)
    ensures var e := PruneAt(l, s, now).entries; Tracks(l, e, r, now) && AllFresh(l, e, now)
  {
    var d := |r| - |s.entries|;
    assert forall j :: 0 <= j < |s.entries| ==> s.entries[j] == r[d + j];
    FreshIsSuffix(l, s.entries, now);
    var e := Fresh(l, s.entries, now);
    forall j | 0 <= j < |r| - |e| ensures j < |r| - l.maxEntries || !IsFresh(l, r[j].at, now) {
      if j >= d { assert r[j] == s.entries[j - d]; }
    }
  }

  lemma SuffixHas<K, V>(e: seq<Touch<K, V>>, r: seq<Touch<K, V>>, p: nat)
    requires Suffix(e, r) && |r| - |e| <= p < |r|
    ensures e[p - (|r| - |e|)] == r[p] && r[p] in e
  {
    assert e[p - (|r| - |e|)] in e;
  }

  lemma SuffixPosition<K, V>(e: seq<Touch<K, V>>, r: seq<Touch<K, V>>, key: K)
    requires Unique(r) && Suffix(e, r)
    ensures Has(e, key) <==> Has(r, key) && Position(r, key) >= |r| - |e|
    ensures Has(e, key) ==> Position(e, key) == Position(r, key) - (|r| - |e|)
  {
    var p, d := Position(r, key), |r| - |e|;
    if p < |r| && p >= d {
      assert e[p - d] == r[p];
      PositionIs(e, p - d);
    }
  }

  lemma DropAt<K, V>(r: seq<Touch<K, V>>, key: K)
    ensures var d, p := Drop(r, key), Position(r, key);
      && |d| == (if p < |r| then |r| - 1 else |r|)
      && forall j :: 0 <= j < |d| ==> d[j] == if j < p then r[j] else r[j + 1]
  {
    var p := Position(r, key);
    if p < |r| {
      forall j | 0 <= j < |r| - 1 ensures Cut(r, p)[j] == if j < p then r[j] else r[j + 1] { CutAt(r, p, j); }
    }
  }

  lemma MissingAfterTouch<K, V>(l: Limits, r: seq<Touch<K, V>>, d: nat, key: K, value: V, now: int)
    requires Missing(l, r, d, now)
    ensures Missing(l, TouchAt(r, key, value, now), if Position(r, key) < d then d - 1 else d, now)
  {
    var f := Drop(r, key);
    DropAt(r, key);
    forall j | 0 <= j < if Position(r, key) < d then d - 1 else d
      ensures j < |f| + 1 - l.maxEntries || !IsFresh(l, f[j].at, now)
    {
      assert f[j] == if j < Position(r, key) then r[j] else r[j + 1];
    }
  }

  lemma SuffixNewest<K, V>(l: Limits, e: seq<Touch<K, V>>, r: seq<Touch<K, V>>)
    requires Suffix(e, r)
    ensures var n := Newest(l, e); |n| <= l.maxEntries && Suffix(n, r) && (|n| < |e| ==> |n| == l.maxEntries)
  {
  }

  lemma SuffixCut<K, V>(e: seq<Touch<K, V>>, r: seq<Touch<K, V>>, p: nat)
    requires Suffix(e, r) && p < |r| - |e|
    ensures Suffix(e, Cut(r, p))
  {
  }

  lemma SuffixCutBoth<K, V>(e: seq<Touch<K, V>>, r: seq<Touch<K, V>>, p: nat)
    requires Suffix(e, r) && |r| - |e| <= p < |r|
    ensures var q := p - (|r| - |e|); Suffix(Cut(e, q), Cut(r, p))
  {
  }

  lemma SuffixDrop<K, V>(e: seq<Touch<K, V>>, r: seq<Touch<K, V>>, key: K)
    requires Unique(r) && Suffix(e, r)
    ensures Suffix(Drop(e, key), Drop(r, key))
    ensures |Drop(r, key)| - |Drop(e, key)| == if Position(r, key) < |r| - |e| then |r| - |e| - 1 else |r| - |e|
  {
    SuffixPosition(e, r, key);
    var d, p := |r| - |e|, Position(r, key);
    if p < d {
      SuffixCut(e, r, p);
      assert Drop(e, key) == e && Drop(r, key) == Cut(r, p);
    } else if p < |r| {
      SuffixCutBoth(e, r, p);
      assert Drop(e, key) == Cut(e, p - d) && Drop(r, key) == Cut(r, p);
    }
  }

  lemma SuffixAppend<K, V>(e: seq<Touch<K, V>>, r: seq<Touch<K, V>>, t: Touch<K, V>)
    requires Suffix(e, r)
    ensures Suffix(e + [t], r + [t])
  {
  }

  // The step of the induction: a touch keeps the map at the young end.
  lemma TouchTracks<K, V>(l: Limits, entries: seq<Touch<K, V>>, r: seq<Touch<K, V>>, key: K, value: V, now: int)
    requires l.Valid() && Tracks(l, entries, r, now) && Unique(r)
    ensures Tracks(l, Newest(l, TouchAt(entries, key, value, now)), TouchAt(r, key, value, now), now)
  {
    SuffixDrop(entries, r, key);
    SuffixAppend(Drop(entries, key), Drop(r, key), Touch(key, value, now));
    SuffixNewest(l, TouchAt(entries, key, value, now), TouchAt(r, key, value, now));
    MissingAfterTouch(l, r, |r| - |entries|, key, value, now);
  }

  // The number of distinct keys touched since the last touch of key.
  ghost predicate Counted<K, V>(r: seq<Touch<K, V>>, touches: seq<Touch<K, V>>, key: K) {
    var i := LastIndex(touches, key);
    if i < 0 then !Has(r, key)
    else Has(r, key) && r[Position(r, key)] == touches[i] && |KeysOf(touches[i + 1..])| == |r| - 1 - Position(r, key)
  }

  lemma PresentByRecency<K, V>(l: Limits, r: seq<Touch<K, V>>, touches: seq<Touch<K, V>>, key: K, now: int)
    requires Counted(r, touches, key)
    ensures var p := Position(r, key);
      Present(l, touches, key, now) <==> p < |r| && IsFresh(l, r[p].at, now) && |r| - 1 - p < l.maxEntries
    ensures Present(l, touches, key, now) ==> touches[LastIndex(touches, key)] == r[Position(r, key)]
  {
  }

  lemma YoungEndHolds<K, V>(l: Limits, entries: seq<Touch<K, V>>, r: seq<Touch<K, V>>, key: K, now: int)
    requires Tracks(l, entries, r, now) && AllFresh(l, entries, now) && Unique(r)
    ensures var p := Position(r, key);
      Has(entries, key) <==> p < |r| && IsFresh(l, r[p].at, now) && |r| - 1 - p < l.maxEntries
    ensures Has(entries, key) ==> Has(r, key) && entries[Position(entries, key)] == r[Position(r, key)]
  {
    var d, p := |r| - |entries|, Position(r, key);
    SuffixPosition(entries, r, key);
    if p < |r| {
      if p >= d {
        SuffixHas(entries, r, p);
      } else {
        assert p < |r| - l.maxEntries || !IsFresh(l, r[p].at, now);
      }
    }
  }

  lemma KeysSince<K, V>(touches: seq<Touch<K, V>>, key: K)
    ensures Counted(Recency(touches), touches, key)
  {
    var r := Recency(touches);
    RecencyUnique(touches);
    StandsByRecency(touches, key);
    if Has(r, key) { UniqueSize(r[Position(r, key) + 1..]); }
  }

  // In a map that tracks the recency list and holds nothing stale, presence is what the touch log says.
  lemma HeldIffPresent<K, V>(l: Limits, entries: seq<Touch<K, V>>, touches: seq<Touch<K, V>>, key: K, now: int)
    requires Tracks(l, entries, Recency(touches), now) && AllFresh(l, entries, now)
    ensures Has(entries, key) <==> Present(l, touches, key, now)
    ensures Has(entries, key) ==> entries[Position(entries, key)].value == touches[LastIndex(touches, key)].value
  {
    RecencyUnique(touches);
    KeysSince(touches, key);
    YoungEndHolds(l, entries, Recency(touches), key, now);
    PresentByRecency(l, Recency(touches), touches, key, now);
  }

  lemma TouchKeepsOrder<K, V>(r: seq<Touch<K, V>>, key: K, value: V, now: int)
    requires Unique(r) && NotLater(r, now)
    ensures NotLater(TouchAt(r, key, value, now), now)
  {
    DropKeeps(r, key);
    var d := Drop(r, key);
    forall t | t in d ensures t.at <= now { assert t in r; }
  }

  // ---- the two main results

  lemma TracksLater<K, V>(l: Limits, entries: seq<Touch<K, V>>, r: seq<Touch<K, V>>, was: int, now: int)
    requires Tracks(l, entries, r, was) && NotLater(r, was) && was <= now
    ensures Tracks(l, entries, r, now) && NotLater(r, now)
  {
  }

  lemma RecencyMore<K, V>(touches: seq<Touch<K, V>>, t: Touch<K, V>)
    ensures Recency(touches + [t]) == TouchAt(Recency(touches), t.key, t.value, t.at)
  {
    assert (touches + [t])[..|touches|] == touches;
  }

  // A hit keeps the size.
  lemma TouchHits<K, V>(l: Limits, entries: seq<Touch<K, V>>, key: K, value: V, now: int)
    requires Has(entries, key) && |entries| <= l.maxEntries
    ensures Newest(l, TouchAt(entries, key, value, now)) == TouchAt(entries, key, value, now)
  {
  }

  lemma {:induction false} AllAreFresh<K, V>(l: Limits, entries: seq<Touch<K, V>>, now: int)
    requires AllFresh(l, entries, now)
    ensures Fresh(l, entries, now) == entries
  {
    if entries != [] {
      var n := |entries| - 1;
      AllAreFresh(l, entries[..n], now);
      assert entries[n] in entries;
    }
  }

  // The second prune of set evicts nothing by age.
  lemma TouchStaysFresh<K, V>(l: Limits, entries: seq<Touch<K, V>>, key: K, value: V, now: int)
    requires l.Valid() && AllFresh(l, entries, now)
    ensures Fresh(l, TouchAt(entries, key, value, now), now) == TouchAt(entries, key, value, now)
  {
    var e := TouchAt(entries, key, value, now);
    forall t | t in e ensures IsFresh(l, t.at, now) {
      assert t in entries || t.at == now;
    }
    AllAreFresh(l, e, now);
  }

  lemma StepTracks<K, V>(l: Limits, s: State<K, V>, touches: seq<Touch<K, V>>, e: Event<K, V>)
    requires l.Valid() && !e.op.Delete? && NotLater(Recency(touches), e.now)
    requires Tracks(l, s.entries, Recency(touches), e.now)
    ensures var more := touches + Touched(l, touches, e);
      Tracks(l, Step(l, s, e).entries, Recency(more), e.now) && NotLater(Recency(more), e.now)
  {
    var r := Recency(touches);
    var s1 := PruneAt(l, s, e.now);
    RecencyUnique(touches);
    PruneTracks(l, s, r, e.now);
    match e.op
    case Prune =>
      assert touches + [] == touches;
    case Get(key) =>
      HeldIffPresent(l, s1.entries, touches, key, e.now);
      if Has(s1.entries, key) {
        var value := touches[LastIndex(touches, key)].value;
        TouchTracks(l, s1.entries, r, key, value, e.now);
        TouchKeepsOrder(r, key, value, e.now);
        RecencyMore(touches, Touch(key, value, e.now));
        TouchHits(l, s1.entries, key, value, e.now);
      } else {
        assert touches + [] == touches;
      }
    case Set(key, value) =>
      TouchTracks(l, s1.entries, r, key, value, e.now);
      TouchKeepsOrder(r, key, value, e.now);
      RecencyMore(touches, Touch(key, value, e.now));
      TouchStaysFresh(l, s1.entries, key, value, e.now);
  }

  // After any steady history the map is the young end of the recency list of the touch log.
  lemma {:induction false} MapTracksLog<K, V>(l: Limits, log: seq<Event<K, V>>, now: int)
    requires l.Valid() && Steady(log) && (log != [] ==> log[|log| - 1].now <= now)
    ensures Tracks(l, Run(l, log).entries, Recency(Touches(l, log)), now)
    ensures NotLater(Recency(Touches(l, log)), now)
  {
    if log != [] {
      var n := |log| - 1;
      var e := log[n];
      MapTracksLog(l, log[..n], e.now);
      StepTracks(l, Run(l, log[..n]), Touches(l, log[..n]), e);
      TracksLater(l, Run(l, log).entries, Recency(Touches(l, log)), e.now, now);
    }
  }

  // get answers exactly what the touch log says: found iff the last touch of the key is younger than ttlMs
  // and fewer than maxEntries distinct keys were touched since.
  lemma GetFollowsTouchLog<K, V>(l: Limits, log: seq<Event<K, V>>, key: K, now: int)
    requires l.Valid() && Steady(log) && (log != [] ==> log[|log| - 1].now <= now)
    ensures Answer(l, Run(l, log), key, now) == Expected(l, Touches(l, log), key, now)
  {
    MapTracksLog(l, log, now);
    PruneTracks(l, Run(l, log), Recency(Touches(l, log)), now);
    HeldIffPresent(l, PruneAt(l, Run(l, log), now).entries, Touches(l, log), key, now);
  }
}
