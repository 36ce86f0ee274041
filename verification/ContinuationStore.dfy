/**
 * The bounded store of interaction continuations: entries expire, and when 1024 live entries are held the
 * one that expires first makes room. The reference is an unbounded map that remembers every put.
 */
module ContinuationStore {
  import opened FiniteSets
  import opened Options

  const CAPACITY := 1024

  /** A stored value with the instant at which it stops being valid */
  datatype Entry<V> = Entry(value: V, expires: int)

  type Entries<K, V> = map<K, Entry<V>>

  /** `retain(|_, entry| now < entry.expires)` */
  function Live<K, V>(m: Entries<K, V>, now: int): Entries<K, V> {
    map k | k in m && now < m[k].expires :: m[k]
  }

  ghost predicate IsOldest<K, V>(m: Entries<K, V>, k: K) {
    k in m && forall j :: j in m ==> m[k].expires <= m[j].expires
  }

  /** The states that a put may lead to; ties between oldest entries are broken by key order in the source. */
  ghost predicate PutLeadsTo<K, V>(m: Entries<K, V>, key: K, e: Entry<V>, now: int, after: Entries<K, V>) {
    var live := Live(m, now);
    if key !in live && |live| >= CAPACITY
    then exists oldest :: oldest in live && IsOldest(live, oldest) && after == (live - {oldest})[key := e]
    else after == live[key := e]
  }

  function Lookup<K, V>(m: Entries<K, V>, key: K, now: int): Option<Entry<V>> {
    if key in m && now < m[key].expires then Some(m[key]) else None
  }

  class InteractionsStore<K(==), V> {
    var entries: Entries<K, V>

    constructor ()
      ensures entries == map[]
    {
      entries := map[];
    }

    /** `InteractionsStore::put` */
    method Put(key: K, e: Entry<V>, now: int)
      modifies this
      ensures PutLeadsTo(old(entries), key, e, now, entries)
    {
      entries := map k | k in entries && now < entries[k].expires :: entries[k];
      assert entries == Live(old(entries), now);
      if key !in entries && |entries| >= CAPACITY {
        var oldest := FindOldest(entries);
        entries := entries - {oldest};
      }
      entries := entries[key := e];
    }

    /** `InteractionsStore::get`, which also drops expired entries */
    method Get(key: K, now: int) returns (r: Option<Entry<V>>)
      modifies this
      ensures entries == Live(old(entries), now)
      ensures r == Lookup(old(entries), key, now)
    {
      entries := map k | k in entries && now < entries[k].expires :: entries[k];
      if key in entries {
        return Some(entries[key]);
      }
      return None;
    }
  }

  method FindOldest<K(==), V>(m: Entries<K, V>) returns (oldest: K)
    requires m != map[]
    ensures IsOldest(m, oldest)
  {
    assert m.Keys != {};
    oldest :| oldest in m;
    var todo := m.Keys - {oldest};
    while todo != {}
      invariant todo <= m.Keys && oldest in m
      invariant forall j :: j in m && j !in todo ==> m[oldest].expires <= m[j].expires
      decreases |todo|
    {
      var k :| k in todo;
      if m[k].expires < m[oldest].expires {
        oldest := k;
      }
      todo := todo - {k};
    }
  }

  // ---------- Runs ----------

  /** One step of a run: a put, or a get, which only sweeps */
  datatype Op<K, V> = Put(key: K, entry: Entry<V>, now: int) | Get(key: K, now: int)

  ghost predicate StepLeadsTo<K, V>(m: Entries<K, V>, op: Op<K, V>, after: Entries<K, V>) {
    match op
    case Put(key, e, now) => PutLeadsTo(m, key, e, now, after)
    case Get(_, now) => after == Live(m, now)
  }

  /** `states[i]` is the store before `ops[i]`. */
  ghost predicate IsRun<K, V>(ops: seq<Op<K, V>>, states: seq<Entries<K, V>>) {
    && |states| == |ops| + 1 && states[0] == map[]
    && forall i :: 0 <= i < |ops| ==> StepLeadsTo(states[i], ops[i], states[i + 1])
  }

  /** The unbounded map: every put remembered */
  function Remembered<K, V>(ops: seq<Op<K, V>>): Entries<K, V> {
    if ops == [] then map[]
    else
      var rest := Remembered(ops[..|ops| - 1]);
      match ops[|ops| - 1]
      case Put(key, e, _) => rest[key := e]
      case Get(_, _) => rest
  }

  ghost predicate PartOf<K, V>(m: Entries<K, V>, all: Entries<K, V>) {
    forall k :: k in m ==> k in all && m[k] == all[k]
  }

  lemma LiveSize<K, V>(m: Entries<K, V>, now: int)
    ensures |Live(m, now)| <= |m|
  {
    SubsetSize(Live(m, now).Keys, m.Keys);
  }

  lemma StepKeepsBound<K, V>(m: Entries<K, V>, op: Op<K, V>, after: Entries<K, V>)
    requires StepLeadsTo(m, op, after) && |m| <= CAPACITY
    ensures |after| <= CAPACITY
  {
    LiveSize(m, op.now);
    if op.Put? {
      var live := Live(m, op.now);
      if op.key !in live && |live| >= CAPACITY {
        var oldest :| oldest in live && IsOldest(live, oldest) && after == (live - {oldest})[op.key := op.entry];
        assert after.Keys == live.Keys - {oldest} + {op.key};
      } else {
        assert after.Keys == live.Keys + {op.key};
      }
    }
  }

  lemma StepKeepsPart<K, V>(m: Entries<K, V>, op: Op<K, V>, after: Entries<K, V>, all: Entries<K, V>)
    requires StepLeadsTo(m, op, after) && PartOf(m, all)
    ensures PartOf(after, if op.Put? then all[op.key := op.entry] else all)
  {
  }

  lemma {:induction false} RunRefines<K, V>(ops: seq<Op<K, V>>, states: seq<Entries<K, V>>)
    requires IsRun(ops, states)
    ensures |states[|ops|]| <= CAPACITY
    ensures PartOf(states[|ops|], Remembered(ops))
  {
    hide StepLeadsTo, PartOf;
    var n := |ops| - 1;
    if ops == [] {
      NothingIsPart<K, V>();
    } else {
      var before := ops[..n];
      assert IsRun(before, states[..n + 1]);
      RunRefines(before, states[..n + 1]);
      assert StepLeadsTo(states[n], ops[n], states[n + 1]);
      StepKeepsBound(states[n], ops[n], states[n + 1]);
      StepKeepsPart(states[n], ops[n], states[n + 1], Remembered(before));
    }
  }

  lemma NothingIsPart<K, V>()
    ensures PartOf<K, V>(map[], map[])
  {
  }

  /** An entry that a put evicts while it is still valid expires no later than any entry that stays. */
  lemma EvictsOldest<K, V>(m: Entries<K, V>, key: K, e: Entry<V>, now: int, after: Entries<K, V>, gone: K, stays: K)
    requires PutLeadsTo(m, key, e, now, after)
    requires gone in m && now < m[gone].expires && gone !in after
    requires stays in after && stays != key
    ensures stays in m && m[gone].expires <= m[stays].expires && |Live(m, now)| >= CAPACITY
  {
    var live := Live(m, now);
    assert gone in live;
    var oldest :| oldest in live && IsOldest(live, oldest) && after == (live - {oldest})[key := e];
  }

  // ---------- When an entry may be missing ----------

  /** Puts never shorten: expiry times do not decrease over the run, as with a steady clock and a fixed lifetime. */
  ghost predicate ExpiriesAscend<K, V>(ops: seq<Op<K, V>>) {
    forall i, j :: 0 <= i < j < |ops| && ops[i].Put? && ops[j].Put? ==> ops[i].entry.expires <= ops[j].entry.expires
  }

  ghost predicate TimesAscend<K, V>(ops: seq<Op<K, V>>) {
    forall i, j :: 0 <= i < j < |ops| ==> ops[i].now <= ops[j].now
  }

  function Others<K, V>(all: Entries<K, V>, k: K): set<K>
    requires k in all
  {
    set j | j in all && j != k && all[j].expires >= all[k].expires
  }

  /** A remembered key that the store lacks has expired, or enough other keys outlive it. */
  ghost predicate MissingForReason<K, V>(m: Entries<K, V>, all: Entries<K, V>, now: int) {
    forall k :: k in all && k !in m ==> all[k].expires <= now || |Others(all, k)| >= CAPACITY
  }

  lemma {:induction false} RememberedBounded<K, V>(ops: seq<Op<K, V>>, limit: int)
    requires forall i :: 0 <= i < |ops| && ops[i].Put? ==> ops[i].entry.expires <= limit
    ensures forall k :: k in Remembered(ops) ==> Remembered(ops)[k].expires <= limit
  {
    if ops != [] {
      RememberedBounded(ops[..|ops| - 1], limit);
    }
  }

  lemma OthersGrow<K, V>(all: Entries<K, V>, k: K, key: K, e: Entry<V>)
    requires k in all && k != key
    requires forall j :: j in all ==> all[j].expires <= e.expires
    ensures |Others(all, k)| <= |Others(all[key := e], k)|
  {
    SubsetSize(Others(all, k), Others(all[key := e], k));
  }

  /** The entry evicted at full capacity is outlived by the 1023 that stay and by the new one. */
  lemma EvictedIsOutlived<K, V>(m: Entries<K, V>, key: K, e: Entry<V>, now: int, oldest: K, all: Entries<K, V>)
    requires PartOf(m, all) && key !in Live(m, now) && |Live(m, now)| >= CAPACITY
    requires IsOldest(Live(m, now), oldest)
    requires forall j :: j in all ==> all[j].expires <= e.expires
    ensures oldest != key && |Others(all[key := e], oldest)| >= CAPACITY
  {
    var live := Live(m, now);
    var stay := live.Keys - {oldest} + {key};
    assert |stay| == |live|;
    forall j | j in stay ensures j in Others(all[key := e], oldest) {
    }
    SubsetSize(stay, Others(all[key := e], oldest));
  }

  lemma PutKeepsReasons<K, V>(m: Entries<K, V>, key: K, e: Entry<V>, now: int, after: Entries<K, V>,
                              all: Entries<K, V>, before: int)
    requires PutLeadsTo(m, key, e, now, after) && PartOf(m, all) && before <= now
    requires forall j :: j in all ==> all[j].expires <= e.expires
    requires MissingForReason(m, all, before)
    ensures MissingForReason(after, all[key := e], now)
  {
    hide Others;
    var live := Live(m, now);
    forall k | k in all[key := e] && k !in after
      ensures all[key := e][k].expires <= now || |Others(all[key := e], k)| >= CAPACITY
    {
      if k !in m {
        OthersGrow(all, k, key, e);
      } else if k in live {
        var oldest :| oldest in live && IsOldest(live, oldest) && after == (live - {oldest})[key := e];
        EvictedIsOutlived(m, key, e, now, oldest, all);
      }
    }
  }

  lemma GetKeepsReasons<K, V>(m: Entries<K, V>, now: int, all: Entries<K, V>, before: int)
    requires PartOf(m, all) && before <= now && MissingForReason(m, all, before)
    ensures MissingForReason(Live(m, now), all, now)
  {
  }

  lemma {:induction false} RunKeepsReasons<K, V>(ops: seq<Op<K, V>>, states: seq<Entries<K, V>>, now: int)
    requires IsRun(ops, states) && ExpiriesAscend(ops) && TimesAscend(ops)
    requires forall i :: 0 <= i < |ops| ==> ops[i].now <= now
    ensures MissingForReason(states[|ops|], Remembered(ops), now)
  {
    hide MissingForReason, StepLeadsTo, PartOf;
    if ops == [] {
      NothingMissing<K, V>(now);
    } else {
      var n := |ops| - 1;
      var before, op := ops[..n], ops[n];
      assert IsRun(before, states[..n + 1]);
      RunRefines(before, states[..n + 1]);
      RunKeepsReasons(before, states[..n + 1], op.now);
      assert StepLeadsTo(states[n], op, states[n + 1]);
      StepKeepsReasons(ops, states);
      ReasonsStay(states[n + 1], Remembered(ops), op.now, now);
    }
  }

  lemma StepKeepsReasons<K, V>(ops: seq<Op<K, V>>, states: seq<Entries<K, V>>)
    requires |ops| > 0 && |states| == |ops| + 1 && ExpiriesAscend(ops)
    requires var n := |ops| - 1;
             && StepLeadsTo(states[n], ops[n], states[n + 1])
             && PartOf(states[n], Remembered(ops[..n]))
             && MissingForReason(states[n], Remembered(ops[..n]), ops[n].now)
    ensures MissingForReason(states[|ops|], Remembered(ops), ops[|ops| - 1].now)
  {
    hide MissingForReason, PartOf;
    var n := |ops| - 1;
    var op := ops[n];
    if op.Put? {
      RememberedBounded(ops[..n], op.entry.expires);
      PutKeepsReasons(states[n], op.key, op.entry, op.now, states[n + 1], Remembered(ops[..n]), op.now);
    } else {
      GetKeepsReasons(states[n], op.now, Remembered(ops[..n]), op.now);
    }
  }

  lemma NothingMissing<K, V>(now: int)
    ensures MissingForReason<K, V>(map[], map[], now)
  {
  }

  lemma ReasonsStay<K, V>(m: Entries<K, V>, all: Entries<K, V>, earlier: int, later: int)
    requires MissingForReason(m, all, earlier) && earlier <= later
    ensures MissingForReason(m, all, later)
  {
  }

  // ---------- Without any order of times ----------

  /** What operation `j` dropped: `k` had expired by its time, or made room for another key behind 1023 others. */
  ghost predicate DroppedAt<K, V>(ops: seq<Op<K, V>>, j: nat, k: K, e: Entry<V>)
    requires j < |ops|
  {
    var all := Remembered(ops[..j]);
    && k in all && all[k] == e
    && (e.expires <= ops[j].now || (ops[j].Put? && ops[j].key != k && |Others(all, k)| >= 1023))
  }

  ghost predicate WasDropped<K, V>(ops: seq<Op<K, V>>, k: K, e: Entry<V>) {
    exists j: nat :: j < |ops| && DroppedAt(ops, j, k, e)
  }

  lemma StepDrops<K, V>(m: Entries<K, V>, op: Op<K, V>, after: Entries<K, V>, all: Entries<K, V>, k: K)
    requires StepLeadsTo(m, op, after) && PartOf(m, all) && k in m && k !in after
    ensures all[k].expires <= op.now || (op.Put? && op.key != k && |Others(all, k)| >= CAPACITY - 1)
  {
    var live := Live(m, op.now);
    if k in live {
      var oldest :| oldest in live && IsOldest(live, oldest) && after == (live - {oldest})[op.key := op.entry];
      SubsetSize(live.Keys - {k}, Others(all, k));
    }
  }

  lemma DroppedEarlier<K, V>(ops: seq<Op<K, V>>, k: K, e: Entry<V>)
    requires ops != [] && WasDropped(ops[..|ops| - 1], k, e)
    ensures WasDropped(ops, k, e)
  {
    var before := ops[..|ops| - 1];
    var j: nat :| j < |before| && DroppedAt(before, j, k, e);
    assert before[..j] == ops[..j];
    assert DroppedAt(ops, j, k, e);
  }

  /** Whatever the times, a remembered key that the store lacks was dropped by one of the operations. */
  lemma {:induction false} MissingWasDropped<K, V>(ops: seq<Op<K, V>>, states: seq<Entries<K, V>>, k: K)
    requires IsRun(ops, states) && k in Remembered(ops) && k !in states[|ops|]
    ensures WasDropped(ops, k, Remembered(ops)[k])
  {
    hide StepLeadsTo, PartOf, Others;
    var n := |ops| - 1;
    var before, op := ops[..n], ops[n];
    assert IsRun(before, states[..n + 1]);
    assert StepLeadsTo(states[n], op, states[n + 1]);
    NewKeyStays(states[n], op, states[n + 1]);
    if k !in states[n] {
      MissingWasDropped(before, states[..n + 1], k);
      DroppedEarlier(ops, k, Remembered(ops)[k]);
    } else {
      RunRefines(before, states[..n + 1]);
      assert Remembered(before)[k] == Remembered(ops)[k];
      StepDrops(states[n], op, states[n + 1], Remembered(before), k);
      assert DroppedAt(ops, n, k, Remembered(ops)[k]);
    }
  }

  lemma NewKeyStays<K, V>(m: Entries<K, V>, op: Op<K, V>, after: Entries<K, V>)
    requires StepLeadsTo(m, op, after)
    ensures op.Put? ==> op.key in after
  {
  }

  /**
   * The store refines the unbounded map on every run: it never exceeds its capacity, a get answers only the
   * last put of that key while it is valid, and it answers nothing for a valid last put only if an operation
   * dropped it: one whose time lay past its expiry, or a put of another key when 1023 others expired no
   * earlier. With a steady clock and ascending expiry times, 1024 other keys' last puts expire no earlier.
   */
  lemma StoreRefinesMap<K, V>(ops: seq<Op<K, V>>, states: seq<Entries<K, V>>, key: K, now: int)
    requires IsRun(ops, states)
    ensures |states[|ops|]| <= 1024
    ensures var r := Lookup(states[|ops|], key, now);
            var all := Remembered(ops);
            && (r.Some? ==> key in all && r.value == all[key] && now < all[key].expires)
            && (r.None? && key in all && now < all[key].expires ==>
                  && WasDropped(ops, key, all[key])
                  && (ExpiriesAscend(ops) && TimesAscend(ops) && (forall i :: 0 <= i < |ops| ==> ops[i].now <= now) ==>
                        |Others(all, key)| >= CAPACITY))
  {
    hide StepLeadsTo, ExpiriesAscend, TimesAscend, WasDropped;
    RunRefines(ops, states);
    if ExpiriesAscend(ops) && TimesAscend(ops) && forall i :: 0 <= i < |ops| ==> ops[i].now <= now {
      RunKeepsReasons(ops, states, now);
    }
    if key in Remembered(ops) && key !in states[|ops|] {
      MissingWasDropped(ops, states, key);
    }
  }
}
