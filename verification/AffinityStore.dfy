/**
 * Durable session-to-account bindings: a map with an idle time limit and a size cap. The reference for
 * trimming is an order statistic: a live binding stays when fewer than `cap` live ones are strictly newer.
 */
module AffinityStore {
  import opened FiniteSets
  import opened Options
  import opened Sorting

  const BINDING_TTL_SECS := 6 * 3600
  const MAX_BINDINGS: nat := 20_000

  datatype Binding = Binding(account: string, lastUsed: int)

  /** A 64-bit session digest */
  type SessionKey = k: nat | k < 0x1_0000_0000_0000_0000
  type Bindings = map<SessionKey, Binding>

  predicate IsLive(b: Binding, now: int) {
    now - b.lastUsed <= BINDING_TTL_SECS
  }

  function Live(m: Bindings, now: int): Bindings {
    map k | k in m && IsLive(m[k], now) :: m[k]
  }

  /** The bindings used strictly after `t` */
  function Newer(m: Bindings, t: int): set<SessionKey> {
    set k | k in m && m[k].lastUsed > t
  }

  /** What a trim keeps */
  function Trimmed(m: Bindings, now: int, cap: nat): Bindings {
    var live := Live(m, now);
    map k | k in live && |Newer(live, live[k].lastUsed)| < cap :: live[k]
  }

  // ---------- Trimming as the source does it ----------

  const AGE_KEY: int -> Key := (age: int) => Key(age, 0)

  function CountNewer(ages: seq<int>, t: int): nat {
    if ages == [] then 0 else (if ages[0] > t then 1 else 0) + CountNewer(ages[1..], t)
  }

  lemma {:induction false} CountNewerSnoc(ages: seq<int>, age: int, t: int)
    ensures CountNewer(ages + [age], t) == CountNewer(ages, t) + (if age > t then 1 else 0)
  {
    if ages != [] {
      assert (ages + [age])[1..] == ages[1..] + [age];
      CountNewerSnoc(ages[1..], age, t);
    }
  }

  lemma {:induction false} CountNewerInsert(x: int, s: seq<int>, t: int)
    ensures CountNewer(Insert(x, s, AGE_KEY), t) == CountNewer(s, t) + (if x > t then 1 else 0)
  {
    if s == [] || Leq(AGE_KEY(x), AGE_KEY(s[0])) {
      assert ([x] + s)[1..] == s;
    } else {
      CountNewerInsert(x, s[1..], t);
      var r := Insert(x, s[1..], AGE_KEY);
      assert ([s[0]] + r)[1..] == r;
    }
  }

  lemma {:induction false} CountNewerSorted(s: seq<int>, t: int)
    ensures CountNewer(SortBy(s, AGE_KEY), t) == CountNewer(s, t)
  {
    if s != [] {
      CountNewerSorted(s[1..], t);
      CountNewerInsert(s[0], SortBy(s[1..], AGE_KEY), t);
    }
  }

  lemma {:induction false} CountNewerBounds(s: seq<int>, t: int)
    ensures CountNewer(s, t) <= |s|
    ensures (forall i :: 0 <= i < |s| ==> s[i] > t) ==> CountNewer(s, t) == |s|
    ensures (forall i :: 0 <= i < |s| ==> s[i] <= t) ==> CountNewer(s, t) == 0
  {
    if s != [] {
      CountNewerBounds(s[1..], t);
    }
  }

  lemma {:induction false} CountNewerConcat(a: seq<int>, b: seq<int>, t: int)
    ensures CountNewer(a + b, t) == CountNewer(a, t) + CountNewer(b, t)
  {
    if a == [] {
      assert a + b == b;
    } else {
      assert (a + b)[1..] == a[1..] + b;
      CountNewerConcat(a[1..], b, t);
    }
  }

  /** The source's cutoff, the element `cap` places from the end, separates exactly by the order statistic. */
  lemma CutoffSeparates(ages: seq<int>, cap: nat, t: int)
    requires Sorted(ages, AGE_KEY)
    requires 0 < cap <= |ages|
    ensures t >= ages[|ages| - cap] <==> CountNewer(ages, t) < cap
  {
    var i := |ages| - cap;
    if t >= ages[i] {
      var head := ages[..i + 1];
      assert ages == head + ages[i + 1..];
      CountNewerConcat(head, ages[i + 1..], t);
      forall j | 0 <= j < |head| ensures head[j] <= t {
        assert j < i ==> Leq(AGE_KEY(ages[j]), AGE_KEY(ages[i]));
      }
      CountNewerBounds(head, t);
      CountNewerBounds(ages[i + 1..], t);
    } else {
      var tail := ages[i..];
      assert ages == ages[..i] + tail;
      CountNewerConcat(ages[..i], tail, t);
      forall j | 0 <= j < |tail| ensures tail[j] > t {
        assert j > 0 ==> Leq(AGE_KEY(ages[i]), AGE_KEY(ages[i + j]));
      }
      CountNewerBounds(tail, t);
    }
  }

  /** `ages` lists the times of the bindings `m`. */
  ghost predicate Tallies(ages: seq<int>, m: Bindings) {
    |ages| == |m| && forall t :: CountNewer(ages, t) == |Newer(m, t)|
  }

  lemma TalliesNone()
    ensures Tallies([], map[])
  {
    var none: Bindings := map[];
    assert forall t :: Newer(none, t) == {};
  }

  lemma TalliesOneMore(ages: seq<int>, m: Bindings, k: SessionKey, b: Binding)
    requires Tallies(ages, m) && k !in m
    ensures Tallies(ages + [b.lastUsed], m[k := b])
  {
    assert m[k := b].Keys == m.Keys + {k};
    forall t ensures CountNewer(ages + [b.lastUsed], t) == |Newer(m[k := b], t)| {
      CountNewerSnoc(ages, b.lastUsed, t);
      NewerInsert(m, k, b, t);
    }
  }

  method CollectAges(m: Bindings) returns (ages: seq<int>)
    ensures Tallies(ages, m)
  {
    hide Tallies;
    ages := [];
    var todo := m.Keys;
    ghost var done: Bindings := map[];
    TalliesNone();
    while todo != {}
      invariant todo <= m.Keys && done == m - todo
      invariant Tallies(ages, done)
      decreases |todo|
    {
      var k :| k in todo;
      TalliesOneMore(ages, done, k, m[k]);
      ages := ages + [m[k].lastUsed];
      done := done[k := m[k]];
      todo := todo - {k};
    }
    assert m - {} == m;
  }

  lemma NewerInsert(m: Bindings, k: SessionKey, b: Binding, t: int)
    requires k !in m
    ensures |Newer(m[k := b], t)| == |Newer(m, t)| + (if b.lastUsed > t then 1 else 0)
  {
    if b.lastUsed > t {
      assert Newer(m[k := b], t) == Newer(m, t) + {k};
    } else {
      assert Newer(m[k := b], t) == Newer(m, t);
    }
  }

  lemma CutoffKeeps(live: Bindings, ages: seq<int>, cap: nat, k: SessionKey)
    requires Tallies(ages, live) && 0 < cap <= |ages| && k in live
    ensures live[k].lastUsed >= SortBy(ages, AGE_KEY)[|ages| - cap] <==> |Newer(live, live[k].lastUsed)| < cap
  {
    hide SortBy, Newer;
    var sorted := SortBy(ages, AGE_KEY);
    SortByIsStableSort(ages, AGE_KEY);
    CutoffSeparates(sorted, cap, live[k].lastUsed);
    CountNewerSorted(ages, live[k].lastUsed);
  }

  lemma SmallEnough(live: Bindings, cap: nat, k: SessionKey)
    requires |live| <= cap && k in live
    ensures |Newer(live, live[k].lastUsed)| < cap
  {
    SubsetSize(Newer(live, live[k].lastUsed), live.Keys - {k});
  }

  /** `AffinityStore::trim` with its cap */
  method Trim(m: Bindings, now: int, cap: nat) returns (r: Bindings)
    requires cap > 0
    ensures r == Trimmed(m, now, cap)
  {
    hide SortBy, Newer, CountNewer;
    r := map k | k in m && now - m[k].lastUsed <= BINDING_TTL_SECS :: m[k];
    ghost var live := Live(m, now);
    assert r == live;
    if |r| > cap {
      var ages := CollectAges(r);
      var sorted := SortBy(ages, AGE_KEY);
      var cutoff := sorted[|sorted| - cap];
      forall k | k in live ensures live[k].lastUsed >= cutoff <==> |Newer(live, live[k].lastUsed)| < cap {
        CutoffKeeps(live, ages, cap, k);
      }
      r := map k | k in r && r[k].lastUsed >= cutoff :: r[k];
    } else {
      forall k | k in live ensures |Newer(live, live[k].lastUsed)| < cap {
        SmallEnough(live, cap, k);
      }
    }
  }

  // ---------- What a trim guarantees ----------

  /** The live bindings used at `t` or after */
  function NotOlder(m: Bindings, t: int): set<SessionKey> {
    set k | k in m && m[k].lastUsed >= t
  }

  /** A trim drops the oldest: every live binding it drops is strictly older than every one it keeps. */
  lemma TrimDropsOldest(m: Bindings, now: int, cap: nat, dropped: SessionKey, kept: SessionKey)
    requires dropped in Live(m, now) && dropped !in Trimmed(m, now, cap)
    requires kept in Trimmed(m, now, cap)
    ensures m[dropped].lastUsed < m[kept].lastUsed
  {
    var live := Live(m, now);
    if m[dropped].lastUsed >= m[kept].lastUsed {
      SubsetSize(Newer(live, m[dropped].lastUsed), Newer(live, m[kept].lastUsed));
    }
  }

  lemma {:induction false} NewestOf(m: Bindings, keys: set<SessionKey>) returns (k: SessionKey)
    requires keys != {} && keys <= m.Keys
    ensures k in keys && forall j :: j in keys ==> m[j].lastUsed <= m[k].lastUsed
  {
    var x :| x in keys;
    if keys == {x} {
      k := x;
    } else {
      k := NewestOf(m, keys - {x});
      if m[x].lastUsed > m[k].lastUsed {
        k := x;
      }
    }
  }

  lemma {:induction false} OldestOf(m: Bindings, keys: set<SessionKey>) returns (k: SessionKey)
    requires keys != {} && keys <= m.Keys
    ensures k in keys && forall j :: j in keys ==> m[k].lastUsed <= m[j].lastUsed
  {
    var x :| x in keys;
    if keys == {x} {
      k := x;
    } else {
      k := OldestOf(m, keys - {x});
      if m[x].lastUsed < m[k].lastUsed {
        k := x;
      }
    }
  }

  /** A trim keeps at least `cap` bindings when that many are live, and otherwise all of them. */
  lemma TrimKeepsEnough(m: Bindings, now: int, cap: nat)
    requires cap > 0
    ensures |Trimmed(m, now, cap)| >= if |Live(m, now)| < cap then |Live(m, now)| else cap
    ensures |Live(m, now)| <= cap ==> Trimmed(m, now, cap) == Live(m, now)
  {
    var live := Live(m, now);
    var kept := Trimmed(m, now, cap);
    var gone := live.Keys - kept.Keys;
    if gone == {} {
      assert kept.Keys == live.Keys;
    } else {
      var k := NewestOf(live, gone);
      assert Newer(live, live[k].lastUsed) <= kept.Keys;
      SubsetSize(Newer(live, live[k].lastUsed), kept.Keys);
      SubsetSize(Newer(live, live[k].lastUsed) + {k}, live.Keys);
    }
  }

  /** No tie crosses the cap: bindings within the newest `cap` never share their time with too many others. */
  ghost predicate NoTieAtCap(live: Bindings, cap: nat) {
    forall k :: k in live && |Newer(live, live[k].lastUsed)| < cap ==> |NotOlder(live, live[k].lastUsed)| <= cap
  }

  /** A trim gets down to the cap exactly when no tie crosses it. */
  lemma TrimRespectsCap(m: Bindings, now: int, cap: nat)
    ensures |Trimmed(m, now, cap)| <= cap <==> NoTieAtCap(Live(m, now), cap)
  {
    var live := Live(m, now);
    var kept := Trimmed(m, now, cap);
    if |kept| <= cap {
      forall k | k in live && |Newer(live, live[k].lastUsed)| < cap
        ensures |NotOlder(live, live[k].lastUsed)| <= cap
      {
        forall j | j in NotOlder(live, live[k].lastUsed) ensures j in kept {
          SubsetSize(Newer(live, live[j].lastUsed), Newer(live, live[k].lastUsed));
        }
        SubsetSize(NotOlder(live, live[k].lastUsed), kept.Keys);
      }
    } else {
      var k := OldestOf(live, kept.Keys);
      SubsetSize(kept.Keys, NotOlder(live, live[k].lastUsed));
      assert !NoTieAtCap(live, cap);
    }
  }

  /** With distinct times a trim always gets down to the cap. */
  lemma DistinctTimesRespectCap(m: Bindings, now: int, cap: nat)
    requires forall j, k :: j in m && k in m && m[j].lastUsed == m[k].lastUsed ==> j == k
    ensures |Trimmed(m, now, cap)| <= cap
  {
    var live := Live(m, now);
    forall k | k in live && |Newer(live, live[k].lastUsed)| < cap
      ensures |NotOlder(live, live[k].lastUsed)| <= cap
    {
      assert NotOlder(live, live[k].lastUsed) == Newer(live, live[k].lastUsed) + {k};
    }
    TrimRespectsCap(m, now, cap);
  }

  /** `n` bindings that were all used in the same second */
  function SameSecond(n: nat): (m: Bindings)
    requires n < 0x1_0000_0000_0000_0000
    ensures forall k :: k in m ==> k < n && m[k] == Binding("a", 0)
    ensures |m| == n
  {
    if n == 0 then map[]
    else
      var rest := SameSecond(n - 1);
      var m := rest[n - 1 := Binding("a", 0)];
      assert m.Keys == rest.Keys + {n - 1};
      m
  }

  /** The cap can be exceeded: any number of bindings used in one second survives a trim whole. */
  lemma TiesExceedCap(n: nat)
    requires MAX_BINDINGS < n < 0x1_0000_0000_0000_0000
    ensures |Trimmed(SameSecond(n), 0, MAX_BINDINGS)| > MAX_BINDINGS
  {
    var m := SameSecond(n);
    assert Live(m, 0) == m;
    assert Newer(m, 0) == {};
    assert Trimmed(m, 0, MAX_BINDINGS) == m;
  }

  /** Whatever is newer than a live binding is live too, so expiry does not change who is within the cap. */
  lemma TrimmedMembers(m: Bindings, now: int, cap: nat, k: SessionKey)
    ensures k in Trimmed(m, now, cap) <==> k in m && IsLive(m[k], now) && |Newer(m, m[k].lastUsed)| < cap
  {
    if k in m && IsLive(m[k], now) {
      assert Newer(Live(m, now), m[k].lastUsed) == Newer(m, m[k].lastUsed);
    }
  }

  /** Trimming twice, at two times in order, is trimming once at the later time. */
  lemma TrimComposes(m: Bindings, earlier: int, later: int, cap: nat)
    requires earlier <= later
    ensures Trimmed(Trimmed(m, earlier, cap), later, cap) == Trimmed(m, later, cap)
  {
    hide Trimmed;
    var once := Trimmed(m, earlier, cap);
    var twice, direct := Trimmed(once, later, cap), Trimmed(m, later, cap);
    assert forall k :: k in once ==> k in m && once[k] == m[k] by { TrimmedIsPart(m, earlier, cap); }
    assert forall k :: k in twice ==> k in once && twice[k] == once[k] by { TrimmedIsPart(once, later, cap); }
    assert forall k :: k in direct ==> k in m && direct[k] == m[k] by { TrimmedIsPart(m, later, cap); }
    forall k: SessionKey ensures k in twice <==> k in direct {
      TrimmedMembers(m, earlier, cap, k);
      TrimmedMembers(m, later, cap, k);
      TrimmedMembers(once, later, cap, k);
      if k in once {
        SubsetSize(Newer(once, once[k].lastUsed), Newer(m, m[k].lastUsed));
      }
    }
  }

  lemma TrimmedIsPart(m: Bindings, now: int, cap: nat)
    ensures forall k :: k in Trimmed(m, now, cap) ==> k in m && Trimmed(m, now, cap)[k] == m[k]
  {
  }

  // ---------- The store over whole runs ----------

  function AfterPut(m: Bindings, key: SessionKey, account: string, now: int, cap: nat): Bindings {
    var inserted := m[key := Binding(account, now)];
    if |inserted| > cap then Trimmed(inserted, now, cap) else inserted
  }

  function Lookup(m: Bindings, key: SessionKey, now: int): Option<string> {
    if key in m && IsLive(m[key], now) then Some(m[key].account) else None
  }

  /** A binding is answered for six hours after its use. */
  lemma AnsweredForSixHours(m: Bindings, key: SessionKey, now: int)
    ensures Lookup(m, key, now) == if key in m && now <= m[key].lastUsed + 21_600 then Some(m[key].account) else None
  {
  }

  /** A put drops nothing while at most 20000 sessions are bound, and trims to 20000 from then on. */
  lemma PutTrimsAbove20000(m: Bindings, key: SessionKey, account: string, now: int)
    ensures var inserted := m[key := Binding(account, now)];
            AfterPut(m, key, account, now, MAX_BINDINGS) == if |inserted| > 20_000 then Trimmed(inserted, now, 20_000) else inserted
  {
  }

  /** A put keeps its own binding exactly when fewer than `cap` live bindings carry a later time. */
  lemma PutKeepsOwnBinding(m: Bindings, key: SessionKey, account: string, now: int, cap: nat)
    requires cap > 0
    ensures key in AfterPut(m, key, account, now, cap) <==>
            |Newer(Live(m[key := Binding(account, now)], now), now)| < cap
  {
    var inserted := m[key := Binding(account, now)];
    var live := Live(inserted, now);
    assert live[key] == Binding(account, now);
    if |inserted| <= cap {
      assert Newer(live, now) <= inserted.Keys - {key};
      SubsetSize(Newer(live, now), inserted.Keys - {key});
    }
  }

  /** What happens to the map of a running store: requests bind sessions, the snapshotter trims. */
  datatype Op = Put(key: SessionKey, account: string, now: int) | Prune(now: int)

  /** The map after `ops`, in a process that loaded `file` at time `start` */
  function AfterOps(file: Bindings, start: int, ops: seq<Op>, cap: nat): Bindings {
    if ops == [] then Trimmed(file, start, cap)
    else
      var before := AfterOps(file, start, ops[..|ops| - 1], cap);
      match ops[|ops| - 1]
      case Put(key, account, now) => AfterPut(before, key, account, now, cap)
      case Prune(now) => Trimmed(before, now, cap)
  }

  /** Every put remembered, nothing forgotten */
  function LastPuts(file: Bindings, ops: seq<Op>): Bindings {
    if ops == [] then file
    else
      var before := LastPuts(file, ops[..|ops| - 1]);
      match ops[|ops| - 1]
      case Put(key, account, now) => before[key := Binding(account, now)]
      case Prune(_) => before
  }

  /** The store never holds anything but the last put of a key. */
  lemma {:induction false} StoreHoldsLastPuts(file: Bindings, start: int, ops: seq<Op>, cap: nat)
    ensures forall k :: k in AfterOps(file, start, ops, cap) ==>
              k in LastPuts(file, ops) && AfterOps(file, start, ops, cap)[k] == LastPuts(file, ops)[k]
  {
    if ops != [] {
      StoreHoldsLastPuts(file, start, ops[..|ops| - 1], cap);
    }
  }

  /** The time of the last operation */
  function Clock(start: int, ops: seq<Op>): int {
    if ops == [] then start else ops[|ops| - 1].now
  }

  /** A clock that never goes back: not while the file was written, not since it was loaded */
  ghost predicate TimesAscend(file: Bindings, start: int, ops: seq<Op>) {
    && (forall k :: k in file ==> file[k].lastUsed <= start)
    && (forall i :: 0 <= i < |ops| ==> start <= ops[i].now)
    && (forall i, j :: 0 <= i < j < |ops| ==> ops[i].now <= ops[j].now)
  }

  /** `k` is missing for a reason: its binding has expired, or `cap` keys were put at a later time. */
  ghost predicate MissingForReason(last: Bindings, store: Bindings, now: int, cap: nat) {
    forall k :: k in last && k !in store ==> !IsLive(last[k], now) || |Newer(last, last[k].lastUsed)| >= cap
  }

  lemma {:induction false} LastPutsBounded(file: Bindings, start: int, ops: seq<Op>)
    requires TimesAscend(file, start, ops)
    ensures forall k :: k in LastPuts(file, ops) ==> LastPuts(file, ops)[k].lastUsed <= Clock(start, ops)
  {
    if ops != [] {
      var before := ops[..|ops| - 1];
      LastPutsBounded(file, start, before);
      assert Clock(start, before) <= Clock(start, ops);
    }
  }

  lemma NewerGrows(last: Bindings, key: SessionKey, b: Binding, t: int)
    requires key in last ==> last[key].lastUsed <= b.lastUsed
    ensures |Newer(last, t)| <= |Newer(last[key := b], t)|
  {
    SubsetSize(Newer(last, t), Newer(last[key := b], t));
  }

  ghost predicate PartOf(store: Bindings, last: Bindings) {
    forall k :: k in store ==> k in last && store[k] == last[k]
  }

  lemma PutKeepsReasons(last: Bindings, store: Bindings, before: int, p: Op, cap: nat)
    requires cap > 0 && p.Put? && before <= p.now
    requires PartOf(store, last)
    requires forall k :: k in last ==> last[k].lastUsed <= p.now
    requires MissingForReason(last, store, before, cap)
    ensures MissingForReason(last[p.key := Binding(p.account, p.now)],
                             AfterPut(store, p.key, p.account, p.now, cap), p.now, cap)
  {
    var b := Binding(p.account, p.now);
    var newLast, inserted := last[p.key := b], store[p.key := b];
    var after := AfterPut(store, p.key, p.account, p.now, cap);
    var live := Live(inserted, p.now);
    forall k | k in newLast && k !in after
      ensures !IsLive(newLast[k], p.now) || |Newer(newLast, newLast[k].lastUsed)| >= cap
    {
      if k in inserted {
        SubsetSize(Newer(live, inserted[k].lastUsed), Newer(newLast, inserted[k].lastUsed));
      } else {
        NewerGrows(last, p.key, b, last[k].lastUsed);
      }
    }
  }

  lemma PruneKeepsReasons(last: Bindings, store: Bindings, before: int, now: int, cap: nat)
    requires before <= now && PartOf(store, last)
    requires MissingForReason(last, store, before, cap)
    ensures MissingForReason(last, Trimmed(store, now, cap), now, cap)
  {
    hide Trimmed;
    forall k | k in last && k !in Trimmed(store, now, cap)
      ensures !IsLive(last[k], now) || |Newer(last, last[k].lastUsed)| >= cap
    {
      if k in store {
        TrimmedMembers(store, now, cap, k);
        SubsetSize(Newer(store, store[k].lastUsed), Newer(last, last[k].lastUsed));
      }
    }
  }

  lemma {:induction false} RunKeepsReasons(file: Bindings, start: int, ops: seq<Op>, cap: nat)
    requires cap > 0 && TimesAscend(file, start, ops)
    ensures MissingForReason(LastPuts(file, ops), AfterOps(file, start, ops, cap), Clock(start, ops), cap)
  {
    hide MissingForReason, AfterPut, Trimmed;
    if ops == [] {
      assert MissingForReason(file, file, start, cap) by { NothingMissing(file, start, cap); }
      PruneKeepsReasons(file, file, start, start, cap);
    } else {
      var n := |ops| - 1;
      var before, op := ops[..n], ops[n];
      StoreHoldsLastPuts(file, start, before, cap);
      LastPutsBounded(file, start, before);
      RunKeepsReasons(file, start, before, cap);
      var last, store, clock := LastPuts(file, before), AfterOps(file, start, before, cap), Clock(start, before);
      assert clock <= op.now;
      match op
      case Put(_, _, _) => PutKeepsReasons(last, store, clock, op, cap);
      case Prune(now) => PruneKeepsReasons(last, store, clock, now, cap);
    }
  }

  lemma NothingMissing(m: Bindings, now: int, cap: nat)
    ensures MissingForReason(m, m, now, cap)
  {
  }

  /**
   * The store over every run of puts and trims after a load: a lookup answers the account of the key's last
   * put, in the file or since, and only while that put is within the time limit. Under a clock that never
   * goes back it answers nothing only if the key was never put, its last put expired, or at least `cap`
   * other keys were put later.
   */
  lemma StoreAnswersLastPut(file: Bindings, start: int, ops: seq<Op>, key: SessionKey, now: int, cap: nat)
    requires cap > 0
    ensures var r := Lookup(AfterOps(file, start, ops, cap), key, now);
            var last := LastPuts(file, ops);
            && (r.Some? ==> key in last && IsLive(last[key], now) && r.value == last[key].account)
            && (r.None? && TimesAscend(file, start, ops) && Clock(start, ops) <= now ==>
                  key !in last || !IsLive(last[key], now) || |Newer(last, last[key].lastUsed)| >= cap)
  {
    StoreHoldsLastPuts(file, start, ops, cap);
    if TimesAscend(file, start, ops) {
      RunKeepsReasons(file, start, ops, cap);
    }
  }

  /** Under a clock that never goes back, the latest put is found as long as it is live, whatever trims follow it. */
  lemma LastPutIsFound(file: Bindings, start: int, ops: seq<Op>, i: nat, now: int, cap: nat)
    requires cap > 0 && TimesAscend(file, start, ops) && Clock(start, ops) <= now
    requires i < |ops| && ops[i].Put? && forall j :: i < j < |ops| ==> ops[j].Prune?
    requires IsLive(Binding(ops[i].account, ops[i].now), now)
    ensures Lookup(AfterOps(file, start, ops, cap), ops[i].key, now) == Some(ops[i].account)
  {
    hide AfterOps, MissingForReason;
    var last := LastPuts(file, ops);
    LatestIsLast(file, start, ops, i);
    StoreAnswersLastPut(file, start, ops, ops[i].key, now, cap);
    assert Newer(last, ops[i].now) == {};
  }

  lemma {:induction false} LatestIsLast(file: Bindings, start: int, ops: seq<Op>, i: nat)
    requires TimesAscend(file, start, ops)
    requires i < |ops| && ops[i].Put? && forall j :: i < j < |ops| ==> ops[j].Prune?
    ensures var last := LastPuts(file, ops);
            && ops[i].key in last && last[ops[i].key] == Binding(ops[i].account, ops[i].now)
            && forall k :: k in last ==> last[k].lastUsed <= ops[i].now
  {
    var before := ops[..|ops| - 1];
    if i == |ops| - 1 {
      LastPutsBounded(file, start, ops);
    } else {
      LatestIsLast(file, start, before, i);
    }
  }
}
