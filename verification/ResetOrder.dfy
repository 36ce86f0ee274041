/**
 * Ordering Claude subscription accounts by when their five-hour window resets: the ranking, its cache,
 * and the in-place reordering of a candidate list.
 */
module ResetOrder {
  import opened Options
  import opened Sequences
  import opened Sorting

  const REFRESH_INTERVAL_SECS := 1800
  const I64_MAX := 0x7FFF_FFFF_FFFF_FFFF
  const USIZE_MAX := 0xFFFF_FFFF_FFFF_FFFF
  const MIN_REMAINING_PERCENT := 10.0

  datatype Window = Window(usedPercent: Option<real>, resetAt: Option<int>)

  /** A pool member; `subscription` is `is_claude_subscription`. */
  datatype Member = Member(id: string, subscription: bool, primary: Window, secondary: Window)

  // ---------- Ranking ----------

  function ActiveReset(m: Member, now: int): Option<int> {
    if m.primary.resetAt.Some? && m.primary.resetAt.value > now then m.primary.resetAt else None
  }

  datatype Entry = Entry(reset: int, index: nat, id: string)

  function EntryOf(m: Member, index: nat, now: int): Entry {
    var active := ActiveReset(m, now);
    Entry(if active.Some? then active.value else I64_MAX, index, m.id)
  }

  /** The subscription members from position `from` on, with their sort keys */
  function EntriesFrom(members: seq<Member>, from: nat, now: int): seq<Entry>
    decreases |members| - from
  {
    if from >= |members| then []
    else (if members[from].subscription then [EntryOf(members[from], from, now)] else [])
         + EntriesFrom(members, from + 1, now)
  }

  const ENTRY_KEY: Entry -> Key := (e: Entry) => Key(e.reset, e.index)

  /** Position of each identifier; with a repeated identifier the last position stays. */
  function Positions(es: seq<Entry>, from: nat): map<string, nat>
    decreases |es| - from
  {
    if from >= |es| then map[] else map[es[from].id := from] + Positions(es, from + 1)
  }

  /** `rank_by_five_hour_reset` */
  function RankByReset(members: seq<Member>, now: int): map<string, nat> {
    Positions(SortBy(EntriesFrom(members, 0, now), ENTRY_KEY), 0)
  }

  // ---------- What a rank means ----------

  ghost predicate DistinctIds(members: seq<Member>) {
    forall i, j :: 0 <= i < j < |members| && members[i].subscription && members[j].subscription ==>
      members[i].id != members[j].id
  }

  ghost predicate IdsDistinct(es: seq<Entry>) {
    forall i, j :: 0 <= i < j < |es| ==> es[i].id != es[j].id
  }

  lemma {:induction false} EntriesAre(members: seq<Member>, from: nat, now: int, e: Entry)
    ensures e in EntriesFrom(members, from, now) <==>
            from <= e.index < |members| && members[e.index].subscription && e == EntryOf(members[e.index], e.index, now)
    decreases |members| - from
  {
    hide ActiveReset;
    if from < |members| {
      var first := if members[from].subscription then [EntryOf(members[from], from, now)] else [];
      assert e in EntriesFrom(members, from, now) <==> e in first || e in EntriesFrom(members, from + 1, now);
      EntriesAre(members, from + 1, now, e);
    }
  }

  lemma {:induction false} PositionOf(es: seq<Entry>, from: nat, id: string)
    ensures id in Positions(es, from) ==>
              var i := Positions(es, from)[id];
              from <= i < |es| && es[i].id == id && forall j :: i < j < |es| ==> es[j].id != id
    ensures id !in Positions(es, from) ==> forall j :: from <= j < |es| ==> es[j].id != id
    decreases |es| - from
  {
    if from < |es| {
      PositionOf(es, from + 1, id);
    }
  }

  /** An identifier's rank is the last position at which it stands. */
  lemma PositionsAre(es: seq<Entry>, from: nat)
    ensures forall k :: k in Positions(es, from) ==>
              var i := Positions(es, from)[k];
              from <= i < |es| && es[i].id == k && forall j :: i < j < |es| ==> es[j].id != k
    ensures forall i :: from <= i < |es| ==> es[i].id in Positions(es, from)
  {
    hide Positions;
    forall k | k in Positions(es, from)
      ensures var i := Positions(es, from)[k];
              from <= i < |es| && es[i].id == k && forall j :: i < j < |es| ==> es[j].id != k
    {
      PositionOf(es, from, k);
    }
    forall i | from <= i < |es| ensures es[i].id in Positions(es, from) {
      PositionOf(es, from, es[i].id);
    }
  }

  lemma {:induction false} EntriesDistinct(members: seq<Member>, from: nat, now: int)
    requires DistinctIds(members)
    ensures IdsDistinct(EntriesFrom(members, from, now))
    decreases |members| - from
  {
    if from < |members| {
      EntriesDistinct(members, from + 1, now);
      var rest := EntriesFrom(members, from + 1, now);
      forall e | e in rest ensures e.id != members[from].id || !members[from].subscription {
        EntriesAre(members, from + 1, now, e);
      }
      assert forall j :: 0 <= j < |rest| ==> rest[j] in rest;
    }
  }

  lemma {:induction false} DistinctCounts(es: seq<Entry>)
    requires IdsDistinct(es)
    ensures forall e :: e in es ==> multiset(es)[e] == 1
  {
    if es != [] {
      DistinctCounts(es[1..]);
      assert es == [es[0]] + es[1..];
      assert es[0] !in es[1..];
    }
  }

  lemma SortedEntriesDistinct(es: seq<Entry>, sorted: seq<Entry>)
    requires multiset(sorted) == multiset(es)
    requires IdsDistinct(es)
    ensures IdsDistinct(sorted)
  {
    DistinctCounts(es);
    forall i, j | 0 <= i < j < |sorted| ensures sorted[i].id != sorted[j].id {
      var a, b := sorted[i], sorted[j];
      assert a in multiset(sorted) && b in multiset(sorted);
      assert a in es && b in es;
      assert sorted == sorted[..i] + [a] + sorted[i + 1..j] + [b] + sorted[j + 1..];
      assert a == b ==> multiset(sorted)[a] >= 2;
    }
  }

  /** The sorted entries: each subscription member, in the order of its key */
  lemma SortedEntries(members: seq<Member>, now: int) returns (es: seq<Entry>)
    ensures es == SortBy(EntriesFrom(members, 0, now), ENTRY_KEY)
    ensures Sorted(es, ENTRY_KEY)
    ensures DistinctIds(members) ==> IdsDistinct(es)
    ensures forall e :: e in es <==>
              e.index < |members| && members[e.index].subscription && e == EntryOf(members[e.index], e.index, now)
  {
    hide SortBy, DistinctIds;
    var raw := EntriesFrom(members, 0, now);
    es := SortBy(raw, ENTRY_KEY);
    SortByIsStableSort(raw, ENTRY_KEY);
    if DistinctIds(members) {
      EntriesDistinct(members, 0, now);
      SortedEntriesDistinct(raw, es);
    }
    forall e ensures e in es <==>
              e.index < |members| && members[e.index].subscription && e == EntryOf(members[e.index], e.index, now)
    {
      EntriesAre(members, 0, now, e);
      assert e in es <==> e in multiset(es);
      assert e in raw <==> e in multiset(raw);
    }
  }

  /** `ranks` gives every identifier of `order`, and nothing else, its position. */
  ghost predicate Numbers(order: seq<string>, ranks: map<string, nat>) {
    && (forall k :: 0 <= k < |order| ==> order[k] in ranks && ranks[order[k]] == k)
    && (forall id :: id in ranks ==> id in order)
  }

  ghost predicate IsSubscription(members: seq<Member>, id: string) {
    exists i :: 0 <= i < |members| && members[i].subscription && members[i].id == id
  }

  lemma EntryIdsAreSubscriptions(members: seq<Member>, now: int, es: seq<Entry>, id: string)
    requires forall e :: e in es <==>
               e.index < |members| && members[e.index].subscription && e == EntryOf(members[e.index], e.index, now)
    ensures IsSubscription(members, id) <==> exists k :: 0 <= k < |es| && es[k].id == id
  {
    if IsSubscription(members, id) {
      var i :| 0 <= i < |members| && members[i].subscription && members[i].id == id;
      assert EntryOf(members[i], i, now) in es;
    }
    if k :| 0 <= k < |es| && es[k].id == id {
      assert es[k] in es;
      assert members[es[k].index].id == id;
    }
  }

  /** `ranks` counts up from 0 without gaps. */
  ghost predicate Gapless(ranks: map<string, nat>) {
    exists order: seq<string> :: Numbers(order, ranks)
  }

  lemma DistinctMeansGapless(es: seq<Entry>)
    ensures IdsDistinct(es) <==> Gapless(Positions(es, 0))
  {
    hide Positions;
    var ranks := Positions(es, 0);
    PositionsAre(es, 0);
    if IdsDistinct(es) {
      var order := seq(|es|, k requires 0 <= k < |es| => es[k].id);
      assert forall k :: 0 <= k < |es| ==> order[k] == es[k].id;
      forall id | id in ranks ensures id in order {
        assert order[ranks[id]] == id;
      }
      assert Numbers(order, ranks);
    }
    if Gapless(ranks) {
      var order: seq<string> :| Numbers(order, ranks);
      GaplessMeansDistinct(es, ranks, order);
    }
  }

  lemma GaplessMeansDistinct(es: seq<Entry>, ranks: map<string, nat>, order: seq<string>)
    requires Numbers(order, ranks)
    requires forall k :: k in ranks ==>
               var i := ranks[k]; i < |es| && es[i].id == k && forall j :: i < j < |es| ==> es[j].id != k
    requires forall i :: 0 <= i < |es| ==> es[i].id in ranks
    ensures IdsDistinct(es)
  {
    if es != [] {
      var last := es[|es| - 1].id;
      assert ranks[last] == |es| - 1;
      var k :| 0 <= k < |order| && order[k] == last;
      assert |es| <= |order|;
    }
    forall i | 0 <= i < |es| ensures ranks[es[i].id] == i {
      assert order[i] in ranks && ranks[order[i]] == i;
    }
  }

  lemma EntriesDistinctMeansMembersDistinct(members: seq<Member>, now: int, es: seq<Entry>)
    requires forall e :: e in es <==>
               e.index < |members| && members[e.index].subscription && e == EntryOf(members[e.index], e.index, now)
    requires IdsDistinct(es)
    ensures DistinctIds(members)
  {
    forall i, j | 0 <= i < j < |members| && members[i].subscription && members[j].subscription
      ensures members[i].id != members[j].id
    {
      var a, b := EntryOf(members[i], i, now), EntryOf(members[j], j, now);
      assert a in es && b in es && a != b;
      var k :| 0 <= k < |es| && es[k] == a;
      var l :| 0 <= l < |es| && es[l] == b;
      assert k != l;
    }
  }

  /**
   * The ranks name the subscription members, and no one else, and differ between identifiers. They count from 0
   * without gaps if and only if no two subscription members share an identifier.
   */
  lemma RanksNumberSubscriptions(members: seq<Member>, now: int)
    ensures forall id :: id in RankByReset(members, now) <==> IsSubscription(members, id)
    ensures var ranks := RankByReset(members, now); forall a, b :: a in ranks && b in ranks && ranks[a] == ranks[b] ==> a == b
    ensures Gapless(RankByReset(members, now)) <==> DistinctIds(members)
  {
    hide SortBy, DistinctIds, EntriesFrom, IsSubscription, Positions, IdsDistinct, Gapless;
    var es := SortedEntries(members, now);
    PositionsAre(es, 0);
    forall id ensures id in RankByReset(members, now) <==> IsSubscription(members, id) {
      EntryIdsAreSubscriptions(members, now, es, id);
    }
    DistinctMeansGapless(es);
    if IdsDistinct(es) {
      EntriesDistinctMeansMembersDistinct(members, now, es);
    }
  }

  /** A subscription member that stands in the pool twice leaves a gap: only its later position is kept. */
  lemma RepeatedMemberLeavesGap(m: Member, now: int)
    requires m.subscription
    ensures !Gapless(RankByReset([m, m], now))
  {
    hide RankByReset, Gapless;
    RanksNumberSubscriptions([m, m], now);
    assert [m, m][0].id == [m, m][1].id;
  }

  /** Of the subscription members with its identifier, the `i`th is the one that sorts last. */
  ghost predicate SortsLast(members: seq<Member>, now: int, i: nat) {
    && i < |members| && members[i].subscription
    && forall j :: 0 <= j < |members| && members[j].subscription && members[j].id == members[i].id ==>
         Leq(ENTRY_KEY(EntryOf(members[j], j, now)), ENTRY_KEY(EntryOf(members[i], i, now)))
  }

  lemma RankIsLastPosition(members: seq<Member>, now: int, es: seq<Entry>, i: nat) returns (k: nat)
    requires SortsLast(members, now, i) && Sorted(es, ENTRY_KEY)
    requires forall e :: e in es <==>
               e.index < |members| && members[e.index].subscription && e == EntryOf(members[e.index], e.index, now)
    ensures k < |es| && es[k] == EntryOf(members[i], i, now) && members[i].id in Positions(es, 0)
    ensures Positions(es, 0)[members[i].id] == k
  {
    hide Positions, ActiveReset;
    var e := EntryOf(members[i], i, now);
    PositionsAre(es, 0);
    assert e in es;
    var j :| 0 <= j < |es| && es[j] == e;
    k := Positions(es, 0)[e.id];
    assert es[k] in es && es[k].id == e.id && j <= k;
    assert j < k ==> Leq(ENTRY_KEY(es[j]), ENTRY_KEY(es[k]));
    assert Leq(ENTRY_KEY(es[k]), ENTRY_KEY(e));
  }

  /**
   * A member is ranked before another exactly when its active window resets sooner, or at the same time and
   * it stands earlier in the pool; a member without an active window counts as resetting last. When several
   * members share an identifier, the one that sorts last stands for them.
   */
  lemma RanksFollowResets(members: seq<Member>, now: int, i: nat, j: nat)
    requires SortsLast(members, now, i) && SortsLast(members, now, j)
    ensures var ranks := RankByReset(members, now);
            && members[i].id in ranks && members[j].id in ranks
            && (ranks[members[i].id] <= ranks[members[j].id] <==>
                Leq(ENTRY_KEY(EntryOf(members[i], i, now)), ENTRY_KEY(EntryOf(members[j], j, now))))
  {
    hide SortBy, DistinctIds, EntriesFrom, SortsLast, Positions;
    var es := SortedEntries(members, now);
    var ki := RankIsLastPosition(members, now, es, i);
    var kj := RankIsLastPosition(members, now, es, j);
    if kj < ki {
      assert Leq(ENTRY_KEY(es[kj]), ENTRY_KEY(es[ki]));
      assert i == j ==> ki == kj;
    } else if ki < kj {
      assert Leq(ENTRY_KEY(es[ki]), ENTRY_KEY(es[kj]));
    }
  }

  /** The member has a window that resets after `now`, and before the end of time. */
  predicate ResetsAt(m: Member, now: int, reset: int) {
    m.primary.resetAt == Some(reset) && now < reset < I64_MAX
  }

  /** No reset is known, or it has passed. */
  predicate HasNoReset(m: Member, now: int) {
    m.primary.resetAt == None || m.primary.resetAt.value <= now
  }

  /**
   * The ranking in the members' own terms: the earlier reset first and, at the same reset, the earlier place in the
   * pool; members without a reset to come after all of these, in pool order.
   */
  lemma RankOrderByWindows(members: seq<Member>, now: int, i: nat, j: nat)
    requires SortsLast(members, now, i) && SortsLast(members, now, j) && i != j
    ensures var ranks := RankByReset(members, now);
            var a, b := members[i], members[j];
            && a.id in ranks && b.id in ranks
            && (forall r, q :: ResetsAt(a, now, r) && ResetsAt(b, now, q) && a.id != b.id ==>
                  (ranks[a.id] < ranks[b.id] <==> r < q || (r == q && i < j)))
            && (forall r :: ResetsAt(a, now, r) && HasNoReset(b, now) && a.id != b.id ==> ranks[a.id] < ranks[b.id])
            && (HasNoReset(a, now) && HasNoReset(b, now) && a.id != b.id ==> (ranks[a.id] < ranks[b.id] <==> i < j))
  {
    hide RankByReset, SortsLast;
    InPool(members, now, i);
    InPool(members, now, j);
    RanksFollowResets(members, now, i, j);
    RanksFollowResets(members, now, j, i);
  }

  lemma InPool(members: seq<Member>, now: int, i: nat)
    requires SortsLast(members, now, i)
    ensures i < |members| && members[i].subscription
  {
  }

  // ---------- The cache ----------

  /** The earliest active reset among the subscription members from `from` on */
  function EarliestReset(members: seq<Member>, from: nat, now: int): Option<int>
    decreases |members| - from
  {
    if from >= |members| then None
    else
      var rest := EarliestReset(members, from + 1, now);
      var reset := if members[from].subscription then ActiveReset(members[from], now) else None;
      if reset.None? || (rest.Some? && rest.value <= reset.value) then rest else reset
  }

  /** The second at which a ranking computed at `now` is recomputed */
  function ValidUntil(members: seq<Member>, now: int): int {
    var nextCheck := if now + REFRESH_INTERVAL_SECS > I64_MAX then I64_MAX else now + REFRESH_INTERVAL_SECS;
    var reset := EarliestReset(members, 0, now);
    if reset.Some? && reset.value < nextCheck then reset.value else nextCheck
  }

  type Ranks = map<string, nat>
  datatype Cached = Cached(validUntil: int, ranks: Ranks)

  /** One call of `ranks`: the cache afterwards */
  function AfterRanks(cached: Option<Cached>, members: seq<Member>, now: int): Cached {
    if cached.Some? && now < cached.value.validUntil then cached.value
    else Cached(ValidUntil(members, now), RankByReset(members, now))
  }

  class ClaudeResetOrder {
    var cached: Option<Cached>

    constructor ()
      ensures cached == None
    {
      cached := None;
    }

    /** `ClaudeResetOrder::ranks` */
    method Ranks(members: seq<Member>, now: int) returns (ranks: Ranks)
      modifies this
      ensures cached == Some(AfterRanks(old(cached), members, now))
      ensures ranks == cached.value.ranks
    {
      if cached.Some? && now < cached.value.validUntil {
        return cached.value.ranks;
      }
      ranks := RankByReset(members, now);
      cached := Some(Cached(ValidUntil(members, now), ranks));
    }
  }

  lemma {:induction false} EarliestResetBound(members: seq<Member>, from: nat, now: int, i: nat)
    requires from <= i < |members| && members[i].subscription && ActiveReset(members[i], now).Some?
    ensures EarliestReset(members, from, now).Some?
    ensures EarliestReset(members, from, now).value <= ActiveReset(members[i], now).value
    decreases |members| - from
  {
    if from < i {
      EarliestResetBound(members, from + 1, now, i);
    }
  }

  lemma {:induction false} EntriesStay(members: seq<Member>, from: nat, now: int, later: int)
    requires now <= later < ValidUntil(members, now)
    ensures EntriesFrom(members, from, later) == EntriesFrom(members, from, now)
    decreases |members| - from
  {
    if from < |members| {
      EntriesStay(members, from + 1, now, later);
      var m := members[from];
      if m.subscription && ActiveReset(m, now).Some? {
        EarliestResetBound(members, 0, now, from);
      }
    }
  }

  /** Until it expires, a ranking is what a fresh computation over the same windows would give. */
  lemma RankingStaysFresh(members: seq<Member>, now: int, later: int)
    requires now <= later < ValidUntil(members, now)
    ensures RankByReset(members, later) == RankByReset(members, now)
  {
    EntriesStay(members, 0, now, later);
  }

  /** The windows seen by a call and the time of the call */
  datatype Call = Call(members: seq<Member>, now: int)

  /** The cache after a series of calls */
  function AfterCalls(calls: seq<Call>): (c: Option<Cached>)
    ensures calls != [] ==> c.Some?
  {
    if calls == [] then None
    else
      var last := calls[|calls| - 1];
      Some(AfterRanks(AfterCalls(calls[..|calls| - 1]), last.members, last.now))
  }

  ghost predicate TimesAscend(calls: seq<Call>) {
    forall i, j :: 0 <= i < j < |calls| ==> calls[i].now <= calls[j].now
  }

  /** Call `i` computed the ranking that call `j` returned. */
  ghost predicate ComputedAt(calls: seq<Call>, i: nat, c: Cached) {
    && i < |calls|
    && c.validUntil == ValidUntil(calls[i].members, calls[i].now)
    && c.ranks == RankByReset(calls[i].members, calls[i].now)
  }

  lemma {:induction false} ServedFrom(calls: seq<Call>) returns (i: nat)
    requires calls != [] && TimesAscend(calls)
    ensures ComputedAt(calls, i, AfterCalls(calls).value)
    ensures i < |calls| - 1 ==> calls[|calls| - 1].now < AfterCalls(calls).value.validUntil
  {
    var n := |calls| - 1;
    var before := AfterCalls(calls[..n]);
    if before.Some? && calls[n].now < before.value.validUntil {
      assert calls[..n] != [];
      i := ServedFrom(calls[..n]);
    } else {
      i := n;
    }
  }

  /**
   * Over every series of calls with non-decreasing times, the answer was computed less than 30 minutes
   * earlier, and it is the fresh ranking whenever the windows are those of the call that computed it.
   */
  lemma CachedRanksAgree(calls: seq<Call>) returns (i: nat)
    requires calls != [] && TimesAscend(calls)
    ensures ComputedAt(calls, i, AfterCalls(calls).value)
    ensures var last := calls[|calls| - 1];
            && last.now - calls[i].now < 1800
            && (last.members == calls[i].members ==> AfterCalls(calls).value.ranks == RankByReset(last.members, last.now))
  {
    hide RankByReset, AfterCalls;
    i := ServedFrom(calls);
    var last := calls[|calls| - 1];
    if i < |calls| - 1 {
      assert calls[i].now <= last.now;
      if last.members == calls[i].members {
        RankingStaysFresh(last.members, calls[i].now, last.now);
      }
    }
  }

  /**
   * How long a ranking is kept: until the first reset among the ranked members, but at most 30 minutes. Until then
   * it is answered as it is; the first call at or after that time computes a new one.
   */
  lemma RankingExpires(calls: seq<Call>, call: Call)
    requires calls != [] && call.now < I64_MAX - 1800
    ensures var before, after := AfterCalls(calls).value, AfterCalls(calls + [call]).value;
            && (call.now < before.validUntil ==> after == before)
            && (call.now >= before.validUntil ==>
                  && after.ranks == RankByReset(call.members, call.now)
                  && call.now < after.validUntil <= call.now + 1800
                  && (forall i, r | 0 <= i < |call.members| && call.members[i].subscription && call.members[i].primary.resetAt == Some(r) ::
                        r > call.now ==> after.validUntil <= r)
                  && (after.validUntil < call.now + 1800 ==>
                        exists i :: 0 <= i < |call.members| && call.members[i].subscription
                                    && call.members[i].primary.resetAt == Some(after.validUntil)))
  {
    hide RankByReset, EarliestReset;
    assert (calls + [call])[..|calls|] == calls;
    EarliestIs(call.members, 0, call.now);
  }

  lemma {:induction false} EarliestIs(members: seq<Member>, from: nat, now: int)
    ensures var e := EarliestReset(members, from, now);
            && (e.Some? ==> e.value > now && exists i :: from <= i < |members| && members[i].subscription && members[i].primary.resetAt == e)
            && (forall i, r :: from <= i < |members| && members[i].subscription && members[i].primary.resetAt == Some(r) && r > now ==>
                  e.Some? && e.value <= r)
    decreases |members| - from
  {
    if from < |members| {
      EarliestIs(members, from + 1, now);
    }
  }

  // ---------- Reordering the candidate list ----------

  predicate IsClaude(members: seq<Member>, index: nat) {
    index < |members| && members[index].subscription
  }

  lemma ClaudeIs(members: seq<Member>, index: nat)
    ensures IsClaude(members, index) <==> index < |members| && members[index].subscription
  {
  }

  predicate SpentWindow(w: Window, now: int) {
    && (w.resetAt.None? || w.resetAt.value > now)
    && w.usedPercent.Some? && 100.0 - w.usedPercent.value < MIN_REMAINING_PERCENT
  }

  predicate IsNearlySpent(m: Member, now: int) {
    SpentWindow(m.primary, now) || SpentWindow(m.secondary, now)
  }

  /** Nearly spent accounts last, then by rank; an account without a rank comes after all ranked ones. */
  function SlotKey(members: seq<Member>, ranks: Ranks, now: int): nat -> Key {
    (index: nat) =>
      if index < |members| then
        var m := members[index];
        Key(if IsNearlySpent(m, now) then 1 else 0, if m.id in ranks then ranks[m.id] else USIZE_MAX)
      else Key(0, 0)
  }

  /** The entries of `s` that are Claude subscription accounts, in order */
  function Pick(s: seq<nat>, members: seq<Member>): seq<nat> {
    if s == [] then []
    else (if IsClaude(members, s[0]) then [s[0]] else []) + Pick(s[1..], members)
  }

  /** `s` with its Claude entries replaced by `vals`, in order */
  function Fill(s: seq<nat>, vals: seq<nat>, members: seq<Member>): (r: seq<nat>)
    requires |vals| == |Pick(s, members)|
    ensures |r| == |s|
  {
    if s == [] then []
    else if IsClaude(members, s[0]) then [vals[0]] + Fill(s[1..], vals[1..], members)
    else [s[0]] + Fill(s[1..], vals, members)
  }

  function Reordered(s: seq<nat>, members: seq<Member>, ranks: Ranks, now: int): seq<nat> {
    Fill(s, SortBy(Pick(s, members), SlotKey(members, ranks, now)), members)
  }

  lemma {:induction false} PickConcat(s: seq<nat>, t: seq<nat>, members: seq<Member>)
    ensures Pick(s + t, members) == Pick(s, members) + Pick(t, members)
  {
    hide IsClaude;
    if s == [] {
      assert s + t == t;
    } else {
      assert (s + t)[1..] == s[1..] + t;
      PickConcat(s[1..], t, members);
      Associative(if IsClaude(members, s[0]) then [s[0]] else [], Pick(s[1..], members), Pick(t, members));
    }
  }

  lemma PickOfNone(members: seq<Member>)
    ensures Pick([], members) == []
  {
  }

  lemma PickOfOne(x: nat, members: seq<Member>)
    ensures Pick([x], members) == if IsClaude(members, x) then [x] else []
  {
    assert [x][1..] == [];
  }

  /** The Claude entry at position `i` is the one that as many Claude entries precede as in `s[..i]`. */
  lemma PickAt(s: seq<nat>, i: nat, members: seq<Member>)
    requires i < |s| && IsClaude(members, s[i])
    ensures |Pick(s[..i], members)| < |Pick(s, members)|
    ensures Pick(s, members)[|Pick(s[..i], members)|] == s[i]
  {
    assert s == s[..i] + ([s[i]] + s[i + 1..]);
    PickConcat(s[..i], [s[i]] + s[i + 1..], members);
    PickConcat([s[i]], s[i + 1..], members);
    PickOfOne(s[i], members);
  }

  lemma {:induction false} FillAt(s: seq<nat>, vals: seq<nat>, i: nat, members: seq<Member>)
    requires |vals| == |Pick(s, members)| && i < |s|
    ensures !IsClaude(members, s[i]) ==> Fill(s, vals, members)[i] == s[i]
    ensures IsClaude(members, s[i]) ==>
              |Pick(s[..i], members)| < |vals| && Fill(s, vals, members)[i] == vals[|Pick(s[..i], members)|]
  {
    if IsClaude(members, s[i]) {
      PickAt(s, i, members);
    }
    if i > 0 {
      var more := if IsClaude(members, s[0]) then vals[1..] else vals;
      FillAt(s[1..], more, i - 1, members);
      assert s[..i][1..] == s[1..][..i - 1];
    }
  }

  /** `reorder_claude_slots` */
  method ReorderClaudeSlots(ordered: array<nat>, members: seq<Member>, ranks: Ranks, now: int)
    modifies ordered
    ensures ordered[..] == Reordered(old(ordered[..]), members, ranks, now)
  {
    hide Pick, Fill, SlotKey, SortBy;
    ghost var s := ordered[..];
    PickOfNone(members);
    var slots: seq<nat> := [];
    var claude: seq<nat> := [];
    for i := 0 to ordered.Length
      invariant ordered[..] == s
      invariant claude == Pick(s[..i], members)
      invariant |slots| == |claude|
      invariant forall k :: 0 <= k < |slots| ==>
                  slots[k] < i && IsClaude(members, s[slots[k]]) && |Pick(s[..slots[k]], members)| == k
      invariant forall p :: 0 <= p < i && IsClaude(members, s[p]) ==> p in slots
    {
      assert s[..i + 1] == s[..i] + [s[i]];
      PickConcat(s[..i], [s[i]], members);
      PickOfOne(s[i], members);
      if ordered[i] < |members| && members[ordered[i]].subscription {
        slots := slots + [i];
        claude := claude + [ordered[i]];
      }
    }
    assert s[..ordered.Length] == s;
    claude := SortBy(claude, SlotKey(members, ranks, now));
    WriteSlots(ordered, slots, claude, members, s);
  }

  /** The final loop: put the sorted accounts into the slots. */
  method WriteSlots(ordered: array<nat>, slots: seq<nat>, vals: seq<nat>, members: seq<Member>, ghost s: seq<nat>)
    requires ordered[..] == s
    requires |slots| == |vals| == |Pick(s, members)|
    requires forall k :: 0 <= k < |slots| ==>
               slots[k] < |s| && IsClaude(members, s[slots[k]]) && |Pick(s[..slots[k]], members)| == k
    requires forall p :: 0 <= p < |s| && IsClaude(members, s[p]) ==> p in slots
    modifies ordered
    ensures ordered[..] == Fill(s, vals, members)
  {
    hide IsClaude, Pick, Fill;
    for k := 0 to |slots|
      invariant forall p :: 0 <= p < ordered.Length && !(exists j :: 0 <= j < k && slots[j] == p) ==> ordered[p] == s[p]
      invariant forall j :: 0 <= j < k ==> ordered[slots[j]] == vals[j]
    {
      ordered[slots[k]] := vals[k];
    }
    forall p | 0 <= p < ordered.Length ensures ordered[p] == Fill(s, vals, members)[p] {
      FillAt(s, vals, p, members);
      if IsClaude(members, s[p]) {
        var j :| 0 <= j < |slots| && slots[j] == p;
        assert ordered[slots[j]] == vals[j];
      }
    }
  }

  lemma {:induction false} PickOfFill(s: seq<nat>, vals: seq<nat>, members: seq<Member>)
    requires |vals| == |Pick(s, members)|
    requires forall v :: v in vals ==> IsClaude(members, v)
    ensures Pick(Fill(s, vals, members), members) == vals
  {
    var r := Fill(s, vals, members);
    if s != [] {
      assert r == [r[0]] + r[1..];
      if IsClaude(members, s[0]) {
        assert vals[0] in vals;
        PickOfFill(s[1..], vals[1..], members);
        assert r[1..] == Fill(s[1..], vals[1..], members);
        assert vals == [vals[0]] + vals[1..];
      } else {
        PickOfFill(s[1..], vals, members);
        assert r[1..] == Fill(s[1..], vals, members);
      }
    }
  }

  /** The elements of `s`; a name of its own keeps the solver from taking multisets apart. */
  function Bag(s: seq<nat>): multiset<nat> {
    multiset(s)
  }

  lemma BagCons(s: seq<nat>)
    requires s != []
    ensures Bag(s) == multiset{s[0]} + Bag(s[1..])
  {
    assert s == [s[0]] + s[1..];
  }

  lemma Regroup(x: multiset<nat>, y: multiset<nat>, f: multiset<nat>, p: multiset<nat>, s: multiset<nat>, v: multiset<nat>)
    requires f + p == s + v
    ensures (x + f) + (y + p) == (y + s) + (x + v)
    ensures (x + f) + p == (x + s) + v
  {
    assert (x + f) + (y + p) == x + y + (f + p);
    assert (y + s) + (x + v) == x + y + (s + v);
    assert (x + f) + p == x + (f + p);
    assert (x + s) + v == x + (s + v);
  }

  lemma {:induction false} FillElements(s: seq<nat>, vals: seq<nat>, members: seq<Member>)
    requires |vals| == |Pick(s, members)|
    ensures Bag(Fill(s, vals, members)) + Bag(Pick(s, members)) == Bag(s) + Bag(vals)
  {
    hide Bag;
    if s != [] {
      var r := Fill(s, vals, members);
      BagCons(s);
      BagCons(r);
      var more := if IsClaude(members, s[0]) then vals[1..] else vals;
      FillElements(s[1..], more, members);
      assert r[1..] == Fill(s[1..], more, members);
      var picked := Pick(s[1..], members);
      if IsClaude(members, s[0]) {
        BagCons(vals);
        BagCons(Pick(s, members));
        assert Pick(s, members)[1..] == picked;
        Regroup(multiset{vals[0]}, multiset{s[0]}, Bag(r[1..]), Bag(picked), Bag(s[1..]), Bag(more));
      } else {
        assert Pick(s, members) == picked;
        Regroup(multiset{s[0]}, multiset{}, Bag(r[1..]), Bag(picked), Bag(s[1..]), Bag(vals));
      }
    }
  }

  lemma Cancel(a: multiset<nat>, b: multiset<nat>, c: multiset<nat>)
    requires a + c == b + c
    ensures a == b
  {
    assert forall x :: (a + c)[x] == a[x] + c[x] && (b + c)[x] == b[x] + c[x];
  }

  lemma FillPermutes(s: seq<nat>, vals: seq<nat>, members: seq<Member>)
    requires multiset(vals) == multiset(Pick(s, members)) && |vals| == |Pick(s, members)|
    ensures multiset(Fill(s, vals, members)) == multiset(s)
  {
    hide Fill, Pick;
    FillElements(s, vals, members);
    Cancel(Bag(Fill(s, vals, members)), Bag(s), Bag(vals));
  }

  lemma {:induction false} PickIsClaude(s: seq<nat>, members: seq<Member>)
    ensures forall v :: v in Pick(s, members) ==> IsClaude(members, v)
  {
    if s != [] {
      PickIsClaude(s[1..], members);
    }
  }

  /**
   * Reordering permutes the candidates, leaves every slot of another provider alone, and makes the Claude
   * slots, read in order, the stable sort of what they held by (nearly spent, rank).
   */
  lemma ReorderKeepsOtherSlots(s: seq<nat>, members: seq<Member>, ranks: Ranks, now: int)
    ensures var r := Reordered(s, members, ranks, now);
            var key := SlotKey(members, ranks, now);
            && |r| == |s| && multiset(r) == multiset(s)
            && (forall i :: 0 <= i < |s| && (s[i] >= |members| || !members[s[i]].subscription) ==> r[i] == s[i])
            && (forall i :: 0 <= i < |s| ==> (IsClaude(members, r[i]) <==> IsClaude(members, s[i])))
            && Sorted(Pick(r, members), key)
            && (forall k :: WithKey(Pick(r, members), key, k) == WithKey(Pick(s, members), key, k))
  {
    hide IsClaude, SortBy, Fill, Pick, SlotKey;
    var key := SlotKey(members, ranks, now);
    var picked := Pick(s, members);
    var sorted := SortBy(picked, key);
    SortByIsStableSort(picked, key);
    PickIsClaude(s, members);
    forall v | v in sorted ensures IsClaude(members, v) {
      assert v in multiset(sorted);
      assert v in picked;
    }
    PickOfFill(s, sorted, members);
    FillPermutes(s, sorted, members);
    forall i | 0 <= i < |s|
      ensures s[i] >= |members| || !members[s[i]].subscription ==> Fill(s, sorted, members)[i] == s[i]
      ensures IsClaude(members, Fill(s, sorted, members)[i]) <==> IsClaude(members, s[i])
    {
      FillAt(s, sorted, i, members);
      ClaudeIs(members, s[i]);
    }
  }

  /** More than 90 percent of a window that has not been reset is used. */
  ghost predicate HasLittleLeft(m: Member, now: int) {
    exists w: Window :: (w == m.primary || w == m.secondary)
      && (w.resetAt == None || now < w.resetAt.value) && w.usedPercent.Some? && w.usedPercent.value > 90.0
  }

  lemma LittleLeftIsSpent(m: Member, now: int)
    ensures IsNearlySpent(m, now) <==> HasLittleLeft(m, now)
  {
    if SpentWindow(m.primary, now) {
      assert m.primary == m.primary && HasLittleLeft(m, now);
    }
    if SpentWindow(m.secondary, now) {
      assert m.secondary == m.secondary && HasLittleLeft(m, now);
    }
  }

  /**
   * The order of the Claude slots in the members' own terms: of two slots that hold subscription members, the one
   * with little left does not come before one without, and otherwise the better rank comes first; an account without
   * a rank comes last.
   */
  lemma SlotOrderByWindows(s: seq<nat>, members: seq<Member>, ranks: Ranks, now: int, i: nat, j: nat)
    requires i < j < |s|
    ensures var r := Reordered(s, members, ranks, now);
            && |r| == |s|
            && (r[i] < |members| && members[r[i]].subscription && r[j] < |members| && members[r[j]].subscription ==>
                  var a, b := members[r[i]], members[r[j]];
                  && (HasLittleLeft(a, now) ==> HasLittleLeft(b, now))
                  && (HasLittleLeft(a, now) == HasLittleLeft(b, now) ==>
                        && (a.id in ranks && b.id in ranks ==> ranks[a.id] <= ranks[b.id])
                        && (a.id !in ranks && b.id in ranks ==> ranks[b.id] >= USIZE_MAX)))
  {
    hide Pick, Reordered, HasLittleLeft, IsNearlySpent;
    var r := Reordered(s, members, ranks, now);
    ReorderKeepsOtherSlots(s, members, ranks, now);
    if r[i] < |members| && members[r[i]].subscription && r[j] < |members| && members[r[j]].subscription {
      PickAt(r, i, members);
      PickAt(r, j, members);
      PickGrows(r, i, j, members);
      LittleLeftIsSpent(members[r[i]], now);
      LittleLeftIsSpent(members[r[j]], now);
      var picked := Pick(r, members);
      var k, l := |Pick(r[..i], members)|, |Pick(r[..j], members)|;
      assert Leq(SlotKey(members, ranks, now)(picked[k]), SlotKey(members, ranks, now)(picked[l]));
    }
  }

  lemma PickGrows(r: seq<nat>, i: nat, j: nat, members: seq<Member>)
    requires i < j <= |r| && IsClaude(members, r[i])
    ensures |Pick(r[..i], members)| < |Pick(r[..j], members)|
  {
    hide Pick, IsClaude;
    var head := r[..j];
    assert head[..i] == r[..i] && head[i] == r[i];
    PickAt(head, i, members);
  }
}
