/**
 * The rolling 24-hour token window of a Cline account: opened by the first use, closed when it lapses,
 * and overridden by the exact reset time that an upstream cap names. Each method runs without interference.
 */
module ClineWindow {

  const DAY_SECS := 86_400
  const U64 := 0x1_0000_0000_0000_0000

  type u64 = x: int | 0 <= x < U64

  /** `start` and `over` are 0 when the window is closed and when no upstream reset is known. */
  datatype Window = Window(used: u64, start: int, over: int, seeded: bool, budget: u64)

  function Max(a: u64, b: u64): u64 {
    if a >= b then a else b
  }

  // ---------- Steps ----------

  function EstimatedReset(w: Window): int {
    if w.over > 0 then w.over else if w.start > 0 then w.start + DAY_SECS else 0
  }

  function AfterRollover(w: Window, now: int): Window {
    var reset := EstimatedReset(w);
    if (w.over > 0 || w.start > 0) && now >= reset then w.(used := 0, start := 0, over := 0) else w
  }

  function AfterObserve(w: Window, tokens: u64, now: int): Window {
    var r := AfterRollover(w, now);
    r.(start := if r.start == 0 then now else r.start, used := (r.used as int + tokens as int) % U64)
  }

  function AfterAnchor(w: Window, now: int): Window {
    var r := AfterRollover(w, now);
    if r.start == 0 && now > 0 then r.(start := now) else r
  }

  function AfterSeed(w: Window, sum: u64, start: int, now: int): Window {
    if w.seeded then w
    else if start > 0 && start + DAY_SECS > now
    then w.(seeded := true, start := if w.start == 0 then start else w.start, used := Max(w.used, sum))
    else w.(seeded := true)
  }

  function AfterCap(w: Window, reset: int, now: int): Window {
    if reset <= now then w
    else w.(over := reset, used := Max(w.used, w.budget), start := if w.start == 0 then reset - DAY_SECS else w.start)
  }

  // ---------- The tracker object ----------

  class ClineDailyTracker {
    var usedTokens: u64
    var windowStart: int
    var resetOverride: int
    var seeded: bool
    var budgetTokens: u64

    ghost function View(): Window
      reads this
    {
      Window(usedTokens, windowStart, resetOverride, seeded, budgetTokens)
    }

    constructor (budget: u64)
      ensures View() == Window(0, 0, 0, false, budget)
    {
      usedTokens, windowStart, resetOverride, seeded, budgetTokens := 0, 0, 0, false, budget;
    }

    method EstimatedResetUnix() returns (reset: int)
      ensures reset == EstimatedReset(View())
    {
      if resetOverride > 0 {
        return resetOverride;
      }
      if windowStart > 0 {
        return windowStart + DAY_SECS;
      }
      return 0;
    }

    method RolloverIfLapsed(now: int)
      modifies this
      ensures View() == AfterRollover(old(View()), now)
    {
      var reset := 0;
      if resetOverride > 0 {
        reset := resetOverride;
      } else if windowStart > 0 {
        reset := windowStart + DAY_SECS;
      } else {
        return;
      }
      if now >= reset {
        usedTokens, windowStart, resetOverride := 0, 0, 0;
      }
    }

    method SeedFromHistory(sum: u64, start: int, now: int)
      modifies this
      ensures View() == AfterSeed(old(View()), sum, start, now)
    {
      if seeded {
        return;
      }
      seeded := true;
      if start > 0 && start + DAY_SECS > now {
        if windowStart == 0 {
          windowStart := start;
        }
        usedTokens := Max(usedTokens, sum);
      }
    }

    method AnchorWindow(now: int)
      modifies this
      ensures View() == AfterAnchor(old(View()), now)
    {
      RolloverIfLapsed(now);
      if windowStart == 0 && now > 0 {
        windowStart := now;
      }
    }

    method Observe(tokens: u64, now: int)
      modifies this
      ensures View() == AfterObserve(old(View()), tokens, now)
    {
      RolloverIfLapsed(now);
      if windowStart == 0 {
        windowStart := now;
      }
      usedTokens := (usedTokens as int + tokens as int) % U64;
    }

    method OnCap429At(reset: int, now: int)
      modifies this
      ensures View() == AfterCap(old(View()), reset, now)
    {
      if reset <= now {
        return;
      }
      resetOverride := reset;
      usedTokens := Max(usedTokens, budgetTokens);
      if windowStart == 0 {
        windowStart := reset - DAY_SECS;
      }
    }
  }

  // ---------- Runs ----------

  datatype Event =
    | Observed(tokens: u64, now: int)
    | Anchored(now: int)
    | Seeded(sum: u64, start: int, now: int)
    | Capped(reset: int, now: int)

  function Next(w: Window, e: Event): Window {
    match e
    case Observed(tokens, now) => AfterObserve(w, tokens, now)
    case Anchored(now) => AfterAnchor(w, now)
    case Seeded(sum, start, now) => AfterSeed(w, sum, start, now)
    case Capped(reset, now) => AfterCap(w, reset, now)
  }

  function AfterAll(w: Window, es: seq<Event>): Window {
    if es == [] then w else Next(AfterAll(w, es[..|es| - 1]), es[|es| - 1])
  }

  function Fresh(budget: u64): Window {
    Window(0, 0, 0, false, budget)
  }

  /** All times lie beyond the first day of the epoch, as they do on any real clock. */
  ghost predicate ModernTimes(es: seq<Event>) {
    forall e :: e in es ==> e.now > DAY_SECS
  }

  lemma {:induction false} TimesStayPositive(w: Window, es: seq<Event>)
    requires w.start >= 0 && w.over >= 0 && ModernTimes(es)
    ensures AfterAll(w, es).start >= 0 && AfterAll(w, es).over >= 0
  {
    if es != [] {
      var before, last := es[..|es| - 1], es[|es| - 1];
      assert last in es && forall e :: e in before ==> e in es;
      TimesStayPositive(w, before);
    }
  }

  /** After every observation, in every run, the estimated reset lies in the future. */
  lemma ResetLiesAhead(budget: u64, es: seq<Event>, tokens: u64, now: int)
    requires ModernTimes(es) && now > DAY_SECS
    ensures EstimatedReset(AfterObserve(AfterAll(Fresh(budget), es), tokens, now)) > now
  {
    TimesStayPositive(Fresh(budget), es);
  }

  // ---------- Observations only ----------

  datatype Use = Use(tokens: u64, now: int)

  function AsEvents(uses: seq<Use>): (es: seq<Event>)
    ensures |es| == |uses|
    ensures forall i :: 0 <= i < |es| ==> es[i] == Observed(uses[i].tokens, uses[i].now)
  {
    seq(|uses|, i requires 0 <= i < |uses| => Observed(uses[i].tokens, uses[i].now))
  }

  /** The use that opened the window in which the last use falls: windows follow each other, a day long each */
  function Opening(uses: seq<Use>): (i: nat)
    requires uses != []
    ensures i < |uses|
  {
    var n := |uses| - 1;
    if n == 0 then 0
    else
      var before := Opening(uses[..n]);
      if uses[n].now >= uses[before].now + DAY_SECS then n else before
  }

  function Sum(uses: seq<Use>): nat {
    if uses == [] then 0 else Sum(uses[..|uses| - 1]) + uses[|uses| - 1].tokens as int
  }

  ghost predicate Ascending(uses: seq<Use>) {
    && (forall i :: 0 <= i < |uses| ==> uses[i].now > 0)
    && (forall i, j :: 0 <= i < j < |uses| ==> uses[i].now <= uses[j].now)
  }

  lemma {:induction false} WindowSpansADay(uses: seq<Use>)
    requires uses != [] && Ascending(uses)
    ensures forall i :: Opening(uses) <= i < |uses| ==>
              uses[Opening(uses)].now <= uses[i].now < uses[Opening(uses)].now + DAY_SECS
  {
    var n := |uses| - 1;
    if n > 0 {
      WindowSpansADay(uses[..n]);
    }
  }

  lemma SumOfWindow(uses: seq<Use>, first: nat)
    requires first < |uses|
    ensures Sum(uses[first..]) == Sum(uses[..|uses| - 1][first..]) + uses[|uses| - 1].tokens as int
  {
    var tail := uses[first..];
    assert tail[..|tail| - 1] == uses[..|uses| - 1][first..];
  }

  lemma ObserveInWindow(sum: nat, start: int, budget: u64, tokens: u64, now: int)
    requires 0 < start <= now
    ensures AfterObserve(Window(sum % U64, start, 0, false, budget), tokens, now) ==
            if now >= start + DAY_SECS then Window(tokens, now, 0, false, budget)
            else Window((sum + tokens as int) % U64, start, 0, false, budget)
  {
    WrapAdd(sum, tokens);
  }

  /** One use more: either it opens a window, or it joins the one of the uses before. */
  lemma WindowStep(w: Window, budget: u64, uses: seq<Use>, first: nat)
    requires |uses| > 1 && Ascending(uses) && first < |uses| - 1
    requires w == Window(Sum(uses[..|uses| - 1][first..]) % U64, uses[first].now, 0, false, budget)
    ensures var last := uses[|uses| - 1];
            var opening := if last.now >= uses[first].now + DAY_SECS then |uses| - 1 else first;
            AfterObserve(w, last.tokens, last.now) ==
            Window(Sum(uses[opening..]) % U64, uses[opening].now, 0, false, budget)
  {
    hide AfterObserve, Sum;
    var n := |uses| - 1;
    var last := uses[n];
    ObserveInWindow(Sum(uses[..n][first..]), uses[first].now, budget, last.tokens, last.now);
    SumOfWindow(uses, first);
    SumOfLast(uses);
  }

  lemma SumOfLast(uses: seq<Use>)
    requires uses != []
    ensures Sum(uses[|uses| - 1..]) == uses[|uses| - 1].tokens as int
  {
    SumOfWindow(uses, |uses| - 1);
    assert uses[..|uses| - 1][|uses| - 1..] == [];
  }

  lemma {:induction false} WindowIsSum(budget: u64, uses: seq<Use>)
    requires uses != [] && Ascending(uses)
    ensures AfterAll(Fresh(budget), AsEvents(uses)) ==
            Window(Sum(uses[Opening(uses)..]) % U64, uses[Opening(uses)].now, 0, false, budget)
  {
    hide AfterObserve, Sum, AfterAll, AsEvents;
    var n := |uses| - 1;
    var before, last := uses[..n], uses[n];
    LastObservation(Fresh(budget), uses);
    var w := AfterAll(Fresh(budget), AsEvents(before));
    if n == 0 {
      FirstUse(budget, last);
      SumOfLast(uses);
    } else {
      assert Ascending(before);
      WindowIsSum(budget, before);
      WindowStep(w, budget, uses, Opening(before));
    }
  }

  lemma LastObservation(w: Window, uses: seq<Use>)
    requires uses != []
    ensures var before, last := uses[..|uses| - 1], uses[|uses| - 1];
            && AfterAll(w, AsEvents(uses)) == AfterObserve(AfterAll(w, AsEvents(before)), last.tokens, last.now)
            && (before == [] ==> AfterAll(w, AsEvents(before)) == w)
  {
    hide AfterObserve;
    var es := AsEvents(uses);
    assert es[..|es| - 1] == AsEvents(uses[..|uses| - 1]);
  }

  lemma FirstUse(budget: u64, use: Use)
    ensures AfterObserve(Fresh(budget), use.tokens, use.now) == Window(use.tokens, use.now, 0, false, budget)
  {
  }

  /**
   * In a run of observations the window opened at the use that the day-long windows single out, every use
   * since then lies within its 24 hours, and the tokens used are exactly their sum (modulo the counter).
   */
  lemma UsedIsSumOfWindow(budget: u64, uses: seq<Use>)
    requires uses != [] && Ascending(uses)
    ensures var w := AfterAll(Fresh(budget), AsEvents(uses));
            var first := Opening(uses);
            && w == Window(Sum(uses[first..]) % U64, uses[first].now, 0, false, budget)
            && (forall i :: first <= i < |uses| ==> w.start <= uses[i].now < w.start + DAY_SECS)
            && (uses[first].now > 0 ==> EstimatedReset(w) == uses[first].now + DAY_SECS)
  {
    WindowIsSum(budget, uses);
    WindowSpansADay(uses);
  }

  lemma WrapAdd(a: nat, b: u64)
    ensures (a % U64 + b as int) % U64 == (a + b as int) % U64
  {
    assert a == a / U64 * U64 + a % U64;
  }

  // ---------- Upstream caps ----------

  function Observations(es: seq<Event>): nat {
    if es == [] then 0
    else Observations(es[..|es| - 1]) + (if es[|es| - 1].Observed? then es[|es| - 1].tokens as int else 0)
  }

  /** Events before the named reset, none of them another cap that takes effect */
  ghost predicate BeforeReset(es: seq<Event>, reset: int) {
    forall e :: e in es ==> e.now < reset && (e.Capped? ==> e.reset <= e.now)
  }

  /** The largest history sum among the seeds of a run */
  function LargestSeed(es: seq<Event>): nat {
    if es == [] then 0
    else
      var rest := LargestSeed(es[..|es| - 1]);
      var last := es[|es| - 1];
      if last.Seeded? && last.sum as int > rest then last.sum else rest
  }

  lemma {:induction false} CapStays(w: Window, reset: int, es: seq<Event>)
    requires w.over == reset > 0 && w.used >= w.budget
    requires BeforeReset(es, reset)
    requires w.used as int + Observations(es) + LargestSeed(es) < U64
    ensures var n := AfterAll(w, es);
            && n.over == reset && n.budget == w.budget && n.used >= w.budget
            && n.used as int <= w.used as int + Observations(es) + LargestSeed(es)
  {
    if es != [] {
      var before, last := es[..|es| - 1], es[|es| - 1];
      assert last in es && forall e :: e in before ==> e in es;
      CapStays(w, reset, before);
    }
  }

  /** An observation of `tokens` keeps a count of `used` at or above the budget: no wrap, or not past it */
  predicate StaysAbove(used: u64, tokens: u64, budget: u64) {
    var total := used as int + tokens as int;
    total < U64 || total - U64 >= budget as int
  }

  /** Usage is at or above the budget before every event of the run and after the last. */
  ghost predicate AlwaysCapped(w: Window, es: seq<Event>) {
    AfterAll(w, es).used >= w.budget && (es == [] || AlwaysCapped(w, es[..|es| - 1]))
  }

  /** No observation of the run wraps the counter past the budget. */
  ghost predicate NeverWrapsPast(w: Window, es: seq<Event>) {
    if es == [] then true
    else
      var before, last := es[..|es| - 1], es[|es| - 1];
      NeverWrapsPast(w, before) && (last.Observed? ==> StaysAbove(AfterAll(w, before).used, last.tokens, w.budget))
  }

  lemma {:induction false} ResetStays(w: Window, reset: int, es: seq<Event>)
    requires w.over == reset > 0 && BeforeReset(es, reset)
    ensures AfterAll(w, es).over == reset && AfterAll(w, es).budget == w.budget
  {
    if es != [] {
      var before, last := es[..|es| - 1], es[|es| - 1];
      assert last in es && forall e :: e in before ==> e in es;
      ResetStays(w, reset, before);
    }
  }

  lemma CappedStep(w: Window, e: Event)
    requires w.over > e.now && w.over > 0 && w.used >= w.budget && (e.Capped? ==> e.reset <= e.now)
    ensures Next(w, e).used >= w.budget <==> (e.Observed? ==> StaysAbove(w.used, e.tokens, w.budget))
  {
  }

  lemma {:induction false} CappedExactly(w: Window, reset: int, es: seq<Event>)
    requires w.over == reset > 0 && w.used >= w.budget && BeforeReset(es, reset)
    ensures AlwaysCapped(w, es) <==> NeverWrapsPast(w, es)
  {
    hide Next, StaysAbove;
    if es != [] {
      var before, last := es[..|es| - 1], es[|es| - 1];
      assert last in es && forall e :: e in before ==> e in es;
      CappedExactly(w, reset, before);
      ResetStays(w, reset, before);
      if AlwaysCapped(w, before) {
        CappedStep(AfterAll(w, before), last);
      }
    }
  }

  /**
   * After a cap that names a future reset, whatever the window was and whatever is observed, anchored or
   * seeded before that reset, the estimated reset stays exact, unless another cap arrives, and the first use
   * at or after the reset starts a window of its own. Usage stays at or above the budget all along if and
   * only if no observation wraps the 64-bit counter past the budget.
   */
  lemma CapHoldsUntilReset(w: Window, reset: int, now: int, es: seq<Event>, tokens: u64, later: int)
    requires 0 < now < reset <= later
    requires BeforeReset(es, reset)
    ensures var capped := AfterCap(w, reset, now);
            var n := AfterAll(capped, es);
            && n.budget == w.budget && EstimatedReset(n) == reset
            && (AlwaysCapped(capped, es) <==> NeverWrapsPast(capped, es))
            && var anew := AfterObserve(n, tokens, later);
            anew.used == tokens && anew.start == later && anew.over == 0
  {
    hide AlwaysCapped, NeverWrapsPast, AfterAll, BeforeReset;
    ResetStays(AfterCap(w, reset, now), reset, es);
    CappedExactly(AfterCap(w, reset, now), reset, es);
  }

  /** It does so in particular when all tokens together fit the counter. */
  lemma CapHoldsWithinCounter(w: Window, reset: int, now: int, es: seq<Event>)
    requires 0 < now < reset && BeforeReset(es, reset)
    requires Max(w.used, w.budget) as int + Observations(es) + LargestSeed(es) < U64
    ensures AfterAll(AfterCap(w, reset, now), es).used >= w.budget
  {
    CapStays(AfterCap(w, reset, now), reset, es);
  }

  /** The counter does wrap: one token after the largest count puts a capped account below its budget. */
  lemma CounterWraps(budget: u64)
    requires budget > 0
    ensures var w := AfterCap(Window(U64 - 1, 1, 0, false, budget), 2 * DAY_SECS, DAY_SECS);
            w.used >= w.budget && AfterObserve(w, 1, DAY_SECS).used < budget
  {
  }

  /** One observation under a cap keeps usage at or above the budget exactly when the counter does not wrap past it. */
  lemma CapSurvivesObservation(w: Window, tokens: u64, now: int)
    requires w.over > now && w.over > 0 && w.used >= w.budget
    ensures AfterObserve(w, tokens, now).used >= w.budget <==> StaysAbove(w.used, tokens, w.budget)
  {
    CappedStep(w, Observed(tokens, now));
  }

  // ---------- Seeding and anchoring ----------

  /**
   * What a seed adds: the first one, for a window that has not lapsed, raises usage to the history's sum if that is
   * more, and opens a closed window at the history's start but never moves an open one. A lapsed or missing history
   * and every later seed add nothing.
   */
  lemma SeedAdds(w: Window, sum: u64, start: int, now: int)
    ensures var n := AfterSeed(w, sum, start, now);
            && n.seeded && n.over == w.over && n.budget == w.budget
            && (w.seeded || start <= 0 || now >= start + DAY_SECS ==> n.used == w.used && n.start == w.start)
            && (!w.seeded && 0 < start && now < start + DAY_SECS ==>
                  && n.used >= w.used && n.used >= sum && (n.used == w.used || n.used == sum)
                  && n.start == (if w.start == 0 then start else w.start))
  {
  }

  /**
   * What an anchor does at a positive time: a window that is open and has not lapsed stays as it is; otherwise one
   * opens at that time with nothing used, and resets a day later. A closed window keeps what a cap or a seed counted.
   */
  lemma AnchorOpens(w: Window, now: int)
    requires now > 0 && w.start >= 0 && w.over >= 0
    ensures var n := AfterAnchor(w, now);
            && (w.start > 0 && now < EstimatedReset(w) ==> n == w)
            && (0 < EstimatedReset(w) <= now ==> n == w.(used := 0, start := now, over := 0) && EstimatedReset(n) == now + DAY_SECS)
            && (w.start == 0 && w.over == 0 ==> n == w.(start := now) && EstimatedReset(n) == now + DAY_SECS)
  {
  }
}
