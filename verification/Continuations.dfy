/**
 * Continuing an interaction: a completed turn is filed under its identifier and, when it asks for function
 * results, under the set of its call identifiers; a later request that brings those results finds it.
 */
module Continuations {
  import opened Options
  import opened Json
  import S = ContinuationStore

  const TTL := 30 * 60

  /**
   * Keys of the store. The source builds strings from the namespace and a digest of the sorted identifiers;
   * the digest is taken to be injective.
   */
  datatype StoreKey = ById(ns: string, id: string) | ByCalls(ns: string, ids: set<string>)

  datatype Continuation = Continuation(
    id: string, owner: string, ns: string, environment: Option<Json>, contents: seq<Json>, calls: seq<Json>)

  type Entries = S.Entries<StoreKey, Continuation>
  type Entry = S.Entry<Continuation>

  datatype Refusal = BadIds | BadPrevious | UnknownPrevious | NoMatch | OtherInteraction | UnknownCall | NamelessCall | NoId
  datatype Result<+T> = Ok(value: T) | Err(why: Refusal)

  // ---------- Call identifiers ----------

  ghost predicate GoodIds(ids: seq<string>) {
    && ids != []
    && (forall i :: 0 <= i < |ids| ==> ids[i] != "" && '\0' !in ids[i])
    && (forall i, j :: 0 <= i < j < |ids| ==> ids[i] != ids[j])
  }

  function IdSet(ids: seq<string>): set<string> {
    set id | id in ids
  }

  /** `call_key`: the set of identifiers, unless there is none, or one is empty, contains NUL, or is repeated */
  method CallKey(ids: seq<string>) returns (r: Option<set<string>>)
    ensures r.Some? <==> GoodIds(ids)
    ensures r.Some? ==> r.value == IdSet(ids)
  {
    var unique: set<string> := {};
    for i := 0 to |ids|
      invariant forall j :: 0 <= j < i ==> ids[j] != "" && '\0' !in ids[j]
      invariant forall j, k :: 0 <= j < k < i ==> ids[j] != ids[k]
      invariant unique == IdSet(ids[..i])
    {
      if ids[i] == "" || '\0' in ids[i] || ids[i] in unique {
        if ids[i] in unique {
          assert ids[i] in ids[..i];
          var j :| 0 <= j < i && ids[..i][j] == ids[i];
          assert ids[j] == ids[i];
        }
        return None;
      }
      assert ids[..i + 1] == ids[..i] + [ids[i]];
      unique := unique + {ids[i]};
    }
    assert ids[..|ids|] == ids;
    assert ids == [] || ids[0] in IdSet(ids);
    if unique == {} {
      return None;
    }
    return Some(unique);
  }

  /** `step.get(key).and_then(as_str).unwrap_or("")` for every step */
  function TextsOf(steps: seq<Json>, key: string): (r: seq<string>)
    ensures |r| == |steps|
    ensures forall i :: 0 <= i < |steps| ==>
              r[i] == (if GetText(steps[i], key).Some? then GetText(steps[i], key).value else "")
  {
    seq(|steps|, i requires 0 <= i < |steps| =>
      if GetText(steps[i], key).Some? then GetText(steps[i], key).value else "")
  }

  predicate HasType(step: Json, t: string) {
    GetText(step, "type") == Some(t)
  }

  // ---------- Saving a turn ----------

  /** What the observer knows when a turn ends */
  datatype Turn = Turn(ns: string, owner: string, environment: Option<Json>, history: seq<Json>, parts: seq<Json>, steps: seq<Json>)

  function CallsIn(steps: seq<Json>): (r: seq<Json>)
    ensures forall c :: c in r ==> HasType(c, "function_call")
  {
    if steps == [] then []
    else (if HasType(steps[0], "function_call") then [steps[0]] else []) + CallsIn(steps[1..])
  }

  function CallsOf(turn: Turn, interaction: Json): seq<Json> {
    var steps := GetArray(interaction, "steps");
    CallsIn(if steps.Some? then steps.value else turn.steps)
  }

  predicate Publishes(interaction: Json) {
    var status := GetText(interaction, "status");
    status == Some("requires_action") || status == Some("completed")
  }

  function Contents(turn: Turn): seq<Json> {
    turn.history + (if turn.parts == [] then [] else [Object(map["role" := Text("model"), "parts" := Array(turn.parts)])])
  }

  function ContinuationOf(turn: Turn, interaction: Json, id: string): Continuation {
    var environment := Get(interaction, "environment_id");
    Continuation(id, turn.owner, turn.ns, if environment.Some? then environment else turn.environment,
                 Contents(turn), CallsOf(turn, interaction))
  }

  type Put = S.Op<StoreKey, Continuation>

  /** The puts of `Observer::save`: none when the status is not final, an error before any of them otherwise */
  ghost function Saves(turn: Turn, interaction: Json, now: int): Result<seq<Put>> {
    if !Publishes(interaction) then Ok([])
    else
      var calls := CallsOf(turn, interaction);
      var ids := TextsOf(calls, "id");
      var id := GetText(interaction, "id");
      if calls != [] && !GoodIds(ids) then Err(BadIds)
      else if id.None? || id.value == "" then Err(NoId)
      else
        var entry := S.Entry(ContinuationOf(turn, interaction, id.value), now + TTL);
        Ok([S.Put(ById(turn.ns, id.value), entry, now)]
           + (if calls == [] then [] else [S.Put(ByCalls(turn.ns, IdSet(ids)), entry, now)]))
  }

  /** The store went through exactly these puts, in order. */
  ghost predicate StoreDid(before: Entries, puts: seq<Put>, after: Entries)
    decreases |puts|
  {
    if puts == [] then after == before
    else exists mid: Entries :: S.StepLeadsTo(before, puts[0], mid) && StoreDid(mid, puts[1..], after)
  }

  method FilterCalls(steps: seq<Json>) returns (calls: seq<Json>)
    ensures calls == CallsIn(steps)
  {
    calls := [];
    for i := |steps| downto 0
      invariant calls == CallsIn(steps[i..])
    {
      assert steps[i..][1..] == steps[i + 1..];
      if HasType(steps[i], "function_call") {
        calls := [steps[i]] + calls;
      }
    }
  }

  /** `Observer::save`; an error leaves the store untouched. */
  method Save(turn: Turn, interaction: Json, store: S.InteractionsStore<StoreKey, Continuation>, now: int)
    returns (r: Result<()>)
    modifies store
    ensures r.Ok? <==> Saves(turn, interaction, now).Ok?
    ensures r.Ok? ==> StoreDid(old(store.entries), Saves(turn, interaction, now).value, store.entries)
    ensures r.Err? ==> store.entries == old(store.entries)
  {
    hide StoreDid, S.StepLeadsTo, TextsOf, ContinuationOf, Publishes;
    if !Publishes(interaction) {
      assert StoreDid(store.entries, [], store.entries) by { DidNothing(store.entries); }
      return Ok(());
    }
    var steps := GetArray(interaction, "steps");
    var calls := FilterCalls(if steps.Some? then steps.value else turn.steps);
    var key: Option<set<string>> := None;
    if calls != [] {
      key := CallKey(TextsOf(calls, "id"));
      if key.None? {
        return Err(BadIds);
      }
    }
    var id := GetText(interaction, "id");
    if id.None? || id.value == "" {
      return Err(NoId);
    }
    var entry := S.Entry(ContinuationOf(turn, interaction, id.value), now + TTL);
    ghost var before := store.entries;
    store.Put(ById(turn.ns, id.value), entry, now);
    ghost var mid := store.entries;
    ghost var first := S.Put(ById(turn.ns, id.value), entry, now);
    DidOne(before, first, mid);
    if key.Some? {
      store.Put(ByCalls(turn.ns, key.value), entry, now);
      DidTwo(before, first, mid, S.Put(ByCalls(turn.ns, key.value), entry, now), store.entries);
      assert [first] + [S.Put(ByCalls(turn.ns, key.value), entry, now)] == [first, S.Put(ByCalls(turn.ns, key.value), entry, now)];
    } else {
      assert [first] + [] == [first];
    }
    return Ok(());
  }

  lemma DidNothing(m: Entries)
    ensures StoreDid(m, [], m)
  {
  }

  lemma DidOne(before: Entries, p: Put, after: Entries)
    requires S.StepLeadsTo(before, p, after)
    ensures StoreDid(before, [p], after)
  {
    assert [p][1..] == [];
    assert S.StepLeadsTo(before, [p][0], after) && StoreDid(after, [p][1..], after);
  }

  lemma DidTwo(before: Entries, p: Put, mid: Entries, q: Put, after: Entries)
    requires S.StepLeadsTo(before, p, mid) && S.StepLeadsTo(mid, q, after)
    ensures StoreDid(before, [p, q], after)
  {
    DidOne(mid, q, after);
    assert [p, q][1..] == [q];
    assert S.StepLeadsTo(before, [p, q][0], mid) && StoreDid(mid, [p, q][1..], after);
  }

  // ---------- Preparing a request ----------

  /** Where the trailing function results of `input` start */
  function ResultsStart(input: seq<Json>): (n: nat)
    ensures n <= |input|
    ensures forall i :: n <= i < |input| ==> HasType(input[i], "function_result")
    ensures n > 0 ==> !HasType(input[n - 1], "function_result")
  {
    if input == [] then 0
    else if HasType(input[|input| - 1], "function_result") then ResultsStart(input[..|input| - 1])
    else |input|
  }

  function FindCall(calls: seq<Json>, id: Option<Json>): Option<Json> {
    if calls == [] then None
    else if Get(calls[0], "id") == id then Some(calls[0])
    else FindCall(calls[1..], id)
  }

  function NamedResult(result: Json, calls: seq<Json>): Result<Json>
    requires result.Object?
  {
    var call := FindCall(calls, Get(result, "call_id"));
    if call.None? then Err(UnknownCall)
    else
      var name := Get(call.value, "name");
      if name.None? then Err(NamelessCall) else Ok(Object(result.fields["name" := name.value]))
  }

  /** Every result with the name of its call, in the order of the results */
  function NamedResults(results: seq<Json>, calls: seq<Json>): Result<seq<Json>>
    requires forall i :: 0 <= i < |results| ==> results[i].Object?
  {
    if results == [] then Ok([])
    else
      match NamedResult(results[0], calls)
      case Err(e) => Err(e)
      case Ok(first) =>
        match NamedResults(results[1..], calls)
        case Err(e) => Err(e)
        case Ok(rest) => Ok([first] + rest)
  }

  function WithDefault(body: Fields, key: string, value: Option<Json>): Fields {
    if key in body || value.None? then body else body[key := value.value]
  }

  function InputOf(body: Fields): Option<seq<Json>> {
    GetArray(Object(body), "input")
  }

  function Results(input: seq<Json>): (r: seq<Json>)
    ensures forall i :: 0 <= i < |r| ==> r[i].Object?
  {
    input[ResultsStart(input)..]
  }

  type Prepared = (Fields, Option<Continuation>)

  /** The request that goes upstream when the results in `body` belong to `saved` */
  function Rewritten(body: Fields, native: bool, results: seq<Json>, saved: Continuation): Result<Prepared>
    requires forall i :: 0 <= i < |results| ==> results[i].Object?
  {
    if native then
      var withId := WithDefault(body, "previous_interaction_id", Some(Text(saved.id)));
      Ok((WithDefault(withId, "environment_id", saved.environment)["input" := Array(results)], Some(saved)))
    else
      match NamedResults(results, saved.calls)
      case Err(e) => Err(e)
      case Ok(named) => Ok((body["input" := Array(named)], Some(saved)))
  }

  ghost function ByResults(body: Fields, native: bool, ns: string, store: Entries, now: int): Result<Prepared> {
    var input := InputOf(body);
    if input.None? || Results(input.value) == [] then Ok((body, None))
    else
      var results := Results(input.value);
      var ids := TextsOf(results, "call_id");
      if !GoodIds(ids) then Err(BadIds)
      else
        match S.Lookup(store, ByCalls(ns, IdSet(ids)), now)
        case None => Err(NoMatch)
        case Some(entry) =>
          if "previous_interaction_id" in body && body["previous_interaction_id"] != Text(entry.value.id)
          then Err(OtherInteraction)
          else Rewritten(body, native, results, entry.value)
  }

  /** What `prepare` returns */
  ghost function Prepares(body: Fields, native: bool, ns: string, store: Entries, now: int): Result<Prepared> {
    if "previous_interaction_id" !in body then ByResults(body, native, ns, store, now)
    else
      var id := GetText(Object(body), "previous_interaction_id");
      if id.None? || id.value == "" then Err(BadPrevious)
      else
        match S.Lookup(store, ById(ns, id.value), now)
        case None => Err(UnknownPrevious)
        case Some(entry) =>
          if entry.value.calls == []
          then Ok((WithDefault(body, "environment_id", entry.value.environment), Some(entry.value)))
          else ByResults(body, native, ns, store, now)
  }

  ghost function Before(done: seq<Json>, rest: Result<seq<Json>>): Result<seq<Json>> {
    if rest.Err? then rest else Ok(done + rest.value)
  }

  method NameResults(results: seq<Json>, calls: seq<Json>) returns (r: Result<seq<Json>>)
    requires forall i :: 0 <= i < |results| ==> results[i].Object?
    ensures r == NamedResults(results, calls)
  {
    hide NamedResult;
    var named: seq<Json> := [];
    ghost var goal := NamedResults(results, calls);
    assert results[0..] == results && (goal.Ok? ==> [] + goal.value == goal.value);
    for i := 0 to |results|
      invariant goal == Before(named, NamedResults(results[i..], calls))
    {
      assert results[i..][1..] == results[i + 1..];
      var one := NamedResult(results[i], calls);
      if one.Err? {
        return Err(one.why);
      }
      ghost var rest := NamedResults(results[i + 1..], calls);
      assert rest.Ok? ==> named + ([one.value] + rest.value) == named + [one.value] + rest.value;
      named := named + [one.value];
    }
    assert named + [] == named;
    return Ok(named);
  }

  method CollectResults(input: seq<Json>) returns (results: seq<Json>)
    ensures results == Results(input)
  {
    results := [];
    var i := |input|;
    assert input[..i] == input;
    while i > 0 && HasType(input[i - 1], "function_result")
      invariant 0 <= i <= |input|
      invariant results == input[i..]
      invariant ResultsStart(input) == ResultsStart(input[..i])
    {
      ghost var head := input[..i];
      assert head[|head| - 1] == input[i - 1] && head[..|head| - 1] == input[..i - 1];
      results := [input[i - 1]] + results;
      i := i - 1;
    }
    assert i > 0 ==> input[..i][i - 1] == input[i - 1];
  }

  /** `prepare`; looking a continuation up also sweeps expired entries from the store. */
  method Prepare(body: Fields, native: bool, ns: string, store: S.InteractionsStore<StoreKey, Continuation>, now: int)
    returns (r: Result<Prepared>)
    modifies store
    ensures r == Prepares(body, native, ns, old(store.entries), now)
    ensures store.entries == old(store.entries) || store.entries == S.Live(old(store.entries), now)
  {
    hide Rewritten, Results, InputOf;
    ghost var m := store.entries;
    if "previous_interaction_id" in body {
      var previous := GetText(Object(body), "previous_interaction_id");
      if previous.None? || previous.value == "" {
        return Err(BadPrevious);
      }
      var saved := store.Get(ById(ns, previous.value), now);
      if saved.None? {
        return Err(UnknownPrevious);
      }
      if saved.value.value.calls == [] {
        return Ok((WithDefault(body, "environment_id", saved.value.value.environment), Some(saved.value.value)));
      }
    }
    var input := InputOf(body);
    if input.None? {
      return Ok((body, None));
    }
    var results := CollectResults(input.value);
    if results == [] {
      return Ok((body, None));
    }
    var key := CallKey(TextsOf(results, "call_id"));
    if key.None? {
      return Err(BadIds);
    }
    var found := store.Get(ByCalls(ns, key.value), now);
    SweepKeepsAnswers(m, ByCalls(ns, key.value), now);
    if found.None? {
      return Err(NoMatch);
    }
    var saved := found.value.value;
    if "previous_interaction_id" in body && body["previous_interaction_id"] != Text(saved.id) {
      return Err(OtherInteraction);
    }
    r := Rewrite(body, native, results, saved);
  }

  method Rewrite(body: Fields, native: bool, results: seq<Json>, saved: Continuation) returns (r: Result<Prepared>)
    requires forall i :: 0 <= i < |results| ==> results[i].Object?
    ensures r == Rewritten(body, native, results, saved)
  {
    if native {
      var b := body;
      if "previous_interaction_id" !in b {
        b := b["previous_interaction_id" := Text(saved.id)];
      }
      if "environment_id" !in b && saved.environment.Some? {
        b := b["environment_id" := saved.environment.value];
      }
      return Ok((b["input" := Array(results)], Some(saved)));
    }
    var named := NameResults(results, saved.calls);
    if named.Err? {
      return Err(named.why);
    }
    return Ok((body["input" := Array(named.value)], Some(saved)));
  }

  lemma SweepKeepsAnswers(m: Entries, key: StoreKey, now: int)
    ensures S.Lookup(S.Live(m, now), key, now) == S.Lookup(m, key, now)
    ensures S.Live(S.Live(m, now), now) == S.Live(m, now)
  {
  }

  // ---------- Which turn a request continues ----------

  /** A put files a turn under its own identifier or under exactly the identifiers of its calls. */
  ghost predicate FiledUnder(key: StoreKey, c: Continuation) {
    match key
    case ById(ns, id) => c.ns == ns && c.id == id
    case ByCalls(ns, ids) => c.ns == ns && GoodIds(TextsOf(c.calls, "id")) && ids == IdSet(TextsOf(c.calls, "id"))
  }

  ghost predicate Filed(m: Entries) {
    forall k :: k in m ==> FiledUnder(k, m[k].value)
  }

  /**
   * A turn is filed exactly when it is final and its identifiers are in order: under its own identifier, for half an
   * hour, and then under its calls if it has any.
   */
  lemma SavedExactly(turn: Turn, interaction: Json, now: int)
    ensures var calls := CallsOf(turn, interaction);
            var status, id := GetText(interaction, "status"), GetText(interaction, "id");
            var final := status == Some("requires_action") || status == Some("completed");
            var r := Saves(turn, interaction, now);
            && (r.Ok? <==> !final || ((calls == [] || GoodIds(TextsOf(calls, "id"))) && id.Some? && id.value != ""))
            && (r.Ok? && !final ==> r.value == [])
            && (r.Ok? && final ==>
                  && |r.value| == (if calls == [] then 1 else 2)
                  && (forall k :: 0 <= k < |r.value| ==>
                        r.value[k].Put? && r.value[k].now == now && r.value[k].entry.expires == now + 1800)
                  && r.value[0].key == ById(turn.ns, id.value)
                  && (calls != [] ==> r.value[1].key == ByCalls(turn.ns, IdSet(TextsOf(calls, "id")))))
  {
    hide GoodIds, TextsOf, IdSet, CallsOf;
  }

  lemma SavesAreFiled(turn: Turn, interaction: Json, now: int)
    requires Saves(turn, interaction, now).Ok?
    ensures forall p :: p in Saves(turn, interaction, now).value ==> p.Put? && FiledUnder(p.key, p.entry.value)
  {
  }

  ghost predicate FiledOps(ops: seq<Put>) {
    forall op :: op in ops && op.Put? ==> FiledUnder(op.key, op.entry.value)
  }

  lemma {:induction false} RememberedIsFiled(ops: seq<Put>)
    requires FiledOps(ops)
    ensures Filed(S.Remembered(ops))
  {
    hide FiledUnder;
    if ops != [] {
      var before, last := ops[..|ops| - 1], ops[|ops| - 1];
      assert last in ops && forall op :: op in before ==> op in ops;
      RememberedIsFiled(before);
    }
  }

  /** What happens to the shared store: turns are saved, and requests look continuations up. */
  datatype Event = Saved(turn: Turn, interaction: Json, now: int) | Looked(key: StoreKey, now: int)

  ghost function OpsIn(e: Event): seq<Put> {
    match e
    case Saved(turn, interaction, now) =>
      var saves := Saves(turn, interaction, now);
      if saves.Ok? then saves.value else []
    case Looked(key, now) => [S.Get(key, now)]
  }

  ghost function OpsOf(es: seq<Event>): seq<Put> {
    if es == [] then [] else OpsOf(es[..|es| - 1]) + OpsIn(es[|es| - 1])
  }

  lemma {:induction false} OpsAreFiled(es: seq<Event>)
    ensures FiledOps(OpsOf(es))
  {
    hide Saves, FiledUnder;
    if es != [] {
      OpsAreFiled(es[..|es| - 1]);
      var e := es[|es| - 1];
      if e.Saved? && Saves(e.turn, e.interaction, e.now).Ok? {
        SavesAreFiled(e.turn, e.interaction, e.now);
      }
    }
  }

  /** In every run of saved turns and lookups, the store files each turn under its own identifiers. */
  lemma RunIsFiled(es: seq<Event>, states: seq<Entries>)
    requires S.IsRun(OpsOf(es), states)
    ensures Filed(states[|OpsOf(es)|])
  {
    hide FiledUnder, OpsOf;
    OpsAreFiled(es);
    S.RunRefines(OpsOf(es), states);
    RememberedIsFiled(OpsOf(es));
  }

  /**
   * A request that is matched to a turn with pending calls brings results for exactly those calls: the same
   * identifiers, none missing, none extra, none twice, and from the same namespace. If the request names a turn, it
   * names this one.
   */
  lemma MatchIsExact(body: Fields, native: bool, ns: string, store: Entries, now: int)
    requires Filed(store)
    ensures var r := Prepares(body, native, ns, store, now);
            r.Ok? && r.value.1.Some? && r.value.1.value.calls != [] ==>
              && InputOf(body).Some?
              && var ids := TextsOf(Results(InputOf(body).value), "call_id");
              && var pending := TextsOf(r.value.1.value.calls, "id");
              && (MayContinue(body, r.value.1.value.id))
              && r.value.1.value.ns == ns && GoodIds(ids) && GoodIds(pending) && IdSet(ids) == IdSet(pending)
              && multiset(ids) == multiset(pending)
  {
    hide Rewritten, Results, InputOf, GoodIds, FiledUnder;
    var r := Prepares(body, native, ns, store, now);
    if r.Ok? && r.value.1.Some? && r.value.1.value.calls != [] {
      assert r == ByResults(body, native, ns, store, now);
      var ids := TextsOf(Results(InputOf(body).value), "call_id");
      var key := ByCalls(ns, IdSet(ids));
      RewrittenSaved(body, native, Results(InputOf(body).value), store[key].value);
      assert FiledUnder(key, store[key].value);
      MatchedName(body, native, ns, store, now);
      ExactIds(key, store[key].value, ids);
    }
  }

  lemma MatchedName(body: Fields, native: bool, ns: string, store: Entries, now: int)
    requires InputOf(body).Some?
    requires var r := ByResults(body, native, ns, store, now); r.Ok? && r.value.1.Some?
    ensures MayContinue(body, ByResults(body, native, ns, store, now).value.1.value.id)
  {
    hide Rewritten, Results, InputOf, GoodIds, TextsOf;
    var results := Results(InputOf(body).value);
    var found := S.Lookup(store, ByCalls(ns, IdSet(TextsOf(results, "call_id"))), now);
    if found.Some? {
      RewrittenSaved(body, native, results, found.value.value);
    }
  }

  lemma RewrittenSaved(body: Fields, native: bool, results: seq<Json>, saved: Continuation)
    requires forall i :: 0 <= i < |results| ==> results[i].Object?
    ensures var r := Rewritten(body, native, results, saved); r.Ok? ==> r.value.1 == Some(saved)
  {
  }

  lemma ExactIds(key: StoreKey, c: Continuation, ids: seq<string>)
    requires FiledUnder(key, c) && key.ByCalls? && key.ids == IdSet(ids) && GoodIds(ids)
    ensures c.ns == key.ns && GoodIds(TextsOf(c.calls, "id")) && IdSet(ids) == IdSet(TextsOf(c.calls, "id"))
    ensures multiset(ids) == multiset(TextsOf(c.calls, "id"))
  {
    DistinctBag(ids);
    DistinctBag(TextsOf(c.calls, "id"));
  }

  lemma {:induction false} DistinctBag(ids: seq<string>)
    requires forall i, j :: 0 <= i < j < |ids| ==> ids[i] != ids[j]
    ensures multiset(ids) == multiset(IdSet(ids))
  {
    if ids != [] {
      var rest := ids[1..];
      DistinctBag(rest);
      assert ids == [ids[0]] + rest;
      assert ids[0] !in rest;
      assert IdSet(ids) == IdSet(rest) + {ids[0]};
    }
  }

  lemma {:induction false} FindCallById(calls: seq<Json>, id: string)
    requires id in TextsOf(calls, "id") && id != ""
    ensures var found := FindCall(calls, Some(Text(id)));
            found.Some? && found.value in calls && Get(found.value, "id") == Some(Text(id))
  {
    var i :| 0 <= i < |calls| && TextsOf(calls, "id")[i] == id;
    if Get(calls[0], "id") != Some(Text(id)) {
      assert i > 0;
      assert TextsOf(calls[1..], "id")[i - 1] == id;
      FindCallById(calls[1..], id);
    }
  }

  /** `out` is `result` with the name of the call that it answers. */
  ghost predicate NamedBy(out: Json, result: Json, calls: seq<Json>) {
    && out.Object?
    && (forall key :: key != "name" ==> Get(out, key) == Get(result, key))
    && exists c :: c in calls && Get(c, "id") == Get(result, "call_id") && Get(c, "name").Some? && Get(out, "name") == Get(c, "name")
  }

  /** The results come out in the order in which they came in, each with the name of its own call. */
  lemma {:induction false} NamedResultsKeepOrder(results: seq<Json>, calls: seq<Json>)
    requires forall i :: 0 <= i < |results| ==> results[i].Object?
    requires forall i :: 0 <= i < |results| ==>
               TextsOf(results, "call_id")[i] != "" && TextsOf(results, "call_id")[i] in TextsOf(calls, "id")
    ensures var r := NamedResults(results, calls);
            if r.Ok? then |r.value| == |results| && forall i :: 0 <= i < |results| ==> NamedBy(r.value[i], results[i], calls)
            else r.why == NamelessCall && !AllNamed(calls)
  {
    hide NamedResult, FindCall, AllNamed, NamedBy;
    if results != [] {
      assert TextsOf(results, "call_id")[0] != "" && TextsOf(results, "call_id")[0] in TextsOf(calls, "id");
      FirstIsNamed(results, calls);
      forall i | 0 <= i < |results[1..]|
        ensures TextsOf(results[1..], "call_id")[i] != "" && TextsOf(results[1..], "call_id")[i] in TextsOf(calls, "id")
      {
        assert TextsOf(results[1..], "call_id")[i] == TextsOf(results, "call_id")[i + 1];
      }
      NamedResultsKeepOrder(results[1..], calls);
    }
  }

  predicate AllNamed(calls: seq<Json>) {
    forall c :: c in calls ==> Get(c, "name").Some?
  }

  lemma FirstIsNamed(results: seq<Json>, calls: seq<Json>)
    requires results != [] && results[0].Object?
    requires TextsOf(results, "call_id")[0] != "" && TextsOf(results, "call_id")[0] in TextsOf(calls, "id")
    ensures var r := NamedResult(results[0], calls);
            if r.Ok? then NamedBy(r.value, results[0], calls) else r.why == NamelessCall && !AllNamed(calls)
  {
    hide FindCall;
    var id := TextsOf(results, "call_id")[0];
    FindCallById(calls, id);
    assert Get(results[0], "call_id") == Some(Text(id));
  }

  /** Under good identifiers a result answers one call only. */
  lemma CallIsUnique(calls: seq<Json>, c: Json, d: Json)
    requires GoodIds(TextsOf(calls, "id")) && c in calls && d in calls && Get(c, "id") == Get(d, "id")
    ensures c == d
  {
    var i :| 0 <= i < |calls| && calls[i] == c;
    var j :| 0 <= j < |calls| && calls[j] == d;
    assert TextsOf(calls, "id")[i] == TextsOf(calls, "id")[j];
  }

  /** `input` is the results of the request, unchanged for a native upstream and named for a translated one. */
  ghost predicate CarriesResults(input: seq<Json>, results: seq<Json>, native: bool, calls: seq<Json>) {
    if native then input == results
    else |input| == |results| && forall i :: 0 <= i < |results| ==> NamedBy(input[i], results[i], calls)
  }

  /** `out` is `body`, completed for a native upstream by the identifier and environment of `c` where it has none. */
  ghost predicate KeepsBody(out: Fields, body: Fields, native: bool, c: Continuation) {
    forall key :: key != "input" ==>
      FieldOf(out, key) ==
      if key in body || !native then FieldOf(body, key)
      else if key == "previous_interaction_id" then Some(Text(c.id))
      else if key == "environment_id" then c.environment
      else None
  }

  /** `body` brings results for the calls `ids`, each once, in any order. */
  ghost predicate Answers(body: Fields, ids: set<string>) {
    && InputOf(body).Some?
    && var answered := TextsOf(Results(InputOf(body).value), "call_id");
    && GoodIds(answered) && IdSet(answered) == ids
  }

  /** `body` does not say which interaction it continues, or it names this one. */
  predicate MayContinue(body: Fields, id: string) {
    "previous_interaction_id" in body ==> body["previous_interaction_id"] == Text(id)
  }

  /** The request was matched to `c`: its results go upstream in the order in which they came. */
  ghost predicate Continues(r: Result<Prepared>, body: Fields, native: bool, c: Continuation)
    requires InputOf(body).Some?
  {
    && r.Ok? && r.value.1 == Some(c)
    && InputOf(r.value.0).Some?
    && CarriesResults(InputOf(r.value.0).value, Results(InputOf(body).value), native, c.calls)
    && KeepsBody(r.value.0, body, native, c)
  }

  /**
   * The converse: a request with results for exactly the pending calls of a filed, unexpired turn, in any
   * order, is matched to that turn. If the request also names the turn, the turn must still be found under
   * its identifier; a translated request needs the names of the calls.
   */
  lemma ExactResultsMatch(body: Fields, native: bool, ns: string, store: Entries, now: int, ids: set<string>, entry: Entry)
    requires Filed(store) && Answers(body, ids)
    requires S.Lookup(store, ByCalls(ns, ids), now) == Some(entry)
    requires MayContinue(body, entry.value.id) && entry.value.id != ""
    ensures var r := Prepares(body, native, ns, store, now);
            var byId := S.Lookup(store, ById(ns, entry.value.id), now);
            if "previous_interaction_id" in body && byId.None? then r == Err(UnknownPrevious)
            else if "previous_interaction_id" in body && byId.value.value.calls == [] then
              r.Ok? && r.value.1 == Some(byId.value.value)
            else Continues(r, body, native, entry.value) || (r == Err(NamelessCall) && !native && !AllNamed(entry.value.calls))
  {
    hide Results, NamedResult, NamedResults, NamedBy, GoodIds, FiledUnder, TextsOf, AllNamed;
    var results := Results(InputOf(body).value);
    var answered := TextsOf(results, "call_id");
    var key := ByCalls(ns, ids);
    assert FiledUnder(key, store[key].value);
    assert results != [] by { GoodIdsNonEmpty(answered); }
    AllIdsPending(key, entry.value, results);
    NamedResultsKeepOrder(results, entry.value.calls);
  }

  /** A request that names a turn without calls is passed on as it is, with the turn's environment where it has none. */
  lemma PlainTurnIsContinued(body: Fields, native: bool, ns: string, store: Entries, now: int, id: string, entry: Entry)
    requires body == body["previous_interaction_id" := Text(id)] && id != ""
    requires S.Lookup(store, ById(ns, id), now) == Some(entry) && entry.value.calls == []
    ensures var r := Prepares(body, native, ns, store, now);
            && r.Ok? && r.value.1 == Some(entry.value)
            && forall key :: FieldOf(r.value.0, key) ==
                             if key == "environment_id" && key !in body then entry.value.environment else FieldOf(body, key)
  {
    assert body["previous_interaction_id"] == Text(id);
  }

  lemma GoodIdsNonEmpty(ids: seq<string>)
    requires GoodIds(ids)
    ensures ids != []
  {
  }

  lemma AllIdsPending(key: StoreKey, c: Continuation, results: seq<Json>)
    requires key.ByCalls? && FiledUnder(key, c) && GoodIds(TextsOf(results, "call_id"))
    requires key.ids == IdSet(TextsOf(results, "call_id"))
    ensures forall i :: 0 <= i < |results| ==>
              TextsOf(results, "call_id")[i] != "" && TextsOf(results, "call_id")[i] in TextsOf(c.calls, "id")
  {
    var ids := TextsOf(results, "call_id");
    forall i | 0 <= i < |results| ensures ids[i] != "" && ids[i] in TextsOf(c.calls, "id") {
      assert ids[i] in IdSet(ids);
      assert ids[i] in IdSet(TextsOf(c.calls, "id"));
    }
  }

  // ---------- Whole runs ----------

  ghost predicate PutsUnder(ops: seq<Put>, key: StoreKey) {
    exists p :: p in ops && p.Put? && p.key == key
  }

  /** No event after the `i`th files a turn under `key`. */
  ghost predicate LastUnder(es: seq<Event>, i: nat, key: StoreKey) {
    forall j :: i < j < |es| ==> !PutsUnder(OpsIn(es[j]), key)
  }

  lemma {:induction false} RememberedConcat(a: seq<Put>, b: seq<Put>, key: StoreKey)
    ensures !PutsUnder(b, key) && key in S.Remembered(a) ==>
              key in S.Remembered(a + b) && S.Remembered(a + b)[key] == S.Remembered(a)[key]
    decreases |b|
  {
    if b == [] {
      assert a + b == a;
    } else if !PutsUnder(b, key) {
      var front, last := b[..|b| - 1], b[|b| - 1];
      assert last in b;
      assert !PutsUnder(front, key);
      RememberedConcat(a, front, key);
      assert (a + b)[..|a + b| - 1] == a + front;
    }
  }

  lemma {:induction false} LastSavedIsRemembered(es: seq<Event>, i: nat, p: Put)
    requires i < |es| && p.Put? && LastUnder(es, i, p.key)
    requires exists a: seq<Put>, b: seq<Put> :: OpsIn(es[i]) == a + [p] + b && !PutsUnder(b, p.key)
    ensures p.key in S.Remembered(OpsOf(es)) && S.Remembered(OpsOf(es))[p.key] == p.entry
  {
    hide OpsIn, PutsUnder;
    var front, e := es[..|es| - 1], es[|es| - 1];
    if i == |es| - 1 {
      var a: seq<Put>, b: seq<Put> :| OpsIn(es[i]) == a + [p] + b && !PutsUnder(b, p.key);
      var upTo := OpsOf(front) + a + [p];
      assert upTo[..|upTo| - 1] == OpsOf(front) + a;
      RememberedConcat(upTo, b, p.key);
      assert OpsOf(es) == upTo + b;
    } else {
      LastSavedIsRemembered(front, i, p);
      RememberedConcat(OpsOf(front), OpsIn(e), p.key);
    }
  }

  /** `entry` is gone from under `key`: it has expired, or an operation of the run dropped it. */
  ghost predicate IsGone(es: seq<Event>, key: StoreKey, entry: Entry, now: int) {
    entry.expires <= now || S.WasDropped(OpsOf(es), key, entry)
  }

  lemma LookupOrGone(es: seq<Event>, states: seq<Entries>, i: nat, p: Put, now: int)
    requires S.IsRun(OpsOf(es), states)
    requires i < |es| && p.Put? && LastUnder(es, i, p.key)
    requires exists a: seq<Put>, b: seq<Put> :: OpsIn(es[i]) == a + [p] + b && !PutsUnder(b, p.key)
    ensures var r := S.Lookup(states[|OpsOf(es)|], p.key, now);
            r == Some(p.entry) || (r == None && IsGone(es, p.key, p.entry, now))
  {
    hide OpsOf, OpsIn, PutsUnder, S.WasDropped, S.StepLeadsTo, S.Others;
    LastSavedIsRemembered(es, i, p);
    S.StoreRefinesMap(OpsOf(es), states, p.key, now);
  }

  // ---------- Several turns under one identifier ----------

  lemma {:induction false} RememberedPut(a: seq<Put>, b: seq<Put>, key: StoreKey)
    requires PutsUnder(b, key)
    ensures key in S.Remembered(a + b)
    ensures exists q :: q in b && q.Put? && q.key == key && S.Remembered(a + b)[key] == q.entry
    decreases |b|
  {
    var front, last := b[..|b| - 1], b[|b| - 1];
    assert (a + b)[..|a + b| - 1] == a + front && (a + b)[|a + b| - 1] == last;
    assert forall q :: q in b ==> q in front || q == last;
    if last.Put? && last.key == key {
      assert last in b;
    } else {
      assert PutsUnder(front, key);
      RememberedPut(a, front, key);
      var q :| q in front && q.Put? && q.key == key && S.Remembered(a + front)[key] == q.entry;
      assert q in b;
    }
  }

  /** `e` is a turn filed under `key`, with `entry`. */
  ghost predicate Filing(e: Event, key: StoreKey, entry: Entry) {
    e.Saved? && Publishes(e.interaction) && FiledUnder(key, SavedTurn(e)) && entry == S.Entry(SavedTurn(e), e.now + TTL)
  }

  lemma PutsAreFilings(e: Event, q: Put)
    requires q in OpsIn(e) && q.Put?
    ensures Filing(e, q.key, q.entry)
  {
  }

  /** What is remembered under a key was filed by the event in question or a later one. */
  lemma {:induction false} RememberedFrom(es: seq<Event>, i: nat, key: StoreKey)
    requires i < |es| && PutsUnder(OpsIn(es[i]), key)
    ensures key in S.Remembered(OpsOf(es))
    ensures exists j :: i <= j < |es| && Filing(es[j], key, S.Remembered(OpsOf(es))[key])
  {
    hide OpsIn, PutsUnder, Filing;
    var front, e := es[..|es| - 1], es[|es| - 1];
    if PutsUnder(OpsIn(e), key) {
      RememberedPut(OpsOf(front), OpsIn(e), key);
      var q :| q in OpsIn(e) && q.Put? && q.key == key && S.Remembered(OpsOf(es))[key] == q.entry;
      PutsAreFilings(e, q);
      assert Filing(es[|es| - 1], key, S.Remembered(OpsOf(es))[key]);
    } else {
      RememberedFrom(front, i, key);
      RememberedConcat(OpsOf(front), OpsIn(e), key);
      var j :| i <= j < |front| && Filing(front[j], key, S.Remembered(OpsOf(front))[key]);
      assert Filing(es[j], key, S.Remembered(OpsOf(es))[key]);
    }
  }

  lemma LookupLatest(es: seq<Event>, states: seq<Entries>, i: nat, key: StoreKey, now: int)
    requires S.IsRun(OpsOf(es), states) && i < |es| && PutsUnder(OpsIn(es[i]), key)
    ensures key in S.Remembered(OpsOf(es))
    ensures var latest := S.Remembered(OpsOf(es))[key];
            var r := S.Lookup(states[|OpsOf(es)|], key, now);
            && (r == Some(latest) || (r == None && IsGone(es, key, latest, now)))
            && exists j :: i <= j < |es| && Filing(es[j], key, latest)
  {
    hide OpsOf, OpsIn, PutsUnder, Filing, S.WasDropped, S.StepLeadsTo, S.Others;
    RememberedFrom(es, i, key);
    S.StoreRefinesMap(OpsOf(es), states, key, now);
  }

  /** Picking out the calls distributes over concatenation and keeps exactly the steps of that type, in order. */
  lemma {:induction false} CallsInConcat(a: seq<Json>, b: seq<Json>)
    ensures CallsIn(a + b) == CallsIn(a) + CallsIn(b)
  {
    if a == [] {
      assert a + b == b;
    } else {
      assert (a + b)[1..] == a[1..] + b;
      CallsInConcat(a[1..], b);
    }
  }

  lemma CallsInOne(step: Json)
    ensures CallsIn([step]) == if GetText(step, "type") == Some("function_call") then [step] else []
  {
    assert [step][1..] == [];
  }

  /**
   * What a saved turn keeps: the history followed by the model's parts, if there are any, as one message; the
   * environment of the interaction or else of the turn; and the calls among the interaction's steps.
   */
  lemma SavedTurnKeeps(turn: Turn, interaction: Json, now: int)
    ensures var c := SavedTurn(Saved(turn, interaction, now));
            var message := Object(map["role" := Text("model"), "parts" := Array(turn.parts)]);
            && c.ns == turn.ns && c.owner == turn.owner
            && turn.history <= c.contents
            && c.contents[|turn.history|..] == (if turn.parts == [] then [] else [message])
            && (Get(interaction, "environment_id").Some? ==> c.environment == Get(interaction, "environment_id"))
            && (Get(interaction, "environment_id").None? ==> c.environment == turn.environment)
            && (Get(interaction, "id").Some? && Get(interaction, "id").value.Text? ==> Text(c.id) == Get(interaction, "id").value)
            && (GetArray(interaction, "steps").Some? ==> c.calls == CallsIn(GetArray(interaction, "steps").value))
            && (GetArray(interaction, "steps").None? ==> c.calls == CallsIn(turn.steps))
  {
    hide CallsIn;
  }

  /** The two puts of a turn with calls: under its identifier, then under its calls */
  lemma SavedPuts(e: Event)
    requires e.Saved? && Saves(e.turn, e.interaction, e.now).Ok? && Publishes(e.interaction)
    requires CallsOf(e.turn, e.interaction) != []
    ensures var c := SavedTurn(e);
            var entry := S.Entry(c, e.now + TTL);
            var ids := IdSet(TextsOf(c.calls, "id"));
            && c.id != "" && c.ns == e.turn.ns
            && OpsIn(e) == [S.Put(ById(c.ns, c.id), entry, e.now), S.Put(ByCalls(c.ns, ids), entry, e.now)]
  {
  }

  /** The continuation that a completed turn leaves behind */
  function SavedTurn(e: Event): Continuation
    requires e.Saved?
  {
    var id := GetText(e.interaction, "id");
    ContinuationOf(e.turn, e.interaction, if id.Some? then id.value else "")
  }

  lemma BothPutsStand(e: Event, first: Put, second: Put)
    requires OpsIn(e) == [first, second] && first.Put? && second.Put? && first.key != second.key
    ensures PutsUnder(OpsIn(e), first.key)
    ensures exists a: seq<Put>, b: seq<Put> :: OpsIn(e) == a + [second] + b && !PutsUnder(b, second.key)
  {
    assert first in OpsIn(e);
    assert OpsIn(e) == [first] + [second] + [] && !PutsUnder([], second.key);
  }

  /** The turn that was filed last under the identifier of `c` */
  ghost function LatestById(es: seq<Event>, c: Continuation): Option<Entry> {
    var all := S.Remembered(OpsOf(es));
    if ById(c.ns, c.id) in all then Some(all[ById(c.ns, c.id)]) else None
  }

  /** The request names its turn, and is answered with a later one of the same identifier that asks for nothing. */
  ghost predicate ContinuesLater(r: Result<Prepared>, es: seq<Event>, i: nat, body: Fields, c: Continuation) {
    && "previous_interaction_id" in body
    && exists j :: i < j < |es| && es[j].Saved?
         && SavedTurn(es[j]).ns == c.ns && SavedTurn(es[j]).id == c.id && SavedTurn(es[j]).calls == []
         && r.Ok? && r.value.1 == Some(SavedTurn(es[j]))
  }

  /** The request names its turn, and the turn filed last under that identifier is gone. */
  ghost predicate NameIsGone(r: Result<Prepared>, es: seq<Event>, body: Fields, c: Continuation, now: int) {
    && r == Err(UnknownPrevious) && "previous_interaction_id" in body
    && LatestById(es, c).Some? && IsGone(es, ById(c.ns, c.id), LatestById(es, c).value, now)
  }

  /**
   * Continuation over every run of saved turns and lookups, whatever the times: let a completed turn with
   * function calls be the last one filed under its calls. A later request in its namespace with results for
   * exactly these calls, in any order, that names this turn or none, continues it and keeps the order of the
   * results, unless the turn has expired or was dropped, or the request is translated and a call has no name.
   * A request that names the turn also needs the turn filed last under that name: it is refused when that one
   * is gone, and answered with it when it is a later turn without calls.
   */
  lemma CompletedTurnIsContinued(es: seq<Event>, states: seq<Entries>, i: nat, body: Fields, native: bool, now: int)
    requires S.IsRun(OpsOf(es), states)
    requires i < |es| && es[i].Saved?
    requires Saves(es[i].turn, es[i].interaction, es[i].now).Ok? && Publishes(es[i].interaction)
    requires var c := SavedTurn(es[i]);
             && c.calls != []
             && LastUnder(es, i, ByCalls(c.ns, IdSet(TextsOf(c.calls, "id"))))
             && Answers(body, IdSet(TextsOf(c.calls, "id"))) && MayContinue(body, c.id)
    ensures var c := SavedTurn(es[i]);
            var r := Prepares(body, native, c.ns, states[|OpsOf(es)|], now);
            || Continues(r, body, native, c)
            || (r == Err(NoMatch)
                && IsGone(es, ByCalls(c.ns, IdSet(TextsOf(c.calls, "id"))), S.Entry(c, es[i].now + TTL), now))
            || (r == Err(NamelessCall) && !native && !AllNamed(c.calls))
            || NameIsGone(r, es, body, c, now)
            || ContinuesLater(r, es, i, body, c)
  {
    hide Saves, SavedTurn, OpsIn, PutsUnder, OpsOf, Filed, GoodIds, AllNamed, IsGone, Continues, InputOf, TextsOf, IdSet,
         S.StepLeadsTo, LastUnder, Filing, Answers, MayContinue;
    var c := SavedTurn(es[i]);
    var ids := IdSet(TextsOf(c.calls, "id"));
    var entry := S.Entry(c, es[i].now + TTL);
    var byId, byCalls := S.Put(ById(c.ns, c.id), entry, es[i].now), S.Put(ByCalls(c.ns, ids), entry, es[i].now);
    SavedWithCalls(es[i]);
    SavedPuts(es[i]);
    BothPutsStand(es[i], byId, byCalls);
    RunIsFiled(es, states);
    LookupOrGone(es, states, i, byCalls, now);
    LookupLatest(es, states, i, byId.key, now);
    var latest := S.Remembered(OpsOf(es))[byId.key];
    MatchOrRefuse(body, native, c.ns, states[|OpsOf(es)|], now, ids, entry, latest);
    if latest.value.calls == [] {
      var j :| i <= j < |es| && Filing(es[j], byId.key, latest);
      FilingIsTurn(es[j], byId.key, latest);
    }
  }

  lemma FilingIsTurn(e: Event, key: StoreKey, entry: Entry)
    requires Filing(e, key, entry) && key.ById?
    ensures e.Saved? && entry.value == SavedTurn(e) && SavedTurn(e).ns == key.ns && SavedTurn(e).id == key.id
  {
  }

  lemma SavedWithCalls(e: Event)
    requires e.Saved?
    ensures SavedTurn(e).calls == CallsOf(e.turn, e.interaction)
  {
  }

  /**
   * A request for `entry` in a store that holds it under its calls, or nothing there, and that holds `latest`
   * under its identifier, or nothing
   */
  lemma MatchOrRefuse(body: Fields, native: bool, ns: string, store: Entries, now: int, ids: set<string>,
                      entry: Entry, latest: Entry)
    requires Filed(store) && Answers(body, ids) && MayContinue(body, entry.value.id) && entry.value.id != ""
    requires var r := S.Lookup(store, ByCalls(ns, ids), now); r == Some(entry) || r == None
    requires var r := S.Lookup(store, ById(ns, entry.value.id), now); r == Some(latest) || r == None
    ensures var r := Prepares(body, native, ns, store, now);
            || Continues(r, body, native, entry.value)
            || (r == Err(NoMatch) && S.Lookup(store, ByCalls(ns, ids), now) == None)
            || (r == Err(UnknownPrevious) && "previous_interaction_id" in body
                && S.Lookup(store, ById(ns, entry.value.id), now) == None)
            || (r == Err(NamelessCall) && !native && !AllNamed(entry.value.calls))
            || ("previous_interaction_id" in body && latest.value.calls == [] && r.Ok? && r.value.1 == Some(latest.value))
  {
    hide Results, GoodIds, Filed, TextsOf, AllNamed, Continues, Rewritten, InputOf;
    if S.Lookup(store, ByCalls(ns, ids), now).Some? {
      ExactResultsMatch(body, native, ns, store, now, ids, entry);
    } else {
      assert Results(InputOf(body).value) != [] by { GoodIdsNonEmpty(TextsOf(Results(InputOf(body).value), "call_id")); }
    }
  }
}
