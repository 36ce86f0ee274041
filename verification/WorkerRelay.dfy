/**
 * The AI Studio relay: browsers connect as workers over a socket, requests are sent to a worker and wait
 * in a table until that worker answers, disconnects, or the caller gives up. Each step below is one
 * section of the source that runs under the registry or pending-table lock.
 */
module WorkerRelay {
  import opened FiniteSets
  import opened Options

  const PENDING_LIMIT := 1024
  const CATALOG_LIMIT := 256

  type WorkerId = string
  type Uuid = nat

  /** One socket connection of a worker */
  datatype Session = Session(worker: WorkerId, generation: Uuid)

  /** A row of a worker's catalog: a model name, or nothing usable (no text, or only blanks) */
  type Row = Option<string>

  /** A message of a worker, with its payload; a catalog whose payload lists no models has none. */
  datatype Kind =
    | HttpResponse(payload: string)
    | StreamEnd(payload: string)
    | Error(payload: string)
    | StreamStart
    | StreamChunk
    | Catalog(models: Option<seq<Row>>)
    | Other

  datatype Answer = Reply(kind: Kind) | InvalidResponse | Disconnected
  datatype Delivery = Delivery(request: Uuid, from: Session, answer: Answer)
  datatype Worker = Worker(generation: Uuid, catalog: Option<seq<string>>)

  /** The shared tables, and what was sent through the requests' one-shot channels */
  datatype Tables = Tables(
    workers: map<WorkerId, Worker>,
    knownModels: set<string>,
    pending: map<Uuid, Session>,
    delivered: multiset<Delivery>)

  // ---------- Steps ----------

  function Names(rows: seq<Row>): seq<string> {
    if rows == [] then []
    else Names(rows[..|rows| - 1]) + (if rows[|rows| - 1].Some? then [rows[|rows| - 1].value] else [])
  }

  /** The first 256 names of a catalog */
  function Listed(rows: seq<Row>): seq<string> {
    var names := Names(rows);
    if |names| <= CATALOG_LIMIT then names else names[..CATALOG_LIMIT]
  }

  method CollectNames(rows: seq<Row>) returns (names: seq<string>)
    ensures names == Listed(rows)
  {
    names := [];
    for i := 0 to |rows|
      invariant names == Listed(rows[..i])
    {
      var upTo := rows[..i + 1];
      assert upTo[..i] == rows[..i] && upTo[i] == rows[i];
      if rows[i].Some? && |names| < CATALOG_LIMIT {
        names := names + [rows[i].value];
      }
    }
    assert rows[..|rows|] == rows;
  }

  function AfterConnect(t: Tables, s: Session): Tables {
    t.(workers := t.workers[s.worker := Worker(s.generation, None)])
  }

  predicate Admits(t: Tables, worker: WorkerId) {
    worker in t.workers && |t.pending| < PENDING_LIMIT
  }

  function AfterAdmit(t: Tables, worker: WorkerId, request: Uuid): Tables {
    if Admits(t, worker)
    then t.(pending := t.pending[request := Session(worker, t.workers[worker].generation)])
    else t
  }

  predicate IsCurrent(t: Tables, s: Session) {
    s.worker in t.workers && t.workers[s.worker].generation == s.generation
  }

  function AnswerTo(kind: Kind): Option<Answer> {
    match kind
    case HttpResponse(_) | StreamEnd(_) | Error(_) => Some(Reply(kind))
    case StreamStart | StreamChunk => Some(InvalidResponse)
    case _ => None
  }

  function AfterCatalog(t: Tables, s: Session, models: Option<seq<Row>>): Tables {
    if IsCurrent(t, s) && models.Some?
    then t.(workers := t.workers[s.worker := Worker(s.generation, Some(Listed(models.value)))],
            knownModels := t.knownModels + set m | m in Listed(models.value))
    else t
  }

  function AfterDispatch(t: Tables, s: Session, request: Uuid, kind: Kind): Tables {
    if kind.Catalog? then AfterCatalog(t, s, kind.models)
    else if request in t.pending && t.pending[request] == s && AnswerTo(kind).Some?
    then t.(pending := t.pending - {request},
            delivered := t.delivered + multiset{Delivery(request, s, AnswerTo(kind).value)})
    else t
  }

  function OwnedBy(t: Tables, s: Session): set<Uuid> {
    set r | r in t.pending && t.pending[r] == s
  }

  function Farewells(requests: set<Uuid>, s: Session): set<Delivery> {
    set r | r in requests :: Delivery(r, s, Disconnected)
  }

  function AfterDisconnect(t: Tables, s: Session): Tables {
    t.(workers := if IsCurrent(t, s) then t.workers - {s.worker} else t.workers,
       pending := t.pending - OwnedBy(t, s),
       delivered := t.delivered + multiset(Farewells(OwnedBy(t, s), s)))
  }

  function AfterRelease(t: Tables, request: Uuid): Tables {
    t.(pending := t.pending - {request})
  }

  // ---------- The relay object ----------

  class Relay {
    var workers: map<WorkerId, Worker>
    var knownModels: set<string>
    var pending: map<Uuid, Session>
    var delivered: multiset<Delivery>

    ghost function View(): Tables
      reads this
    {
      Tables(workers, knownModels, pending, delivered)
    }

    constructor ()
      ensures View() == Tables(map[], {}, map[], multiset{})
    {
      workers, knownModels, pending, delivered := map[], {}, map[], multiset{};
    }

    /** `WorkerRegistry::insert`; the caller supplies the random generation. */
    method Insert(s: Session)
      modifies this
      ensures View() == AfterConnect(old(View()), s)
    {
      workers := workers[s.worker := Worker(s.generation, None)];
    }

    /** The admission section of `Relay::execute` */
    method Admit(worker: WorkerId, request: Uuid) returns (ok: bool)
      modifies this
      ensures ok == Admits(old(View()), worker)
      ensures View() == AfterAdmit(old(View()), worker, request)
    {
      if worker !in workers {
        return false;
      }
      if |pending| >= PENDING_LIMIT {
        return false;
      }
      pending := pending[request := Session(worker, workers[worker].generation)];
      return true;
    }

    /** `Relay::dispatch` */
    method Dispatch(s: Session, request: Uuid, kind: Kind)
      modifies this
      ensures View() == AfterDispatch(old(View()), s, request, kind)
    {
      hide Listed;
      if kind.Catalog? {
        if s.worker !in workers || workers[s.worker].generation != s.generation {
          return;
        }
        if kind.models.Some? {
          var models := CollectNames(kind.models.value);
          knownModels := knownModels + set m | m in models;
          workers := workers[s.worker := Worker(s.generation, Some(models))];
        }
        return;
      }
      if request !in pending || pending[request] != s {
        return;
      }
      match kind {
        case HttpResponse(_) | StreamEnd(_) | Error(_) =>
          pending := pending - {request};
          delivered := delivered + multiset{Delivery(request, s, Reply(kind))};
        case StreamStart | StreamChunk =>
          pending := pending - {request};
          delivered := delivered + multiset{Delivery(request, s, InvalidResponse)};
        case _ =>
      }
    }

    /** `Relay::disconnect`: both locks are held until every request of the session was answered. */
    method Disconnect(s: Session)
      modifies this
      ensures View() == AfterDisconnect(old(View()), s)
    {
      if s.worker in workers && workers[s.worker].generation == s.generation {
        workers := workers - {s.worker};
      }
      var ids := set r | r in pending && pending[r] == s;
      pending, delivered := AnswerAll(pending, delivered, ids, s);
    }

    /** `PendingGuard::drop`: the caller was answered, timed out or was cancelled. */
    method Release(request: Uuid)
      modifies this
      ensures View() == AfterRelease(old(View()), request)
    {
      pending := pending - {request};
    }
  }

  /** The loop of `disconnect`: take each request out of the table and answer it. */
  method AnswerAll(pending: map<Uuid, Session>, delivered: multiset<Delivery>, ids: set<Uuid>, s: Session)
    returns (left: map<Uuid, Session>, sent: multiset<Delivery>)
    ensures left == pending - ids
    ensures sent == delivered + multiset(Farewells(ids, s))
  {
    hide Farewells;
    left, sent := pending, delivered;
    var todo := ids;
    FarewellsNone(s);
    assert ids - ids == {};
    while todo != {}
      invariant todo <= ids
      invariant left == pending - (ids - todo)
      invariant sent == delivered + multiset(Farewells(ids - todo, s))
      decreases |todo|
    {
      var r :| r in todo;
      FarewellsOneMore(ids - todo, r, s);
      assert ids - (todo - {r}) == ids - todo + {r};
      left := left - {r};
      sent := sent + multiset{Delivery(r, s, Disconnected)};
      todo := todo - {r};
    }
    assert ids - {} == ids;
  }

  lemma FarewellsNone(s: Session)
    ensures Farewells({}, s) == {}
  {
  }

  lemma FarewellsOneMore(done: set<Uuid>, r: Uuid, s: Session)
    requires r !in done
    ensures multiset(Farewells(done + {r}, s)) == multiset(Farewells(done, s)) + multiset{Delivery(r, s, Disconnected)}
  {
    var d := Delivery(r, s, Disconnected);
    assert d !in Farewells(done, s);
    assert Farewells(done + {r}, s) == Farewells(done, s) + {d};
  }

  // ---------- Runs ----------

  datatype Event =
    | Connect(s: Session)
    | Admit(worker: WorkerId, request: Uuid)
    | Dispatch(s: Session, request: Uuid, kind: Kind)
    | Disconnect(s: Session)
    | Release(request: Uuid)

  /** The tables together with what happened so far */
  datatype World = World(
    t: Tables,
    sessions: set<Session>,         // every session that ever connected
    live: set<Session>,             // those not yet disconnected
    admitted: map<Uuid, Session>,   // requests and the session each was admitted under
    issued: set<Uuid>,              // request identifiers ever drawn
    released: set<Uuid>)            // requests whose guard was dropped

  const START := World(Tables(map[], {}, map[], multiset{}), {}, {}, map[], {}, {})

  /**
   * What the callers guarantee: identifiers are fresh, a socket dispatches only between its own connect
   * and disconnect (`worker_session`), and a guard exists for admitted requests and is dropped once.
   */
  predicate Enabled(w: World, e: Event) {
    match e
    case Connect(s) => forall o :: o in w.sessions ==> o.generation != s.generation
    case Admit(_, r) => r !in w.issued
    case Dispatch(s, _, _) => s in w.live
    case Disconnect(s) => s in w.live
    case Release(r) => r in w.admitted && r !in w.released
  }

  function Next(w: World, e: Event): World {
    match e
    case Connect(s) => w.(t := AfterConnect(w.t, s), sessions := w.sessions + {s}, live := w.live + {s})
    case Admit(worker, r) =>
      var t := AfterAdmit(w.t, worker, r);
      w.(t := t, issued := w.issued + {r},
         admitted := if Admits(w.t, worker) then w.admitted[r := t.pending[r]] else w.admitted)
    case Dispatch(s, r, kind) => w.(t := AfterDispatch(w.t, s, r, kind))
    case Disconnect(s) => w.(t := AfterDisconnect(w.t, s), live := w.live - {s})
    case Release(r) => w.(t := AfterRelease(w.t, r), released := w.released + {r})
  }

  ghost predicate IsRun(w: World, es: seq<Event>)
    decreases |es|
  {
    es == [] || (Enabled(w, es[0]) && IsRun(Next(w, es[0]), es[1..]))
  }

  function Last(w: World, es: seq<Event>): World
    decreases |es|
  {
    if es == [] then w else Last(Next(w, es[0]), es[1..])
  }

  // ---------- What every run keeps ----------

  predicate SessionsDistinct(w: World) {
    && w.live <= w.sessions
    && (forall a, b :: a in w.sessions && b in w.sessions && a.generation == b.generation ==> a == b)
    && (forall id :: id in w.t.workers ==> Session(id, w.t.workers[id].generation) in w.live)
  }

  predicate PendingOwned(w: World) {
    && |w.t.pending| <= PENDING_LIMIT
    && w.released <= w.admitted.Keys <= w.issued
    && (forall r :: r in w.t.pending ==>
          w.t.pending[r] in w.live && r in w.admitted && w.admitted[r] == w.t.pending[r] && r !in w.released)
  }

  predicate AnsweredOnce(w: World) {
    && (forall d :: d in w.t.delivered ==>
          d.request in w.admitted && w.admitted[d.request] == d.from && d.request !in w.t.pending)
    && (forall d :: d in w.t.delivered ==> w.t.delivered[d] == 1)
    && (forall a, b :: a in w.t.delivered && b in w.t.delivered && a.request == b.request ==> a == b)
  }

  ghost predicate Answered(w: World, r: Uuid) {
    exists d :: d in w.t.delivered && d.request == r
  }

  /** Nothing is lost: an admitted request waits, was answered, or its caller gave up. */
  ghost predicate NothingLost(w: World) {
    forall r :: r in w.admitted ==> r in w.t.pending || Answered(w, r) || r in w.released
  }

  ghost predicate Inv(w: World) {
    SessionsDistinct(w) && PendingOwned(w) && AnsweredOnce(w) && NothingLost(w)
  }

  lemma ConnectKeepsInv(w: World, s: Session)
    requires Inv(w) && Enabled(w, Connect(s))
    ensures Inv(Next(w, Connect(s)))
  {
    hide Answered, PendingOwned, AnsweredOnce;
    var n := Next(w, Connect(s));
    ConnectKeepsTables(w, s);
    AnswersStay(w, n);
  }

  lemma ConnectKeepsTables(w: World, s: Session)
    requires PendingOwned(w) && AnsweredOnce(w)
    ensures PendingOwned(Next(w, Connect(s))) && AnsweredOnce(Next(w, Connect(s)))
  {
  }

  lemma AnswersStay(w: World, n: World)
    requires w.t.delivered <= n.t.delivered
    ensures forall r :: Answered(w, r) ==> Answered(n, r)
  {
    forall r | Answered(w, r) ensures Answered(n, r) {
      var d :| d in w.t.delivered && d.request == r;
      assert d in n.t.delivered;
    }
  }

  lemma AdmitKeepsPendingOwned(w: World, worker: WorkerId, r: Uuid)
    requires SessionsDistinct(w) && PendingOwned(w) && r !in w.issued
    ensures PendingOwned(Next(w, Admit(worker, r)))
  {
    var n := Next(w, Admit(worker, r));
    if Admits(w.t, worker) {
      assert r !in w.t.pending;
      assert n.t.pending.Keys == w.t.pending.Keys + {r};
      assert |n.t.pending| == |w.t.pending| + 1;
    }
  }

  lemma AdmitKeepsAnsweredOnce(w: World, worker: WorkerId, r: Uuid)
    requires PendingOwned(w) && AnsweredOnce(w) && r !in w.issued
    ensures AnsweredOnce(Next(w, Admit(worker, r)))
  {
    assert forall d :: d in w.t.delivered ==> d.request != r;
  }

  lemma AdmitKeepsInv(w: World, worker: WorkerId, r: Uuid)
    requires Inv(w) && Enabled(w, Admit(worker, r))
    ensures Inv(Next(w, Admit(worker, r)))
  {
    hide PendingOwned, AnsweredOnce;
    var n := Next(w, Admit(worker, r));
    AdmitKeepsPendingOwned(w, worker, r);
    AdmitKeepsAnsweredOnce(w, worker, r);
    AnswersStay(w, n);
  }

  lemma PendingRemoved(before: map<Uuid, Session>, gone: set<Uuid>)
    ensures |before - gone| <= |before|
  {
    assert (before - gone).Keys == before.Keys - gone;
    SubsetSize(before.Keys - gone, before.Keys);
  }

  lemma DispatchKeepsSessions(w: World, s: Session, r: Uuid, kind: Kind)
    requires SessionsDistinct(w)
    ensures SessionsDistinct(Next(w, Dispatch(s, r, kind)))
  {
  }

  /** A dispatch either leaves requests and answers alone or turns one pending request into its answer. */
  lemma DispatchAnswers(t: Tables, s: Session, r: Uuid, kind: Kind)
    ensures var n := AfterDispatch(t, s, r, kind);
            || (n.pending == t.pending && n.delivered == t.delivered)
            || (&& r in t.pending && t.pending[r] == s && n.pending == t.pending - {r}
                && AnswerTo(kind).Some? && n.delivered == t.delivered + multiset{Delivery(r, s, AnswerTo(kind).value)})
  {
  }

  lemma DispatchKeepsInv(w: World, s: Session, r: Uuid, kind: Kind)
    requires Inv(w) && Enabled(w, Dispatch(s, r, kind))
    ensures Inv(Next(w, Dispatch(s, r, kind)))
  {
    hide SessionsDistinct, AfterDispatch, PendingOwned, AnsweredOnce, Answered;
    var n := Next(w, Dispatch(s, r, kind));
    DispatchKeepsSessions(w, s, r, kind);
    DispatchKeepsPendingOwned(w, s, r, kind);
    DispatchKeepsAnsweredOnce(w, s, r, kind);
    DispatchAnswers(w.t, s, r, kind);
    AnswersStay(w, n);
    if n.t.pending != w.t.pending {
      IsAnswered(n, Delivery(r, s, AnswerTo(kind).value));
    }
  }

  lemma IsAnswered(w: World, d: Delivery)
    requires d in w.t.delivered
    ensures Answered(w, d.request)
  {
  }

  lemma DispatchKeepsPendingOwned(w: World, s: Session, r: Uuid, kind: Kind)
    requires PendingOwned(w)
    ensures PendingOwned(Next(w, Dispatch(s, r, kind)))
  {
    hide AfterDispatch;
    DispatchAnswers(w.t, s, r, kind);
    PendingRemoved(w.t.pending, {r});
  }

  lemma DispatchKeepsAnsweredOnce(w: World, s: Session, r: Uuid, kind: Kind)
    requires PendingOwned(w) && AnsweredOnce(w)
    ensures AnsweredOnce(Next(w, Dispatch(s, r, kind)))
  {
    hide AfterDispatch;
    DispatchAnswers(w.t, s, r, kind);
    assert forall d :: d in w.t.delivered ==> d.request !in w.t.pending;
  }

  lemma DisconnectKeepsSessions(w: World, s: Session)
    requires SessionsDistinct(w)
    ensures SessionsDistinct(Next(w, Disconnect(s)))
  {
  }

  lemma DisconnectKeepsPendingOwned(w: World, s: Session)
    requires PendingOwned(w)
    ensures PendingOwned(Next(w, Disconnect(s)))
  {
    PendingRemoved(w.t.pending, OwnedBy(w.t, s));
  }

  lemma DisconnectKeepsAnsweredOnce(w: World, s: Session)
    requires PendingOwned(w) && AnsweredOnce(w)
    ensures AnsweredOnce(Next(w, Disconnect(s)))
  {
    var n := Next(w, Disconnect(s));
    var gone := OwnedBy(w.t, s);
    assert forall d :: d in n.t.delivered ==> d in w.t.delivered || d in Farewells(gone, s);
    assert forall d :: d in Farewells(gone, s) ==> d.request in gone && d == Delivery(d.request, s, Disconnected);
    assert forall d :: d in w.t.delivered ==> d.request !in gone;
  }

  lemma DisconnectKeepsInv(w: World, s: Session)
    requires Inv(w) && Enabled(w, Disconnect(s))
    ensures Inv(Next(w, Disconnect(s)))
  {
    hide SessionsDistinct, PendingOwned, AnsweredOnce;
    var n := Next(w, Disconnect(s));
    var gone := OwnedBy(w.t, s);
    DisconnectKeepsSessions(w, s);
    DisconnectKeepsPendingOwned(w, s);
    DisconnectKeepsAnsweredOnce(w, s);
    AnswersStay(w, n);
    forall q | q in gone ensures Answered(n, q) {
      assert Delivery(q, s, Disconnected) in Farewells(gone, s);
      assert Delivery(q, s, Disconnected) in n.t.delivered;
    }
  }

  lemma ReleaseKeepsInv(w: World, r: Uuid)
    requires Inv(w) && Enabled(w, Release(r))
    ensures Inv(Next(w, Release(r)))
  {
    var n := Next(w, Release(r));
    PendingRemoved(w.t.pending, {r});
    AnswersStay(w, n);
  }

  lemma StepKeepsInv(w: World, e: Event)
    requires Inv(w) && Enabled(w, e)
    ensures Inv(Next(w, e))
  {
    hide Inv;
    match e
    case Connect(s) => ConnectKeepsInv(w, s);
    case Admit(worker, r) => AdmitKeepsInv(w, worker, r);
    case Dispatch(s, r, kind) => DispatchKeepsInv(w, s, r, kind);
    case Disconnect(s) => DisconnectKeepsInv(w, s);
    case Release(r) => ReleaseKeepsInv(w, r);
  }

  lemma {:induction false} RunKeepsInv(w: World, es: seq<Event>)
    requires Inv(w) && IsRun(w, es)
    ensures Inv(Last(w, es))
    decreases |es|
  {
    hide Inv, Next, Enabled;
    if es != [] {
      StepKeepsInv(w, es[0]);
      RunKeepsInv(Next(w, es[0]), es[1..]);
    }
  }

  /**
   * Relay safety over every run: at most 1024 requests wait, each for a session that is still connected;
   * every answer came from the session its request was admitted under, no request is answered twice, and
   * every admitted request is waiting, answered or given up.
   */
  lemma RelaySafety(es: seq<Event>)
    requires IsRun(START, es)
    ensures var w := Last(START, es);
            && |w.t.pending| <= 1024
            && (forall r :: r in w.t.pending ==> r in w.admitted && w.t.pending[r] == w.admitted[r] && w.admitted[r] in w.live)
            && (forall d :: d in w.t.delivered ==>
                  d.request in w.admitted && d.from == w.admitted[d.request] && d.request !in w.t.pending)
            && (forall a, b :: a in w.t.delivered && b in w.t.delivered && a.request == b.request ==>
                  a == b && w.t.delivered[a] == 1)
            && (forall r :: r in w.admitted ==> r in w.t.pending || Answered(w, r) || r in w.released)
  {
    RunKeepsInv(START, es);
  }

  lemma StepKeepsGone(w: World, s: Session, e: Event)
    requires Enabled(w, e) && s in w.sessions && s !in w.live
    ensures s in Next(w, e).sessions && s !in Next(w, e).live
  {
  }

  lemma {:induction false} SessionStaysGone(w: World, s: Session, es: seq<Event>)
    requires Inv(w) && IsRun(w, es)
    requires s in w.sessions && s !in w.live
    ensures s in Last(w, es).sessions && s !in Last(w, es).live
    decreases |es|
  {
    hide Inv, Next, Enabled;
    if es != [] {
      StepKeepsInv(w, es[0]);
      StepKeepsGone(w, s, es[0]);
      SessionStaysGone(Next(w, es[0]), s, es[1..]);
    }
  }

  /**
   * A completed disconnect is final: whatever happened before, and whatever happens after it, including a
   * replacement under the same worker identifier, none of the session's requests is ever pending again,
   * and the session is never the worker's current one.
   */
  lemma DisconnectIsFinal(before: seq<Event>, s: Session, after: seq<Event>)
    requires IsRun(START, before)
    requires Enabled(Last(START, before), Disconnect(s))
    requires IsRun(Next(Last(START, before), Disconnect(s)), after)
    ensures var w := Last(Next(Last(START, before), Disconnect(s)), after);
            OwnedBy(w.t, s) == {} && !IsCurrent(w.t, s)
  {
    hide IsRun;
    RunKeepsInv(START, before);
    var mid := Next(Last(START, before), Disconnect(s));
    StepKeepsInv(Last(START, before), Disconnect(s));
    SessionStaysGone(mid, s, after);
    RunKeepsInv(mid, after);
  }

  /** `other` sees the same requests, answers and registry entry in both states. */
  ghost predicate SameFor(t: Tables, n: Tables, other: Session) {
    && OwnedBy(n, other) == OwnedBy(t, other)
    && (forall d: Delivery :: d.from == other ==> n.delivered[d] == t.delivered[d])
    && (IsCurrent(n, other) <==> IsCurrent(t, other))
    && (IsCurrent(t, other) ==> n.workers[other.worker] == t.workers[other.worker])
  }

  lemma DisconnectIsolated(t: Tables, s: Session, other: Session)
    requires other.generation != s.generation
    ensures SameFor(t, AfterDisconnect(t, s), other)
  {
    var n := AfterDisconnect(t, s);
    forall d: Delivery | d.from == other ensures n.delivered[d] == t.delivered[d] {
      assert d !in Farewells(OwnedBy(t, s), s);
    }
  }

  lemma DispatchIsolated(t: Tables, s: Session, r: Uuid, kind: Kind, other: Session)
    requires other.generation != s.generation
    ensures SameFor(t, AfterDispatch(t, s, r, kind), other)
  {
    DispatchAnswers(t, s, r, kind);
  }

  /**
   * Sessions do not interfere: an event of one session leaves every other session's requests, answers and
   * catalog as they were, even when both carry the same worker identifier.
   */
  lemma SessionsAreIsolated(w: World, s: Session, other: Session, e: Event)
    requires Inv(w) && Enabled(w, e)
    requires other in w.sessions && other != s
    requires e == Disconnect(s) || (e.Dispatch? && e.s == s)
    ensures SameFor(w.t, Next(w, e).t, other)
  {
    hide SameFor, PendingOwned, AnsweredOnce, NothingLost;
    assert s in w.sessions;
    if e.Disconnect? {
      DisconnectIsolated(w.t, s, other);
    } else {
      DispatchIsolated(w.t, s, e.request, e.kind, other);
    }
  }

  // ---------- Where answers come from ----------

  /**
   * The step that answers a request: a worker's final message answers with that message, a stream frame with an
   * invalid response, and the end of the session with a disconnect; always for a request that waits for it.
   */
  ghost predicate Causes(w: World, e: Event, d: Delivery) {
    && d.request in w.t.pending && w.t.pending[d.request] == d.from
    && match d.answer
       case Reply(k) =>
         (k.HttpResponse? || k.StreamEnd? || k.Error?) && e == Event.Dispatch(d.from, d.request, k)
       case InvalidResponse =>
         e == Event.Dispatch(d.from, d.request, StreamStart) || e == Event.Dispatch(d.from, d.request, StreamChunk)
       case Disconnected => e == Event.Disconnect(d.from)
  }

  ghost predicate EverCauses(w: World, es: seq<Event>, d: Delivery)
    decreases |es|
  {
    es != [] && (Causes(w, es[0], d) || EverCauses(Next(w, es[0]), es[1..], d))
  }

  lemma StepDelivers(w: World, e: Event, d: Delivery)
    ensures d in Next(w, e).t.delivered <==> d in w.t.delivered || Causes(w, e, d)
  {
    hide AfterDispatch, Farewells, OwnedBy, Listed;
    match e
    case Dispatch(s, r, kind) => DispatchDelivers(w.t, s, r, kind, d);
    case Disconnect(s) => DisconnectDelivers(w.t, s, d);
    case _ =>
  }

  lemma DispatchDelivers(t: Tables, s: Session, r: Uuid, kind: Kind, d: Delivery)
    ensures d in AfterDispatch(t, s, r, kind).delivered <==>
            || d in t.delivered
            || (&& r in t.pending && t.pending[r] == s && d.request == r && d.from == s
                && match d.answer
                   case Reply(k) => k == kind && (k.HttpResponse? || k.StreamEnd? || k.Error?)
                   case InvalidResponse => kind.StreamStart? || kind.StreamChunk?
                   case Disconnected => false)
  {
    hide Listed;
  }

  lemma DisconnectDelivers(t: Tables, s: Session, d: Delivery)
    ensures d in AfterDisconnect(t, s).delivered <==>
            || d in t.delivered
            || (d.request in t.pending && t.pending[d.request] == s && d.from == s && d.answer.Disconnected?)
  {
    var owned := OwnedBy(t, s);
    assert d in multiset(Farewells(owned, s)) <==> d in Farewells(owned, s);
  }

  /** Every answer of a run was caused by the step that fits it, and every such step's answer is delivered. */
  lemma {:induction false} AnswersAreCaused(w: World, es: seq<Event>, d: Delivery)
    ensures d in Last(w, es).t.delivered <==> d in w.t.delivered || EverCauses(w, es, d)
    decreases |es|
  {
    hide Next, Causes;
    if es != [] {
      StepDelivers(w, es[0], d);
      AnswersAreCaused(Next(w, es[0]), es[1..], d);
    }
  }

  /** A request stops waiting exactly when a step answers it or its caller gives up; other messages leave it waiting. */
  lemma WaitingEnds(w: World, e: Event, r: Uuid)
    requires r in w.t.pending && Enabled(w, e) && PendingOwned(w)
    ensures r !in Next(w, e).t.pending <==>
            e == Event.Release(r) || exists a :: Causes(w, e, Delivery(r, w.t.pending[r], a))
  {
    hide Listed, Farewells;
    var s := w.t.pending[r];
    match e
    case Dispatch(_, _, kind) =>
      if e.s == s && e.request == r && AnswerTo(kind).Some? {
        assert Causes(w, e, Delivery(r, s, AnswerTo(kind).value));
      }
    case Disconnect(_) =>
      if e.s == s {
        assert Causes(w, e, Delivery(r, s, Disconnected));
      }
    case _ =>
  }

  // ---------- Which session a worker has ----------

  /** The session of `worker` that connected last, unless it has disconnected since */
  function Current(was: Option<Session>, es: seq<Event>, worker: WorkerId): Option<Session>
    decreases |es|
  {
    if es == [] then was else Current(CurrentAfter(was, es[0], worker), es[1..], worker)
  }

  function CurrentAfter(was: Option<Session>, e: Event, worker: WorkerId): Option<Session> {
    match e
    case Connect(s) => if s.worker == worker then Some(s) else was
    case Disconnect(s) => if was == Some(s) then None else was
    case _ => was
  }

  function SessionOf(w: World, worker: WorkerId): Option<Session> {
    if worker in w.t.workers then Some(Session(worker, w.t.workers[worker].generation)) else None
  }

  lemma {:induction false} CurrentSessionIs(w: World, es: seq<Event>, worker: WorkerId)
    ensures SessionOf(Last(w, es), worker) == Current(SessionOf(w, worker), es, worker)
    decreases |es|
  {
    hide Next, SessionOf, CurrentAfter;
    if es != [] {
      SessionStep(w, es[0], worker);
      CurrentSessionIs(Next(w, es[0]), es[1..], worker);
    }
  }

  lemma SessionStep(w: World, e: Event, worker: WorkerId)
    ensures SessionOf(Next(w, e), worker) == CurrentAfter(SessionOf(w, worker), e, worker)
  {
    hide Listed, OwnedBy, Farewells, AnswerTo;
  }

  /**
   * Over every run a request is admitted exactly when its worker has a session that has not ended and fewer than
   * 1024 requests wait, and then it waits for the session that connected last.
   */
  lemma AdmittedToCurrent(es: seq<Event>, worker: WorkerId, r: Uuid)
    requires IsRun(START, es) && r !in Last(START, es).issued
    ensures var w := Last(START, es);
            var n := Next(w, Event.Admit(worker, r));
            var s := Current(None, es, worker);
            && (r in n.admitted <==> s.Some? && |w.t.pending| < 1024)
            && (r in n.admitted ==> r in n.t.pending && n.t.pending[r] == s.value && n.admitted[r] == s.value)
  {
    hide IsRun, Last, Current, Inv;
    var w := Last(START, es);
    CurrentSessionIs(START, es, worker);
    assert Inv(START) by { StartIsSane(); }
    RunKeepsInv(START, es);
    assert PendingOwned(w) by { InvOwns(w); }
  }

  lemma StartIsSane()
    ensures Inv(START)
  {
  }

  lemma InvOwns(w: World)
    requires Inv(w)
    ensures PendingOwned(w)
  {
  }

  /** A catalog counts only from the worker's current session: its first 256 names, in order, and known from then on. */
  lemma CatalogOfCurrent(w: World, s: Session, r: Uuid, rows: seq<Row>)
    ensures var n := Next(w, Event.Dispatch(s, r, Catalog(Some(rows)))).t;
            if SessionOf(w, s.worker) != Some(s) then n == w.t
            else
              && n.pending == w.t.pending && n.delivered == w.t.delivered
              && n.workers == w.t.workers[s.worker := Worker(s.generation, Some(Listed(rows)))]
              && n.knownModels == w.t.knownModels + set m | m in Listed(rows)
  {
  }

  /** The names of a catalog are its usable rows in order; at most 256 of them are listed. */
  lemma ListedRows(row: Row, rows: seq<Row>)
    ensures Names([row]) == (if row.Some? then [row.value] else [])
    ensures Listed(rows) <= Names(rows) && |Listed(rows)| == if |Names(rows)| < 256 then |Names(rows)| else 256
  {
    assert [row][..0] == [];
  }

  lemma {:induction false} NamesConcat(a: seq<Row>, b: seq<Row>)
    ensures Names(a + b) == Names(a) + Names(b)
    decreases |b|
  {
    if b == [] {
      assert a + b == a;
    } else {
      assert (a + b)[..|a + b| - 1] == a + b[..|b| - 1];
      NamesConcat(a, b[..|b| - 1]);
    }
  }
}
