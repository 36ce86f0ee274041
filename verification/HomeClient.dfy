/**
 * The Home client's own state: three flags that guard dispatching, and the configuration and model list
 * of the newest snapshot received. The flags latch: nothing ever clears the fence.
 */
module HomeClient {
  import opened Options
  import opened Bytes
  import opened Json
  import Resp

  datatype Error =
    | DispatchFenced
    | EmptyResponse
    | AuthNotFound
    | AmbiguousDispatch
    | Unreachable
    | InvalidJson
    | Protocol

  datatype Result<+T> = Ok(value: T) | Err(error: Error)

  datatype Flags = Flags(fenced: bool, ambiguous: bool, heartbeat: bool)

  // ---------- Dispatch ----------

  function Aborted(): Flags {
    Flags(true, true, false)
  }

  function Closed(f: Flags): Flags {
    Flags(true, f.ambiguous, false)
  }

  /** What a reply to a pop means, and the flags it leaves behind */
  function Settled(f: Flags, reply: Resp.Reply): (Flags, Result<bytes>) {
    match reply
    case Data(b) => if b != [] then (f, Ok(b)) else (Aborted(), Err(EmptyResponse))
    case Nil => (f, Err(AuthNotFound))
    case _ => (Aborted(), Err(AmbiguousDispatch))
  }

  /** The command word of a pop */
  const RPOP: bytes := [0x52, 0x50, 0x4F, 0x50]

  /** The pop gets as far as writing its command. */
  predicate Dispatches(f: Flags, blank: bool, reachable: bool) {
    !f.fenced && !blank && reachable
  }

  /** A pop whose command was written, or not, over a connection that then yields `incoming` */
  function Popped(f: Flags, blank: bool, reachable: bool, written: bool, incoming: bytes): (Flags, Result<bytes>) {
    if f.fenced then (f, Err(DispatchFenced))
    else if blank then (f, Err(Protocol))
    else if !reachable then (f, Err(Unreachable))
    else if !written then Settled(f, Resp.IoError)
    else Settled(f, Resp.ReadBulk(incoming).reply)
  }

  /** A dispatched credential: its identifier and the model to ask for upstream */
  datatype Member = Member(id: string, provider: string, credential: Json, model: string)

  /** A concurrency tuple must agree with the rest of the answer. */
  predicate Accounts(tuple: Json, id: string, model: string) {
    Get(tuple, "accounted") == Some(Bool(true)) && GetText(tuple, "credential_id") == Some(id)
    && GetText(tuple, "model") == Some(model)
  }

  function OrElse<T>(a: Option<T>, b: Option<T>): Option<T> {
    if a.Some? then a else b
  }

  function GetOr<T>(a: Option<T>, b: T): T {
    if a.Some? then a.value else b
  }

  /** The member described by an answer, if it is complete and consistent */
  function Decoded(answer: Option<Json>, model: string, accepts: (string, string, Json) -> bool): Option<Member> {
    if answer.None? then None
    else
      var value := answer.value;
      var auth := GetOr(Get(value, "auth"), value);
      var id := GetText(auth, "id");
      var provider := OrElse(Get(value, "provider"), Get(auth, "provider"));
      var credential := GetOr(Get(auth, "metadata"), auth);
      var upstream := GetOr(GetText(value, "model"), model);
      var tuple := Get(value, "concurrency");
      if id.None? || id.value == "" || provider.None? || !provider.value.Text? then None
      else if !accepts(id.value, provider.value.s, credential) then None
      else if tuple.Some? && !Accounts(tuple.value, id.value, upstream) then None
      else Some(Member(id.value, provider.value.s, credential, upstream))
  }

  // ---------- Snapshots ----------

  /** `Value::get(key).and_then(Value::as_i64)` */
  function GetI64(v: Json, key: string): Option<int> {
    var f := Get(v, key);
    if f.Some? && f.value.Number? && Resp.I64_MIN <= f.value.n <= Resp.I64_MAX then Some(f.value.n) else None
  }

  function Revision(config: Json): Option<int> {
    OrElse(GetI64(config, "revision"), GetI64(config, "rev"))
  }

  /** Parsed payloads, and whether the settings store, if one is bound, takes the configuration */
  datatype Snapshot = Snapshot(config: Option<Json>, models: Option<Json>, taken: bool)

  datatype Held = Held(revision: int, config: Option<Json>, models: Option<Json>)

  /** Everything about a snapshot is in order. */
  predicate Sound(s: Snapshot) {
    s.config.Some? && Revision(s.config.value).Some? && s.models.Some? && GetArray(s.models.value, "data").Some?
    && s.taken
  }

  function RevisionOf(s: Snapshot): int
    requires Sound(s)
  {
    Revision(s.config.value).value
  }

  /** What is held after a snapshot arrived */
  function AfterSnapshot(h: Held, s: Snapshot): Held {
    if Sound(s) && RevisionOf(s) > h.revision then Held(RevisionOf(s), s.config, s.models) else h
  }

  class HomeClient {
    var fenced: bool
    var ambiguous: bool
    var heartbeat: bool
    var revision: int
    var config: Option<Json>
    var models: Option<Json>

    constructor ()
      ensures State() == Flags(false, false, false) && Holds() == Held(0, None, None)
    {
      fenced, ambiguous, heartbeat := false, false, false;
      revision, config, models := 0, None, None;
    }

    function State(): Flags
      reads this
    {
      Flags(fenced, ambiguous, heartbeat)
    }

    function Holds(): Held
      reads this
    {
      Held(revision, config, models)
    }

    /** `abort_ambiguous_dispatch` */
    method AbortAmbiguousDispatch()
      modifies `fenced, `ambiguous, `heartbeat
      ensures State() == Aborted()
    {
      ambiguous := true;
      fenced := true;
      heartbeat := false;
    }

    /** `close` */
    method Close()
      modifies `fenced, `heartbeat
      ensures State() == Closed(old(State()))
    {
      fenced := true;
      heartbeat := false;
    }

    /** `rpop_auth`; `wire` is what it hands to the connection, if it gets that far. */
    method RpopAuth(key: bytes, blank: bool, reachable: bool, written: bool, incoming: bytes)
      returns (r: Result<bytes>, wire: Option<bytes>)
      modifies `fenced, `ambiguous, `heartbeat
      ensures (State(), r) == Popped(old(State()), blank, reachable, written, incoming)
      ensures wire == if Dispatches(old(State()), blank, reachable) then Some(Resp.Command(RPOP, [key])) else None
    {
      hide Resp.ReadBulk, Resp.Command;
      wire := None;
      if fenced {
        return Err(DispatchFenced), None;
      }
      if blank {
        return Err(Protocol), None;
      }
      if !reachable {
        return Err(Unreachable), None;
      }
      var command := Resp.EncodeRespCommandBytes(RPOP, [key]);
      wire := Some(command);
      var reply := Resp.IoError;
      if written {
        var reader := new Resp.Reader(incoming);
        reply := reader.ReadRespBulk();
      }
      match reply
      case Data(b) =>
        if b != [] {
          return Ok(b), wire;
        }
        AbortAmbiguousDispatch();
        return Err(EmptyResponse), wire;
      case Nil =>
        return Err(AuthNotFound), wire;
      case _ =>
        AbortAmbiguousDispatch();
        return Err(AmbiguousDispatch), wire;
    }

    /** `dispatch_member`: a credential that cannot be used after all also leaves the client fenced. */
    method DispatchMember(key: bytes, model: string, blank: bool, reachable: bool, written: bool, incoming: bytes,
                          parse: bytes -> Option<Json>, accepts: (string, string, Json) -> bool)
      returns (r: Result<Member>, wire: Option<bytes>)
      modifies `fenced, `ambiguous, `heartbeat
      ensures wire == if Dispatches(old(State()), blank, reachable) then Some(Resp.Command(RPOP, [key])) else None
      ensures var (f, raw) := Popped(old(State()), blank, reachable, written, incoming);
              match raw
              case Err(e) => State() == f && r == Err(e)
              case Ok(b) =>
                match Decoded(parse(b), model, accepts)
                case Some(member) => State() == old(State()) && r == Ok(member)
                case None => State() == Aborted() && r.Err?
    {
      hide Decoded, Resp.ReadBulk, Resp.Command;
      var raw;
      raw, wire := RpopAuth(key, blank, reachable, written, incoming);
      if raw.Err? {
        return Err(raw.error), wire;
      }
      var answer := parse(raw.value);
      var member := Decoded(answer, model, accepts);
      if member.None? {
        AbortAmbiguousDispatch();
        return Err(if answer.None? then InvalidJson else Protocol), wire;
      }
      return Ok(member.value), wire;
    }

    /** `apply_authoritative_snapshot` */
    method ApplyAuthoritativeSnapshot(s: Snapshot) returns (r: Result<bool>)
      modifies `revision, `config, `models
      ensures Holds() == AfterSnapshot(old(Holds()), s)
      ensures r == Ok(true) <==> Sound(s) && RevisionOf(s) > old(revision)
      ensures r == Ok(false) <==>
              s.config.Some? && Revision(s.config.value).Some? && Revision(s.config.value).value <= old(revision)
    {
      if s.config.None? {
        return Err(InvalidJson);
      }
      var value := s.config.value;
      var rev := OrElse(GetI64(value, "revision"), GetI64(value, "rev"));
      if rev.None? {
        return Err(Protocol);
      }
      if rev.value <= revision {
        return Ok(false);
      }
      if s.models.None? {
        return Err(InvalidJson);
      }
      if GetArray(s.models.value, "data").None? {
        return Err(Protocol);
      }
      if !s.taken {
        return Err(Protocol);
      }
      config := s.config;
      models := s.models;
      revision := rev.value;
      return Ok(true);
    }
  }

  /** A member is accepted only with an identifier, and then its concurrency tuple, if any, is about it. */
  lemma DecodedIsConsistent(answer: Json, model: string, accepts: (string, string, Json) -> bool)
    requires Decoded(Some(answer), model, accepts).Some?
    ensures var m := Decoded(Some(answer), model, accepts).value;
            && m.id != "" && accepts(m.id, m.provider, m.credential)
            && (m.model == model || Get(answer, "model") == Some(Text(m.model)))
            && (Get(answer, "concurrency").Some? ==> Accounts(Get(answer, "concurrency").value, m.id, m.model))
  {
    var value := answer;
    assert GetText(value, "model").Some? ==> Get(value, "model") == Some(Text(GetText(value, "model").value));
  }

  /** Where an answer gives the provider: beside the credential, inside it, or in both places, of which the first counts */
  datatype Layout = Flat | ProviderBeside | ProviderInside | ProviderTwice(ignored: string)

  /** An answer of Home for a member, with or without a model and an account tuple */
  function AnswerFor(m: Member, layout: Layout, ownModel: bool, tuple: bool): Json {
    var auth := map["id" := Text(m.id), "metadata" := m.credential];
    var own := auth["provider" := Text(m.provider)];
    var top: Fields := match layout
                       case Flat => own
                       case ProviderBeside => map["auth" := Object(auth), "provider" := Text(m.provider)]
                       case ProviderInside => map["auth" := Object(own)]
                       case ProviderTwice(other) =>
                         map["auth" := Object(auth["provider" := Text(other)]), "provider" := Text(m.provider)];
    var named := if ownModel then top["model" := Text(m.model)] else top;
    var accounts := Object(map["accounted" := Bool(true), "credential_id" := Text(m.id), "model" := Text(m.model)]);
    Object(if tuple then named["concurrency" := accounts] else named)
  }

  lemma AnswerParts(m: Member, layout: Layout, ownModel: bool, tuple: bool)
    ensures var v := AnswerFor(m, layout, ownModel, tuple);
            var auth := GetOr(Get(v, "auth"), v);
            && GetText(auth, "id") == Some(m.id) && Get(auth, "metadata") == Some(m.credential)
            && OrElse(Get(v, "provider"), Get(auth, "provider")) == Some(Text(m.provider))
            && GetText(v, "model") == (if ownModel then Some(m.model) else None)
            && Get(v, "concurrency").Some? == tuple
            && (tuple ==> Accounts(Get(v, "concurrency").value, m.id, m.model))
  {
  }

  /** Decoding gives back the member that an answer was made for; without a model of its own, it is the requested one. */
  lemma DecodedOfAnswer(m: Member, layout: Layout, ownModel: bool, tuple: bool, asked: string,
                        accepts: (string, string, Json) -> bool)
    requires m.id != "" && (ownModel || asked == m.model)
    ensures Decoded(Some(AnswerFor(m, layout, ownModel, tuple)), asked, accepts) ==
            if accepts(m.id, m.provider, m.credential) then Some(m) else None
  {
    hide AnswerFor, Accounts;
    AnswerParts(m, layout, ownModel, tuple);
  }

  /** The revision of a configuration is its 64-bit `revision`, or else its 64-bit `rev`. */
  lemma RevisionIs(fields: Fields, n: int, k: int)
    requires Resp.I64_MIN <= n <= Resp.I64_MAX && Resp.I64_MIN <= k <= Resp.I64_MAX
    ensures Revision(Object(fields["revision" := Number(n)]["rev" := Number(k)])) == Some(n)
    ensures Revision(Object((fields - {"revision"})["rev" := Number(k)])) == Some(k)
    ensures Revision(Object(fields - {"revision", "rev"})) == None
  {
  }

  // ---------- Sequences of snapshots ----------

  function AfterSnapshots(h: Held, ss: seq<Snapshot>): Held {
    if ss == [] then h else AfterSnapshot(AfterSnapshots(h, ss[..|ss| - 1]), ss[|ss| - 1])
  }

  /** `h` is exactly what snapshot `s` carried. */
  predicate From(h: Held, s: Snapshot) {
    Sound(s) && h == Held(RevisionOf(s), s.config, s.models)
  }

  /**
   * However snapshots arrive, repeated, stale or broken, the client holds the newest sound one:
   * configuration and models from the same snapshot, and no sound snapshot is newer.
   */
  lemma {:induction false} NewestSnapshotIsHeld(h: Held, ss: seq<Snapshot>)
    ensures var last := AfterSnapshots(h, ss);
            && h.revision <= last.revision
            && (last == h || (last.revision > h.revision && exists s :: s in ss && From(last, s)))
            && forall s :: s in ss && Sound(s) ==> RevisionOf(s) <= last.revision
  {
    hide Sound, RevisionOf;
    if ss != [] {
      var front, s := ss[..|ss| - 1], ss[|ss| - 1];
      assert ss == front + [s];
      NewestSnapshotIsHeld(h, front);
      var before, last := AfterSnapshots(h, front), AfterSnapshots(h, ss);
      assert last == AfterSnapshot(before, s);
      if last == before {
        if before != h {
          var source :| source in front && From(before, source);
          assert source in ss;
        }
      } else {
        assert s in ss && From(last, s);
      }
    }
  }

  /** Arrival order does not matter, as long as a revision number identifies its snapshot. */
  lemma SnapshotOrderIsIrrelevant(h: Held, ss: seq<Snapshot>, tt: seq<Snapshot>)
    requires forall s :: s in ss <==> s in tt
    requires forall s, t :: s in ss && t in ss && Sound(s) && Sound(t) && RevisionOf(s) == RevisionOf(t) ==> s == t
    ensures AfterSnapshots(h, ss) == AfterSnapshots(h, tt)
  {
    hide Sound, RevisionOf, AfterSnapshots;
    NewestSnapshotIsHeld(h, ss);
    NewestSnapshotIsHeld(h, tt);
    var a, b := AfterSnapshots(h, ss), AfterSnapshots(h, tt);
    if a != h && b != h {
      var s :| s in ss && From(a, s);
      var t :| t in tt && From(b, t);
      assert RevisionOf(s) == RevisionOf(t);
    }
  }
}
