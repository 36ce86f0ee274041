/**
 * Translating an Antigravity stream into interaction events: frames arrive one by one, each may open the
 * interaction, add steps and announce the end; only after the stream ended is the turn published.
 */
module StreamObserver {
  import opened Options
  import opened Json
  import opened Continuations
  import opened Sequences
  import S = ContinuationStore
  import Decimal

  const MAX_JSON := 32 * 1024 * 1024

  /** One server-sent frame: the closing mark, text that is not JSON, or a JSON value with its size */
  datatype Frame = Done | Malformed(size: nat) | Parsed(size: nat, value: Json)

  datatype Event =
    | Created(id: string, model: string)
    | StatusUpdate(id: string)
    | StepStart(index: nat, step: Json)
    | StepDelta(index: nat, delta: Json)
    | StepStop(index: nat, stepId: Json)
    | Completed(interaction: Json)
    | Failed

  /** The observer's fields; those in the first row never change. */
  datatype State = State(
    model: string, ns: string, owner: string, history: seq<Json>, functionNames: map<string, string>,
    id: string, parts: seq<Json>, steps: seq<Json>, usage: Option<Json>,
    finished: bool, completed: bool, started: bool, bytes: nat)

  // ---------- Parts ----------

  function At0(v: Json): Option<Json> {
    match v
    case Array(items) => if items == [] then None else Some(items[0])
    case Object(fields) => FieldOf(fields, "0")
    case _ => None
  }

  function Then(v: Option<Json>, key: string): Option<Json> {
    if v.None? then None else Get(v.value, key)
  }

  function FirstCandidate(root: Json): Option<Json> {
    var candidates := Get(root, "candidates");
    if candidates.None? then None else At0(candidates.value)
  }

  function RootOf(value: Json): Json {
    var response := Get(value, "response");
    if response.Some? then response.value else value
  }

  function PartsOf(root: Json): seq<Json> {
    var parts := Then(Then(FirstCandidate(root), "content"), "parts");
    if parts.Some? && parts.value.Array? then parts.value.items else []
  }

  function FieldOrNull(v: Json, key: string): Json {
    var f := Get(v, key);
    if f.Some? then f.value else Null
  }

  function StepId(n: nat): Json {
    var ds := Decimal.Digits(n);
    Text("step_" + seq(|ds|, i requires 0 <= i < |ds| => '0' + ds[i] as char))
  }

  function WithField(fields: Fields, key: string, value: Option<Json>): Fields {
    if value.Some? then fields[key := value.value] else fields
  }

  /** `preserved["functionCall"]["id"] = id` */
  function WithCallId(part: Json, call: Json, id: string): Json {
    if part.Object? && (call.Object? || call.Null?)
    then Object(part.fields["functionCall" := Object((if call.Object? then call.fields else map[])["id" := Text(id)])])
    else part
  }

  function CallStep(o: State, part: Json, call: Json, id: string): Json {
    var name := GetText(call, "name");
    var shown := if name.Some? && name.value in o.functionNames then Text(o.functionNames[name.value])
                 else FieldOrNull(call, "name");
    var args := Get(call, "args");
    Object(WithField(
      map["type" := Text("function_call"), "id" := Text(id), "name" := shown,
          "arguments" := if args.Some? then args.value else Object(map[])],
      "thought_signature", Get(part, "thoughtSignature")))
  }

  predicate StartsWith(s: string, prefix: string) {
    prefix <= s
  }

  function MediaKind(mime: string): string {
    if StartsWith(mime, "image/") then "image"
    else if StartsWith(mime, "audio/") then "audio"
    else if StartsWith(mime, "video/") then "video"
    else "document"
  }

  function OutputStep(n: nat, content: Fields): Json {
    Object(map["type" := Text("model_output"), "id" := StepId(n), "content" := Array([Object(content)])])
  }

  function TextContent(part: Json, text: Json): Fields {
    var kind := if Get(part, "thought") == Some(Bool(true)) then "thought" else "text";
    WithField(map["type" := Text(kind), "text" := text], "thought_signature", Get(part, "thoughtSignature"))
  }

  function MediaContent(media: Json): Fields {
    var found := GetText(media, "mimeType");
    var mime := if found.Some? then found.value else "";
    WithField(WithField(map["type" := Text(MediaKind(mime)), "mime_type" := Text(mime)], "data", Get(media, "data")),
              "uri", Get(media, "fileUri"))
  }

  /** What a part turns into: a step, a bare signature, or nothing the translator knows */
  datatype Reading = AsStep(kept: Json, step: Json) | AsSignature(signature: Json) | Unsupported

  function Media(part: Json): Option<Json> {
    var inline := Get(part, "inlineData");
    if inline.Some? then inline else Get(part, "fileData")
  }

  function ReadPart(o: State, part: Json, spare: string): Reading {
    var call := Get(part, "functionCall");
    if call.Some? then
      var given := GetText(call.value, "id");
      var id := if given.Some? && given.value != "" then given.value else spare;
      AsStep(WithCallId(part, call.value, id), CallStep(o, part, call.value, id))
    else if Get(part, "text").Some? then
      AsStep(part, OutputStep(|o.steps|, TextContent(part, Get(part, "text").value)))
    else if Media(part).Some? then
      AsStep(part, OutputStep(|o.steps|, MediaContent(Media(part).value)))
    else if Get(part, "thoughtSignature").Some? then AsSignature(Get(part, "thoughtSignature").value)
    else Unsupported
  }

  function DeltaOf(step: Json): Json {
    var content := GetArray(step, "content");
    if content.Some? && content.value != [] then content.value[0]
    else Object(map["type" := Text("arguments_delta"), "arguments" := FieldOrNull(step, "arguments")])
  }

  function StepEvents(index: nat, step: Json): seq<Event> {
    [StepStart(index, step), StepDelta(index, DeltaOf(step)), StepStop(index, FieldOrNull(step, "id"))]
  }

  function SignatureEvent(index: nat, signature: Json): Event {
    StepDelta(index, Object(map["type" := Text("thought_signature"), "signature" := signature]))
  }

  /** Outcome of handling some input: the observer afterwards and the events, or an error */
  datatype Outcome = Outcome(o: State, events: Option<seq<Event>>)

  /** `spares(n)` is the identifier drawn for a call without one, when `n` parts were seen before. */
  function OnPart(o: State, part: Json, spares: nat -> string): Outcome {
    match ReadPart(o, part, spares(|o.parts|))
    case AsStep(kept, step) =>
      Outcome(o.(parts := o.parts + [kept], steps := o.steps + [step]), Some(StepEvents(|o.steps|, step)))
    case AsSignature(signature) =>
      Outcome(o.(parts := o.parts + [part]), Some([SignatureEvent(|o.steps|, signature)]))
    case Unsupported => Outcome(o.(parts := o.parts + [part]), None)
  }

  function OnParts(o: State, parts: seq<Json>, spares: nat -> string): Outcome
    decreases |parts|
  {
    if parts == [] then Outcome(o, Some([]))
    else
      var first := OnPart(o, parts[0], spares);
      if first.events.None? then first
      else
        var rest := OnParts(first.o, parts[1..], spares);
        Outcome(rest.o, if rest.events.None? then None else Some(first.events.value + rest.events.value))
  }

  // ---------- Frames ----------

  function Opened(o: State, root: Json): Outcome {
    var id := GetText(root, "responseId");
    var usage := Get(root, "usageMetadata");
    var named := o.(id := if id.Some? then id.value else o.id, usage := if usage.Some? then usage else o.usage);
    if o.started then Outcome(named, Some([]))
    else Outcome(named.(started := true), Some([Created(named.id, o.model), StatusUpdate(named.id)]))
  }

  function OnRoot(o: State, root: Json, spares: nat -> string): Outcome {
    if Get(root, "error").Some? then Outcome(o, None)
    else
      var opening := Opened(o, root);
      var body := OnParts(opening.o, PartsOf(root), spares);
      if body.events.None? then body
      else
        var finishes := Then(FirstCandidate(root), "finishReason").Some?;
        Outcome(body.o.(finished := body.o.finished || finishes), Some(opening.events.value + body.events.value))
  }

  function OnFrame(o: State, f: Frame, spares: nat -> string): Outcome {
    if f.Done? then Outcome(o, Some([]))
    else
      var counted := o.(bytes := o.bytes + f.size);
      if counted.bytes > MAX_JSON then Outcome(counted, None)
      else if f.Malformed? then Outcome(counted, None)
      else OnRoot(counted, RootOf(f.value), spares)
  }

  // ---------- The end of the stream ----------

  function UsageFields(usage: Json): Fields {
    WithField(WithField(
      map["input_tokens" := FieldOrNull(usage, "promptTokenCount"),
          "output_tokens" := FieldOrNull(usage, "candidatesTokenCount"),
          "total_tokens" := FieldOrNull(usage, "totalTokenCount")],
      "cached_tokens", Get(usage, "cachedContentTokenCount")),
      "reasoning_tokens", Get(usage, "thoughtsTokenCount"))
  }

  function InteractionOf(o: State): Json {
    var status := if exists s :: s in o.steps && HasType(s, "function_call") then "requires_action" else "completed";
    Object(WithField(
      map["id" := Text(o.id), "object" := Text("interaction"), "model" := Text(o.model),
          "status" := Text(status), "steps" := Array(o.steps)],
      "usage", if o.usage.Some? then Some(Object(UsageFields(o.usage.value))) else None))
  }

  function TurnOf(o: State): Turn {
    Turn(o.ns, o.owner, None, o.history, o.parts, o.steps)
  }

  /** `finish` on the observer; `saved` tells whether the continuation could be filed. */
  function OnFinish(o: State, saved: bool): Outcome {
    if o.completed then Outcome(o, Some([]))
    else if !o.finished || !saved then Outcome(o, None)
    else Outcome(o.(completed := true), Some([Completed(InteractionOf(o))]))
  }

  class Observer {
    var o: State
    const store: S.InteractionsStore<StoreKey, Continuation>

    constructor (model: string, ns: string, history: seq<Json>, id: string, names: map<string, string>,
                 store: S.InteractionsStore<StoreKey, Continuation>)
      ensures o == State(model, ns, ns, history, names, id, [], [], None, false, false, false, 0)
      ensures this.store == store
    {
      this.o := State(model, ns, ns, history, names, id, [], [], None, false, false, false, 0);
      this.store := store;
    }

    /** `Observer::frame` on the translating side; never touches the store. */
    method Accept(f: Frame, spares: nat -> string) returns (out: Option<seq<Event>>)
      modifies this
      ensures Outcome(o, out) == OnFrame(old(o), f, spares)
    {
      hide OnPart;
      if f.Done? {
        return Some([]);
      }
      o := o.(bytes := o.bytes + f.size);
      if o.bytes > MAX_JSON {
        return None;
      }
      if f.Malformed? {
        return None;
      }
      var root := RootOf(f.value);
      if Get(root, "error").Some? {
        return None;
      }
      var opening := Opened(o, root);
      o := opening.o;
      ghost var start := o;
      var parts := PartsOf(root);
      var events: seq<Event> := [];
      ghost var goal := OnParts(start, parts, spares);
      OutcomeOfNone(start, parts, spares);
      for i := 0 to |parts|
        invariant goal == After(events, OnParts(o, parts[i..], spares))
      {
        assert parts[i..][1..] == parts[i + 1..];
        var step := OnPart(o, parts[i], spares);
        o := step.o;
        if step.events.None? {
          return None;
        }
        AfterMore(events, step.events.value, OnParts(o, parts[i + 1..], spares));
        events := events + step.events.value;
      }
      assert events + [] == events;
      if Then(FirstCandidate(root), "finishReason").Some? {
        o := o.(finished := true);
      }
      return Some(opening.events.value + events);
    }

    /** `Observer::finish` on the translating side */
    method Finish(now: int) returns (out: Option<seq<Event>>)
      modifies this, store
      ensures Outcome(o, out) == OnFinish(old(o), Saves(TurnOf(old(o)), InteractionOf(old(o)), now).Ok?)
      ensures out.Some? && out.value != [] ==>
                && Saves(TurnOf(old(o)), InteractionOf(old(o)), now).Ok?
                && StoreDid(old(store.entries), Saves(TurnOf(old(o)), InteractionOf(old(o)), now).value, store.entries)
      ensures out.None? || out.value == [] ==> store.entries == old(store.entries)
    {
      hide Saves, StoreDid, InteractionOf, TurnOf;
      if o.completed {
        return Some([]);
      }
      if !o.finished {
        return None;
      }
      var interaction := InteractionOf(o);
      var saved := Save(TurnOf(o), interaction, store, now);
      if saved.Err? {
        return None;
      }
      o := o.(completed := true);
      return Some([Completed(interaction)]);
    }
  }

  ghost function After(events: seq<Event>, r: Outcome): Outcome {
    if r.events.None? then r else Outcome(r.o, Some(events + r.events.value))
  }

  lemma OutcomeOfNone(o: State, parts: seq<Json>, spares: nat -> string)
    ensures parts[0..] == parts && After([], OnParts(o, parts, spares)) == OnParts(o, parts, spares)
  {
    var r := OnParts(o, parts, spares);
    assert r.events.Some? ==> [] + r.events.value == r.events.value;
  }

  lemma AfterMore(events: seq<Event>, more: seq<Event>, r: Outcome)
    ensures After(events, After(more, r)) == After(events + more, r)
  {
    assert r.events.Some? ==> events + (more + r.events.value) == events + more + r.events.value;
  }

  // ---------- Streams ----------

  /** How the upstream body ends: properly, or by a transport or framing error */
  datatype Ending = Eof | Broken

  /** What one stream did: the events it sent and the puts it made on the store */
  datatype Stream = Stream(trace: seq<Event>, puts: seq<Put>)

  /** `stream_body`: frames until the first error, which ends the stream; at a proper end, `finish`. */
  ghost function Run(o: State, frames: seq<Frame>, ending: Ending, spares: nat -> string, now: int): Stream
    decreases |frames|
  {
    if frames == [] then Close(o, ending, now)
    else
      var step := OnFrame(o, frames[0], spares);
      if step.events.None? then Stream([Failed], [])
      else
        var rest := Run(step.o, frames[1..], ending, spares, now);
        Stream(step.events.value + rest.trace, rest.puts)
  }

  ghost function Close(o: State, ending: Ending, now: int): Stream {
    if ending.Broken? then Stream([Failed], [])
    else
      var saves := Saves(TurnOf(o), InteractionOf(o), now);
      var out := OnFinish(o, saves.Ok?);
      if out.events.None? then Stream([Failed], [])
      else Stream(out.events.value, if out.events.value == [] then [] else saves.value)
  }

  function Start(model: string, ns: string, owner: string, history: seq<Json>, names: map<string, string>, id: string): State {
    State(model, ns, owner, history, names, id, [], [], None, false, false, false, 0)
  }

  // ---------- The grammar of traces ----------

  /** Where a reader of the events stands, with the steps completed so far */
  datatype Mode =
    | Unopened
    | Announced
    | Between(steps: seq<Json>)
    | InStep(steps: seq<Json>, step: Json)
    | InStepSent(steps: seq<Json>, step: Json)
    | Ended(steps: seq<Json>)
    | Aborted

  /** The events that may come next, and what they lead to */
  function Read(m: Mode, e: Event): Option<Mode> {
    match (m, e)
    case (Unopened, Created(_, _)) => Some(Announced)
    case (Announced, StatusUpdate(_)) => Some(Between([]))
    case (Between(ss), StepStart(i, step)) => if i == |ss| then Some(InStep(ss, step)) else None
    case (Between(ss), StepDelta(i, _)) => if i == |ss| then Some(m) else None
    case (InStep(ss, step), StepDelta(i, _)) => if i == |ss| then Some(InStepSent(ss, step)) else None
    case (InStepSent(ss, step), StepStop(i, id)) =>
      if i == |ss| && id == FieldOrNull(step, "id") then Some(Between(ss + [step])) else None
    case (Between(ss), Completed(interaction)) =>
      if GetArray(interaction, "steps") == Some(ss) then Some(Ended(ss)) else None
    case (Unopened, Failed) => Some(Aborted)
    case (Between(_), Failed) => Some(Aborted)
    case _ => None
  }

  function ReadAll(m: Mode, es: seq<Event>): Option<Mode>
    decreases |es|
  {
    if es == [] then Some(m)
    else
      match Read(m, es[0])
      case None => None
      case Some(next) => ReadAll(next, es[1..])
  }

  lemma {:induction false} ReadConcat(m: Mode, a: seq<Event>, b: seq<Event>)
    requires ReadAll(m, a).Some?
    ensures ReadAll(m, a + b) == ReadAll(ReadAll(m, a).value, b)
    decreases |a|
  {
    if a == [] {
      assert a + b == b;
    } else {
      assert (a + b)[1..] == a[1..] + b;
      ReadConcat(Read(m, a[0]).value, a[1..], b);
    }
  }

  /** Where the reader stands between two frames */
  function ModeOf(o: State): Mode {
    if o.started then Between(o.steps) else Unopened
  }

  lemma StepEventsRead(ss: seq<Json>, step: Json)
    ensures ReadAll(Between(ss), StepEvents(|ss|, step)) == Some(Between(ss + [step]))
  {
    var es := StepEvents(|ss|, step);
    assert es[1..] == [es[1], es[2]] && es[1..][1..] == [es[2]] && es[1..][1..][1..] == [];
    assert ReadAll(InStepSent(ss, step), [es[2]]) == ReadAll(Between(ss + [step]), []);
    assert ReadAll(InStep(ss, step), [es[1], es[2]]) == ReadAll(InStepSent(ss, step), [es[2]]);
  }

  lemma PartRead(o: State, part: Json, spares: nat -> string)
    requires o.started && OnPart(o, part, spares).events.Some?
    ensures var r := OnPart(o, part, spares);
            r.o.started && ReadAll(ModeOf(o), r.events.value) == Some(ModeOf(r.o))
  {
    hide ReadPart, StepEvents;
    match ReadPart(o, part, spares(|o.parts|))
    case AsStep(kept, step) => StepEventsRead(o.steps, step);
    case AsSignature(signature) =>
      var e := SignatureEvent(|o.steps|, signature);
      assert [e][1..] == [];
      assert ReadAll(Between(o.steps), [e]) == ReadAll(Between(o.steps), []);
    case Unsupported =>
  }

  lemma {:induction false} PartsRead(o: State, parts: seq<Json>, spares: nat -> string)
    requires o.started && OnParts(o, parts, spares).events.Some?
    ensures var r := OnParts(o, parts, spares);
            r.o.started && ReadAll(ModeOf(o), r.events.value) == Some(ModeOf(r.o))
    decreases |parts|
  {
    hide OnPart;
    if parts != [] {
      var first := OnPart(o, parts[0], spares);
      PartRead(o, parts[0], spares);
      PartsRead(first.o, parts[1..], spares);
      ReadConcat(ModeOf(o), first.events.value, OnParts(first.o, parts[1..], spares).events.value);
    }
  }

  lemma OpeningRead(o: State, root: Json)
    requires o.started || o.steps == []
    ensures var r := Opened(o, root);
            r.o.started && r.events.Some? && ReadAll(ModeOf(o), r.events.value) == Some(ModeOf(r.o))
  {
    var es := Opened(o, root).events.value;
    if !o.started {
      assert es[1..] == [es[1]] && es[1..][1..] == [];
      assert ReadAll(Announced, [es[1]]) == ReadAll(Between([]), []);
    }
  }

  /** A frame that is accepted sends events that continue the trace properly and match the steps it adds. */
  lemma FrameRead(o: State, f: Frame, spares: nat -> string)
    requires o.started || o.steps == []
    requires OnFrame(o, f, spares).events.Some?
    ensures var r := OnFrame(o, f, spares);
            && (r.o.started || r.o.steps == [])
            && ReadAll(ModeOf(o), r.events.value) == Some(ModeOf(r.o))
  {
    hide Opened, OnParts;
    if !f.Done? {
      var root := RootOf(f.value);
      var counted := o.(bytes := o.bytes + f.size);
      OpeningRead(counted, root);
      var opening := Opened(counted, root);
      PartsRead(opening.o, PartsOf(root), spares);
      ReadConcat(ModeOf(o), opening.events.value, OnParts(opening.o, PartsOf(root), spares).events.value);
    }
  }

  lemma StepsOfInteraction(o: State)
    ensures GetArray(InteractionOf(o), "steps") == Some(o.steps)
    ensures Publishes(InteractionOf(o)) && GetText(InteractionOf(o), "id") == Some(o.id)
    ensures CallsOf(TurnOf(o), InteractionOf(o)) == CallsIn(o.steps)
  {
  }

  /** How a stream may end for the reader and for the store */
  ghost predicate EndsProperly(s: Stream, m: Option<Mode>) {
    && m.Some?
    && (m.value.Aborted? || m.value.Ended?)
    && (m.value.Aborted? ==> s.puts == [])
    && (m.value.Ended? ==> s.puts != [])
  }

  lemma CloseRead(o: State, ending: Ending, now: int)
    requires (o.started || o.steps == []) && !o.completed && (o.finished ==> o.started)
    ensures EndsProperly(Close(o, ending, now), ReadAll(ModeOf(o), Close(o, ending, now).trace))
  {
    hide InteractionOf, TurnOf;
    var s := Close(o, ending, now);
    StepsOfInteraction(o);
    assert s.trace[1..] == [];
    assert ReadAll(ModeOf(o), s.trace) == Read(ModeOf(o), s.trace[0]);
  }

  lemma {:induction false} PartsKeepFlags(o: State, parts: seq<Json>, spares: nat -> string)
    ensures var r := OnParts(o, parts, spares).o;
            r.completed == o.completed && r.finished == o.finished && r.started == o.started
    decreases |parts|
  {
    hide ReadPart;
    if parts != [] && OnPart(o, parts[0], spares).events.Some? {
      PartsKeepFlags(OnPart(o, parts[0], spares).o, parts[1..], spares);
    }
  }

  lemma FrameKeepsFlags(o: State, f: Frame, spares: nat -> string)
    requires !o.completed && (o.finished ==> o.started)
    ensures var r := OnFrame(o, f, spares);
            !r.o.completed && (r.events.Some? && r.o.finished ==> r.o.started)
            && (r.events.Some? && r.o.finished ==> o.finished || FinishesTurn(f))
  {
    hide OnParts;
    if f.Parsed? {
      var counted := o.(bytes := o.bytes + f.size);
      PartsKeepFlags(Opened(counted, RootOf(f.value)).o, PartsOf(RootOf(f.value)), spares);
    }
  }

  /** The frame carries a finish reason. */
  predicate FinishesTurn(f: Frame) {
    f.Parsed? && Then(FirstCandidate(RootOf(f.value)), "finishReason").Some?
  }

  lemma {:induction false} RunRead(o: State, frames: seq<Frame>, ending: Ending, spares: nat -> string, now: int)
    requires (o.started || o.steps == []) && !o.completed && (o.finished ==> o.started)
    ensures var s := Run(o, frames, ending, spares, now);
            EndsProperly(s, ReadAll(ModeOf(o), s.trace))
    decreases |frames|
  {
    hide OnFrame, Close;
    if frames == [] {
      CloseRead(o, ending, now);
    } else {
      var step := OnFrame(o, frames[0], spares);
      FrameKeepsFlags(o, frames[0], spares);
      if step.events.Some? {
        FrameRead(o, frames[0], spares);
        RunRead(step.o, frames[1..], ending, spares, now);
        ReadConcat(ModeOf(o), step.events.value, Run(step.o, frames[1..], ending, spares, now).trace);
      } else {
        assert [Failed][1..] == [];
        assert ReadAll(ModeOf(o), [Failed]) == Read(ModeOf(o), Failed);
      }
    }
  }

  /**
   * Every stream, whatever its frames and however it ends, sends a trace of the grammar: it fails at once, or
   * there is one created event first, steps numbered 0, 1, 2, ... each started, sent and stopped once, and as
   * the last event either one completed event that carries exactly the steps sent, or a failure. The store is
   * written if and only if the trace ends in the completed event.
   */
  lemma StreamFollowsGrammar(model: string, ns: string, owner: string, history: seq<Json>, names: map<string, string>,
                             id: string, frames: seq<Frame>, ending: Ending, spares: nat -> string, now: int)
    ensures var s := Run(Start(model, ns, owner, history, names, id), frames, ending, spares, now);
            EndsProperly(s, ReadAll(Unopened, s.trace))
  {
    RunRead(Start(model, ns, owner, history, names, id), frames, ending, spares, now);
  }

  // ---------- When a stream opens ----------

  /** The translator knows what to do with a part. */
  predicate Supported(part: Json) {
    || Get(part, "functionCall").Some? || Get(part, "text").Some? || Get(part, "inlineData").Some?
    || Get(part, "fileData").Some? || Get(part, "thoughtSignature").Some?
  }

  /** A frame that a stream takes after `bytes` octets: small enough, JSON, no error, only supported parts */
  predicate Acceptable(f: Frame, bytes: nat) {
    || f.Done?
    || (&& f.Parsed? && bytes + f.size <= MAX_JSON
        && Get(RootOf(f.value), "error").None?
        && forall p :: p in PartsOf(RootOf(f.value)) ==> Supported(p))
  }

  lemma {:induction false} PartsAccepted(o: State, parts: seq<Json>, spares: nat -> string)
    ensures OnParts(o, parts, spares).events.Some? <==> forall p :: p in parts ==> Supported(p)
    decreases |parts|
  {
    hide WithCallId, CallStep, OutputStep, StepEvents, SignatureEvent;
    if parts != [] {
      TailIsPart(parts);
      PartsAccepted(OnPart(o, parts[0], spares).o, parts[1..], spares);
    }
  }

  /** Frames are accepted exactly when they look acceptable, and the first one that carries anything opens the stream. */
  lemma FrameAccepted(o: State, f: Frame, spares: nat -> string)
    ensures OnFrame(o, f, spares).events.Some? <==> Acceptable(f, o.bytes)
    ensures Acceptable(f, o.bytes) && !f.Done? && !o.started ==>
              var es := OnFrame(o, f, spares).events.value; es != [] && es[0].Created?
    ensures f.Done? ==> OnFrame(o, f, spares) == Outcome(o, Some([]))
  {
    hide OnParts, PartsOf;
    if f.Parsed? {
      var root, counted := RootOf(f.value), o.(bytes := o.bytes + f.size);
      PartsAccepted(Opened(counted, root).o, PartsOf(root), spares);
    }
  }

  /** The stream's first frame that is not the closing mark, if any, is acceptable. */
  predicate Opens(frames: seq<Frame>) {
    if frames == [] then false
    else if frames[0].Done? then Opens(frames[1..])
    else Acceptable(frames[0], 0)
  }

  /** A stream announces itself exactly when its first frame is acceptable; otherwise it only fails. */
  lemma {:induction false} StreamOpensExactly(o: State, frames: seq<Frame>, ending: Ending, spares: nat -> string, now: int)
    requires !o.started && !o.finished && !o.completed && o.bytes == 0
    ensures var t := Run(o, frames, ending, spares, now).trace;
            && t != [] && (t[0].Created? <==> Opens(frames))
            && (!Opens(frames) ==> t == [Failed])
    decreases |frames|
  {
    hide OnFrame, Acceptable;
    if frames != [] {
      FrameAccepted(o, frames[0], spares);
      if frames[0].Done? {
        var rest := Run(o, frames[1..], ending, spares, now);
        StreamOpensExactly(o, frames[1..], ending, spares, now);
        assert [] + rest.trace == rest.trace;
      }
    }
  }

  /** A stream may send nothing but a failure: without frames, or when its first frame is not JSON. */
  lemma SomeStreamsNeverOpen(o: State, spares: nat -> string, now: int)
    requires !o.started && !o.finished && !o.completed && o.bytes == 0
    ensures Run(o, [], Eof, spares, now).trace == [Failed]
    ensures Run(o, [Malformed(1)], Eof, spares, now).trace == [Failed]
  {
    hide Run;
    StreamOpensExactly(o, [], Eof, spares, now);
    StreamOpensExactly(o, [Malformed(1)], Eof, spares, now);
  }

  // ---------- What the grammar says ----------

  /** In a trace of the grammar only the first event can be created, only the last completed or failed. */
  lemma {:induction false} GrammarEnds(m: Mode, es: seq<Event>, i: nat)
    requires ReadAll(m, es).Some? && i < |es|
    ensures es[i].Created? ==> i == 0 && m.Unopened?
    ensures es[i].Completed? || es[i].Failed? ==> i == |es| - 1
    decreases |es|
  {
    var next := Read(m, es[0]).value;
    if i > 0 {
      GrammarEnds(next, es[1..], i - 1);
    } else if |es| > 1 {
      assert ReadAll(next, es[1..]).Some?;
      assert Read(next, es[1]).Some?;
    }
  }

  function StepsBefore(m: Mode): nat {
    match m
    case Between(ss) => |ss|
    case InStep(ss, _) => |ss| + 1
    case InStepSent(ss, _) => |ss| + 1
    case Ended(ss) => |ss|
    case _ => 0
  }

  function Starts(es: seq<Event>): nat {
    if es == [] then 0 else (if es[0].StepStart? then 1 else 0) + Starts(es[1..])
  }

  /** Started steps are numbered in order: the index of each is the number of steps started before it. */
  lemma {:induction false} GrammarNumbersSteps(m: Mode, es: seq<Event>, i: nat)
    requires ReadAll(m, es).Some? && i < |es| && es[i].StepStart?
    ensures es[i].index == StepsBefore(m) + Starts(es[..i])
    decreases |es|
  {
    if i > 0 {
      GrammarNumbersSteps(Read(m, es[0]).value, es[1..], i - 1);
      assert es[..i][1..] == es[1..][..i - 1];
    }
  }

  /** The observer after all frames, if none of them failed */
  ghost function AfterFrames(o: State, frames: seq<Frame>, spares: nat -> string): Option<State>
    decreases |frames|
  {
    if frames == [] then Some(o)
    else
      var step := OnFrame(o, frames[0], spares);
      if step.events.None? then None else AfterFrames(step.o, frames[1..], spares)
  }

  /** All parts that a stream brings, in order */
  function Arrived(frames: seq<Frame>): seq<Json> {
    if frames == [] then []
    else (if frames[0].Parsed? then PartsOf(RootOf(frames[0].value)) else []) + Arrived(frames[1..])
  }

  /** A part as it is kept: unchanged, except that a function call without an identifier gets a spare one */
  function Kept(part: Json, spare: string): Json {
    var call := Get(part, "functionCall");
    if call.None? then part
    else
      var given := GetText(call.value, "id");
      WithCallId(part, call.value, if given.Some? && given.value != "" then given.value else spare)
  }

  /** The kept forms of `parts`, the first of which is the `n`th of its stream */
  function KeptAll(parts: seq<Json>, n: nat, spares: nat -> string): (r: seq<Json>)
    ensures |r| == |parts|
    ensures forall i :: 0 <= i < |parts| ==> r[i] == Kept(parts[i], spares(n + i))
  {
    seq(|parts|, i requires 0 <= i < |parts| => Kept(parts[i], spares(n + i)))
  }

  /** Keeping a part changes at most the identifier of its call, and that only if it has none. */
  lemma KeptIsFaithful(part: Json, spare: string)
    ensures var k := Kept(part, spare);
            && (forall key :: key != "functionCall" ==> Get(k, key) == Get(part, key))
            && (Get(part, "functionCall").None? ==> k == part)
            && (Get(part, "functionCall").Some? ==>
                  var call := Get(part, "functionCall").value;
                  && (GetText(call, "id").Some? && GetText(call, "id").value != "" ==> k == part)
                  && forall key :: key != "id" ==> Then(Get(k, "functionCall"), key) == Get(call, key))
  {
    var call := Get(part, "functionCall");
    if call.Some? && GetText(call.value, "id").Some? && GetText(call.value, "id").value != "" {
      var fields := call.value.fields;
      assert fields["id" := fields["id"]] == fields;
      assert part.fields["functionCall" := part.fields["functionCall"]] == part.fields;
    }
  }

  lemma {:induction false} PartsAreKept(o: State, parts: seq<Json>, spares: nat -> string)
    requires OnParts(o, parts, spares).events.Some?
    ensures OnParts(o, parts, spares).o.parts == o.parts + KeptAll(parts, |o.parts|, spares)
    decreases |parts|
  {
    hide OnPart, KeptAll, Kept;
    if parts != [] {
      var next := OnPart(o, parts[0], spares).o;
      PartsAreKept(next, parts[1..], spares);
      PartIsKept(o, parts[0], spares);
      KeptFirst(parts, |o.parts|, spares);
      Associative(o.parts, [Kept(parts[0], spares(|o.parts|))], KeptAll(parts[1..], |next.parts|, spares));
    } else {
      assert KeptAll(parts, |o.parts|, spares) == [];
    }
  }

  lemma PartIsKept(o: State, part: Json, spares: nat -> string)
    ensures OnPart(o, part, spares).events.Some? ==>
              OnPart(o, part, spares).o.parts == o.parts + [Kept(part, spares(|o.parts|))]
  {
    hide CallStep, OutputStep, StepEvents, SignatureEvent, WithCallId;
  }

  lemma KeptFirst(parts: seq<Json>, n: nat, spares: nat -> string)
    requires parts != []
    ensures KeptAll(parts, n, spares) == [Kept(parts[0], spares(n))] + KeptAll(parts[1..], n + 1, spares)
  {
    hide Kept;
  }

  lemma KeptConcat(a: seq<Json>, b: seq<Json>, n: nat, spares: nat -> string)
    ensures KeptAll(a + b, n, spares) == KeptAll(a, n, spares) + KeptAll(b, n + |a|, spares)
  {
    hide Kept;
  }

  lemma FramePartsAreKept(o: State, f: Frame, spares: nat -> string)
    requires OnFrame(o, f, spares).events.Some?
    ensures OnFrame(o, f, spares).o.parts == o.parts + KeptAll(Arrived([f]), |o.parts|, spares)
  {
    hide OnParts, PartsOf, KeptAll;
    assert [f][1..] == [];
    if f.Parsed? {
      var counted := o.(bytes := o.bytes + f.size);
      PartsAreKept(Opened(counted, RootOf(f.value)).o, PartsOf(RootOf(f.value)), spares);
      assert Arrived([f]) == PartsOf(RootOf(f.value));
    } else {
      assert KeptAll([], |o.parts|, spares) == [];
    }
  }

  /**
   * What a stream publishes: if it writes the store, every frame was accepted and one of them carried a
   * finish reason, the last event is the completed interaction of the final state, the puts are exactly that
   * turn's, and its parts are those that the stream brought, in order, each as it is kept.
   */
  lemma {:induction false} PublishedTurnIsWhole(o: State, frames: seq<Frame>, ending: Ending, spares: nat -> string, now: int)
    requires !o.completed && (o.finished ==> o.started)
    requires Run(o, frames, ending, spares, now).puts != []
    ensures AfterFrames(o, frames, spares).Some?
    ensures var s := Run(o, frames, ending, spares, now);
            var last := AfterFrames(o, frames, spares).value;
            && s.trace != [] && s.trace[|s.trace| - 1] == Completed(InteractionOf(last))
            && Saves(TurnOf(last), InteractionOf(last), now) == Ok(s.puts)
            && last.parts == o.parts + KeptAll(Arrived(frames), |o.parts|, spares)
            && (o.finished || exists i :: 0 <= i < |frames| && FinishesTurn(frames[i]))
    decreases |frames|
  {
    hide OnFrame, Saves, InteractionOf, TurnOf, KeptAll, FinishesTurn, Arrived;
    if frames != [] {
      var step := OnFrame(o, frames[0], spares);
      FrameKeepsFlags(o, frames[0], spares);
      PublishedTurnIsWhole(step.o, frames[1..], ending, spares, now);
      if !o.finished && !FinishesTurn(frames[0]) {
        var i :| 0 <= i < |frames[1..]| && FinishesTurn(frames[1..][i]);
        assert FinishesTurn(frames[i + 1]);
      }
    }
    FramesKeepParts(o, frames, spares);
  }

  lemma ArrivedNothing()
    ensures Arrived([]) == []
  {
  }

  lemma ArrivedSplit(f: Frame, rest: seq<Frame>)
    ensures Arrived([f] + rest) == Arrived([f]) + Arrived(rest)
  {
    hide PartsOf;
    assert [f][1..] == [] && ([f] + rest)[1..] == rest;
  }

  lemma {:induction false} FramesKeepParts(o: State, frames: seq<Frame>, spares: nat -> string)
    requires AfterFrames(o, frames, spares).Some?
    ensures AfterFrames(o, frames, spares).value.parts == o.parts + KeptAll(Arrived(frames), |o.parts|, spares)
    decreases |frames|
  {
    hide OnFrame, KeptAll, Arrived;
    if frames == [] {
      assert Arrived([]) == [] by { ArrivedNothing(); }
      assert KeptAll([], |o.parts|, spares) == [];
    } else {
      var next := OnFrame(o, frames[0], spares).o;
      FramesKeepParts(next, frames[1..], spares);
      FramePartsAreKept(o, frames[0], spares);
      var first, rest := Arrived([frames[0]]), Arrived(frames[1..]);
      ArrivedSplit(frames[0], frames[1..]);
      assert frames == [frames[0]] + frames[1..];
      KeptConcat(first, rest, |o.parts|, spares);
      Associative(o.parts, KeptAll(first, |o.parts|, spares), KeptAll(rest, |next.parts|, spares));
    }
  }

  // ---------- What the steps show ----------

  /** A part that becomes a step; any other supported part is a bare signature. */
  predicate MakesStep(part: Json) {
    || Get(part, "functionCall").Some? || Get(part, "text").Some?
    || Get(part, "inlineData").Some? || Get(part, "fileData").Some?
  }

  /** `step_` and the decimal digits of `m` */
  ghost predicate IsStepId(id: Option<Json>, m: nat) {
    exists ds: seq<Decimal.digit> ::
      Decimal.Value(ds) == m && id == Some(Text("step_" + seq(|ds|, i requires 0 <= i < |ds| => '0' + ds[i] as char)))
  }

  /** `step` is the call in `part`: identifier given or spare, name mapped or its own, arguments and signature. */
  ghost predicate ShowsCall(part: Json, step: Json, spare: string, names: map<string, string>)
    requires Get(part, "functionCall").Some?
  {
    var call := Get(part, "functionCall").value;
    var id, name, args := GetText(call, "id"), GetText(call, "name"), Get(call, "args");
    && Get(step, "type") == Some(Text("function_call"))
    && Get(step, "id") == Some(Text(if id.Some? && id.value != "" then id.value else spare))
    && (name.Some? && name.value in names ==> Get(step, "name") == Some(Text(names[name.value])))
    && (!(name.Some? && name.value in names) ==>
          Get(step, "name") == Some(if Get(call, "name").Some? then Get(call, "name").value else Null))
    && Get(step, "arguments") == Some(if args.Some? then args.value else Object(map[]))
    && Get(step, "thought_signature") == Get(part, "thoughtSignature")
    && Get(step, "content") == None
  }

  /** `content` is the text in `part`: a thought or plain text, with its signature. */
  ghost predicate ShowsText(part: Json, content: Json) {
    && Get(content, "type") == Some(Text(if Get(part, "thought") == Some(Bool(true)) then "thought" else "text"))
    && Get(content, "text") == Get(part, "text")
    && Get(content, "thought_signature") == Get(part, "thoughtSignature")
  }

  /** `content` is the inline or linked media in `part`: kind by MIME type, data and address. */
  ghost predicate ShowsMedia(part: Json, content: Json) {
    var media := if Get(part, "inlineData").Some? then Get(part, "inlineData") else Get(part, "fileData");
    && media.Some?
    && var mime := if GetText(media.value, "mimeType").Some? then GetText(media.value, "mimeType").value else "";
    && Get(content, "mime_type") == Some(Text(mime))
    && ("image/" <= mime ==> Get(content, "type") == Some(Text("image")))
    && ("audio/" <= mime ==> Get(content, "type") == Some(Text("audio")))
    && ("video/" <= mime ==> Get(content, "type") == Some(Text("video")))
    && (!("image/" <= mime || "audio/" <= mime || "video/" <= mime) ==> Get(content, "type") == Some(Text("document")))
    && Get(content, "data") == Get(media.value, "data") && Get(content, "uri") == Get(media.value, "fileUri")
  }

  /** `step` is the `m`th step and shows `part`; a call comes before text, and text before media. */
  ghost predicate ShowsPart(part: Json, step: Json, m: nat, spare: string, names: map<string, string>) {
    if Get(part, "functionCall").Some? then ShowsCall(part, step, spare, names)
    else
      && Get(step, "type") == Some(Text("model_output")) && IsStepId(Get(step, "id"), m)
      && GetArray(step, "content").Some? && |GetArray(step, "content").value| == 1
      && var content := GetArray(step, "content").value[0];
      if Get(part, "text").Some? then ShowsText(part, content) else ShowsMedia(part, content)
  }

  /** The delta of a step carries its arguments, or its content. */
  ghost predicate ShowsDelta(part: Json, step: Json, delta: Json) {
    if Get(part, "functionCall").Some?
    then Get(delta, "type") == Some(Text("arguments_delta")) && Get(delta, "arguments") == Get(step, "arguments")
    else GetArray(step, "content") == Some([delta])
  }

  /** Three events send a step: its start, its delta and its stop. */
  ghost predicate SendsStep(part: Json, step: Json, m: nat, es: seq<Event>) {
    && |es| == 3
    && es[0] == StepStart(m, step)
    && es[1].StepDelta? && es[1].index == m && ShowsDelta(part, step, es[1].delta)
    && es[2].StepStop? && es[2].index == m && Some(es[2].stepId) == Get(step, "id")
  }

  /** One event sends a bare signature, under the index of the next step. */
  ghost predicate SendsSignature(part: Json, m: nat, e: Event) {
    && e.StepDelta? && e.index == m
    && Get(e.delta, "type") == Some(Text("thought_signature"))
    && Get(part, "thoughtSignature").Some? && Get(e.delta, "signature") == Get(part, "thoughtSignature")
  }

  /** The `n`th and following parts are shown, one for one and in order, by the steps from the `m`th on and by the events. */
  ghost predicate Shown(parts: seq<Json>, n: nat, m: nat, names: map<string, string>, spares: nat -> string,
                        steps: seq<Json>, es: seq<Event>)
    decreases |parts|
  {
    if parts == [] then steps == [] && es == []
    else if MakesStep(parts[0]) then
      && steps != [] && |es| >= 3
      && ShowsPart(parts[0], steps[0], m, spares(n), names) && SendsStep(parts[0], steps[0], m, es[..3])
      && Shown(parts[1..], n + 1, m + 1, names, spares, steps[1..], es[3..])
    else
      && es != [] && SendsSignature(parts[0], m, es[0])
      && Shown(parts[1..], n + 1, m, names, spares, steps, es[1..])
  }

  lemma StepIdIs(m: nat)
    ensures IsStepId(Some(StepId(m)), m)
  {
    Decimal.ValueOfDigits(m);
  }

  lemma CallShown(o: State, part: Json, spare: string)
    requires Get(part, "functionCall").Some?
    ensures ReadPart(o, part, spare).AsStep? && ShowsCall(part, ReadPart(o, part, spare).step, spare, o.functionNames)
  {
    hide WithCallId;
  }

  lemma OutputShown(n: nat, content: Fields)
    ensures var step := OutputStep(n, content);
            && Get(step, "type") == Some(Text("model_output")) && IsStepId(Get(step, "id"), n)
            && GetArray(step, "content") == Some([Object(content)])
  {
    hide StepId;
    StepIdIs(n);
  }

  lemma TextShown(part: Json)
    requires Get(part, "text").Some?
    ensures ShowsText(part, Object(TextContent(part, Get(part, "text").value)))
  {
  }

  lemma MediaShown(part: Json)
    requires Media(part).Some?
    ensures ShowsMedia(part, Object(MediaContent(Media(part).value)))
  {
    var given := GetText(Media(part).value, "mimeType");
    var mime := if given.Some? then given.value else "";
    assert "image/" <= mime ==> mime[0] == 'i';
    assert "audio/" <= mime ==> mime[0] == 'a';
    assert "video/" <= mime ==> mime[0] == 'v';
  }

  lemma StepShown(o: State, part: Json, spare: string)
    requires MakesStep(part)
    ensures ReadPart(o, part, spare).AsStep?
    ensures ShowsPart(part, ReadPart(o, part, spare).step, |o.steps|, spare, o.functionNames)
  {
    hide WithCallId, CallStep, OutputStep, TextContent, MediaContent, ShowsCall, ShowsText, ShowsMedia, IsStepId;
    if Get(part, "functionCall").Some? {
      CallShown(o, part, spare);
    } else if Get(part, "text").Some? {
      OutputShown(|o.steps|, TextContent(part, Get(part, "text").value));
      TextShown(part);
    } else {
      OutputShown(|o.steps|, MediaContent(Media(part).value));
      MediaShown(part);
    }
  }

  lemma StepSent(part: Json, step: Json, m: nat, spare: string, names: map<string, string>)
    requires ShowsPart(part, step, m, spare, names)
    ensures SendsStep(part, step, m, StepEvents(m, step))
  {
    hide ShowsText, ShowsMedia;
    if Get(part, "functionCall").None? {
      var content := GetArray(step, "content").value;
      assert content == [content[0]];
      StepIdPresent(Get(step, "id"), m);
    }
  }

  lemma StepIdPresent(id: Option<Json>, m: nat)
    requires IsStepId(id, m)
    ensures id.Some?
  {
  }

  lemma {:induction false} PartsShown(o: State, parts: seq<Json>, spares: nat -> string)
    requires OnParts(o, parts, spares).events.Some?
    ensures var r := OnParts(o, parts, spares);
            && o.steps <= r.o.steps && r.o.functionNames == o.functionNames
            && Shown(parts, |o.parts|, |o.steps|, o.functionNames, spares, r.o.steps[|o.steps|..], r.events.value)
    decreases |parts|
  {
    hide ReadPart, ShowsPart, SendsStep, StepEvents;
    var r := OnParts(o, parts, spares);
    if parts == [] {
      assert r.o.steps[|o.steps|..] == [];
    } else {
      var part, next := parts[0], OnPart(o, parts[0], spares);
      PartsShown(next.o, parts[1..], spares);
      var rest := OnParts(next.o, parts[1..], spares).events.value;
      if MakesStep(part) {
        StepShown(o, part, spares(|o.parts|));
        var step := ReadPart(o, part, spares(|o.parts|)).step;
        StepSent(part, step, |o.steps|, spares(|o.parts|), o.functionNames);
        ThreeEvents(|o.steps|, step, rest);
        var news := r.o.steps[|o.steps|..];
        assert news[0] == step && news[1..] == r.o.steps[|next.o.steps|..];
      } else {
        SignatureSent(o, part, spares(|o.parts|));
        var e := next.events.value[0];
        assert ([e] + rest)[0] == e && ([e] + rest)[1..] == rest;
      }
    }
  }

  lemma ThreeEvents(m: nat, step: Json, rest: seq<Event>)
    ensures var es := StepEvents(m, step) + rest; |es| >= 3 && es[..3] == StepEvents(m, step) && es[3..] == rest
  {
  }

  lemma SignatureSent(o: State, part: Json, spare: string)
    requires !MakesStep(part) && !ReadPart(o, part, spare).Unsupported?
    ensures ReadPart(o, part, spare).AsSignature?
    ensures SendsSignature(part, |o.steps|, SignatureEvent(|o.steps|, ReadPart(o, part, spare).signature))
  {
  }

  lemma {:induction false} ShownConcat(a: seq<Json>, b: seq<Json>, n: nat, m: nat, names: map<string, string>,
                                       spares: nat -> string, s1: seq<Json>, e1: seq<Event>, s2: seq<Json>, e2: seq<Event>)
    requires Shown(a, n, m, names, spares, s1, e1) && Shown(b, n + |a|, m + |s1|, names, spares, s2, e2)
    ensures Shown(a + b, n, m, names, spares, s1 + s2, e1 + e2)
    decreases |a|
  {
    hide ShowsPart, SendsStep, SendsSignature;
    if a == [] {
      assert a + b == b && s1 + s2 == s2 && e1 + e2 == e2;
    } else {
      assert (a + b)[1..] == a[1..] + b;
      if MakesStep(a[0]) {
        ShownConcat(a[1..], b, n + 1, m + 1, names, spares, s1[1..], e1[3..], s2, e2);
        assert (s1 + s2)[1..] == s1[1..] + s2 && (e1 + e2)[3..] == e1[3..] + e2 && (e1 + e2)[..3] == e1[..3];
      } else {
        ShownConcat(a[1..], b, n + 1, m, names, spares, s1, e1[1..], s2, e2);
        assert (e1 + e2)[1..] == e1[1..] + e2;
      }
    }
  }

  // ---------- What a stream shows ----------

  /** All events of the frames, if none of them fails */
  ghost function FrameEvents(o: State, frames: seq<Frame>, spares: nat -> string): seq<Event>
    requires AfterFrames(o, frames, spares).Some?
    decreases |frames|
  {
    if frames == [] then []
    else
      var step := OnFrame(o, frames[0], spares);
      step.events.value + FrameEvents(step.o, frames[1..], spares)
  }

  /** The identifier that was reported last */
  function ReportedId(id: string, frames: seq<Frame>): string
    decreases |frames|
  {
    if frames == [] then id
    else
      var given := if frames[0].Parsed? then GetText(RootOf(frames[0].value), "responseId") else None;
      ReportedId(if given.Some? then given.value else id, frames[1..])
  }

  /** The usage that was reported last */
  function ReportedUsage(usage: Option<Json>, frames: seq<Frame>): Option<Json>
    decreases |frames|
  {
    if frames == [] then usage
    else
      var given := if frames[0].Parsed? then Get(RootOf(frames[0].value), "usageMetadata") else None;
      ReportedUsage(if given.Some? then given else usage, frames[1..])
  }

  /** The events that open a stream: created and in progress, under the identifier known with the first real frame */
  function OpeningOf(o: State, frames: seq<Frame>): seq<Event>
    decreases |frames|
  {
    if frames == [] || o.started then []
    else if frames[0].Done? then OpeningOf(o, frames[1..])
    else
      var id := ReportedId(o.id, [frames[0]]);
      [Created(id, o.model), StatusUpdate(id)]
  }

  lemma FrameShown(o: State, f: Frame, spares: nat -> string) returns (body: seq<Event>)
    requires OnFrame(o, f, spares).events.Some?
    ensures var r := OnFrame(o, f, spares);
            && r.events.value == OpeningOf(o, [f]) + body
            && (f.Done? ==> body == [] && r.o == o)
            && r.o.started == (o.started || !f.Done?)
            && o.steps <= r.o.steps && r.o.functionNames == o.functionNames && r.o.model == o.model
            && r.o.id == ReportedId(o.id, [f]) && r.o.usage == ReportedUsage(o.usage, [f])
            && Shown(Arrived([f]), |o.parts|, |o.steps|, o.functionNames, spares, r.o.steps[|o.steps|..], body)
  {
    hide OnParts, PartsOf, Shown;
    assert [f][1..] == [];
    if f.Done? {
      body := [];
      NothingShown(o, spares);
      assert OpeningOf(o, [f]) == [];
    } else {
      var root, counted := RootOf(f.value), o.(bytes := o.bytes + f.size);
      var start := Opened(counted, root);
      PartsShown(start.o, PartsOf(root), spares);
      PartsKeepFlags(start.o, PartsOf(root), spares);
      PartsKeepHeader(start.o, PartsOf(root), spares);
      assert Arrived([f]) == PartsOf(root);
      assert start.o.id == ReportedId(o.id, [f]);
      assert start.events.value == OpeningOf(o, [f]);
      body := OnParts(start.o, PartsOf(root), spares).events.value;
    }
  }

  lemma NothingShown(o: State, spares: nat -> string)
    ensures Shown([], |o.parts|, |o.steps|, o.functionNames, spares, o.steps[|o.steps|..], [])
  {
  }

  lemma {:induction false} PartsKeepHeader(o: State, parts: seq<Json>, spares: nat -> string)
    ensures var r := OnParts(o, parts, spares).o;
            && r.id == o.id && r.usage == o.usage && r.model == o.model && r.bytes == o.bytes
            && r.ns == o.ns && r.owner == o.owner && r.history == o.history
    decreases |parts|
  {
    hide ReadPart;
    if parts != [] && OnPart(o, parts[0], spares).events.Some? {
      PartsKeepHeader(OnPart(o, parts[0], spares).o, parts[1..], spares);
    }
  }

  /**
   * What every accepted stream shows: after the opening, its steps and events show the parts that arrived, one for
   * one and in order, field by field; the identifier and the usage are those reported last.
   */
  lemma {:induction false} StreamShowsParts(o: State, frames: seq<Frame>, spares: nat -> string)
    returns (body: seq<Event>)
    requires AfterFrames(o, frames, spares).Some?
    ensures var last := AfterFrames(o, frames, spares).value;
            && FrameEvents(o, frames, spares) == OpeningOf(o, frames) + body
            && o.steps <= last.steps
            && Shown(Arrived(frames), |o.parts|, |o.steps|, o.functionNames, spares, last.steps[|o.steps|..], body)
            && last.id == ReportedId(o.id, frames) && last.usage == ReportedUsage(o.usage, frames)
            && last.model == o.model
    decreases |frames|
  {
    hide OnFrame, Shown, ReportedId, ReportedUsage;
    if frames == [] {
      body := [];
      ReportsNothing(o);
      NothingShown(o, spares);
    } else {
      var f, rest := frames[0], frames[1..];
      var next := OnFrame(o, f, spares).o;
      var shown := FrameShown(o, f, spares);
      var more := StreamShowsParts(next, rest, spares);
      FramePartsAreKept(o, f, spares);
      body := shown + more;
      assert frames == [f] + rest;
      var last := AfterFrames(o, frames, spares).value;
      assert last.steps[|o.steps|..] == next.steps[|o.steps|..] + last.steps[|next.steps|..];
      ArrivedSplit(f, rest);
      ShownConcat(Arrived([f]), Arrived(rest), |o.parts|, |o.steps|, o.functionNames, spares,
                  next.steps[|o.steps|..], shown, last.steps[|next.steps|..], more);
      OpeningFirst(o, next, f, rest, shown, more);
      ReportsSplit(o, f, rest);
    }
  }

  lemma OpeningFirst(o: State, next: State, f: Frame, rest: seq<Frame>, shown: seq<Event>, more: seq<Event>)
    requires f.Done? ==> shown == [] && next == o
    requires next.started == (o.started || !f.Done?)
    ensures (OpeningOf(o, [f]) + shown) + (OpeningOf(next, rest) + more) == OpeningOf(o, [f] + rest) + (shown + more)
  {
    hide ReportedId;
    assert [f][1..] == [] && ([f] + rest)[1..] == rest;
    if f.Done? {
      assert OpeningOf(o, [f]) == [];
      assert shown + more == more;
    } else {
      assert OpeningOf(next, rest) == [];
    }
  }

  lemma ReportsNothing(o: State)
    ensures ReportedId(o.id, []) == o.id && ReportedUsage(o.usage, []) == o.usage
  {
  }

  lemma ReportsSplit(o: State, f: Frame, rest: seq<Frame>)
    ensures ReportedId(o.id, [f] + rest) == ReportedId(ReportedId(o.id, [f]), rest)
    ensures ReportedUsage(o.usage, [f] + rest) == ReportedUsage(ReportedUsage(o.usage, [f]), rest)
  {
    assert [f][1..] == [] && ([f] + rest)[1..] == rest;
  }

  /** A stream of accepted frames sends their events, and then how it closes. */
  lemma {:induction false} RunIsFramesThenClose(o: State, frames: seq<Frame>, ending: Ending, spares: nat -> string, now: int)
    requires AfterFrames(o, frames, spares).Some?
    ensures var s, end := Run(o, frames, ending, spares, now), Close(AfterFrames(o, frames, spares).value, ending, now);
            s.trace == FrameEvents(o, frames, spares) + end.trace && s.puts == end.puts
    decreases |frames|
  {
    hide OnFrame, Close;
    if frames == [] {
      var end := Close(o, ending, now);
      assert [] + end.trace == end.trace;
    } else {
      var step := OnFrame(o, frames[0], spares);
      RunIsFramesThenClose(step.o, frames[1..], ending, spares, now);
      Associative(step.events.value, FrameEvents(step.o, frames[1..], spares),
                  Close(AfterFrames(o, frames, spares).value, ending, now).trace);
    }
  }

  // ---------- The completed interaction ----------

  ghost predicate HasCall(parts: seq<Json>) {
    exists p :: p in parts && Get(p, "functionCall").Some?
  }

  lemma {:induction false} ShownCalls(parts: seq<Json>, n: nat, m: nat, names: map<string, string>, spares: nat -> string,
                                      steps: seq<Json>, es: seq<Event>)
    requires Shown(parts, n, m, names, spares, steps, es)
    ensures (exists s :: s in steps && HasType(s, "function_call")) <==> HasCall(parts)
    decreases |parts|
  {
    hide SendsStep, SendsSignature, ShowsText, ShowsMedia, IsStepId;
    if parts != [] {
      TailIsPart(parts);
      if MakesStep(parts[0]) {
        ShownCalls(parts[1..], n + 1, m + 1, names, spares, steps[1..], es[3..]);
        TailIsPart(steps);
        assert HasType(steps[0], "function_call") <==> Get(parts[0], "functionCall").Some?;
      } else {
        ShownCalls(parts[1..], n + 1, m, names, spares, steps, es[1..]);
      }
    }
  }

  /** How a usage report reads in an interaction; absent counts are null or left out, as the source does. */
  ghost predicate ShowsUsage(shown: Json, usage: Json) {
    && Get(shown, "input_tokens") == Some(FieldOrNull(usage, "promptTokenCount"))
    && Get(shown, "output_tokens") == Some(FieldOrNull(usage, "candidatesTokenCount"))
    && Get(shown, "total_tokens") == Some(FieldOrNull(usage, "totalTokenCount"))
    && Get(shown, "cached_tokens") == Get(usage, "cachedContentTokenCount")
    && Get(shown, "reasoning_tokens") == Get(usage, "thoughtsTokenCount")
  }

  lemma InteractionShows(o: State)
    ensures var it := InteractionOf(o);
            var calls := exists s :: s in o.steps && HasType(s, "function_call");
            && Get(it, "id") == Some(Text(o.id)) && Get(it, "object") == Some(Text("interaction"))
            && Get(it, "model") == Some(Text(o.model)) && Get(it, "steps") == Some(Array(o.steps))
            && Get(it, "status") == Some(Text(if calls then "requires_action" else "completed"))
            && (Get(it, "usage").Some? <==> o.usage.Some?)
            && (o.usage.Some? ==> ShowsUsage(Get(it, "usage").value, o.usage.value))
  {
  }

  /**
   * The completed interaction of a stream: the identifier and usage reported last, the steps that show the arrived
   * parts, and an action required exactly when a function call arrived.
   */
  lemma CompletedShowsStream(o: State, frames: seq<Frame>, spares: nat -> string)
    requires o.steps == [] && AfterFrames(o, frames, spares).Some?
    ensures var it := InteractionOf(AfterFrames(o, frames, spares).value);
            var usage := ReportedUsage(o.usage, frames);
            && Get(it, "id") == Some(Text(ReportedId(o.id, frames))) && Get(it, "model") == Some(Text(o.model))
            && Get(it, "status") == Some(Text(if HasCall(Arrived(frames)) then "requires_action" else "completed"))
            && (Get(it, "usage").Some? <==> usage.Some?)
            && (usage.Some? ==> ShowsUsage(Get(it, "usage").value, usage.value))
            && GetArray(it, "steps").Some?
            && exists es :: Shown(Arrived(frames), |o.parts|, 0, o.functionNames, spares, GetArray(it, "steps").value, es)
  {
    hide InteractionOf, Shown, Arrived, ReportedUsage, ReportedId, ShowsUsage, HasCall, AfterFrames;
    var last := AfterFrames(o, frames, spares).value;
    var body := StreamShowsParts(o, frames, spares);
    assert last.steps[|o.steps|..] == last.steps;
    InteractionShows(last);
    ShownCalls(Arrived(frames), |o.parts|, 0, o.functionNames, spares, last.steps, body);
  }

  // ---------- When a stream completes ----------

  function SizeOf(f: Frame): nat {
    if f.Done? then 0 else f.size
  }

  /** Every frame is acceptable after those before it. */
  predicate AllAcceptable(frames: seq<Frame>, bytes: nat)
    decreases |frames|
  {
    frames == [] || (Acceptable(frames[0], bytes) && AllAcceptable(frames[1..], bytes + SizeOf(frames[0])))
  }

  lemma FrameCounts(o: State, f: Frame, spares: nat -> string)
    requires OnFrame(o, f, spares).events.Some?
    ensures var r := OnFrame(o, f, spares).o;
            && r.bytes == o.bytes + SizeOf(f) && r.completed == o.completed
            && (r.finished <==> o.finished || FinishesTurn(f))
  {
    hide OnParts, PartsOf;
    if f.Parsed? {
      var root, counted := RootOf(f.value), o.(bytes := o.bytes + f.size);
      PartsKeepFlags(Opened(counted, root).o, PartsOf(root), spares);
      PartsKeepHeader(Opened(counted, root).o, PartsOf(root), spares);
    }
  }

  lemma {:induction false} FramesAccepted(o: State, frames: seq<Frame>, spares: nat -> string)
    ensures AfterFrames(o, frames, spares).Some? <==> AllAcceptable(frames, o.bytes)
    ensures AfterFrames(o, frames, spares).Some? ==>
              var last := AfterFrames(o, frames, spares).value;
              && last.completed == o.completed
              && (last.finished <==> o.finished || exists i :: 0 <= i < |frames| && FinishesTurn(frames[i]))
    decreases |frames|
  {
    hide OnFrame, Acceptable, FinishesTurn;
    if frames != [] {
      var f, rest := frames[0], frames[1..];
      FrameAccepted(o, f, spares);
      if OnFrame(o, f, spares).events.Some? {
        FrameCounts(o, f, spares);
        FramesAccepted(OnFrame(o, f, spares).o, rest, spares);
        assert forall i :: 1 <= i < |frames| ==> frames[i] == rest[i - 1];
        if exists i :: 0 <= i < |rest| && FinishesTurn(rest[i]) {
          var i :| 0 <= i < |rest| && FinishesTurn(rest[i]);
          assert FinishesTurn(frames[i + 1]);
        }
      }
    }
  }

  lemma {:induction false} RejectedStreamWritesNothing(o: State, frames: seq<Frame>, ending: Ending, spares: nat -> string, now: int)
    requires AfterFrames(o, frames, spares).None?
    ensures Run(o, frames, ending, spares, now).puts == []
    decreases |frames|
  {
    hide OnFrame;
    if OnFrame(o, frames[0], spares).events.Some? {
      RejectedStreamWritesNothing(OnFrame(o, frames[0], spares).o, frames[1..], ending, spares, now);
    }
  }

  /**
   * Exactly when a stream completes and files its turn: it ends properly, every frame is acceptable, one of them
   * carries a finish reason, its identifier is not empty, and the identifiers of its calls, if any, are in order.
   */
  lemma StreamCompletesExactly(o: State, frames: seq<Frame>, ending: Ending, spares: nat -> string, now: int)
    requires o.steps == [] && !o.started && !o.finished && !o.completed && o.bytes == 0
    ensures Run(o, frames, ending, spares, now).puts != [] <==>
            && ending.Eof? && AllAcceptable(frames, 0)
            && (exists i :: 0 <= i < |frames| && FinishesTurn(frames[i]))
            && ReportedId(o.id, frames) != ""
            && AfterFrames(o, frames, spares).Some?
            && var calls := CallsIn(AfterFrames(o, frames, spares).value.steps);
            && (calls == [] || GoodIds(TextsOf(calls, "id")))
  {
    hide OnFrame, Acceptable, FinishesTurn, GoodIds, TextsOf, CallsIn, InteractionOf, TurnOf, AfterFrames, Run, Saves, AllAcceptable,
         ReportedId;
    FramesAccepted(o, frames, spares);
    if AfterFrames(o, frames, spares).None? {
      RejectedStreamWritesNothing(o, frames, ending, spares, now);
    } else {
      var last := AfterFrames(o, frames, spares).value;
      RunIsFramesThenClose(o, frames, ending, spares, now);
      var body := StreamShowsParts(o, frames, spares);
      StepsOfInteraction(last);
      SavedExactly(TurnOf(last), InteractionOf(last), now);
      ClosesExactly(last, ending, now);
    }
  }

  lemma ClosesExactly(o: State, ending: Ending, now: int)
    requires !o.completed && Publishes(InteractionOf(o))
    ensures Close(o, ending, now).puts != [] <==>
            ending.Eof? && o.finished && Saves(TurnOf(o), InteractionOf(o), now).Ok?
  {
    hide InteractionOf, TurnOf, CallsOf, TextsOf, GoodIds;
  }

  /**
   * What a completed stream files, under each of its keys: the conversation so far followed by the model's message
   * with the arrived parts, under the stream's namespace and owner, with the identifier reported last and the calls
   * among its steps.
   */
  lemma FiledTurnHolds(o: State, frames: seq<Frame>, ending: Ending, spares: nat -> string, now: int, p: Put)
    requires !o.completed && (o.finished ==> o.started) && o.parts == [] && o.steps == []
    requires p in Run(o, frames, ending, spares, now).puts
    ensures AfterFrames(o, frames, spares).Some? && p.Put?
    ensures var c := p.entry.value;
            var parts := KeptAll(Arrived(frames), 0, spares);
            var message := Object(map["role" := Text("model"), "parts" := Array(parts)]);
            && c.ns == o.ns && c.owner == o.owner && c.environment == None && c.id == ReportedId(o.id, frames)
            && c.contents == o.history + (if parts == [] then [] else [message])
            && c.calls == CallsIn(AfterFrames(o, frames, spares).value.steps)
  {
    hide OnFrame, Run, KeptAll, Arrived, CallsIn, Saves, InteractionOf, FinishesTurn, AfterFrames, ReportedId;
    PublishedTurnIsWhole(o, frames, ending, spares, now);
    var last := AfterFrames(o, frames, spares).value;
    var kept := KeptAll(Arrived(frames), 0, spares);
    assert o.parts + kept == kept;
    FramesKeepHeader(o, frames, spares);
    var body := StreamShowsParts(o, frames, spares);
    StepsOfInteraction(last);
    InteractionHasNoEnvironment(last);
    SavesHold(TurnOf(last), InteractionOf(last), now, p);
  }

  lemma SavesHold(turn: Turn, interaction: Json, now: int, p: Put)
    requires Saves(turn, interaction, now).Ok? && p in Saves(turn, interaction, now).value
    requires GetText(interaction, "id").Some?
    ensures p.Put? && p.entry.value == ContinuationOf(turn, interaction, GetText(interaction, "id").value)
  {
    hide ContinuationOf, GoodIds, TextsOf, CallsOf;
  }

  lemma InteractionHasNoEnvironment(o: State)
    ensures Get(InteractionOf(o), "environment_id") == None
  {
    hide UsageFields;
  }

  lemma FrameKeepsHeader(o: State, f: Frame, spares: nat -> string)
    ensures var r := OnFrame(o, f, spares).o; r.ns == o.ns && r.owner == o.owner && r.history == o.history
  {
    hide OnParts, PartsOf;
    if f.Parsed? {
      PartsKeepHeader(Opened(o.(bytes := o.bytes + f.size), RootOf(f.value)).o, PartsOf(RootOf(f.value)), spares);
    }
  }

  lemma {:induction false} FramesKeepHeader(o: State, frames: seq<Frame>, spares: nat -> string)
    requires AfterFrames(o, frames, spares).Some?
    ensures var last := AfterFrames(o, frames, spares).value;
            last.ns == o.ns && last.owner == o.owner && last.history == o.history
    decreases |frames|
  {
    hide OnFrame;
    if frames != [] {
      FrameKeepsHeader(o, frames[0], spares);
      FramesKeepHeader(OnFrame(o, frames[0], spares).o, frames[1..], spares);
    }
  }

  // ---------- Continuing a streamed turn ----------

  /** Every function call among the steps carries a name. */
  ghost predicate CallsNamed(steps: seq<Json>) {
    forall s :: s in steps && HasType(s, "function_call") ==> Get(s, "name").Some?
  }

  lemma {:induction false} PartsName(o: State, parts: seq<Json>, spares: nat -> string)
    requires CallsNamed(o.steps)
    ensures CallsNamed(OnParts(o, parts, spares).o.steps)
    decreases |parts|
  {
    hide WithCallId, StepEvents, SignatureEvent, TextContent, MediaContent, StepId, MediaKind;
    if parts != [] && OnPart(o, parts[0], spares).events.Some? {
      PartsName(OnPart(o, parts[0], spares).o, parts[1..], spares);
    }
  }

  lemma {:induction false} FramesName(o: State, frames: seq<Frame>, spares: nat -> string)
    requires CallsNamed(o.steps) && AfterFrames(o, frames, spares).Some?
    ensures CallsNamed(AfterFrames(o, frames, spares).value.steps)
    decreases |frames|
  {
    hide OnParts, CallsNamed;
    if frames != [] {
      var f := frames[0];
      if f.Parsed? {
        var counted := o.(bytes := o.bytes + f.size);
        PartsName(Opened(counted, RootOf(f.value)).o, PartsOf(RootOf(f.value)), spares);
      }
      FramesName(OnFrame(o, f, spares).o, frames[1..], spares);
    }
  }

  lemma {:induction false} CallsOfNamed(steps: seq<Json>)
    requires CallsNamed(steps)
    ensures AllNamed(CallsIn(steps))
  {
    if steps != [] {
      CallsOfNamed(steps[1..]);
    }
  }

  /**
   * A streamed turn is continued: its calls always carry names, so a request that answers exactly its calls
   * and names this turn or none continues it, unless the turn has expired or was dropped from the store, or
   * the request names it and a later turn of that name is gone or asks for nothing.
   */
  lemma StreamedTurnIsContinued(o: State, frames: seq<Frame>, spares: nat -> string, es: seq<Continuations.Event>,
                                states: seq<Entries>, i: nat, body: Fields, native: bool, now: int)
    requires o.steps == [] && AfterFrames(o, frames, spares).Some?
    requires S.IsRun(OpsOf(es), states) && i < |es| && es[i].Saved?
    requires var last := AfterFrames(o, frames, spares).value;
             && es[i].turn == TurnOf(last) && es[i].interaction == InteractionOf(last)
             && Saves(TurnOf(last), InteractionOf(last), es[i].now).Ok?
    requires var c := SavedTurn(es[i]);
             && c.calls != []
             && LastUnder(es, i, ByCalls(c.ns, IdSet(TextsOf(c.calls, "id"))))
             && Answers(body, IdSet(TextsOf(c.calls, "id"))) && MayContinue(body, c.id)
    ensures var c := SavedTurn(es[i]);
            var r := Prepares(body, native, c.ns, states[|OpsOf(es)|], now);
            || Continues(r, body, native, c)
            || (r == Err(NoMatch)
                && IsGone(es, ByCalls(c.ns, IdSet(TextsOf(c.calls, "id"))), S.Entry(c, es[i].now + TTL), now))
            || NameIsGone(r, es, body, c, now)
            || ContinuesLater(r, es, i, body, c)
  {
    hide Saves, SavedTurn, OpsOf, LastUnder, Answers, Prepares, IsGone, Continues, InteractionOf, TurnOf, CallsNamed, AllNamed,
         TextsOf, IdSet, MayContinue, S.StepLeadsTo, CallsIn, NameIsGone, ContinuesLater;
    var last := AfterFrames(o, frames, spares).value;
    NothingNamed(o.steps);
    FramesName(o, frames, spares);
    CallsOfNamed(last.steps);
    StepsOfInteraction(last);
    SavedWithCalls(es[i]);
    CompletedTurnIsContinued(es, states, i, body, native, now);
  }

  lemma NothingNamed(steps: seq<Json>)
    requires steps == []
    ensures CallsNamed(steps)
  {
  }
}
