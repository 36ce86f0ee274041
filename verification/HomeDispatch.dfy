/**
 * Dispatching over a destructive pop. Any number of dispatches run side by side over one client; the server
 * hands out each credential once, and its reply may be cut anywhere. A credential that left the server must
 * reach a caller, or the client must stop dispatching.
 */
module HomeDispatch {
  import opened Options
  import opened Bytes
  import opened FiniteSets
  import opened Resp
  import Decimal
  import HomeClient

  type Flags = HomeClient.Flags
  type Call = nat

  /** The reply in flight, with the position of the credential that the server gave up for it */
  datatype Phase = Begun | Dialing | Connected | Sent(popped: Option<nat>, reply: bytes)

  /** A credential that a caller received */
  datatype Delivery = Delivery(popped: Option<nat>, call: Call, credential: bytes)

  /** `stock` are the credentials in the order in which the server gives them up; `next` of them are gone. */
  datatype World = World(
    stock: seq<bytes>, next: nat, flags: Flags, calls: map<Call, Phase>, delivered: seq<Delivery>, lost: set<nat>)

  /** The answer of an empty queue: a bulk of length -1 */
  const NIL: bytes := [DOLLAR, MINUS, 49, CR, LF]

  /** The server gives up its next credential, or it answers something of its own. */
  datatype Service = Pops | Answers(answer: bytes)

  datatype Event =
    | Begin(call: Call, blank: bool)          // the first fence check and the model check
    | Resolve(call: Call)                     // the fence check of connect
    | Dial(call: Call, reachable: bool)       // the fence check of connect_plain, and the connection attempt
    | Send(call: Call, service: Service)      // the command is written; the server acts on it, or not
    | FailSend(call: Call, served: bool)      // writing fails; the server may have got the whole command even so
    | Receive(call: Call, cut: nat, usable: bool) // that much of the reply arrives; the credential decodes, or not
    | Close
    | Beat(up: bool)                          // the sync worker reports on its last round

  predicate IsValue(reply: Reply) {
    reply.Data? && reply.data != []
  }

  /** No part of an answer is a value: a nil, an error, an empty bulk, noise or silence */
  ghost predicate NoData(answer: bytes) {
    forall cut: nat | cut <= |answer| :: !IsValue(ReadBulk(answer[..cut]).reply)
  }

  ghost predicate Enabled(w: World, e: Event) {
    match e
    case Begin(c, _) => c !in w.calls
    case Resolve(c) => c in w.calls && w.calls[c].Begun?
    case Dial(c, _) => c in w.calls && w.calls[c].Dialing?
    case Send(c, service) =>
      c in w.calls && w.calls[c].Connected?
      && (service.Pops? ==> w.next < |w.stock|)
    case FailSend(c, served) => c in w.calls && w.calls[c].Connected? && (served ==> w.next < |w.stock|)
    case Receive(c, cut, _) => c in w.calls && w.calls[c].Sent? && cut <= |w.calls[c].reply|
    case Close => true
    case Beat(_) => true
  }

  /** What the client makes of a reply that arrived up to `cut`: the flags it leaves, and the credential, if any */
  function Received(f: Flags, reply: bytes, cut: nat, usable: bool): (Flags, Option<bytes>)
    requires cut <= |reply|
  {
    var (flags, r) := HomeClient.Settled(f, ReadBulk(reply[..cut]).reply);
    if r.Err? then (flags, None)
    else if usable then (flags, Some(r.value)) else (HomeClient.Aborted(), None)
  }

  function Lost(lost: set<nat>, popped: Option<nat>): set<nat> {
    if popped.Some? then lost + {popped.value} else lost
  }

  ghost function Next(w: World, e: Event): World
    requires Enabled(w, e)
  {
    match e
    case Begin(c, blank) => if w.flags.fenced || blank then w else w.(calls := w.calls[c := Begun])
    case Resolve(c) => w.(calls := if w.flags.fenced then w.calls - {c} else w.calls[c := Dialing])
    case Dial(c, reachable) =>
      w.(calls := if w.flags.fenced || !reachable then w.calls - {c} else w.calls[c := Connected])
    case Send(c, Pops) => w.(next := w.next + 1, calls := w.calls[c := Sent(Some(w.next), Bulk(w.stock[w.next]))])
    case Send(c, Answers(answer)) => w.(calls := w.calls[c := Sent(None, answer)])
    case FailSend(c, served) =>
      var failed := w.(flags := HomeClient.Settled(w.flags, IoError).0, calls := w.calls - {c});
      if served then failed.(next := w.next + 1, lost := w.lost + {w.next}) else failed
    case Receive(c, cut, usable) =>
      var popped := w.calls[c].popped;
      var (flags, got) := Received(w.flags, w.calls[c].reply, cut, usable);
      if got.Some?
      then w.(flags := flags, calls := w.calls - {c}, delivered := w.delivered + [Delivery(popped, c, got.value)])
      else w.(flags := flags, calls := w.calls - {c}, lost := Lost(w.lost, popped))
    case Close => w.(flags := HomeClient.Closed(w.flags))
    case Beat(up) => w.(flags := w.flags.(heartbeat := up))
  }

  // ---------- One reply ----------

  ghost predicate Stocked(stock: seq<bytes>) {
    forall i :: 0 <= i < |stock| ==> |stock[i]| <= I64_MAX
  }

  /**
   * The exact condition for a popped credential to reach its caller: the whole reply arrived and the
   * credential is not empty and usable. Then nothing is fenced; otherwise the client is fenced and nothing is
   * delivered.
   */
  lemma PoppedReply(f: Flags, credential: bytes, cut: nat, usable: bool)
    requires |credential| <= I64_MAX && cut <= |Bulk(credential)|
    ensures var (flags, got) := Received(f, Bulk(credential), cut, usable);
            if cut == |Bulk(credential)| && usable && credential != [] then flags == f && got == Some(credential)
            else flags == HomeClient.Aborted() && got == None
  {
    hide ReadBulk, Bulk;
    var reply := Bulk(credential);
    if cut < |reply| {
      CutReplyIsNoticed(credential, cut);
    } else {
      BulkRoundTrip(credential, []);
      assert reply[..cut] == reply == reply + [];
    }
  }

  // ---------- What every run keeps ----------

  ghost predicate InFlight(w: World, i: nat) {
    exists c :: c in w.calls && w.calls[c].Sent? && w.calls[c].popped == Some(i)
  }

  ghost predicate WasDelivered(w: World, i: nat) {
    exists k :: 0 <= k < |w.delivered| && w.delivered[k].popped == Some(i)
  }

  /** Replies in flight for a popped credential are that credential. */
  ghost predicate RepliesGenuine(w: World) {
    forall c :: c in w.calls && w.calls[c].Sent? ==>
      match w.calls[c].popped
      case None => true
      case Some(i) =>
        i < w.next <= |w.stock| && w.calls[c].reply == Bulk(w.stock[i]) && i !in w.lost && !WasDelivered(w, i)
  }

  ghost predicate FlightsDistinct(w: World) {
    forall c, d | c in w.calls && d in w.calls && c != d && w.calls[c].Sent? && w.calls[d].Sent? ::
      w.calls[c].popped.Some? ==> w.calls[c].popped != w.calls[d].popped
  }

  /** A credential that was popped reaches its caller unchanged, and at most once. */
  ghost predicate DeliveriesGenuine(w: World) {
    && (forall k :: 0 <= k < |w.delivered| && w.delivered[k].popped.Some? ==>
          && w.delivered[k].popped.value < w.next <= |w.stock|
          && w.delivered[k].popped.value !in w.lost
          && w.delivered[k].credential == w.stock[w.delivered[k].popped.value])
    && (forall j, k :: 0 <= j < k < |w.delivered| && w.delivered[j].popped.Some? ==>
          w.delivered[j].popped != w.delivered[k].popped)
  }

  ghost predicate Accounted(w: World) {
    forall i: nat :: i < w.next ==> InFlight(w, i) || WasDelivered(w, i) || i in w.lost
  }

  ghost predicate LossFences(w: World) {
    (forall i :: i in w.lost ==> i < w.next) && (w.lost != {} ==> w.flags.fenced)
  }

  ghost predicate Inv(w: World) {
    && w.next <= |w.stock| && Stocked(w.stock)
    && RepliesGenuine(w) && FlightsDistinct(w) && DeliveriesGenuine(w) && Accounted(w) && LossFences(w)
  }

  /** Steps before anything is sent: no reply appears or goes away. */
  lemma UnsentKeepsInv(w: World, w': World)
    requires Inv(w) && w' == w.(calls := w'.calls, flags := w'.flags)
    requires w.flags.fenced ==> w'.flags.fenced
    requires forall c :: c in w.calls && w.calls[c].Sent? ==> c in w'.calls && w'.calls[c] == w.calls[c]
    requires forall c :: c in w'.calls && w'.calls[c].Sent? ==> c in w.calls && w'.calls[c] == w.calls[c]
    ensures Inv(w')
  {
    hide NoData, Bulk, Stocked;
    forall i: nat
      ensures WasDelivered(w, i) == WasDelivered(w', i)
      ensures InFlight(w, i) ==> InFlight(w', i)
    {
      if InFlight(w, i) {
        var d :| d in w.calls && w.calls[d].Sent? && w.calls[d].popped == Some(i);
        assert d in w'.calls && w'.calls[d] == w.calls[d];
      }
    }
    assert RepliesGenuine(w');
  }

  lemma SendKeepsInv(w: World, c: Call, service: Service)
    requires Inv(w) && Enabled(w, Send(c, service))
    ensures Inv(Next(w, Send(c, service)))
  {
    hide NoData, Bulk, Stocked;
    var w' := Next(w, Send(c, service));
    forall i: nat
      ensures WasDelivered(w, i) == WasDelivered(w', i)
      ensures InFlight(w, i) ==> InFlight(w', i)
    {
      if InFlight(w, i) {
        var d :| d in w.calls && w.calls[d].Sent? && w.calls[d].popped == Some(i);
        assert d in w'.calls && w'.calls[d] == w.calls[d];
      }
    }
    if service.Pops? {
      assert w'.calls[c].popped == Some(w.next);
      assert InFlight(w', w.next);
    }
    assert RepliesGenuine(w');
    assert Accounted(w');
  }

  /** A command that could not be written: what the server gave up for it is lost, and the client is fenced. */
  lemma FailSendKeepsInv(w: World, c: Call, served: bool)
    requires Inv(w) && Enabled(w, FailSend(c, served))
    ensures Inv(Next(w, FailSend(c, served)))
  {
    hide NoData, Bulk, Stocked;
    var w' := Next(w, FailSend(c, served));
    forall i: nat
      ensures WasDelivered(w, i) == WasDelivered(w', i)
      ensures InFlight(w, i) ==> InFlight(w', i)
    {
      if InFlight(w, i) {
        var d :| d in w.calls && w.calls[d].Sent? && w.calls[d].popped == Some(i);
        assert d in w'.calls && w'.calls[d] == w.calls[d];
      }
    }
    assert RepliesGenuine(w');
    assert Accounted(w');
  }

  /** Taking a call's reply away and accounting for it otherwise */
  lemma SettleKeepsInv(w: World, w': World, c: Call)
    requires Inv(w) && c in w.calls && w.calls[c].Sent?
    requires w' == w.(flags := w'.flags, calls := w.calls - {c}, delivered := w'.delivered, lost := w'.lost)
    requires w.flags.fenced ==> w'.flags.fenced
    requires var popped := w.calls[c].popped;
             || (w'.delivered == w.delivered && w'.lost == Lost(w.lost, popped)
                 && (popped.Some? ==> w'.flags.fenced))
             || (w'.lost == w.lost
                 && exists b :: w'.delivered == w.delivered + [Delivery(popped, c, b)]
                                && (popped.Some? ==> b == w.stock[popped.value]))
    ensures Inv(w')
  {
    hide NoData, Bulk, Stocked;
    var popped := w.calls[c].popped;
    forall i: nat
      ensures WasDelivered(w', i) ==> WasDelivered(w, i) || popped == Some(i)
      ensures WasDelivered(w, i) ==> WasDelivered(w', i)
      ensures InFlight(w, i) ==> InFlight(w', i) || popped == Some(i)
    {
      if WasDelivered(w, i) {
        var k :| 0 <= k < |w.delivered| && w.delivered[k].popped == Some(i);
        assert w'.delivered[k].popped == Some(i);
      }
      if InFlight(w, i) && popped != Some(i) {
        var d :| d in w.calls && w.calls[d].Sent? && w.calls[d].popped == Some(i);
        assert d in w'.calls && w'.calls[d] == w.calls[d];
      }
    }
    if w'.delivered != w.delivered && popped.Some? {
      assert w'.delivered[|w.delivered|].popped == popped;
      assert WasDelivered(w', popped.value);
    }
    SettledDeliveries(w, w', c);
    assert Accounted(w');
    assert RepliesGenuine(w');
  }

  lemma SettledDeliveries(w: World, w': World, c: Call)
    requires RepliesGenuine(w) && DeliveriesGenuine(w) && c in w.calls && w.calls[c].Sent?
    requires w'.stock == w.stock && w'.next == w.next
    requires var popped := w.calls[c].popped;
             || (w'.delivered == w.delivered && w'.lost == Lost(w.lost, popped))
             || (w'.lost == w.lost
                 && exists b :: w'.delivered == w.delivered + [Delivery(popped, c, b)]
                                && (popped.Some? ==> b == w.stock[popped.value]))
    ensures DeliveriesGenuine(w')
  {
    hide NoData, Bulk;
    var popped := w.calls[c].popped;
    if popped.Some? {
      assert !WasDelivered(w, popped.value);
    }
  }

  lemma ReceiveKeepsInv(w: World, c: Call, cut: nat, usable: bool)
    requires Inv(w) && Enabled(w, Receive(c, cut, usable))
    ensures Inv(Next(w, Receive(c, cut, usable)))
  {
    hide Bulk, NoData, Received;
    var w' := Next(w, Receive(c, cut, usable));
    FenceSurvivesReply(w.flags, w.calls[c].reply, cut, usable);
    if w.calls[c].popped.Some? {
      PoppedReply(w.flags, w.stock[w.calls[c].popped.value], cut, usable);
    }
    var got := Received(w.flags, w.calls[c].reply, cut, usable).1;
    assert got.Some? ==> w'.delivered == w.delivered + [Delivery(w.calls[c].popped, c, got.value)];
    SettleKeepsInv(w, w', c);
  }

  lemma StepKeepsInv(w: World, e: Event)
    requires Inv(w) && Enabled(w, e)
    ensures Inv(Next(w, e))
  {
    hide Inv, Bulk, NoData, Received;
    match e
    case Send(c, service) => SendKeepsInv(w, c, service);
    case FailSend(c, served) => FailSendKeepsInv(w, c, served);
    case Receive(c, cut, usable) => ReceiveKeepsInv(w, c, cut, usable);
    case _ => UnsentKeepsInv(w, Next(w, e));
  }

  ghost predicate IsRun(w: World, es: seq<Event>)
    decreases |es|
  {
    es == [] || (Enabled(w, es[0]) && IsRun(Next(w, es[0]), es[1..]))
  }

  ghost function After(w: World, es: seq<Event>): World
    requires IsRun(w, es)
    decreases |es|
  {
    if es == [] then w else After(Next(w, es[0]), es[1..])
  }

  ghost predicate Fresh(w: World) {
    w.next == 0 && Stocked(w.stock) && w.calls == map[] && w.delivered == [] && w.lost == {}
  }

  lemma {:induction false} RunKeepsInv(w: World, es: seq<Event>)
    requires Inv(w) && IsRun(w, es)
    ensures Inv(After(w, es))
    decreases |es|
  {
    hide Inv, Next, Enabled;
    if es != [] {
      StepKeepsInv(w, es[0]);
      RunKeepsInv(Next(w, es[0]), es[1..]);
    }
  }

  /**
   * No credential is lost silently. In every run, a credential that left the server is on its way, reached
   * exactly one caller unchanged, or else the client is fenced.
   */
  lemma EveryPopIsAccounted(w: World, es: seq<Event>)
    requires Fresh(w) && IsRun(w, es)
    ensures var last := After(w, es);
            && (forall i: nat :: i < last.next ==> InFlight(last, i) || WasDelivered(last, i) || last.flags.fenced)
            && (forall i: nat :: i < last.next ==> !(InFlight(last, i) && WasDelivered(last, i)))
            && DeliveriesGenuine(last)
  {
    hide Next, Enabled, After, Stocked, NoData, Bulk;
    assert Inv(w);
    RunKeepsInv(w, es);
  }

  /** Apart from popped credentials, the server answers nothing that is a value. */
  ghost predicate Honest(es: seq<Event>) {
    forall k :: 0 <= k < |es| && es[k].Send? && es[k].service.Answers? ==> NoData(es[k].service.answer)
  }

  ghost predicate OnlyPopped(w: World) {
    && (forall c :: c in w.calls && w.calls[c].Sent? && w.calls[c].popped.None? ==> NoData(w.calls[c].reply))
    && (forall k :: 0 <= k < |w.delivered| ==> w.delivered[k].popped.Some?)
  }

  lemma OnlyPoppedStep(w: World, e: Event)
    requires OnlyPopped(w) && Enabled(w, e) && Honest([e])
    ensures OnlyPopped(Next(w, e))
  {
    hide ReadBulk, Bulk;
    assert [e][0] == e;
    if e.Receive? && w.calls[e.call].popped.None? {
      assert !IsValue(ReadBulk(w.calls[e.call].reply[..e.cut]).reply);
    }
  }

  /** From such a server callers receive popped credentials and nothing else. */
  lemma {:induction false} HonestServerDeliversPops(w: World, es: seq<Event>)
    requires OnlyPopped(w) && IsRun(w, es) && Honest(es)
    ensures OnlyPopped(After(w, es))
    decreases |es|
  {
    hide OnlyPopped, Next, Enabled, NoData;
    if es != [] {
      assert [es[0]][0] == es[0];
      OnlyPoppedStep(w, es[0]);
      HonestServerDeliversPops(Next(w, es[0]), es[1..]);
    }
  }

  // ---------- The fence ----------

  /** Calls that are past every fence check and have not written their command */
  ghost function Poised(w: World): set<Call> {
    set c | c in w.calls && w.calls[c].Connected?
  }

  lemma FencedStep(w: World, e: Event)
    requires w.flags.fenced && Enabled(w, e)
    ensures var w' := Next(w, e);
            && w'.flags.fenced && Poised(w') <= Poised(w)
            && (if e.Send? || e.FailSend? then e.call in Poised(w) - Poised(w') && w.next <= w'.next <= w.next + 1
                else w'.next == w.next)
  {
    hide Received, Bulk, NoData;
    if e.Receive? {
      FenceSurvivesReply(w.flags, w.calls[e.call].reply, e.cut, e.usable);
    }
  }

  lemma FenceSurvivesReply(f: Flags, reply: bytes, cut: nat, usable: bool)
    requires cut <= |reply|
    ensures f.fenced ==> Received(f, reply, cut, usable).0.fenced
  {
    hide ReadBulk;
  }

  /**
   * The fence is final. Once it is up it stays up, and the only commands still sent are those of calls that
   * had passed every check by then, one each: no dispatch begun afterwards takes a credential.
   */
  lemma {:induction false} FenceIsFinal(w: World, es: seq<Event>)
    requires w.flags.fenced && IsRun(w, es)
    ensures var last := After(w, es);
            && last.flags.fenced && Poised(last) <= Poised(w)
            && w.next <= last.next <= w.next + |Poised(w)| - |Poised(last)|
    ensures forall k :: 0 <= k < |es| && (es[k].Send? || es[k].FailSend?) ==> es[k].call in Poised(w)
    decreases |es|
  {
    hide Next, Enabled, Poised;
    if es != [] {
      var next := Next(w, es[0]);
      FencedStep(w, es[0]);
      FenceIsFinal(next, es[1..]);
      SubsetSize(Poised(next), Poised(w));
      if es[0].Send? || es[0].FailSend? {
        SubsetSize(Poised(next), Poised(w) - {es[0].call});
      }
      assert forall k :: 1 <= k < |es| ==> es[k] == es[1..][k - 1];
    }
  }

  /** What raises the ambiguity: a failed write, or a reply that is neither nil nor a whole, non-empty, usable credential */
  ghost predicate Ambiguous(w: World, e: Event)
    requires Enabled(w, e)
  {
    match e
    case FailSend(_, _) => true
    case Receive(c, cut, usable) =>
      var sent := w.calls[c];
      if sent.popped.Some? then cut < |sent.reply| || !usable || IsEmpty(w.stock, sent.popped.value)
      else
        var r := ReadBulk(sent.reply[..cut]).reply;
        r != Nil && !(IsValue(r) && usable)
    case _ => false
  }

  predicate IsEmpty(stock: seq<bytes>, i: nat) {
    i < |stock| && stock[i] == []
  }

  ghost predicate EverAmbiguous(w: World, es: seq<Event>)
    requires IsRun(w, es)
    decreases |es|
  {
    es != [] && (Ambiguous(w, es[0]) || EverAmbiguous(Next(w, es[0]), es[1..]))
  }

  predicate EverClosed(es: seq<Event>) {
    es != [] && (es[0].Close? || EverClosed(es[1..]))
  }

  /** The heartbeat after a run: what the last event that concerns it says */
  ghost predicate BeatsAfter(w: World, es: seq<Event>, up: bool)
    requires IsRun(w, es)
    decreases |es|
  {
    if es == [] then up
    else
      var now := if es[0].Beat? then es[0].up else up && !es[0].Close? && !Ambiguous(w, es[0]);
      BeatsAfter(Next(w, es[0]), es[1..], now)
  }

  lemma StepFlags(w: World, e: Event)
    requires Inv(w) && Enabled(w, e)
    ensures Next(w, e).flags ==
            match e
            case Close => HomeClient.Closed(w.flags)
            case Beat(up) => w.flags.(heartbeat := up)
            case _ => if Ambiguous(w, e) then HomeClient.Aborted() else w.flags
    ensures e.Close? || e.Beat? ==> !Ambiguous(w, e)
  {
    hide Bulk, NoData, Received, ReadBulk, Stocked;
    if e.Receive? {
      var sent := w.calls[e.call];
      match sent.popped {
        case None => AnsweredFlags(w.flags, sent.reply, e.cut, e.usable);
        case Some(i) =>
          assert |w.stock[i]| <= I64_MAX by { StockedAt(w.stock, i); }
          PoppedReply(w.flags, w.stock[i], e.cut, e.usable);
      }
    }
  }

  lemma StockedAt(stock: seq<bytes>, i: nat)
    requires Stocked(stock) && i < |stock|
    ensures |stock[i]| <= I64_MAX
  {
  }

  lemma AnsweredFlags(f: Flags, answer: bytes, cut: nat, usable: bool)
    requires cut <= |answer|
    ensures var r := ReadBulk(answer[..cut]).reply;
            Received(f, answer, cut, usable).0 == if r == Nil || (IsValue(r) && usable) then f else HomeClient.Aborted()
  {
    hide ReadBulk;
  }

  /**
   * Exactly when a run fences: the client is fenced afterwards if and only if it was before, someone closed it,
   * a command could not be written, or a reply arrived that is neither nil nor a whole, non-empty, usable
   * credential. The last two, and nothing else, mark the ambiguity. So no failure before the first write fences.
   * The heartbeat is down if one of these came after the last report of the sync worker, and else as reported.
   */
  lemma {:induction false} FencedExactly(w: World, es: seq<Event>)
    requires Inv(w) && IsRun(w, es)
    ensures var f := After(w, es).flags;
            && (f.ambiguous <==> w.flags.ambiguous || EverAmbiguous(w, es))
            && (f.fenced <==> w.flags.fenced || EverAmbiguous(w, es) || EverClosed(es))
            && (f.heartbeat <==> BeatsAfter(w, es, w.flags.heartbeat))
    decreases |es|
  {
    hide Inv, Next, Enabled, Ambiguous;
    if es != [] {
      StepKeepsInv(w, es[0]);
      StepFlags(w, es[0]);
      FencedExactly(Next(w, es[0]), es[1..]);
    }
  }

  /** The answer of an empty queue declines, however it is cut; read as a whole, it leaves the flags alone. */
  lemma NilDeclines(f: Flags)
    ensures NoData(NIL) && Received(f, NIL, |NIL|, true) == (f, None)
  {
    hide ReadBulk;
    forall cut: nat | cut <= |NIL|
      ensures !ReadBulk(NIL[..cut]).reply.Data?
    {
      if cut == 0 {
        ReadNothing();
      } else {
        CutNil(cut);
      }
    }
    CutNil(|NIL|);
    assert NIL[..|NIL|] == NIL;
  }

  lemma CutNil(cut: nat)
    requires 0 < cut <= |NIL|
    ensures ReadBulk(NIL[..cut]).reply == if cut < 3 then ProtocolError else Nil
  {
    hide ReadBulk, ParseI64;
    var text: bytes := if cut == 1 then [] else if cut == 2 then [MINUS] else [MINUS, 49];
    var end := CRLF[..if cut < 3 then 0 else cut - 3];
    assert NIL[..cut] == [DOLLAR] + text + end;
    LoneLengthLine(text, end);
    if cut == 1 {
      ParseNothing();
    } else {
      ParseMinusOne();
    }
  }

  lemma ParseMinusOne()
    ensures ParseI64([MINUS]) == None && ParseI64([MINUS, 49]) == Some(-1)
  {
    var one: seq<Decimal.digit> := [1];
    assert [MINUS][1..] == [] && [MINUS, 49][1..] == DigitBytes(one) && one[..0] == [];
    DigitsOfPrinted(one);
  }

  // ---------- A call of the client is a run ----------

  lemma RunOfNone(w: World)
    ensures IsRun(w, []) && After(w, []) == w
  {
  }

  lemma FirstEvent(w: World, e: Event, es: seq<Event>)
    requires Enabled(w, e) && IsRun(Next(w, e), es)
    ensures IsRun(w, [e] + es) && After(w, [e] + es) == After(Next(w, e), es)
  {
    hide Next, Enabled;
    assert ([e] + es)[1..] == es;
  }

  /** What the server sends back for a command */
  function ReplyTo(w: World, service: Service): bytes
    requires service.Pops? ==> w.next < |w.stock|
  {
    match service
    case Pops => Bulk(w.stock[w.next])
    case Answers(answer) => answer
  }

  function PoppedBy(w: World, service: Service): Option<nat> {
    if service.Pops? then Some(w.next) else None
  }

  /** The events of one call that nothing else interferes with */
  function CallEvents(c: Call, f: Flags, blank: bool, reachable: bool, written: bool, service: Service, cut: nat,
                      usable: bool): seq<Event> {
    if f.fenced || blank then [Begin(c, blank)]
    else if !reachable then [Begin(c, blank), Resolve(c), Dial(c, false)]
    else if !written then [Begin(c, blank), Resolve(c), Dial(c, true), FailSend(c, false)]
    else [Begin(c, blank), Resolve(c), Dial(c, true), Send(c, service), Receive(c, cut, usable)]
  }

  lemma DialingRuns(w: World, c: Call, es: seq<Event>)
    requires c !in w.calls && !w.flags.fenced && IsRun(w.(calls := w.calls[c := Connected]), es)
    ensures var all := [Begin(c, false), Resolve(c), Dial(c, true)] + es;
            IsRun(w, all) && After(w, all) == After(w.(calls := w.calls[c := Connected]), es)
  {
    hide IsRun, After;
    var w1 := Next(w, Begin(c, false));
    var w2 := Next(w1, Resolve(c));
    var w3 := Next(w2, Dial(c, true));
    assert w3 == w.(calls := w.calls[c := Connected]);
    FirstEvent(w2, Dial(c, true), es);
    FirstEvent(w1, Resolve(c), [Dial(c, true)] + es);
    FirstEvent(w, Begin(c, false), [Resolve(c)] + ([Dial(c, true)] + es));
    assert [Begin(c, false)] + ([Resolve(c)] + ([Dial(c, true)] + es)) == [Begin(c, false), Resolve(c), Dial(c, true)] + es;
  }

  lemma RefusedRuns(w: World, c: Call, blank: bool, reachable: bool)
    requires c !in w.calls && (w.flags.fenced || blank || !reachable)
    ensures var es := if w.flags.fenced || blank then [Begin(c, blank)] else [Begin(c, blank), Resolve(c), Dial(c, false)];
            IsRun(w, es) && After(w, es) == w
  {
    hide IsRun, After;
    if w.flags.fenced || blank {
      RunOfNone(w);
      FirstEvent(w, Begin(c, blank), []);
      assert [Begin(c, blank)] + [] == [Begin(c, blank)];
    } else {
      var w1 := Next(w, Begin(c, false));
      var w2 := Next(w1, Resolve(c));
      var w3 := Next(w2, Dial(c, false));
      assert w3.calls == w.calls;
      RunOfNone(w3);
      FirstEvent(w2, Dial(c, false), []);
      FirstEvent(w1, Resolve(c), [Dial(c, false)] + []);
      FirstEvent(w, Begin(c, false), [Resolve(c)] + ([Dial(c, false)] + []));
      assert [Begin(c, false)] + ([Resolve(c)] + ([Dial(c, false)] + [])) == [Begin(c, false), Resolve(c), Dial(c, false)];
    }
  }

  /** The world after a reply to `c` was handled */
  function Handled(w: World, c: Call, popped: Option<nat>, next: nat, flags: Flags, got: Option<bytes>): World {
    w.(next := next, flags := flags,
       delivered := if got.Some? then w.delivered + [Delivery(popped, c, got.value)] else w.delivered,
       lost := if got.Some? then w.lost else Lost(w.lost, popped))
  }

  lemma SentRuns(w: World, c: Call, service: Service, cut: nat, usable: bool)
    requires c !in w.calls && (service.Pops? ==> w.next < |w.stock|) && cut <= |ReplyTo(w, service)|
    ensures var w' := w.(calls := w.calls[c := Connected]);
            var es := [Send(c, service), Receive(c, cut, usable)];
            var (flags, got) := Received(w.flags, ReplyTo(w, service), cut, usable);
            && IsRun(w', es)
            && After(w', es) == Handled(w, c, PoppedBy(w, service), if service.Pops? then w.next + 1 else w.next, flags, got)
  {
    hide IsRun, After, Received, Bulk;
    var w' := w.(calls := w.calls[c := Connected]);
    var w1 := Next(w', Send(c, service));
    assert w1.calls[c] == Sent(PoppedBy(w, service), ReplyTo(w, service));
    var w2 := Next(w1, Receive(c, cut, usable));
    assert w2.calls == w.calls;
    RunOfNone(w2);
    FirstEvent(w1, Receive(c, cut, usable), []);
    FirstEvent(w', Send(c, service), [Receive(c, cut, usable)] + []);
    assert [Send(c, service)] + ([Receive(c, cut, usable)] + []) == [Send(c, service), Receive(c, cut, usable)];
  }

  lemma UnwrittenRuns(w: World, c: Call)
    requires c !in w.calls
    ensures var w' := w.(calls := w.calls[c := Connected]);
            IsRun(w', [FailSend(c, false)]) && After(w', [FailSend(c, false)]) == w.(flags := HomeClient.Aborted())
  {
    hide IsRun, After;
    var w' := w.(calls := w.calls[c := Connected]);
    var w1 := Next(w', FailSend(c, false));
    assert w1.calls == w.calls;
    RunOfNone(w1);
    FirstEvent(w', FailSend(c, false), []);
    assert [FailSend(c, false)] + [] == [FailSend(c, false)];
  }

  /** A pop followed by the check that the credential can be used, as `dispatch_member` does */
  function Dispatched(f: Flags, blank: bool, reachable: bool, written: bool, incoming: bytes, usable: bool): (Flags, Option<bytes>) {
    var (flags, r) := HomeClient.Popped(f, blank, reachable, written, incoming);
    if r.Err? then (flags, None) else if usable then (flags, Some(r.value)) else (HomeClient.Aborted(), None)
  }

  predicate Commands(es: seq<Event>) {
    exists k :: 0 <= k < |es| && (es[k].Send? || es[k].FailSend?)
  }

  /**
   * A call of the client is a run of the protocol. Whatever the flags are and whatever the server answers, the
   * flags that a pop leaves, what it returns, and whether it writes a command are those of the events of one call;
   * what a cut answer leaves of the server's reply is what the client reads.
   */
  lemma CallIsRun(w: World, c: Call, blank: bool, reachable: bool, written: bool, service: Service, cut: nat, usable: bool)
    requires c !in w.calls && (service.Pops? ==> w.next < |w.stock|) && cut <= |ReplyTo(w, service)|
    ensures var es := CallEvents(c, w.flags, blank, reachable, written, service, cut, usable);
            var (flags, got) := Dispatched(w.flags, blank, reachable, written, ReplyTo(w, service)[..cut], usable);
            && IsRun(w, es)
            && After(w, es).flags == flags
            && After(w, es).calls == w.calls
            && After(w, es).delivered ==
               (if got.Some? then w.delivered + [Delivery(PoppedBy(w, service), c, got.value)] else w.delivered)
            && (Commands(es) <==> HomeClient.Dispatches(w.flags, blank, reachable))
            && (!Commands(es) ==> After(w, es) == w)
  {
    hide IsRun, After, Bulk, ReadBulk, Next, Enabled, Stocked;
    var es := CallEvents(c, w.flags, blank, reachable, written, service, cut, usable);
    if w.flags.fenced || blank || !reachable {
      RefusedRuns(w, c, blank, reachable);
    } else if !written {
      UnwrittenRuns(w, c);
      DialingRuns(w, c, [FailSend(c, false)]);
      assert es == [Begin(c, false), Resolve(c), Dial(c, true)] + [FailSend(c, false)];
      assert es[3].FailSend?;
    } else {
      var rest := [Send(c, service), Receive(c, cut, usable)];
      SentRuns(w, c, service, cut, usable);
      DialingRuns(w, c, rest);
      assert es == [Begin(c, false), Resolve(c), Dial(c, true)] + rest;
      assert es[3].Send?;
    }
  }

  /** A fenced, blank or unreachable pop says so, writes nothing and changes nothing, whatever the server would answer. */
  lemma RefusedPopTakesNothing(f: Flags, blank: bool, reachable: bool, written: bool, incoming: bytes)
    requires f.fenced || blank || !reachable
    ensures HomeClient.Popped(f, blank, reachable, written, incoming) ==
            (f, HomeClient.Err(if f.fenced then HomeClient.DispatchFenced
                               else if blank then HomeClient.Protocol else HomeClient.Unreachable))
    ensures !HomeClient.Dispatches(f, blank, reachable)
  {
    hide ReadBulk;
  }
}
