/** The browser's side: turning the records of a response into discovered services. */
module DnsMerge {
  import opened Options
  import opened Bytes
  import opened Sequences
  import opened DnsName
  import opened DnsPacket
  import opened DnsResponse
  import Utf8

  const EQUALS: byte := 0x3D

  // ---------- TXT strings ----------

  /** The length-prefixed strings of TXT RDATA, up to the first one that does not fit */
  function TextLines(b: bytes): seq<bytes> {
    if b == [] || 1 + b[0] as int > |b| then []
    else [Utf8.Lossy(b[1..1 + b[0]])] + TextLines(b[1 + b[0]..])
  }

  lemma TextLinesAt(b: bytes, pos: nat)
    requires pos < |b|
    ensures var next := pos + 1 + b[pos] as int;
            TextLines(b[pos..]) == if next > |b| then [] else [Utf8.Lossy(b[pos + 1..next])] + TextLines(b[next..])
  {
    hide Utf8.Lossy;
    var rest, next := b[pos..], pos + 1 + b[pos] as int;
    if next <= |b| {
      assert rest[1..1 + b[pos]] == b[pos + 1..next];
      assert rest[1 + b[pos]..] == b[next..];
    }
  }

  method ReadTextLines(b: bytes) returns (lines: seq<bytes>)
    ensures lines == TextLines(b)
  {
    hide TextLines, Utf8.Lossy;
    lines := [];
    var pos := 0;
    assert b[0..] == b;
    while pos < |b|
      invariant pos <= |b|
      invariant TextLines(b) == lines + TextLines(b[pos..])
    {
      TextLinesAt(b, pos);
      var len := b[pos] as int;
      if pos + 1 + len > |b| {
        assert lines + [] == lines;
        return;
      }
      lines := lines + [Utf8.Lossy(b[pos + 1..pos + 1 + len])];
      pos := pos + 1 + len;
    }
    assert b[pos..] == [];
    assert TextLines([]) == [] by { NoTextLines(); }
  }

  lemma NoTextLines()
    ensures TextLines([]) == []
  {
  }

  lemma {:induction false} TextLinesOfPrinted(text: seq<bytes>)
    requires forall t :: t in text ==> |t| <= 255 && Utf8.Valid(t)
    ensures TextLines(TextBytes(text)) == text
  {
    hide Utf8.Lossy, Utf8.Valid;
    if text != [] {
      TailIsPart(text);
      TextLinesOfPrinted(text[1..]);
      ThreeParts([|text[0]|], text[0], TextBytes(text[1..]));
      Utf8.LossyOfValid(text[0]);
    }
  }

  function EqualsAt(s: bytes): (i: nat)
    ensures i <= |s|
  {
    if s == [] || s[0] == EQUALS then 0 else 1 + EqualsAt(s[1..])
  }

  /**
   * One line of `parse_txt_records`: `key=value`, or a bare key with an empty value. `normalize` stands
   * for trimming and lower-casing, which need Unicode tables; an empty key is ignored.
   */
  function AddLine(m: map<bytes, bytes>, line: bytes, normalize: bytes -> bytes): map<bytes, bytes> {
    var key := LineKey(line, normalize);
    if key == [] then m else m[key := LineValue(line)]
  }

  function LineKey(line: bytes, normalize: bytes -> bytes): bytes {
    normalize(line[..EqualsAt(line)])
  }

  function LineValue(line: bytes): bytes {
    var i := EqualsAt(line);
    if i < |line| then line[i + 1..] else []
  }

  function TextMapFrom(m: map<bytes, bytes>, lines: seq<bytes>, normalize: bytes -> bytes): map<bytes, bytes>
    decreases |lines|
  {
    if lines == [] then m else TextMapFrom(AddLine(m, lines[0], normalize), lines[1..], normalize)
  }

  function TextMap(lines: seq<bytes>, normalize: bytes -> bytes): map<bytes, bytes> {
    TextMapFrom(map[], lines, normalize)
  }

  /** `parse_txt_records` */
  method ParseTxtRecords(lines: seq<bytes>, normalize: bytes -> bytes) returns (m: map<bytes, bytes>)
    ensures m == TextMap(lines, normalize)
  {
    m := map[];
    for i := 0 to |lines|
      invariant TextMap(lines, normalize) == TextMapFrom(m, lines[i..], normalize)
    {
      assert lines[i..][1..] == lines[i + 1..];
      m := AddLine(m, lines[i], normalize);
    }
  }

  lemma {:induction false} EqualsAtOf(k: bytes, rest: bytes)
    requires EQUALS !in k
    ensures EqualsAt(k) == |k| && EqualsAt(k + [EQUALS] + rest) == |k|
  {
    if k != [] {
      EqualsAtOf(k[1..], rest);
      assert (k + [EQUALS] + rest)[1..] == k[1..] + [EQUALS] + rest;
    }
  }

  /** A line splits at its first equals sign; without one it is a key with an empty value. */
  lemma LineSplits(k: bytes, v: bytes, normalize: bytes -> bytes)
    requires EQUALS !in k
    ensures LineKey(k + [EQUALS] + v, normalize) == normalize(k) && LineValue(k + [EQUALS] + v) == v
    ensures LineKey(k, normalize) == normalize(k) && LineValue(k) == []
  {
    EqualsAtOf(k, v);
    var line := k + [EQUALS] + v;
    assert line[..|k|] == k && line[|k| + 1..] == v && k[..|k|] == k;
  }

  /** The position of the last line with the given key, if there is one */
  function LastLine(lines: seq<bytes>, key: bytes, normalize: bytes -> bytes): (r: Option<nat>)
    ensures r.Some? ==> r.value < |lines| && LineKey(lines[r.value], normalize) == key
    ensures forall i :: 0 <= i < |lines| && LineKey(lines[i], normalize) == key ==> r.Some? && i <= r.value
  {
    if lines == [] then None
    else if LineKey(lines[|lines| - 1], normalize) == key then Some(|lines| - 1)
    else LastLine(lines[..|lines| - 1], key, normalize)
  }

  lemma {:induction false} TextMapSnoc(m: map<bytes, bytes>, lines: seq<bytes>, line: bytes, normalize: bytes -> bytes)
    ensures TextMapFrom(m, lines + [line], normalize) == AddLine(TextMapFrom(m, lines, normalize), line, normalize)
    decreases |lines|
  {
    hide AddLine;
    if lines == [] {
      assert [line][1..] == [];
      assert [] + [line] == [line];
    } else {
      assert (lines + [line])[1..] == lines[1..] + [line];
      TextMapSnoc(AddLine(m, lines[0], normalize), lines[1..], line, normalize);
    }
  }

  /** A key is in the map exactly when it is not empty and some line has it; the last such line gives the value. */
  lemma {:induction false} LastLineWins(lines: seq<bytes>, key: bytes, normalize: bytes -> bytes)
    ensures var m := TextMap(lines, normalize);
            var last := LastLine(lines, key, normalize);
            && (key in m <==> key != [] && last.Some?)
            && (key in m ==> m[key] == LineValue(lines[last.value]))
    decreases |lines|
  {
    hide LineKey, LineValue;
    if lines != [] {
      var front, line := lines[..|lines| - 1], lines[|lines| - 1];
      assert lines == front + [line];
      TextMapSnoc(map[], front, line, normalize);
      LastLineWins(front, key, normalize);
    }
  }

  // ---------- Gathering records ----------

  datatype Gathered = Gathered(
    srv: map<bytes, (u16, bytes)>,
    txt: map<bytes, seq<bytes>>,
    v4: map<bytes, seq<Ipv4>>,
    v6: map<bytes, seq<Ipv6>>)

  const NOTHING := Gathered(map[], map[], map[], map[])

  /** `decode_dns_name`: a name that cannot be read is empty */
  function NameOrEmpty(buf: bytes, at: nat): bytes {
    match NameAt(buf, at)
    case None => []
    case Some((name, _)) => name
  }

  /** `entry(name).or_default().push(x)` */
  function Push<T>(m: map<bytes, seq<T>>, name: bytes, x: T): map<bytes, seq<T>> {
    m[name := (if name in m then m[name] else []) + [x]]
  }

  function Absorb(g: Gathered, rec: Record): Gathered {
    if rec.rtype == TYPE_SRV then
      if |rec.rdata| >= 6 then g.(srv := g.srv[rec.name := (GetU16(rec.rdata, 4), NameOrEmpty(rec.rdata, 6))]) else g
    else if rec.rtype == TYPE_TXT then g.(txt := g.txt[rec.name := TextLines(rec.rdata)])
    else if rec.rtype == TYPE_A then
      if |rec.rdata| == 4 then g.(v4 := Push(g.v4, rec.name, rec.rdata)) else g
    else if rec.rtype == TYPE_AAAA then
      if |rec.rdata| == 16 then g.(v6 := Push(g.v6, rec.name, rec.rdata)) else g
    else g
  }

  function GatherFrom(g: Gathered, rs: seq<Record>): Gathered
    decreases |rs|
  {
    if rs == [] then g else GatherFrom(Absorb(g, rs[0]), rs[1..])
  }

  // ---------- Services ----------

  datatype Host = Address(ip: Ipv4) | Name(name: bytes)

  datatype Service = Service(
    instanceName: bytes, serviceType: bytes, domain: bytes, host: Host, port: u16,
    ipv4: seq<Ipv4>, ipv6: seq<Ipv6>, rawTxt: map<bytes, bytes>)

  function ShortName(fqdn: bytes): bytes {
    Split(fqdn)[0]
  }

  function Lookup<T>(m: map<bytes, seq<T>>, k: bytes): seq<T> {
    if k in m then m[k] else []
  }

  function ServiceOf(g: Gathered, fqdn: bytes, sType: bytes, dom: bytes, normalize: bytes -> bytes): Service
    requires fqdn in g.srv
  {
    var (port, host) := g.srv[fqdn];
    var ipv4 := Lookup(g.v4, host);
    Service(ShortName(fqdn), sType, dom, if ipv4 == [] then Name(host) else Address(ipv4[0]), port,
            ipv4, Lookup(g.v6, host), TextMap(Lookup(g.txt, fqdn), normalize))
  }

  /** The instances of `keys` that go by the short name `k` */
  ghost predicate Names(keys: set<bytes>, k: bytes) {
    exists fqdn :: fqdn in keys && ShortName(fqdn) == k
  }

  /**
   * `after` is `before` with one service per short name among `keys`. Several instances may share a short
   * name; which of them stays is not determined, because the hash map is visited in any order.
   */
  ghost predicate Merged(g: Gathered, keys: set<bytes>, before: map<bytes, Service>, after: map<bytes, Service>,
                         sType: bytes, dom: bytes, normalize: bytes -> bytes)
    requires keys <= g.srv.Keys
  {
    && (forall k :: k in after.Keys <==> k in before.Keys || Names(keys, k))
    && (forall k :: k in after.Keys && !Names(keys, k) ==> after[k] == before[k])
    && (forall k :: k in after.Keys && Names(keys, k) ==>
          exists fqdn :: fqdn in keys && ShortName(fqdn) == k && after[k] == ServiceOf(g, fqdn, sType, dom, normalize))
  }

  lemma MergedOne(g: Gathered, keys: set<bytes>, before: map<bytes, Service>, after: map<bytes, Service>,
                  sType: bytes, dom: bytes, normalize: bytes -> bytes, fqdn: bytes)
    requires keys <= g.srv.Keys && fqdn in g.srv
    requires Merged(g, keys, before, after, sType, dom, normalize)
    ensures Merged(g, keys + {fqdn}, before, after[ShortName(fqdn) := ServiceOf(g, fqdn, sType, dom, normalize)],
                   sType, dom, normalize)
  {
    hide ShortName, ServiceOf;
    var more := keys + {fqdn};
    var next := after[ShortName(fqdn) := ServiceOf(g, fqdn, sType, dom, normalize)];
    forall k ensures Names(more, k) <==> Names(keys, k) || k == ShortName(fqdn) {
      if k == ShortName(fqdn) {
        assert fqdn in more;
      }
    }
    forall k | k in next.Keys && Names(more, k)
      ensures exists f :: f in more && ShortName(f) == k && next[k] == ServiceOf(g, f, sType, dom, normalize)
    {
      if k == ShortName(fqdn) {
        assert fqdn in more;
      } else {
        var f :| f in keys && ShortName(f) == k && after[k] == ServiceOf(g, f, sType, dom, normalize);
        assert f in more;
      }
    }
  }

  /** `merge_discovered_services` */
  method MergeDiscoveredServices(msg: Message, sType: bytes, dom: bytes, services: map<bytes, Service>,
                                 normalize: bytes -> bytes)
    returns (merged: map<bytes, Service>)
    ensures var g := GatherFrom(NOTHING, msg.answers);
            Merged(g, g.srv.Keys, services, merged, sType, dom, normalize)
  {
    hide Absorb, ServiceOf, Merged;
    var g := NOTHING;
    for i := 0 to |msg.answers|
      invariant GatherFrom(NOTHING, msg.answers) == GatherFrom(g, msg.answers[i..])
    {
      assert msg.answers[i..][1..] == msg.answers[i + 1..];
      g := AbsorbRecord(g, msg.answers[i]);
    }
    merged := services;
    var todo := g.srv.Keys;
    MergedNone(g, services, sType, dom, normalize);
    while todo != {}
      invariant todo <= g.srv.Keys
      invariant Merged(g, g.srv.Keys - todo, services, merged, sType, dom, normalize)
      decreases |todo|
    {
      var fqdn :| fqdn in todo;
      MergedOne(g, g.srv.Keys - todo, services, merged, sType, dom, normalize, fqdn);
      var service := BuildService(g, fqdn, sType, dom, normalize);
      merged := merged[ShortName(fqdn) := service];
      assert g.srv.Keys - (todo - {fqdn}) == g.srv.Keys - todo + {fqdn};
      todo := todo - {fqdn};
    }
    assert g.srv.Keys - {} == g.srv.Keys;
  }

  lemma MergedNone(g: Gathered, services: map<bytes, Service>, sType: bytes, dom: bytes, normalize: bytes -> bytes)
    ensures g.srv.Keys - g.srv.Keys == {}
    ensures Merged(g, {}, services, services, sType, dom, normalize)
  {
  }

  method AbsorbRecord(g: Gathered, rec: Record) returns (r: Gathered)
    ensures r == Absorb(g, rec)
  {
    if rec.rtype == TYPE_SRV && |rec.rdata| >= 6 {
      var named := DecodeDnsNameChecked(rec.rdata, 6);
      var host := if named.Some? then named.value.0 else [];
      r := g.(srv := g.srv[rec.name := (GetU16(rec.rdata, 4), host)]);
    } else if rec.rtype == TYPE_TXT {
      var lines := ReadTextLines(rec.rdata);
      r := g.(txt := g.txt[rec.name := lines]);
    } else {
      r := Absorb(g, rec);
    }
  }

  method BuildService(g: Gathered, fqdn: bytes, sType: bytes, dom: bytes, normalize: bytes -> bytes)
    returns (s: Service)
    requires fqdn in g.srv
    ensures s == ServiceOf(g, fqdn, sType, dom, normalize)
  {
    var (port, host) := g.srv[fqdn];
    var text := ParseTxtRecords(Lookup(g.txt, fqdn), normalize);
    var ipv4, ipv6 := Lookup(g.v4, host), Lookup(g.v6, host);
    s := Service(ShortName(fqdn), sType, dom, if ipv4 == [] then Name(host) else Address(ipv4[0]), port, ipv4, ipv6, text);
  }

  // ---------- A printed response is rediscovered ----------

  function PushAll<T>(m: map<bytes, seq<T>>, name: bytes, xs: seq<T>): map<bytes, seq<T>>
    decreases |xs|
  {
    if xs == [] then m else PushAll(Push(m, name, xs[0]), name, xs[1..])
  }

  lemma {:induction false} PushAllAt<T>(m: map<bytes, seq<T>>, name: bytes, xs: seq<T>)
    ensures Lookup(PushAll(m, name, xs), name) == Lookup(m, name) + xs
    decreases |xs|
  {
    if xs == [] {
      assert Lookup(m, name) + xs == Lookup(m, name);
    } else {
      PushAllAt(Push(m, name, xs[0]), name, xs[1..]);
      assert Lookup(m, name) + [xs[0]] + xs[1..] == Lookup(m, name) + xs;
    }
  }

  lemma {:induction false} GatherConcat(g: Gathered, rs: seq<Record>, ts: seq<Record>)
    ensures GatherFrom(g, rs + ts) == GatherFrom(GatherFrom(g, rs), ts)
    decreases |rs|
  {
    hide Absorb;
    if rs == [] {
      assert rs + ts == ts;
    } else {
      assert (rs + ts)[1..] == rs[1..] + ts;
      GatherConcat(Absorb(g, rs[0]), rs[1..], ts);
    }
  }

  lemma {:induction false} GatherV4(g: Gathered, host: bytes, ttl: u32, addrs: seq<Ipv4>)
    ensures GatherFrom(g, AddressRecords(host, TYPE_A, ttl, addrs)) == g.(v4 := PushAll(g.v4, host, addrs))
    decreases |addrs|
  {
    var rs := AddressRecords(host, TYPE_A, ttl, addrs);
    if addrs != [] {
      assert rs[1..] == AddressRecords(host, TYPE_A, ttl, addrs[1..]);
      GatherV4(Absorb(g, rs[0]), host, ttl, addrs[1..]);
    }
  }

  lemma {:induction false} GatherV6(g: Gathered, host: bytes, ttl: u32, addrs: seq<Ipv6>)
    ensures GatherFrom(g, AddressRecords(host, TYPE_AAAA, ttl, addrs)) == g.(v6 := PushAll(g.v6, host, addrs))
    decreases |addrs|
  {
    var rs := AddressRecords(host, TYPE_AAAA, ttl, addrs);
    if addrs != [] {
      assert rs[1..] == AddressRecords(host, TYPE_AAAA, ttl, addrs[1..]);
      GatherV6(Absorb(g, rs[0]), host, ttl, addrs[1..]);
    }
  }

  lemma SrvHost(a: Advert)
    requires Plain(a.HostName())
    ensures Absorb(NOTHING, SrvRecord(a)).srv == map[a.InstanceName() := (a.port, a.HostName())]
    ensures Absorb(NOTHING, SrvRecord(a)) == NOTHING.(srv := Absorb(NOTHING, SrvRecord(a)).srv)
  {
    hide EncodeName, NameAt, Survives, Utf8.Valid, GetU16;
    var rdata := SrvRecord(a).rdata;
    assert rdata[6..] == EncodeName(a.HostName());
    NameRoundTrip(rdata, 6, a.HostName());
    assert GetU16(rdata, 4) == a.port by { SrvPort(a, rdata); }
  }

  lemma SrvPort(a: Advert, rdata: bytes)
    requires |rdata| >= 6 && rdata[..6] == SrvPrefix(a.port)
    ensures GetU16(rdata, 4) == a.port
  {
    assert rdata[4] == rdata[..6][4] && rdata[5] == rdata[..6][5];
  }

  /** What a printed response leaves in the tables */
  lemma GatheredFromResponse(a: Advert)
    requires Printable(a)
    ensures var host := a.HostName();
            GatherFrom(NOTHING, Records(a)) == Gathered(
              map[a.InstanceName() := (a.port, host)],
              map[a.InstanceName() := TextLines(TextRdata(a.text))],
              PushAll(map[], host, a.ipv4),
              PushAll(map[], host, a.ipv6))
  {
    hide Plain, TextLines, TextRdata, PushAll, AddressRecords;
    var host := a.HostName();
    var v4 := AddressRecords(host, TYPE_A, a.ttl, a.ipv4);
    var v6 := AddressRecords(host, TYPE_AAAA, a.ttl, a.ipv6);
    var first := [PtrRecord(a), SrvRecord(a), TextRecord(a)];
    GatherConcat(NOTHING, first + v4, v6);
    GatherConcat(NOTHING, first, v4);
    var g1 := Absorb(NOTHING, SrvRecord(a));
    SrvHost(a);
    var g2 := Absorb(g1, TextRecord(a));
    GatherThree(NOTHING, PtrRecord(a), SrvRecord(a), TextRecord(a));
    assert GatherFrom(NOTHING, first) == g2;
    GatherV4(g2, host, a.ttl, a.ipv4);
    GatherV6(g2.(v4 := PushAll(map[], host, a.ipv4)), host, a.ttl, a.ipv6);
  }

  lemma GatherThree(g: Gathered, r0: Record, r1: Record, r2: Record)
    ensures GatherFrom(g, [r0, r1, r2]) == Absorb(Absorb(Absorb(g, r0), r1), r2)
  {
    hide Absorb;
    assert [r0, r1, r2][1..] == [r1, r2] && [r1, r2][1..] == [r2] && [r2][1..] == [];
    var g1 := Absorb(g, r0);
    var g2 := Absorb(g1, r1);
    assert GatherFrom(g2, [r2]) == GatherFrom(Absorb(g2, r2), []);
    assert GatherFrom(g1, [r1, r2]) == GatherFrom(g2, [r2]);
  }

  /** The service that the advertisement describes */
  function Advertised(a: Advert, sType: bytes, dom: bytes, normalize: bytes -> bytes): Service {
    Service(a.instance, sType, dom, if a.ipv4 == [] then Name(a.HostName()) else Address(a.ipv4[0]), a.port,
            a.ipv4, a.ipv6, TextMap(a.text, normalize))
  }

  lemma TextSurvives(text: seq<bytes>, normalize: bytes -> bytes)
    requires forall t :: t in text ==> |t| <= 255 && Utf8.Valid(t)
    requires normalize([]) == []
    ensures TextMap(TextLines(TextRdata(text)), normalize) == TextMap(text, normalize)
  {
    TextLinesOfPrinted(text);
    if text == [] {
      var b: bytes := [0];
      assert b[1..1] == [] && b[1..] == [];
      assert TextLines(b[1..]) == [];
      assert TextLines(b) == [Utf8.Lossy([])] == [[]];
      var line: bytes := [];
      assert line[..EqualsAt(line)] == [];
      assert [line][1..] == [];
      assert TextMapFrom(map[], [line], normalize) == TextMapFrom(AddLine(map[], line, normalize), [], normalize);
    }
  }

  /** The short name of an advertised instance is the part before its first dot. */
  lemma ShortNameOfInstance(instance: bytes, rest: bytes)
    ensures ShortName(instance + [DOT] + rest) == ShortName(instance)
    ensures ShortName(instance) == instance <==> DOT !in instance
  {
    hide Split;
    var i := DotAt(instance);
    if i == |instance| {
      assert instance[..i] == instance;
      SplitOfWhole(instance);
      SplitOfCons(instance, rest);
    } else {
      var head, tail := instance[..i], instance[i + 1..];
      assert instance == head + [DOT] + tail;
      SplitOfCons(head, tail);
      SplitOfCons(head, tail + [DOT] + rest);
      Associative(head + [DOT], tail, [DOT]);
      Associative(head + [DOT], tail + [DOT], rest);
    }
  }

  lemma SplitOfWhole(s: bytes)
    requires DotAt(s) == |s|
    ensures Split(s) == [s]
  {
  }

  /**
   * Rediscovery: whatever services were known, merging the parsed form of a printed response leaves them
   * as they were except for the advertised one, which has the same port, addresses and TXT map. It is
   * filed under the instance name exactly when that name has no dot.
   */
  lemma ResponseIsRediscovered(a: Advert, before: map<bytes, Service>, after: map<bytes, Service>,
                               sType: bytes, dom: bytes, normalize: bytes -> bytes)
    requires Printable(a)
    requires forall t :: t in a.text ==> |t| <= 255 && Utf8.Valid(t)
    requires normalize([]) == []
    requires ParsePacket(ResponseBytes(a)).Some?
    requires var g := GatherFrom(NOTHING, ParsePacket(ResponseBytes(a)).value.answers);
             Merged(g, g.srv.Keys, before, after, sType, dom, normalize)
    ensures var key := ShortName(a.instance);
            after == before[key := Advertised(a, sType, dom, normalize).(instanceName := key)]
    ensures ShortName(a.instance) == a.instance <==> DOT !in a.instance
  {
    hide Printable, ParsePacket, ResponseBytes, Records, ShortName, Merged, ServiceOf, GatherFrom;
    ResponseRoundTrip(a);
    GatheredFromResponse(a);
    var g := GatherFrom(NOTHING, Records(a));
    ShortNameOfInstance(a.instance, a.ServiceName());
    RediscoveredService(a, sType, dom, normalize);
    MergedSingle(g, before, after, sType, dom, normalize, a.InstanceName());
  }

  lemma RediscoveredService(a: Advert, sType: bytes, dom: bytes, normalize: bytes -> bytes)
    requires Printable(a)
    requires forall t :: t in a.text ==> |t| <= 255 && Utf8.Valid(t)
    requires normalize([]) == []
    ensures var g := GatherFrom(NOTHING, Records(a));
            && g.srv.Keys == {a.InstanceName()}
            && ServiceOf(g, a.InstanceName(), sType, dom, normalize) ==
               Advertised(a, sType, dom, normalize).(instanceName := ShortName(a.instance))
  {
    hide Printable, TextLines, TextRdata, PushAll, Records, ShortName, TextMap, GatherFrom, Utf8.Valid;
    GatheredFromResponse(a);
    ShortNameOfInstance(a.instance, a.ServiceName());
    PushAllAt(map[], a.HostName(), a.ipv4);
    PushAllAt(map[], a.HostName(), a.ipv6);
    TextSurvives(a.text, normalize);
    assert [] + a.ipv4 == a.ipv4 && [] + a.ipv6 == a.ipv6;
  }

  lemma MergedSingle(g: Gathered, before: map<bytes, Service>, after: map<bytes, Service>,
                     sType: bytes, dom: bytes, normalize: bytes -> bytes, fqdn: bytes)
    requires g.srv.Keys == {fqdn}
    requires Merged(g, g.srv.Keys, before, after, sType, dom, normalize)
    ensures after == before[ShortName(fqdn) := ServiceOf(g, fqdn, sType, dom, normalize)]
  {
    hide ShortName, ServiceOf;
    var key := ShortName(fqdn);
    assert fqdn in g.srv.Keys;
    assert forall k :: Names({fqdn}, k) <==> k == key;
  }

  // ---------- What any packet leaves in the tables ----------

  /** The last record of a name and type with enough RDATA */
  function LastOf(rs: seq<Record>, name: bytes, rtype: u16, least: nat): Option<Record> {
    if rs == [] then None
    else
      var r := rs[|rs| - 1];
      if r.name == name && r.rtype == rtype && |r.rdata| >= least then Some(r)
      else LastOf(rs[..|rs| - 1], name, rtype, least)
  }

  /** All addresses of a name, in the order of the records */
  function AddressesOf(rs: seq<Record>, name: bytes, rtype: u16, size: nat): seq<bytes> {
    if rs == [] then []
    else
      var r := rs[|rs| - 1];
      AddressesOf(rs[..|rs| - 1], name, rtype, size)
      + (if r.name == name && r.rtype == rtype && |r.rdata| == size then [r.rdata] else [])
  }

  lemma GatherSnoc(rs: seq<Record>, r: Record)
    ensures GatherFrom(NOTHING, rs + [r]) == Absorb(GatherFrom(NOTHING, rs), r)
  {
    hide Absorb;
    GatherConcat(NOTHING, rs, [r]);
    assert [r][1..] == [];
  }

  /** Whatever records arrive: the last SRV and the last TXT record of a name count, and all its addresses, in order. */
  lemma {:induction false} GatheredAre(rs: seq<Record>, name: bytes)
    ensures var g := GatherFrom(NOTHING, rs);
            var srv, txt := LastOf(rs, name, TYPE_SRV, 6), LastOf(rs, name, TYPE_TXT, 0);
            && (name in g.srv <==> srv.Some?) && (name in g.txt <==> txt.Some?)
            && (srv.Some? ==> |srv.value.rdata| >= 6 && g.srv[name] == (GetU16(srv.value.rdata, 4), NameOrEmpty(srv.value.rdata, 6)))
            && (txt.Some? ==> g.txt[name] == TextLines(txt.value.rdata))
            && Lookup(g.v4, name) == AddressesOf(rs, name, TYPE_A, 4)
            && Lookup(g.v6, name) == AddressesOf(rs, name, TYPE_AAAA, 16)
    decreases |rs|
  {
    hide GatherFrom, NameOrEmpty, TextLines, GetU16;
    if rs == [] {
      assert GatherFrom(NOTHING, []) == NOTHING by { GatherNone(); }
    } else {
      var front, r := rs[..|rs| - 1], rs[|rs| - 1];
      assert rs == front + [r];
      GatheredAre(front, name);
      GatherSnoc(front, r);
    }
  }

  lemma GatherNone()
    ensures GatherFrom(NOTHING, []) == NOTHING
  {
  }
}
