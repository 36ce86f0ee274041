/** The query and the response that the gateway multicasts, and that its own parser reads them back. */
module DnsResponse {
  import opened Options
  import opened Bytes
  import opened DnsName
  import opened DnsPacket
  import Utf8

  type Ipv4 = b: bytes | |b| == 4 witness [127, 0, 0, 1]
  type Ipv6 = b: bytes | |b| == 16 witness [0, 0, 0, 0, 0, 0, 0, 0, 0, 0, 0, 0, 0, 0, 0, 1]

  /** `str::trim_matches('.')` */
  function TrimDots(s: bytes): (r: bytes)
    ensures r != [] ==> r[0] != DOT && r[|r| - 1] != DOT
    decreases |s|
  {
    if s == [] then []
    else if s[0] == DOT then TrimDots(s[1..])
    else if s[|s| - 1] == DOT then TrimDots(s[..|s| - 1])
    else s
  }

  /** What one response advertises */
  datatype Advert = Advert(
    instance: bytes, serviceType: bytes, domain: bytes, port: u16,
    ipv4: seq<Ipv4>, ipv6: seq<Ipv6>, text: seq<bytes>, ttl: u32)
  {
    function ServiceName(): bytes {
      TrimDots(serviceType) + [DOT] + TrimDots(domain)
    }

    function InstanceName(): bytes {
      instance + [DOT] + ServiceName()
    }

    function HostName(): bytes {
      instance + [DOT] + TrimDots(domain)
    }
  }

  // ---------- Records ----------

  function Take255(t: bytes): bytes {
    if |t| <= 255 then t else t[..255]
  }

  function TextBytes(text: seq<bytes>): bytes {
    if text == [] then [] else [|Take255(text[0])|] + Take255(text[0]) + TextBytes(text[1..])
  }

  /** TXT RDATA is never empty: section 6.1 of RFC 6763 asks for one empty string instead. */
  function TextRdata(text: seq<bytes>): bytes {
    if TextBytes(text) == [] then [0] else TextBytes(text)
  }

  function SrvPrefix(port: u16): (b: bytes)
    ensures |b| == 6 && GetU16(b, 4) == port
  {
    PutU16(0) + PutU16(0) + PutU16(port)
  }

  function PtrRecord(a: Advert): Record {
    Record(a.ServiceName(), TYPE_PTR, CLASS_IN, a.ttl, EncodeName(a.InstanceName()))
  }

  function SrvRecord(a: Advert): Record {
    Record(a.InstanceName(), TYPE_SRV, CLASS_IN_FLUSH, a.ttl, SrvPrefix(a.port) + EncodeName(a.HostName()))
  }

  function TextRecord(a: Advert): Record {
    Record(a.InstanceName(), TYPE_TXT, CLASS_IN_FLUSH, a.ttl, TextRdata(a.text))
  }

  function AddressRecords(host: bytes, rtype: u16, ttl: u32, addrs: seq<bytes>): (rs: seq<Record>)
    ensures |rs| == |addrs|
    ensures forall i :: 0 <= i < |rs| ==> rs[i] == Record(host, rtype, CLASS_IN_FLUSH, ttl, addrs[i])
  {
    seq(|addrs|, i requires 0 <= i < |addrs| => Record(host, rtype, CLASS_IN_FLUSH, ttl, addrs[i]))
  }

  /** PTR, SRV, TXT, then every A and every AAAA record in the order of the address lists */
  function Records(a: Advert): seq<Record> {
    [PtrRecord(a), SrvRecord(a), TextRecord(a)]
    + AddressRecords(a.HostName(), TYPE_A, a.ttl, a.ipv4)
    + AddressRecords(a.HostName(), TYPE_AAAA, a.ttl, a.ipv6)
  }

  // ---------- Printing ----------

  function FieldBytes(r: Record): bytes {
    PutU16(r.rtype) + PutU16(r.rclass) + PutU32(r.ttl) + PutU16(|r.rdata| % 0x1_0000)
  }

  function RecordBytes(r: Record): bytes {
    EncodeName(r.name) + FieldBytes(r) + r.rdata
  }

  function AllBytes(rs: seq<Record>): bytes {
    if rs == [] then [] else RecordBytes(rs[0]) + AllBytes(rs[1..])
  }

  function Header(flags: u16, questions: u16, answers: u16): (b: bytes)
    ensures |b| == 12
  {
    PutU16(0) + PutU16(flags) + PutU16(questions) + PutU16(answers) + PutU16(0) + PutU16(0)
  }

  function ResponseBytes(a: Advert): bytes {
    Header(FLAGS_RESPONSE, 0, |Records(a)| % 0x1_0000) + AllBytes(Records(a))
  }

  function QueryBytes(serviceType: bytes, domain: bytes): bytes {
    Header(0, 1, 0)
    + (EncodeName(TrimDots(serviceType) + [DOT] + TrimDots(domain)) + (PutU16(TYPE_PTR) + PutU16(CLASS_IN)))
  }

  lemma {:induction false} TextBytesSnoc(text: seq<bytes>, t: bytes)
    ensures TextBytes(text + [t]) == TextBytes(text) + [|Take255(t)|] + Take255(t)
  {
    if text == [] {
      assert [t][1..] == [];
    } else {
      assert (text + [t])[1..] == text[1..] + [t];
      TextBytesSnoc(text[1..], t);
    }
  }

  lemma {:induction false} AllBytesSnoc(rs: seq<Record>, r: Record)
    ensures AllBytes(rs + [r]) == AllBytes(rs) + RecordBytes(r)
  {
    hide RecordBytes;
    if rs == [] {
      assert [r][1..] == [];
    } else {
      assert (rs + [r])[1..] == rs[1..] + [r];
      AllBytesSnoc(rs[1..], r);
    }
  }

  method BuildRecord(r: Record) returns (out: bytes)
    ensures out == RecordBytes(r)
  {
    var name := EncodeDnsName(r.name);
    out := name + FieldBytes(r) + r.rdata;
  }

  method BuildTextRdata(text: seq<bytes>) returns (rdata: bytes)
    ensures rdata == TextRdata(text)
  {
    rdata := [];
    for i := 0 to |text|
      invariant rdata == TextBytes(text[..i])
    {
      var len := if |text[i]| < 255 then |text[i]| else 255;
      assert text[i][..len] == Take255(text[i]);
      TextBytesSnoc(text[..i], text[i]);
      assert text[..i + 1] == text[..i] + [text[i]];
      rdata := rdata + [len] + text[i][..len];
    }
    assert text[..|text|] == text;
    if rdata == [] {
      rdata := [0];
    }
  }

  /** `build_mdns_response` */
  method BuildMdnsResponse(a: Advert) returns (buf: bytes)
    ensures buf == ResponseBytes(a)
  {
    hide RecordBytes, EncodeName, PtrRecord, SrvRecord, TextRdata;
    var rdata := BuildTextRdata(a.text);
    var answers := [PtrRecord(a), SrvRecord(a), Record(a.InstanceName(), TYPE_TXT, CLASS_IN_FLUSH, a.ttl, rdata)];
    ghost var v4 := AddressRecords(a.HostName(), TYPE_A, a.ttl, a.ipv4);
    ghost var v6 := AddressRecords(a.HostName(), TYPE_AAAA, a.ttl, a.ipv6);
    ghost var first := answers;
    for i := 0 to |a.ipv4|
      invariant answers == first + v4[..i]
    {
      answers := answers + [Record(a.HostName(), TYPE_A, CLASS_IN_FLUSH, a.ttl, a.ipv4[i])];
    }
    for i := 0 to |a.ipv6|
      invariant answers == first + v4 + v6[..i]
    {
      answers := answers + [Record(a.HostName(), TYPE_AAAA, CLASS_IN_FLUSH, a.ttl, a.ipv6[i])];
    }
    assert answers == Records(a);
    buf := Header(FLAGS_RESPONSE, 0, |answers| % 0x1_0000);
    ghost var header := buf;
    for i := 0 to |answers|
      invariant buf == header + AllBytes(answers[..i])
    {
      var rec := BuildRecord(answers[i]);
      AllBytesSnoc(answers[..i], answers[i]);
      assert answers[..i + 1] == answers[..i] + [answers[i]];
      buf := buf + rec;
    }
    assert answers[..|answers|] == answers;
  }

  /** `build_mdns_query` */
  method BuildMdnsQuery(serviceType: bytes, domain: bytes) returns (buf: bytes)
    ensures buf == QueryBytes(serviceType, domain)
  {
    hide EncodeName, TrimDots;
    var name := EncodeDnsName(TrimDots(serviceType) + [DOT] + TrimDots(domain));
    buf := Header(0, 1, 0) + name + PutU16(TYPE_PTR) + PutU16(CLASS_IN);
  }

  // ---------- Reading back ----------

  lemma HoldsU16(buf: bytes, at: nat, x: u16)
    requires Holds(buf, at, PutU16(x))
    ensures GetU16(buf, at) == x
  {
    assert buf[at] == buf[at..at + 2][0] && buf[at + 1] == buf[at..at + 2][1];
  }

  lemma HoldsU32(buf: bytes, at: nat, x: u32)
    requires Holds(buf, at, PutU32(x))
    ensures GetU32(buf, at) == x
  {
    hide PutU16, GetU16;
    HoldsParts(buf, at, PutU16(x / 0x1_0000), PutU16(x % 0x1_0000));
    HoldsU16(buf, at, x / 0x1_0000);
    HoldsU16(buf, at + 2, x % 0x1_0000);
  }

  /** A name the parser gives back unchanged: text that survives printing */
  predicate Plain(name: bytes) {
    Utf8.Valid(name) && Survives(name)
  }

  /** RDATA the parser stores unchanged; `target` is the embedded name, if the type has one. */
  predicate Settled(r: Record, target: bytes) {
    && |r.rdata| < 0x1_0000
    && match NamePrefix(r.rtype)
       case None => true
       case Some(p) => Plain(target) && p <= |r.rdata| && r.rdata[p..] == EncodeName(target)
  }

  lemma FieldsRead(buf: bytes, p: nat, r: Record)
    requires |r.rdata| < 0x1_0000
    requires Holds(buf, p, FieldBytes(r))
    ensures GetU16(buf, p) == r.rtype && GetU16(buf, p + 2) == r.rclass
    ensures GetU32(buf, p + 4) == r.ttl && GetU16(buf, p + 8) == |r.rdata|
  {
    hide PutU16, GetU16, PutU32, GetU32;
    var b2 := PutU16(r.rtype) + PutU16(r.rclass);
    var b8 := b2 + PutU32(r.ttl);
    assert |r.rdata| % 0x1_0000 == |r.rdata|;
    HoldsParts(buf, p, b8, PutU16(|r.rdata|));
    HoldsParts(buf, p, b2, PutU32(r.ttl));
    HoldsParts(buf, p, PutU16(r.rtype), PutU16(r.rclass));
    HoldsU16(buf, p, r.rtype);
    HoldsU16(buf, p + 2, r.rclass);
    HoldsU32(buf, p + 4, r.ttl);
    HoldsU16(buf, p + 8, |r.rdata|);
  }

  lemma RdataRead(buf: bytes, at: nat, r: Record, target: bytes)
    requires Settled(r, target)
    requires Holds(buf, at, r.rdata)
    ensures RdataAt(buf, r.rtype, at, |r.rdata|) == Some(r.rdata)
  {
    hide EncodeName, NameAt, Survives, Utf8.Valid;
    match NamePrefix(r.rtype)
    case None =>
    case Some(p) =>
      var head := r.rdata[..p];
      assert r.rdata == head + EncodeName(target);
      HoldsParts(buf, at, head, EncodeName(target));
      NameRoundTrip(buf, at + p, target);
      assert buf[at..at + p] == head;
      EncodeNameNonEmpty(target);
  }

  lemma EncodeNameNonEmpty(name: bytes)
    ensures |EncodeName(name)| > 0
  {
  }

  lemma RecordRead(buf: bytes, at: nat, r: Record, target: bytes)
    requires Plain(r.name) && Settled(r, target)
    requires Holds(buf, at, RecordBytes(r))
    ensures RecordAt(buf, at) == Got(r, at + |RecordBytes(r)|)
  {
    hide EncodeName, NameAt, Survives, Utf8.Valid, FieldBytes, RdataAt, GetU16, GetU32, Settled;
    var n := EncodeName(r.name);
    assert |FieldBytes(r)| == 10 by { FieldBytesSize(r); }
    HoldsParts(buf, at, n + FieldBytes(r), r.rdata);
    HoldsParts(buf, at, n, FieldBytes(r));
    NameRoundTrip(buf, at, r.name);
    EncodeNameNonEmpty(r.name);
    assert |r.rdata| < 0x1_0000 by { SettledSize(r, target); }
    FieldsRead(buf, at + |n|, r);
    RdataRead(buf, at + |n| + 10, r, target);
  }

  lemma FieldBytesSize(r: Record)
    ensures |FieldBytes(r)| == 10
  {
  }

  lemma SettledSize(r: Record, target: bytes)
    requires Settled(r, target)
    ensures |r.rdata| < 0x1_0000
  {
  }

  /** A packet's record section that was printed from settled records reads as those records. */
  lemma {:induction false} RecordsRead(buf: bytes, at: nat, rs: seq<Record>, targets: seq<bytes>)
    requires |targets| == |rs|
    requires forall i :: 0 <= i < |rs| ==> Plain(rs[i].name) && Settled(rs[i], targets[i])
    requires Holds(buf, at, AllBytes(rs))
    ensures RecordsFrom(buf, at, |rs|) == Some(rs)
    decreases |rs|
  {
    hide RecordAt, RecordBytes, Plain, Settled;
    if rs != [] {
      HoldsParts(buf, at, RecordBytes(rs[0]), AllBytes(rs[1..]));
      RecordRead(buf, at, rs[0], targets[0]);
      RecordsRead(buf, at + |RecordBytes(rs[0])|, rs[1..], targets[1..]);
      assert rs == [rs[0]] + rs[1..];
    }
  }

  /** The advertisements that the wire format can carry: names that survive printing, sizes that fit 16 bits */
  predicate Printable(a: Advert) {
    && Plain(a.ServiceName()) && Plain(a.InstanceName()) && Plain(a.HostName())
    && |TextRdata(a.text)| < 0x1_0000
    && |Records(a)| < 0x1_0000
  }

  lemma {:induction false} LabelBytesSize(ls: seq<NameLabel>)
    ensures |LabelBytes(ls)| <= 64 * |ls|
  {
    if ls != [] {
      LabelBytesSize(ls[1..]);
    }
  }

  lemma PlainNameSize(name: bytes)
    requires Plain(name)
    ensures |EncodeName(name)| <= 64 * MAX_VISITS + 1
  {
    LabelBytesSize(NonEmpty(Split(name)));
    if name == [] {
      assert |Split(name)| == 1;
    }
  }

  ghost function Targets(a: Advert): (ts: seq<bytes>)
    ensures |ts| == |Records(a)|
  {
    seq(|Records(a)|, i => if i == 0 then a.InstanceName() else a.HostName())
  }

  lemma PtrSettled(a: Advert)
    requires Plain(a.InstanceName())
    ensures Settled(PtrRecord(a), a.InstanceName())
  {
    hide EncodeName, Plain;
    PlainNameSize(a.InstanceName());
  }

  lemma SrvSettled(a: Advert)
    requires Plain(a.HostName())
    ensures Settled(SrvRecord(a), a.HostName())
  {
    hide EncodeName, Plain;
    PlainNameSize(a.HostName());
    assert SrvRecord(a).rdata[6..] == EncodeName(a.HostName());
  }

  lemma AdvertSettled(a: Advert, i: nat)
    requires Printable(a)
    requires i < |Records(a)|
    ensures Plain(Records(a)[i].name) && Settled(Records(a)[i], Targets(a)[i])
  {
    hide EncodeName, Survives, Utf8.Valid, Plain;
    if i == 0 {
      PtrSettled(a);
    } else if i == 1 {
      SrvSettled(a);
    }
  }

  /**
   * Print/parse inversion: the parser reads a printed response as exactly the PTR, SRV and TXT records
   * and then all address records, in order, with their names, classes, TTL and data.
   */
  lemma ResponseRoundTrip(a: Advert)
    requires Printable(a)
    ensures ParsePacket(ResponseBytes(a)) == Some(Message(0, FLAGS_RESPONSE, [], Records(a)))
  {
    hide Printable, Records, Plain, Settled, RecordAt, AllBytes, GetU16;
    var buf := ResponseBytes(a);
    var rs := Records(a);
    assert |rs| < 0x1_0000 by { PrintableCount(a); }
    var n := |rs| % 0x1_0000;
    assert Holds(buf, 0, Header(FLAGS_RESPONSE, 0, n));
    HeaderRead(buf, FLAGS_RESPONSE, 0, n);
    assert Holds(buf, 12, AllBytes(rs));
    forall i | 0 <= i < |rs| ensures Plain(rs[i].name) && Settled(rs[i], Targets(a)[i]) {
      AdvertSettled(a, i);
    }
    RecordsRead(buf, 12, rs, Targets(a));
  }

  lemma PrintableCount(a: Advert)
    requires Printable(a)
    ensures |Records(a)| < 0x1_0000
  {
  }

  /**
   * A PTR or SRV record whose target is compressed is read with that target spelled out: labels and a pointer to
   * a name that stands anywhere in the packet are stored as the labels in front of that name.
   */
  lemma CompressedTargetRead(buf: bytes, off: nat, owner: bytes, next: nat, wire: Record, head: bytes,
                             ls: seq<NameLabel>, t: nat, name: bytes)
    requires off < |buf| && NameAt(buf, off) == Some((owner, next))
    requires NamePrefix(wire.rtype) == Some(|head|) && t < 0x4000
    requires wire.rdata == head + Compressed(ls, t) && |wire.rdata| < 0x1_0000
    requires Holds(buf, next, FieldBytes(wire) + wire.rdata)
    requires Plain(name) && Holds(buf, t, EncodeName(name))
    requires forall l :: l in ls ==> ShortLabel(l)
    requires |ls| + 1 + (if name == [] then 0 else |Split(name)|) < MAX_VISITS
    ensures RecordAt(buf, off) ==
            Got(Record(owner, wire.rtype, wire.rclass, wire.ttl, head + EncodeName(Prefixed(ls, name))),
                next + 10 + |wire.rdata|)
  {
    hide EncodeName, NameAt, Survives, Utf8.Valid, FieldBytes, GetU16, GetU32, Compressed, Split, Prefixed;
    FieldBytesSize(wire);
    HoldsParts(buf, next, FieldBytes(wire), wire.rdata);
    FieldsRead(buf, next, wire);
    var at := next + 10;
    HoldsParts(buf, at, head, Compressed(ls, t));
    CompressedRoundTrip(buf, at + |head|, ls, t, name);
    CompressedNonEmpty(ls, t);
    assert buf[at..at + |head|] == head;
  }

  lemma CompressedNonEmpty(ls: seq<NameLabel>, t: nat)
    requires t < 0x4000
    ensures |Compressed(ls, t)| > 0
  {
  }

  // ---------- Packets with all sections ----------

  /** A header with its four counts */
  function FullHeader(id: u16, flags: u16, questions: u16, answers: u16, authorities: u16, additional: u16): bytes {
    PutU16(id) + PutU16(flags) + PutU16(questions) + PutU16(answers) + PutU16(authorities) + PutU16(additional)
  }

  lemma FullHeaderRead(buf: bytes, id: u16, flags: u16, questions: u16, answers: u16, authorities: u16, additional: u16)
    requires Holds(buf, 0, FullHeader(id, flags, questions, answers, authorities, additional))
    ensures GetU16(buf, 0) == id && GetU16(buf, 2) == flags && GetU16(buf, 4) == questions
    ensures RecordCount(buf) == answers as int + authorities as int + additional as int
  {
    hide PutU16, GetU16;
    var h2 := PutU16(id);
    var h4 := h2 + PutU16(flags);
    var h6 := h4 + PutU16(questions);
    var h8 := h6 + PutU16(answers);
    var h10 := h8 + PutU16(authorities);
    HoldsParts(buf, 0, h10, PutU16(additional));
    HoldsParts(buf, 0, h8, PutU16(authorities));
    HoldsParts(buf, 0, h6, PutU16(answers));
    HoldsParts(buf, 0, h4, PutU16(questions));
    HoldsParts(buf, 0, h2, PutU16(flags));
    HoldsU16(buf, 0, id);
    HoldsU16(buf, 2, flags);
    HoldsU16(buf, 4, questions);
    HoldsU16(buf, 6, answers);
    HoldsU16(buf, 8, authorities);
    HoldsU16(buf, 10, additional);
  }

  /** Records printed into the answer, authority and additional sections all come back, in that order. */
  lemma AllSectionsRead(id: u16, flags: u16, an: seq<Record>, ns: seq<Record>, ar: seq<Record>, targets: seq<bytes>)
    requires |an| < 0x1_0000 && |ns| < 0x1_0000 && |ar| < 0x1_0000 && |targets| == |an + ns + ar|
    requires forall i :: 0 <= i < |targets| ==> Plain((an + ns + ar)[i].name) && Settled((an + ns + ar)[i], targets[i])
    ensures ParsePacket(FullHeader(id, flags, 0, |an|, |ns|, |ar|) + AllBytes(an + ns + ar)) ==
            Some(Message(id, flags, [], an + ns + ar))
  {
    hide Plain, Settled, RecordAt, AllBytes, GetU16, RecordCount;
    var rs := an + ns + ar;
    var head := FullHeader(id, flags, 0, |an|, |ns|, |ar|);
    var buf := head + AllBytes(rs);
    assert Holds(buf, 0, head) && Holds(buf, 12, AllBytes(rs));
    FullHeaderRead(buf, id, flags, 0, |an|, |ns|, |ar|);
    RecordsRead(buf, 12, rs, targets);
  }

  lemma HeaderRead(buf: bytes, flags: u16, questions: u16, answers: u16)
    requires Holds(buf, 0, Header(flags, questions, answers))
    ensures GetU16(buf, 0) == 0 && GetU16(buf, 2) == flags && GetU16(buf, 4) == questions
    ensures RecordCount(buf) == answers
  {
    hide PutU16, GetU16;
    var h4 := PutU16(0) + PutU16(flags);
    var h8 := h4 + PutU16(questions) + PutU16(answers);
    HoldsParts(buf, 0, h8 + PutU16(0), PutU16(0));
    HoldsParts(buf, 0, h8, PutU16(0));
    HoldsParts(buf, 0, h4 + PutU16(questions), PutU16(answers));
    HoldsParts(buf, 0, h4, PutU16(questions));
    HoldsParts(buf, 0, PutU16(0), PutU16(flags));
    HoldsU16(buf, 0, 0);
    HoldsU16(buf, 2, flags);
    HoldsU16(buf, 4, questions);
    HoldsU16(buf, 6, answers);
    HoldsU16(buf, 8, 0);
    HoldsU16(buf, 10, 0);
  }

  /** The query asks the parser's own question: PTR records of the service, class IN. */
  lemma QueryRoundTrip(serviceType: bytes, domain: bytes)
    requires Plain(TrimDots(serviceType) + [DOT] + TrimDots(domain))
    ensures ParsePacket(QueryBytes(serviceType, domain)) ==
            Some(Message(0, 0, [Question(TrimDots(serviceType) + [DOT] + TrimDots(domain), TYPE_PTR, CLASS_IN)], []))
  {
    hide EncodeName, NameAt, Survives, Utf8.Valid, PutU16, GetU16, TrimDots;
    var name := TrimDots(serviceType) + [DOT] + TrimDots(domain);
    var buf := QueryBytes(serviceType, domain);
    var n := EncodeName(name);
    var tail := PutU16(TYPE_PTR) + PutU16(CLASS_IN);
    assert Holds(buf, 0, Header(0, 1, 0));
    HeaderRead(buf, 0, 1, 0);
    assert Holds(buf, 12, n + tail);
    HoldsParts(buf, 12, n, tail);
    HoldsParts(buf, 12 + |n|, PutU16(TYPE_PTR), PutU16(CLASS_IN));
    HoldsU16(buf, 12 + |n|, TYPE_PTR);
    HoldsU16(buf, 12 + |n| + 2, CLASS_IN);
    NameRoundTrip(buf, 12, name);
    EncodeNameNonEmpty(name);
    var q := Question(name, TYPE_PTR, CLASS_IN);
    assert QuestionAt(buf, 12) == Got(q, |buf|);
    assert QuestionsFrom(buf, |buf|, 0) == Some(([], |buf|));
    assert QuestionsFrom(buf, 12, 1) == Some(([q] + [], |buf|));
    assert [q] + [] == [q];
    assert RecordsFrom(buf, |buf|, 0) == Some([]);
  }
}
