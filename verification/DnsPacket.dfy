/**
 * Multicast DNS packets (section 4.1 of RFC 1035; SRV per RFC 2782; TXT per section 6 of RFC 6763):
 * the parser, and what every packet that it accepts satisfies.
 */
module DnsPacket {
  import opened Options
  import opened Bytes
  import opened DnsName
  import Utf8

  const TYPE_A: u16 := 1
  const TYPE_PTR: u16 := 12
  const TYPE_TXT: u16 := 16
  const TYPE_AAAA: u16 := 28
  const TYPE_SRV: u16 := 33
  const CLASS_IN: u16 := 1
  /** Class IN with the cache-flush bit (section 10.2 of RFC 6762) */
  const CLASS_IN_FLUSH: u16 := 0x8001
  const FLAGS_RESPONSE: u16 := 0x8400

  datatype Question = Question(name: bytes, qtype: u16, qclass: u16)
  datatype Record = Record(name: bytes, rtype: u16, rclass: u16, ttl: u32, rdata: bytes)
  datatype Message = Message(id: u16, flags: u16, questions: seq<Question>, answers: seq<Record>)

  // ---------- Reading ----------

  /** One turn of a parser loop: leave the loop at an offset, refuse the packet, or take an item */
  datatype Read<T> = Stop(at: nat) | Reject | Got(item: T, next: nat)

  function QuestionAt(buf: bytes, off: nat): Read<Question> {
    if off >= |buf| then Stop(off)
    else
      match NameAt(buf, off)
      case None => Reject
      case Some((name, next)) =>
        if next + 4 > |buf| then Stop(next)
        else Got(Question(name, GetU16(buf, next), GetU16(buf, next + 2)), next + 4)
  }

  /** Octets of RDATA before an embedded domain name, for the types that embed one */
  function NamePrefix(rtype: u16): Option<nat> {
    if rtype == TYPE_PTR then Some(0) else if rtype == TYPE_SRV then Some(6) else None
  }

  /** RDATA as it is stored: an embedded name is rewritten without compression pointers */
  function RdataAt(buf: bytes, rtype: u16, at: nat, len: nat): Option<bytes>
    requires at + len <= |buf|
  {
    match NamePrefix(rtype)
    case None => Some(buf[at..at + len])
    case Some(prefix) =>
      if len <= prefix then None
      else
        match NameAt(buf, at + prefix)
        case None => None
        case Some((target, end)) =>
          if end != at + len then None else Some(buf[at..at + prefix] + EncodeName(target))
  }

  function RecordAt(buf: bytes, off: nat): Read<Record> {
    if off >= |buf| then Stop(off)
    else
      match NameAt(buf, off)
      case None => Reject
      case Some((name, next)) =>
        if next + 10 > |buf| then Stop(next)
        else BodyAt(buf, name, next)
  }

  /** The fixed fields and RDATA that follow a record's owner name */
  function BodyAt(buf: bytes, name: bytes, p: nat): Read<Record>
    requires p + 10 <= |buf|
  {
    var len := GetU16(buf, p + 8);
    if p + 10 + len > |buf| then Stop(p + 10)
    else
      match RdataAt(buf, GetU16(buf, p), p + 10, len)
      case None => Reject
      case Some(rdata) =>
        Got(Record(name, GetU16(buf, p), GetU16(buf, p + 2), GetU32(buf, p + 4), rdata), p + 10 + len)
  }

  function QuestionsFrom(buf: bytes, off: nat, n: nat): Option<(seq<Question>, nat)>
    decreases n
  {
    if n == 0 then Some(([], off))
    else
      match QuestionAt(buf, off)
      case Stop(at) => Some(([], at))
      case Reject => None
      case Got(q, next) =>
        match QuestionsFrom(buf, next, n - 1)
        case None => None
        case Some((qs, end)) => Some(([q] + qs, end))
  }

  function RecordsFrom(buf: bytes, off: nat, n: nat): Option<seq<Record>>
    decreases n
  {
    if n == 0 then Some([])
    else
      match RecordAt(buf, off)
      case Stop(_) => Some([])
      case Reject => None
      case Got(r, next) =>
        match RecordsFrom(buf, next, n - 1)
        case None => None
        case Some(rs) => Some([r] + rs)
  }

  function RecordCount(buf: bytes): nat
    requires |buf| >= 12
  {
    GetU16(buf, 6) as int + GetU16(buf, 8) as int + GetU16(buf, 10) as int
  }

  function ParsePacket(buf: bytes): Option<Message> {
    if |buf| < 12 then None
    else
      match QuestionsFrom(buf, 12, GetU16(buf, 4))
      case None => None
      case Some((questions, off)) =>
        match RecordsFrom(buf, off, RecordCount(buf))
        case None => None
        case Some(answers) => Some(Message(GetU16(buf, 0), GetU16(buf, 2), questions, answers))
  }

  method ReadQuestion(buf: bytes, off: nat) returns (r: Read<Question>)
    ensures r == QuestionAt(buf, off)
  {
    if off >= |buf| {
      return Stop(off);
    }
    var named := DecodeDnsNameChecked(buf, off);
    if named.None? {
      return Reject;
    }
    var (name, next) := named.value;
    if next + 4 > |buf| {
      return Stop(next);
    }
    return Got(Question(name, GetU16(buf, next), GetU16(buf, next + 2)), next + 4);
  }

  method ReadRecord(buf: bytes, off: nat) returns (r: Read<Record>)
    ensures r == RecordAt(buf, off)
  {
    hide NameAt, EncodeName, GetU16, GetU32;
    if off >= |buf| {
      return Stop(off);
    }
    var named := DecodeDnsNameChecked(buf, off);
    if named.None? {
      return Reject;
    }
    var (name, p) := named.value;
    if p + 10 > |buf| {
      return Stop(p);
    }
    var rtype, rclass, ttl, len := GetU16(buf, p), GetU16(buf, p + 2), GetU32(buf, p + 4), GetU16(buf, p + 8);
    var at := p + 10;
    if at + len > |buf| {
      return Stop(at);
    }
    var rdata: bytes;
    if rtype == TYPE_PTR || rtype == TYPE_SRV {
      var prefix := if rtype == TYPE_SRV then 6 else 0;
      if len <= prefix {
        return Reject;
      }
      var target := DecodeDnsNameChecked(buf, at + prefix);
      if target.None? || target.value.1 != at + len {
        return Reject;
      }
      var name' := EncodeDnsName(target.value.0);
      rdata := buf[at..at + prefix] + name';
    } else {
      rdata := buf[at..at + len];
    }
    return Got(Record(name, rtype, rclass, ttl, rdata), at + len);
  }

  ghost function Then<T>(done: seq<T>, rest: Option<seq<T>>): Option<seq<T>> {
    if rest.None? then None else Some(done + rest.value)
  }

  lemma ThenSnoc<T>(done: seq<T>, x: T, rest: Option<seq<T>>)
    ensures Then(done, Then([x], rest)) == Then(done + [x], rest)
  {
    assert rest.Some? ==> done + ([x] + rest.value) == done + [x] + rest.value;
  }

  /** The first loop of `parse_dns_packet` */
  method ParseQuestions(buf: bytes, off: nat, n: nat) returns (r: Option<(seq<Question>, nat)>)
    ensures r == QuestionsFrom(buf, off, n)
  {
    hide QuestionAt;
    var questions: seq<Question> := [];
    var offset: nat := off;
    ghost var goal := QuestionsFrom(buf, off, n);
    assert goal.Some? ==> [] + goal.value.0 == goal.value.0;
    for i := 0 to n
      invariant goal == match QuestionsFrom(buf, offset, n - i)
                        case None => None
                        case Some((qs, end)) => Some((questions + qs, end))
    {
      var turn := ReadQuestion(buf, offset);
      match turn {
        case Stop(at) => assert questions + [] == questions; return Some((questions, at));
        case Reject => return None;
        case Got(q, next) =>
          ghost var rest := QuestionsFrom(buf, next, n - i - 1);
          assert rest.Some? ==> questions + ([q] + rest.value.0) == questions + [q] + rest.value.0;
          questions := questions + [q];
          offset := next;
      }
    }
    assert questions + [] == questions;
    return Some((questions, offset));
  }

  /** The second loop of `parse_dns_packet` */
  method ParseRecords(buf: bytes, off: nat, n: nat) returns (r: Option<seq<Record>>)
    ensures r == RecordsFrom(buf, off, n)
  {
    hide RecordAt;
    var answers: seq<Record> := [];
    var offset: nat := off;
    ghost var goal := RecordsFrom(buf, off, n);
    assert goal.Some? ==> [] + goal.value == goal.value;
    for i := 0 to n
      invariant goal == Then(answers, RecordsFrom(buf, offset, n - i))
    {
      var turn := ReadRecord(buf, offset);
      match turn {
        case Stop(_) => assert answers + [] == answers; return Some(answers);
        case Reject => return None;
        case Got(rec, next) =>
          ThenSnoc(answers, rec, RecordsFrom(buf, next, n - i - 1));
          answers := answers + [rec];
          offset := next;
      }
    }
    assert answers + [] == answers;
    return Some(answers);
  }

  /** `parse_dns_packet` */
  method ParseDnsPacket(buf: bytes) returns (r: Option<Message>)
    ensures r == ParsePacket(buf)
  {
    if |buf| < 12 {
      return None;
    }
    var questions := ParseQuestions(buf, 12, GetU16(buf, 4));
    if questions.None? {
      return None;
    }
    var answers := ParseRecords(buf, questions.value.1, RecordCount(buf));
    if answers.None? {
      return None;
    }
    return Some(Message(GetU16(buf, 0), GetU16(buf, 2), questions.value.0, answers.value));
  }

  // ---------- What every accepted packet satisfies ----------

  lemma {:induction false} QuestionsFit(buf: bytes, off: nat, n: nat)
    requires off <= |buf|
    requires QuestionsFrom(buf, off, n).Some?
    ensures var (qs, end) := QuestionsFrom(buf, off, n).value; off + 5 * |qs| <= end <= |buf|
    decreases n
  {
    if n > 0 {
      var turn := QuestionAt(buf, off);
      if !turn.Reject? && off < |buf| {
        NameAtBounds(buf, off);
        if turn.Got? {
          QuestionsFit(buf, turn.next, n - 1);
        }
      }
    }
  }

  lemma {:induction false} RecordsFit(buf: bytes, off: nat, n: nat)
    requires off <= |buf|
    requires RecordsFrom(buf, off, n).Some?
    ensures off + 11 * |RecordsFrom(buf, off, n).value| <= |buf|
    decreases n
  {
    if n > 0 && RecordAt(buf, off).Got? {
      NameAtBounds(buf, off);
      RecordsFit(buf, RecordAt(buf, off).next, n - 1);
    }
  }

  /** No packet claims more content than it has: a question takes 5 octets or more, a record 11. */
  lemma AcceptedPacketFits(buf: bytes)
    requires ParsePacket(buf).Some?
    ensures var m := ParsePacket(buf).value; 12 + 5 * |m.questions| + 11 * |m.answers| <= |buf|
  {
    QuestionsFit(buf, 12, GetU16(buf, 4));
    var (_, off) := QuestionsFrom(buf, 12, GetU16(buf, 4)).value;
    RecordsFit(buf, off, RecordCount(buf));
  }

  /** `rec` was read from a packet in which its embedded name stands at `at`. */
  ghost predicate EmbedsName(buf: bytes, rec: Record, at: nat) {
    && NamePrefix(rec.rtype).Some?
    && NamePrefix(rec.rtype).value <= at <= |buf|
    && NameAt(buf, at).Some?
    && rec.rdata == buf[at - NamePrefix(rec.rtype).value..at] + EncodeName(NameAt(buf, at).value.0)
  }

  /** Where the `i`th record of a section that starts at `off` stands */
  function RecordOffset(buf: bytes, off: nat, i: nat): nat
    decreases i
  {
    if i == 0 || !RecordAt(buf, off).Got? then off else RecordOffset(buf, RecordAt(buf, off).next, i - 1)
  }

  /** Where the embedded name of the record at `off` stands: behind its owner, its fixed fields and `prefix` octets */
  function TargetOffset(buf: bytes, off: nat, prefix: nat): nat {
    match NameAt(buf, off)
    case None => off
    case Some((_, next)) => next + 10 + prefix
  }

  lemma RecordEmbedsName(buf: bytes, off: nat)
    requires RecordAt(buf, off).Got?
    requires NamePrefix(RecordAt(buf, off).item.rtype).Some?
    ensures var rec := RecordAt(buf, off).item;
            EmbedsName(buf, rec, TargetOffset(buf, off, NamePrefix(rec.rtype).value))
  {
    hide NameAt, EncodeName, GetU16, GetU32;
  }

  lemma {:induction false} RecordStands(buf: bytes, off: nat, n: nat, i: nat)
    requires RecordsFrom(buf, off, n).Some?
    requires i < |RecordsFrom(buf, off, n).value|
    ensures var r := RecordAt(buf, RecordOffset(buf, off, i));
            r.Got? && r.item == RecordsFrom(buf, off, n).value[i]
    decreases n
  {
    hide RecordAt;
    if i > 0 {
      RecordStands(buf, RecordAt(buf, off).next, n - 1, i - 1);
    }
  }

  /** Reading the stored RDATA alone gives the packet's name exactly when that name survives printing. */
  lemma ExpansionPreservesName(buf: bytes, rec: Record, at: nat)
    requires EmbedsName(buf, rec, at)
    ensures var target := NameAt(buf, at).value.0;
            NameAt(rec.rdata, NamePrefix(rec.rtype).value) == Some((target, |rec.rdata|)) <==> Survives(target)
  {
    hide NameAt, EncodeName, Survives, Utf8.Valid;
    var target := NameAt(buf, at).value.0;
    var prefix := NamePrefix(rec.rtype).value;
    NameAtIsText(buf, at);
    assert rec.rdata[prefix..] == EncodeName(target);
    NameRoundTrip(rec.rdata, prefix, target);
  }

  /** Where the records of an accepted packet start */
  function AnswersOffset(buf: bytes): nat
    requires ParsePacket(buf).Some?
  {
    QuestionsFrom(buf, 12, GetU16(buf, 4)).value.1
  }

  /**
   * RDATA expansion preserves meaning. Every PTR and SRV record of an accepted packet stores its own target,
   * the name which the packet's pointers spell in that record, so that reading the RDATA on its own gives
   * this name exactly when it survives printing; names made of dot-free well-formed labels always do.
   */
  lemma ExpandedRdataKeepsMeaning(buf: bytes, i: nat)
    requires ParsePacket(buf).Some?
    requires i < |ParsePacket(buf).value.answers|
    requires NamePrefix(ParsePacket(buf).value.answers[i].rtype).Some?
    ensures var rec := ParsePacket(buf).value.answers[i];
            var prefix := NamePrefix(rec.rtype).value;
            var off := RecordOffset(buf, AnswersOffset(buf), i);
            var at := TargetOffset(buf, off, prefix);
            && RecordAt(buf, off).Got? && RecordAt(buf, off).item == rec
            && EmbedsName(buf, rec, at)
            && var target := NameAt(buf, at).value.0;
            && (NameAt(rec.rdata, prefix) == Some((target, |rec.rdata|)) <==> Survives(target))
            && var labels := Meaning(buf, at, MAX_VISITS).value;
            && ((forall l :: l in labels ==> DOT !in l && Utf8.Valid(l)) ==> Survives(target) && target == Join(labels))
  {
    hide RecordAt, RecordOffset, TargetOffset, EmbedsName, Survives, Utf8.Valid, Join, NamePrefix;
    var rec := ParsePacket(buf).value.answers[i];
    var off := RecordOffset(buf, AnswersOffset(buf), i);
    var at := TargetOffset(buf, off, NamePrefix(rec.rtype).value);
    RecordStands(buf, AnswersOffset(buf), RecordCount(buf), i);
    RecordEmbedsName(buf, off);
    ExpansionPreservesName(buf, rec, at);
    EmbeddedHasMeaning(buf, rec, at);
    var labels := Meaning(buf, at, MAX_VISITS).value;
    if forall l :: l in labels ==> DOT !in l && Utf8.Valid(l) {
      PlainNameSurvives(buf, at);
    }
  }

  lemma EmbeddedHasMeaning(buf: bytes, rec: Record, at: nat)
    requires EmbedsName(buf, rec, at)
    ensures NameAt(buf, at).Some? && Meaning(buf, at, MAX_VISITS).Some? && NamePrefix(rec.rtype).Some?
  {
    hide Meaning;
  }
}
