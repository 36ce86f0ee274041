/**
 * The Redis wire protocol as the Home client speaks it: commands are arrays of length-prefixed byte
 * strings, and replies are read one bulk at a time.
 */
module Resp {
  import opened Options
  import opened Bytes
  import opened Sequences
  import Decimal
  import Utf8

  const CR: byte := 13
  const LF: byte := 10
  const DOLLAR: byte := 36
  const STAR: byte := 42
  const PLUS: byte := 43
  const MINUS: byte := 45
  const COLON: byte := 58
  const ZERO: byte := 48
  const CRLF: bytes := [CR, LF]
  const I64_MIN := -0x8000_0000_0000_0000
  const I64_MAX := 0x7FFF_FFFF_FFFF_FFFF

  // ---------- Printing ----------

  function DigitBytes(ds: seq<Decimal.digit>): (b: bytes)
    ensures |b| == |ds|
    ensures forall i :: 0 <= i < |ds| ==> b[i] == ZERO + ds[i]
  {
    seq(|ds|, i requires 0 <= i < |ds| => (ZERO as int + ds[i] as int) as byte)
  }

  function Dec(n: nat): bytes {
    DigitBytes(Decimal.Digits(n))
  }

  /** `${len}\r\n` */
  function BulkHead(n: nat): bytes {
    [DOLLAR] + Dec(n) + CRLF
  }

  function Bulk(b: bytes): bytes {
    BulkHead(|b|) + (b + CRLF)
  }

  function Bulks(bs: seq<bytes>): bytes {
    if bs == [] then [] else Bulk(bs[0]) + Bulks(bs[1..])
  }

  function ArrayHead(n: nat): bytes {
    [STAR] + Dec(n) + CRLF
  }

  function Command(cmd: bytes, args: seq<bytes>): bytes {
    ArrayHead(|args| + 1) + Bulks([cmd] + args)
  }

  lemma {:induction false} BulksSnoc(bs: seq<bytes>, b: bytes)
    ensures Bulks(bs + [b]) == Bulks(bs) + Bulk(b)
  {
    hide Bulk;
    if bs == [] {
      assert [b][1..] == [];
    } else {
      assert (bs + [b])[1..] == bs[1..] + [b];
      BulksSnoc(bs[1..], b);
    }
  }

  /** `encode_resp_command_bytes` */
  method EncodeRespCommandBytes(cmd: bytes, args: seq<bytes>) returns (out: bytes)
    ensures out == Command(cmd, args)
  {
    hide Dec;
    out := [STAR] + Dec(|args| + 1) + CRLF;
    out := out + [DOLLAR] + Dec(|cmd|) + CRLF + cmd + CRLF;
    assert out == ArrayHead(|args| + 1) + Bulk(cmd);
    assert [cmd][1..] == [];
    assert Bulks([cmd]) == Bulk(cmd) + Bulks([]) == Bulk(cmd);
    assert [cmd] + args[..0] == [cmd];
    for i := 0 to |args|
      invariant out == ArrayHead(|args| + 1) + Bulks([cmd] + args[..i])
    {
      BulksSnoc([cmd] + args[..i], args[i]);
      assert [cmd] + args[..i + 1] == [cmd] + args[..i] + [args[i]];
      ghost var before := out;
      out := out + [DOLLAR] + Dec(|args[i]|) + CRLF;
      out := out + args[i];
      out := out + CRLF;
      assert out == before + Bulk(args[i]);
    }
    assert args[..|args|] == args;
  }

  // ---------- Reading ----------

  datatype Reply = Data(data: bytes) | Nil | IoError | ProtocolError
  datatype Outcome = Outcome(reply: Reply, rest: bytes)

  /** Length of the first line, with its line feed if there is one */
  function LineLen(b: bytes): (n: nat)
    ensures n <= |b|
  {
    if b == [] then 0 else if b[0] == LF then 1 else 1 + LineLen(b[1..])
  }

  /** `trim_end_matches(['\r', '\n'])` */
  function TrimEnd(b: bytes): bytes {
    if b != [] && (b[|b| - 1] == CR || b[|b| - 1] == LF) then TrimEnd(b[..|b| - 1]) else b
  }

  function DigitsOf(b: bytes): Option<seq<Decimal.digit>> {
    if b == [] then Some([])
    else
      var rest := DigitsOf(b[..|b| - 1]);
      var last := b[|b| - 1];
      if rest.Some? && ZERO <= last < ZERO + 10 then Some(rest.value + [last - ZERO]) else None
  }

  /** `str::parse::<i64>`: an optional sign, at least one digit, no overflow */
  function ParseI64(b: bytes): Option<int> {
    var negative := b != [] && b[0] == MINUS;
    var digits := DigitsOf(if b != [] && (b[0] == MINUS || b[0] == PLUS) then b[1..] else b);
    if digits.None? || digits.value == [] then None
    else
      var magnitude: int := Decimal.Value(digits.value);
      var v := if negative then -magnitude else magnitude;
      if I64_MIN <= v <= I64_MAX then Some(v) else None
  }

  /** The rest of a bulk whose length line said `n`: the data and the two octets after it */
  function ReadBody(n: nat, input: bytes): Outcome {
    if |input| < n + 2 then Outcome(IoError, [])
    else Outcome(Data(input[..n]), input[n + 2..])
  }

  function ReadLine(line: bytes, rest: bytes): Outcome {
    var text := TrimEnd(line);
    if !Utf8.Valid(line) then Outcome(IoError, rest)
    else if text == [] then Outcome(ProtocolError, rest)
    else if text[0] == DOLLAR then
      match ParseI64(text[1..])
      case None => Outcome(ProtocolError, rest)
      case Some(n) => if n < 0 then Outcome(Nil, rest) else ReadBody(n, rest)
    else if text[0] == PLUS || text[0] == COLON then Outcome(Data(text[1..]), rest)
    else Outcome(ProtocolError, rest)
  }

  function ReadBulk(input: bytes): Outcome {
    var n := LineLen(input);
    ReadLine(input[..n], input[n..])
  }

  /** A connection's receiving side */
  class Reader {
    var input: bytes

    constructor (input: bytes)
      ensures this.input == input
    {
      this.input := input;
    }

    /** `read_line` */
    method TakeLine() returns (line: bytes)
      modifies this
      ensures line == old(input)[..LineLen(old(input))]
      ensures input == old(input)[LineLen(old(input))..]
    {
      line := [];
      while input != []
        invariant line + input == old(input)
        invariant LineLen(old(input)) == |line| + LineLen(input)
        decreases |input|
      {
        ghost var before, rest := line, input;
        var b := input[0];
        line := line + [b];
        input := input[1..];
        assert line + input == before + rest;
        if b == LF {
          break;
        }
      }
      assert old(input)[..|line|] == line && old(input)[|line|..] == input;
    }

    /** `read_resp_bulk` */
    method ReadRespBulk() returns (reply: Reply)
      modifies this
      ensures Outcome(reply, input) == ReadBulk(old(input))
    {
      hide ParseI64, Utf8.Valid, LineLen, TrimEnd;
      var line := TakeLine();
      if !Utf8.Valid(line) {
        return IoError;
      }
      var text := TrimEnd(line);
      if text == [] {
        return ProtocolError;
      }
      if text[0] == DOLLAR {
        var len := ParseI64(text[1..]);
        if len.None? {
          return ProtocolError;
        }
        if len.value < 0 {
          return Nil;
        }
        if |input| < len.value + 2 {
          input := [];
          return IoError;
        }
        reply := Data(input[..len.value]);
        input := input[len.value + 2..];
        return;
      }
      if text[0] == PLUS || text[0] == COLON {
        return Data(text[1..]);
      }
      return ProtocolError;
    }
  }

  // ---------- Inversion ----------

  /** The octets of a decimal line: printable, so neither line ends nor signs */
  predicate Plain(b: bytes) {
    forall i :: 0 <= i < |b| ==> ZERO <= b[i] < ZERO + 10
  }

  lemma {:induction false} DigitsOfPrinted(ds: seq<Decimal.digit>)
    ensures DigitsOf(DigitBytes(ds)) == Some(ds)
  {
    if ds != [] {
      var b := DigitBytes(ds);
      DigitsOfPrinted(ds[..|ds| - 1]);
      assert b[..|b| - 1] == DigitBytes(ds[..|ds| - 1]);
      assert ds == ds[..|ds| - 1] + [ds[|ds| - 1]];
    }
  }

  /** Decimal print/parse inversion on the lengths that a 64-bit count can hold */
  lemma ParseOfPrinted(ds: seq<Decimal.digit>)
    requires ds != [] && Decimal.Value(ds) <= I64_MAX
    ensures ParseI64(DigitBytes(ds)) == Some(Decimal.Value(ds))
  {
    DigitsOfPrinted(ds);
    assert DigitBytes(ds)[0] >= ZERO;
  }

  lemma {:induction false} LineLenOf(text: bytes, tail: bytes)
    requires LF !in text
    ensures LineLen(text) == |text|
    ensures LineLen(text + [LF] + tail) == |text| + 1
  {
    if text != [] {
      LineLenOf(text[1..], tail);
      assert (text + [LF] + tail)[1..] == text[1..] + [LF] + tail;
    }
  }

  lemma TrimEndOf(text: bytes)
    requires text != [] && text[|text| - 1] != CR && text[|text| - 1] != LF
    ensures TrimEnd(text) == text
    ensures TrimEnd(text + [CR]) == text
    ensures TrimEnd(text + CRLF) == text
  {
    assert (text + [CR])[..|text|] == text;
    assert (text + CRLF)[..|text| + 1] == text + [CR];
  }

  /** A line `<mark><digits>\r\n` is read as a whole and leaves what follows it. */
  lemma HeadLine(mark: byte, ds: seq<Decimal.digit>, tail: bytes)
    requires mark < 0x80 && mark != LF && mark != CR && ds != []
    ensures var input := [mark] + DigitBytes(ds) + CRLF + tail;
            && LineLen(input) == |ds| + 3
            && input[..LineLen(input)] == [mark] + DigitBytes(ds) + CRLF && input[LineLen(input)..] == tail
            && Utf8.Valid([mark] + DigitBytes(ds) + CRLF)
            && TrimEnd([mark] + DigitBytes(ds) + CRLF) == [mark] + DigitBytes(ds)
  {
    var text := [mark] + DigitBytes(ds);
    var input := text + CRLF + tail;
    LineLenOf(text + [CR], tail);
    assert input == text + [CR] + [LF] + tail;
    TrimEndOf(text);
    Utf8.AsciiIsValid(text + CRLF);
  }

  /** Reading a printed bulk returns its data, whatever octets it holds, and leaves what follows. */
  lemma BulkRoundTrip(b: bytes, tail: bytes)
    requires |b| <= I64_MAX
    ensures ReadBulk(Bulk(b) + tail) == Outcome(Data(b), tail)
  {
    hide LineLen, TrimEnd, Utf8.Valid, ParseI64, Decimal.Digits;
    var ds := Decimal.Digits(|b|);
    Decimal.ValueOfDigits(|b|);
    var body := b + CRLF + tail;
    HeadLine(DOLLAR, ds, body);
    ParseOfPrinted(ds);
    assert Bulk(b) + tail == [DOLLAR] + DigitBytes(ds) + CRLF + body;
    assert ([DOLLAR] + DigitBytes(ds))[1..] == DigitBytes(ds);
    assert body[..|b|] == b && body[|b| + 2..] == tail;
  }

  /** `n` bulks in a row */
  function ReadMany(n: nat, input: bytes): Option<(seq<bytes>, bytes)>
    decreases n
  {
    if n == 0 then Some(([], input))
    else
      var first := ReadBulk(input);
      if !first.reply.Data? then None
      else
        match ReadMany(n - 1, first.rest)
        case None => None
        case Some((more, rest)) => Some(([first.reply.data] + more, rest))
  }

  lemma {:induction false} ReadManyOfBulks(bs: seq<bytes>, tail: bytes)
    requires forall b :: b in bs ==> |b| <= I64_MAX
    ensures ReadMany(|bs|, Bulks(bs) + tail) == Some((bs, tail))
    decreases |bs|
  {
    hide ReadBulk, Bulk;
    if bs == [] {
      assert Bulks(bs) + tail == tail;
    } else {
      TailIsPart(bs);
      BulkRoundTrip(bs[0], Bulks(bs[1..]) + tail);
      Associative(Bulk(bs[0]), Bulks(bs[1..]), tail);
      ReadManyOfBulks(bs[1..], tail);
    }
  }

  predicate Fits(cmd: bytes, args: seq<bytes>) {
    |cmd| <= I64_MAX && |args| < I64_MAX && forall a :: a in args ==> |a| <= I64_MAX
  }

  /** The number announced by an array's first line */
  function ArrayCount(input: bytes): Option<int> {
    var text := TrimEnd(input[..LineLen(input)]);
    if text != [] && text[0] == STAR then ParseI64(text[1..]) else None
  }

  /**
   * The command codec: after the array line, whose count is right, as many bulk reads as it announces return
   * exactly the command and its arguments and leave exactly what came after the command.
   */
  lemma CommandRoundTrip(cmd: bytes, args: seq<bytes>, tail: bytes)
    requires Fits(cmd, args)
    ensures var input := Command(cmd, args) + tail;
            && ArrayCount(input) == Some(|args| + 1)
            && ReadMany(|args| + 1, input[LineLen(input)..]) == Some(([cmd] + args, tail))
  {
    hide LineLen, TrimEnd, ParseI64, Bulks, ReadMany, Decimal.Digits, Utf8.Valid;
    var n := |args| + 1;
    var ds := Decimal.Digits(n);
    var body := Bulks([cmd] + args) + tail;
    HeadLine(STAR, ds, body);
    Associative(ArrayHead(n), Bulks([cmd] + args), tail);
    assert ([STAR] + DigitBytes(ds))[1..] == DigitBytes(ds);
    Decimal.ValueOfDigits(n);
    ParseOfPrinted(ds);
    assert |[cmd] + args| == n && forall b :: b in [cmd] + args ==> b == cmd || b in args;
    ReadManyOfBulks([cmd] + args, tail);
  }

  /** Commands are self-delimiting: equal octets mean equal commands, even with something following. */
  lemma CommandIsInjective(cmd: bytes, args: seq<bytes>, tail: bytes, cmd': bytes, args': seq<bytes>, tail': bytes)
    requires Fits(cmd, args) && Fits(cmd', args')
    requires Command(cmd, args) + tail == Command(cmd', args') + tail'
    ensures cmd == cmd' && args == args' && tail == tail'
  {
    hide Command, ArrayCount, ReadMany, LineLen;
    CommandRoundTrip(cmd, args, tail);
    CommandRoundTrip(cmd', args', tail');
    assert ([cmd] + args)[0] == cmd && ([cmd'] + args')[0] == cmd';
    assert ([cmd] + args)[1..] == args && ([cmd'] + args')[1..] == args';
  }

  // ---------- One-line replies ----------

  /** A one-line reply: a status and an integer are their text, an error and an array are protocol errors. */
  lemma LineReply(mark: byte, text: bytes, tail: bytes)
    requires mark < 0x80 && mark != LF && mark != CR && mark != DOLLAR
    requires Utf8.Valid(text) && LF !in text && CR !in text
    ensures ReadBulk([mark] + text + CRLF + tail) ==
            Outcome(if mark == PLUS || mark == COLON then Data(text) else ProtocolError, tail)
  {
    hide LineLen, TrimEnd, Utf8.Valid, Utf8.CharLen, ParseI64;
    var line := [mark] + text;
    var input := line + CRLF + tail;
    LineLenOf(line + [CR], tail);
    assert input == line + [CR] + [LF] + tail;
    assert input[..|line| + 2] == line + CRLF && input[|line| + 2..] == tail;
    TrimEndOf(line);
    Utf8.AsciiIsValid(CRLF);
    Utf8.AsciiFirst([mark]);
    Utf8.ValidPrepend([mark], text);
    Utf8.ValidConcat(line, CRLF);
    assert line[1..] == text;
  }

  // ---------- Replies cut short ----------

  /** A length line, whole or without its line end, that nothing follows */
  lemma LoneLengthLine(text: bytes, end: bytes)
    requires end <= CRLF && forall i :: 0 <= i < |text| ==> text[i] < 0x80 && text[i] != CR && text[i] != LF
    ensures ReadBulk([DOLLAR] + text + end).reply ==
            match ParseI64(text)
            case None => ProtocolError
            case Some(n) => if n < 0 then Nil else IoError
  {
    hide ParseI64, Utf8.Valid, TrimEnd, LineLen;
    var line := [DOLLAR] + text;
    var p := line + end;
    assert end == [] || end == [CR] || end == CRLF;
    if end == CRLF {
      LineLenOf(line + [CR], []);
      assert p == line + [CR] + [LF] + [];
    } else {
      LineLenOf(p, []);
    }
    assert p[..|p|] == p && p[|p|..] == [];
    TrimEndOf(line);
    assert line + [] == line;
    Utf8.AsciiIsValid(p);
    assert line[1..] == text;
  }

  lemma CutInHead(ds: seq<Decimal.digit>, end: bytes)
    requires Decimal.Value(ds) <= I64_MAX && end < CRLF
    ensures var r := ReadBulk([DOLLAR] + DigitBytes(ds) + end).reply; r.IoError? || r.ProtocolError?
  {
    hide ParseI64, ReadBulk;
    LoneLengthLine(DigitBytes(ds), end);
    if ds == [] {
      assert DigitBytes(ds) == [];
      ParseNothing();
    } else {
      ParseOfPrinted(ds);
    }
  }

  lemma ParseNothing()
    ensures ParseI64([]) == None
  {
  }

  lemma CutInBody(b: bytes, part: bytes)
    requires |b| <= I64_MAX && part < b + CRLF
    ensures ReadBulk(BulkHead(|b|) + part).reply.IoError?
  {
    hide LineLen, TrimEnd, Utf8.Valid, ParseI64, Decimal.Digits;
    var ds := Decimal.Digits(|b|);
    Decimal.ValueOfDigits(|b|);
    HeadLine(DOLLAR, ds, part);
    ParseOfPrinted(ds);
    assert ([DOLLAR] + DigitBytes(ds))[1..] == DigitBytes(ds);
  }

  /**
   * A reply that was cut short is noticed: reading a proper prefix of a printed bulk is an I/O or protocol
   * error, never an absent value and never other data.
   */
  lemma CutReplyIsNoticed(b: bytes, cut: nat)
    requires |b| <= I64_MAX && cut < |Bulk(b)|
    ensures var r := ReadBulk(Bulk(b)[..cut]).reply; r.IoError? || r.ProtocolError?
  {
    hide ReadBulk, Decimal.Digits;
    var head := BulkHead(|b|);
    var ds := Decimal.Digits(|b|);
    var p := Bulk(b)[..cut];
    if cut >= |head| {
      var part := (b + CRLF)[..cut - |head|];
      assert p == head + part;
      CutInBody(b, part);
    } else if cut == 0 {
      assert p == [];
      ReadNothing();
    } else {
      var k := if cut - 1 <= |ds| then cut - 1 else |ds|;
      var end := if cut - 1 > |ds| then [CR] else [];
      assert p == [DOLLAR] + DigitBytes(ds[..k]) + end;
      Decimal.ValueOfDigits(|b|);
      Decimal.ValueOfPrefix(ds, k);
      CutInHead(ds[..k], end);
    }
  }

  lemma ReadNothing()
    ensures ReadBulk([]).reply == ProtocolError
  {
  }
}
