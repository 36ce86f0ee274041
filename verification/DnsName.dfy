/**
 * Domain names: the label codec of section 3.1 of RFC 1035 and the compression pointers of its
 * section 4.1.4, as `discovery.rs` prints and reads them. Text is UTF-8 octets.
 */
module DnsName {
  import opened Options
  import opened Bytes
  import opened Sequences
  import Utf8

  const DOT: byte := 0x2E
  const MAX_LABEL := 63
  /** The reader inspects at most this many positions for one name. */
  const MAX_VISITS := 128

  type NameLabel = bytes

  // ---------- Text and labels ----------

  /** Index of the first dot, or `|s|` */
  function DotAt(s: bytes): (i: nat)
    ensures i <= |s|
    ensures DOT !in s[..i]
    ensures i < |s| ==> s[i] == DOT
  {
    if s == [] || s[0] == DOT then 0
    else
      var i := 1 + DotAt(s[1..]);
      assert s[..i] == [s[0]] + s[1..][..i - 1];
      i
  }

  /** `str::split('.')` */
  function Split(s: bytes): (parts: seq<NameLabel>)
    ensures |parts| > 0
    ensures forall p :: p in parts ==> DOT !in p
  {
    var i := DotAt(s);
    if i == |s| then assert s[..i] == s; [s] else [s[..i]] + Split(s[i + 1..])
  }

  /** `[String]::join(".")` */
  function Join(parts: seq<NameLabel>): bytes {
    if |parts| == 0 then []
    else if |parts| == 1 then parts[0]
    else parts[0] + [DOT] + Join(parts[1..])
  }

  function NonEmpty(parts: seq<NameLabel>): (r: seq<NameLabel>)
    ensures |r| <= |parts|
    ensures forall p :: p in r ==> p in parts && p != []
  {
    if parts == [] then []
    else (if parts[0] == [] then [] else [parts[0]]) + NonEmpty(parts[1..])
  }

  function Take63(l: NameLabel): (r: NameLabel)
    ensures |r| <= MAX_LABEL && (r == [] <==> l == [])
  {
    if |l| <= MAX_LABEL then l else l[..MAX_LABEL]
  }

  /** What a label reads as after it was printed: cut at 63 octets, then made well-formed again */
  function Reread(l: NameLabel): (r: NameLabel)
    ensures l != [] ==> r != []
  {
    Utf8.Lossy(Take63(l))
  }

  function LabelBytes(ls: seq<NameLabel>): bytes {
    if ls == [] then []
    else [|Take63(ls[0])|] + Take63(ls[0]) + LabelBytes(ls[1..])
  }

  /** The labels with their lengths, closed by the root label */
  function EncodeLabels(ls: seq<NameLabel>): bytes {
    LabelBytes(ls) + [0]
  }

  function EncodeName(name: bytes): bytes {
    EncodeLabels(NonEmpty(Split(name)))
  }

  lemma {:induction false} LabelBytesSnoc(ls: seq<NameLabel>, l: NameLabel)
    ensures LabelBytes(ls + [l]) == LabelBytes(ls) + [|Take63(l)|] + Take63(l)
  {
    if ls == [] {
      assert [l][1..] == [];
    } else {
      assert (ls + [l])[1..] == ls[1..] + [l];
      LabelBytesSnoc(ls[1..], l);
    }
  }

  /** `encode_dns_name`: one pass over the dot-separated parts */
  method EncodeDnsName(name: bytes) returns (out: bytes)
    ensures out == EncodeName(name)
  {
    out := [];
    var parts := Split(name);
    for i := 0 to |parts|
      invariant out == LabelBytes(NonEmpty(parts[..i]))
    {
      assert parts[..i + 1] == parts[..i] + [parts[i]];
      NonEmptySnoc(parts[..i], parts[i]);
      if parts[i] != [] {
        LabelBytesSnoc(NonEmpty(parts[..i]), parts[i]);
        var len := if |parts[i]| < MAX_LABEL then |parts[i]| else MAX_LABEL;
        assert parts[i][..len] == Take63(parts[i]);
        out := out + [len] + parts[i][..len];
      } else {
        assert NonEmpty(parts[..i]) + [] == NonEmpty(parts[..i]);
      }
    }
    assert parts[..|parts|] == parts;
    out := out + [0];
  }

  lemma {:induction false} NonEmptySnoc(parts: seq<NameLabel>, p: NameLabel)
    ensures NonEmpty(parts + [p]) == NonEmpty(parts) + (if p == [] then [] else [p])
  {
    if parts != [] {
      assert (parts + [p])[1..] == parts[1..] + [p];
      NonEmptySnoc(parts[1..], p);
    }
  }

  // ---------- Reading ----------

  /** What the reader does at one position of the packet */
  datatype Move = End | Label(next: nat) | Pointer(target: nat) | Malformed

  function MoveAt(buf: bytes, p: nat): (m: Move)
    ensures m.Label? ==> p + 1 < m.next <= |buf| && m.next <= p + 64
    ensures m.Pointer? ==> p + 2 <= |buf| && m.target < |buf|
    ensures m.End? ==> p < |buf|
  {
    if p >= |buf| then Malformed
    else if buf[p] == 0 then End
    else if buf[p] >= 0xC0 then
      if p + 1 >= |buf| then Malformed
      else
        var target := (buf[p] as int - 0xC0) * 0x100 + buf[p + 1] as int;
        if target >= |buf| then Malformed else Pointer(target)
    else if buf[p] >= 0x40 then Malformed
    else if p + 1 + buf[p] as int > |buf| then Malformed
    else Label(p + 1 + buf[p])
  }

  /**
   * The labels that the text at `p` stands for when pointers are followed, inspecting at most
   * `fuel` positions. This is the meaning of a compressed name; it keeps no list of visits.
   */
  function Meaning(buf: bytes, p: nat, fuel: nat): (r: Option<seq<NameLabel>>)
    ensures r.Some? ==> |r.value| < fuel
    ensures r.Some? ==> forall l :: l in r.value ==> 0 < |l| <= MAX_LABEL
    decreases fuel, |buf|
  {
    if fuel == 0 then None
    else
      match MoveAt(buf, p)
      case Malformed => None
      case End => Some([])
      case Pointer(t) => Meaning(buf, t, fuel - 1)
      case Label(n) =>
        match Meaning(buf, n, fuel - 1)
        case None => None
        case Some(ls) => Some([buf[p + 1..n]] + ls)
  }

  /** Where the name written at `p` stops: after its terminator or its first pointer */
  function EndOf(buf: bytes, p: nat): (e: nat)
    ensures e == p || p < e <= |buf|
    decreases |buf| - p
  {
    match MoveAt(buf, p)
    case End => p + 1
    case Pointer(_) => p + 2
    case Malformed => p
    case Label(n) => EndOf(buf, n)
  }

  function Reread1(ls: seq<NameLabel>): (r: seq<NameLabel>)
    ensures |r| == |ls|
    ensures forall i :: 0 <= i < |ls| ==> r[i] == Utf8.Lossy(ls[i])
  {
    seq(|ls|, i requires 0 <= i < |ls| => Utf8.Lossy(ls[i]))
  }

  /** The name at `p` as text, with the offset that follows it */
  function NameAt(buf: bytes, p: nat): Option<(bytes, nat)> {
    AsText(Meaning(buf, p, MAX_VISITS), EndOf(buf, p))
  }

  function AsText(labels: Option<seq<NameLabel>>, end: nat): Option<(bytes, nat)> {
    if labels.None? then None else Some((Join(Reread1(labels.value)), end))
  }

  /** A name that is read lies inside the packet and takes at least one octet. */
  lemma NameAtBounds(buf: bytes, p: nat)
    requires NameAt(buf, p).Some?
    ensures p < NameAt(buf, p).value.1 <= |buf|
  {
    MeaningMoves(buf, p, MAX_VISITS);
  }

  lemma {:induction false} MeaningMoves(buf: bytes, p: nat, fuel: nat)
    requires Meaning(buf, p, fuel).Some?
    ensures p < EndOf(buf, p) <= |buf|
    decreases fuel
  {
    if MoveAt(buf, p).Label? {
      MeaningMoves(buf, MoveAt(buf, p).next, fuel - 1);
    }
  }

  // ---------- Termination of pointer chasing ----------

  function Successor(buf: bytes, p: nat): Option<nat> {
    match MoveAt(buf, p)
    case Label(n) => Some(n)
    case Pointer(t) => Some(t)
    case _ => None
  }

  /** `trail` lists positions in the order the reader inspects them */
  ghost predicate IsTrail(buf: bytes, trail: seq<nat>) {
    forall i :: 0 <= i < |trail| - 1 ==> Successor(buf, trail[i]) == Some(trail[i + 1])
  }

  lemma {:induction false} MeaningAlongTrail(buf: bytes, trail: seq<nat>, fuel: nat)
    requires IsTrail(buf, trail) && |trail| > 0
    ensures fuel < |trail| ==> Meaning(buf, trail[0], fuel).None?
    ensures fuel >= |trail| ==>
      (Meaning(buf, trail[0], fuel).Some? <==> Meaning(buf, trail[|trail| - 1], fuel - |trail| + 1).Some?)
    decreases |trail|
  {
    if |trail| > 1 {
      assert Successor(buf, trail[0]) == Some(trail[0 + 1]);
      if fuel > 0 {
        MeaningAlongTrail(buf, trail[1..], fuel - 1);
      }
    }
  }

  /** A name that leads back to itself has no meaning, however many positions may be inspected. */
  lemma {:induction false} CycleHasNoMeaning(buf: bytes, trail: seq<nat>, fuel: nat)
    requires IsTrail(buf, trail) && |trail| > 1
    requires trail[0] == trail[|trail| - 1]
    ensures Meaning(buf, trail[0], fuel).None?
    decreases fuel
  {
    MeaningAlongTrail(buf, trail, fuel);
    if fuel >= |trail| {
      CycleHasNoMeaning(buf, trail, fuel - |trail| + 1);
    }
  }

  /** A name that has a meaning is read without inspecting any position twice. */
  lemma MeaningfulTrailIsDistinct(buf: bytes, trail: seq<nat>, i: nat, j: nat, fuel: nat)
    requires IsTrail(buf, trail)
    requires i < j < |trail|
    requires Meaning(buf, trail[i], fuel).Some?
    ensures trail[i] != trail[j]
  {
    if trail[i] == trail[j] {
      var loop := trail[i..j + 1];
      forall k | 0 <= k < |loop| - 1
        ensures Successor(buf, loop[k]) == Some(loop[k + 1])
      {
        assert Successor(buf, trail[i + k]) == Some(trail[i + k + 1]);
      }
      CycleHasNoMeaning(buf, loop, fuel);
    }
  }

  ghost function Prepend(ls: seq<NameLabel>, r: Option<seq<NameLabel>>): Option<seq<NameLabel>> {
    if r.None? then None else Some(ls + r.value)
  }

  /**
   * The reader's loop state: it has inspected `visited`, is about to look at `curr`, and has collected
   * `labels`, which are the lossy conversions of `raw`; `next` is set once a pointer was followed.
   */
  ghost predicate Reading(buf: bytes, offset: nat, visited: seq<nat>, curr: nat,
                          raw: seq<NameLabel>, labels: seq<NameLabel>, next: Option<nat>) {
    && |visited| <= MAX_VISITS
    && IsTrail(buf, visited + [curr])
    && Meaning(buf, offset, MAX_VISITS) == Prepend(raw, Meaning(buf, curr, MAX_VISITS - |visited|))
    && labels == Reread1(raw)
    && EndOf(buf, offset) == if next.Some? then next.value else EndOf(buf, curr)
  }

  lemma ReadingStarts(buf: bytes, offset: nat)
    ensures Reading(buf, offset, [], offset, [], [], None)
  {
    var m := Meaning(buf, offset, MAX_VISITS);
    assert m.Some? ==> [] + m.value == m.value;
  }

  lemma ReadingPointer(buf: bytes, offset: nat, visited: seq<nat>, curr: nat,
                       raw: seq<NameLabel>, labels: seq<NameLabel>, next: Option<nat>)
    requires Reading(buf, offset, visited, curr, raw, labels, next) && |visited| < MAX_VISITS
    requires MoveAt(buf, curr).Pointer?
    ensures Reading(buf, offset, visited + [curr], MoveAt(buf, curr).target, raw, labels,
                    if next.Some? then next else Some(curr + 2))
  {
    hide MoveAt, IsTrail;
    TrailGrows(buf, visited, curr, MoveAt(buf, curr).target);
  }

  lemma ReadingLabel(buf: bytes, offset: nat, visited: seq<nat>, curr: nat,
                     raw: seq<NameLabel>, labels: seq<NameLabel>, next: Option<nat>)
    requires Reading(buf, offset, visited, curr, raw, labels, next) && |visited| < MAX_VISITS
    requires MoveAt(buf, curr).Label?
    ensures var q := MoveAt(buf, curr).next;
            var l := buf[curr + 1..q];
            Reading(buf, offset, visited + [curr], q, raw + [l], labels + [Utf8.Lossy(l)], next)
  {
    hide MoveAt, Utf8.Lossy, IsTrail;
    var q := MoveAt(buf, curr).next;
    var l := buf[curr + 1..q];
    TrailGrows(buf, visited, curr, q);
    var m := Meaning(buf, q, MAX_VISITS - |visited| - 1);
    if m.Some? {
      Associative(raw, [l], m.value);
    }
    assert Reread1(raw + [l]) == Reread1(raw) + [Utf8.Lossy(l)];
  }

  lemma TrailGrows(buf: bytes, visited: seq<nat>, curr: nat, next: nat)
    requires IsTrail(buf, visited + [curr]) && Successor(buf, curr) == Some(next)
    ensures IsTrail(buf, visited + [curr] + [next])
  {
    hide Successor;
    var before, after := visited + [curr], visited + [curr] + [next];
    forall i | 0 <= i < |after| - 1 ensures Successor(buf, after[i]) == Some(after[i + 1]) {
      assert after[i] == before[i];
      if i < |visited| {
        assert after[i + 1] == before[i + 1];
      }
    }
  }

  /** The reader stops: at the terminator the collected labels are the name, otherwise there is none. */
  lemma ReadingStops(buf: bytes, offset: nat, visited: seq<nat>, curr: nat,
                     raw: seq<NameLabel>, labels: seq<NameLabel>, next: Option<nat>)
    requires Reading(buf, offset, visited, curr, raw, labels, next)
    ensures MoveAt(buf, curr).Malformed? || |visited| == MAX_VISITS || curr in visited ==>
              NameAt(buf, offset).None?
    ensures MoveAt(buf, curr).End? && |visited| < MAX_VISITS ==>
              NameAt(buf, offset) == Some((Join(labels), if next.Some? then next.value else curr + 1))
  {
    assert raw + [] == raw;
    if curr in visited {
      RevisitHasNoMeaning(buf, visited, curr, MAX_VISITS - |visited|);
    }
  }

  lemma RevisitHasNoMeaning(buf: bytes, visited: seq<nat>, curr: nat, fuel: nat)
    requires IsTrail(buf, visited + [curr])
    requires curr in visited
    ensures Meaning(buf, curr, fuel).None?
  {
    var i :| 0 <= i < |visited| && visited[i] == curr;
    if Meaning(buf, curr, fuel).Some? {
      MeaningfulTrailIsDistinct(buf, visited + [curr], i, |visited|, fuel);
    }
  }

  /**
   * `decode_dns_name_checked`. The loop keeps the list of visited positions and refuses a repeated
   * one; the contract says that the refusal loses nothing: the result is the meaning of the name.
   */
  method DecodeDnsNameChecked(buf: bytes, offset: nat) returns (r: Option<(bytes, nat)>)
    ensures r == NameAt(buf, offset)
  {
    var labels: seq<NameLabel> := [];
    ghost var raw: seq<NameLabel> := [];
    var curr: nat := offset;
    var jumped := false;
    var nextOffset: Option<nat> := None;
    var visited: seq<nat> := [];
    ReadingStarts(buf, offset);
    while true
      invariant Reading(buf, offset, visited, curr, raw, labels, nextOffset)
      invariant jumped == nextOffset.Some?
      decreases MAX_VISITS - |visited|
    {
      ReadingStops(buf, offset, visited, curr, raw, labels, nextOffset);
      if |visited| >= MAX_VISITS || curr in visited {
        return None;
      }
      match MoveAt(buf, curr) {
        case Malformed =>
          return None;
        case End =>
          if !jumped {
            nextOffset := Some(curr + 1);
          }
          break;
        case Pointer(target) =>
          ReadingPointer(buf, offset, visited, curr, raw, labels, nextOffset);
          visited := visited + [curr];
          if !jumped {
            nextOffset := Some(curr + 2);
          }
          jumped := true;
          curr := target;
        case Label(next) =>
          ReadingLabel(buf, offset, visited, curr, raw, labels, nextOffset);
          visited := visited + [curr];
          raw := raw + [buf[curr + 1..next]];
          labels := labels + [Utf8.Lossy(buf[curr + 1..next])];
          curr := next;
      }
    }
    r := Some((Join(labels), if nextOffset.Some? then nextOffset.value else curr));
  }

  // ---------- Printing and reading back ----------

  ghost function RereadAll(ls: seq<NameLabel>): (r: seq<NameLabel>)
    ensures |r| == |ls|
    ensures forall i :: 0 <= i < |ls| ==> r[i] == Reread(ls[i])
  {
    seq(|ls|, i requires 0 <= i < |ls| => Reread(ls[i]))
  }

  ghost function Take63All(ls: seq<NameLabel>): (r: seq<NameLabel>)
    ensures |r| == |ls|
    ensures forall i {:trigger r[i]} :: 0 <= i < |ls| ==> r[i] == Take63(ls[i])
  {
    seq(|ls|, i requires 0 <= i < |ls| => Take63(ls[i]))
  }

  /** Octets `at..` of `buf` are `b`. */
  ghost predicate Holds(buf: bytes, at: nat, b: bytes) {
    at + |b| <= |buf| && buf[at..at + |b|] == b
  }

  /** Printed labels, wherever they stand in a packet, mean themselves cut at 63 octets. */
  lemma {:induction false} MeaningOfEncoded(buf: bytes, at: nat, ls: seq<NameLabel>, fuel: nat)
    requires Holds(buf, at, EncodeLabels(ls))
    requires forall l :: l in ls ==> l != []
    ensures Meaning(buf, at, fuel) == if |ls| < fuel then Some(Take63All(ls)) else None
    ensures EndOf(buf, at) == at + |EncodeLabels(ls)|
    decreases |ls|
  {
    hide Take63, Take63All, MoveAt, EncodeLabels, Holds, Meaning, EndOf;
    if ls == [] {
      RootStands(buf, at, fuel);
    } else {
      var n := at + 1 + |Take63(ls[0])|;
      assert ls[0] != [] && forall l :: l in ls[1..] ==> l != [] by { TailIsPart(ls); }
      LabelStandsFirst(buf, at, ls);
      LabelMeans(buf, at, n, fuel);
      MeaningOfEncoded(buf, n, ls[1..], if fuel == 0 then 0 else fuel - 1);
      Take63First(ls);
    }
  }

  lemma Take63First(ls: seq<NameLabel>)
    requires ls != []
    ensures Take63All(ls) == [Take63(ls[0])] + Take63All(ls[1..])
  {
    hide Take63;
  }

  lemma RootStands(buf: bytes, at: nat, fuel: nat)
    requires Holds(buf, at, EncodeLabels([]))
    ensures Meaning(buf, at, fuel) == if 0 < fuel then Some([]) else None
    ensures EndOf(buf, at) == at + 1 == at + |EncodeLabels([])|
  {
    assert buf[at] == buf[at..at + 1][0];
  }

  lemma LabelMeans(buf: bytes, at: nat, n: nat, fuel: nat)
    requires MoveAt(buf, at) == Label(n)
    ensures Meaning(buf, at, fuel) ==
            if fuel == 0 then None else Prepend([buf[at + 1..n]], Meaning(buf, n, fuel - 1))
    ensures EndOf(buf, at) == EndOf(buf, n)
  {
    hide MoveAt;
  }

  /** The parts of what a packet holds stand in the packet, too. */
  lemma HoldsParts(buf: bytes, at: nat, a: bytes, b: bytes)
    requires Holds(buf, at, a + b)
    ensures Holds(buf, at, a) && Holds(buf, at + |a|, b)
  {
    var all := a + b;
    assert all[0..|a|] == a && all[|a|..|all|] == b;
    SliceOfSlice(buf, at, at + |all|, 0, |a|);
    SliceOfSlice(buf, at, at + |all|, |a|, |all|);
  }

  lemma LabelStandsFirst(buf: bytes, at: nat, ls: seq<NameLabel>)
    requires ls != [] && ls[0] != []
    requires Holds(buf, at, EncodeLabels(ls))
    ensures var n := at + 1 + |Take63(ls[0])|;
            && MoveAt(buf, at) == Label(n)
            && buf[at + 1..n] == Take63(ls[0])
            && Holds(buf, n, EncodeLabels(ls[1..]))
            && |EncodeLabels(ls)| == 1 + |Take63(ls[0])| + |EncodeLabels(ls[1..])|
  {
    hide EncodeLabels, Take63, MoveAt, Holds;
    var l := Take63(ls[0]);
    FirstLabel(ls);
    HoldsParts(buf, at, [|l|] + l, EncodeLabels(ls[1..]));
    HoldsParts(buf, at, [|l|], l);
    LabelMove(buf, at, l);
  }

  lemma LabelMove(buf: bytes, at: nat, l: NameLabel)
    requires 0 < |l| <= MAX_LABEL && Holds(buf, at, [|l|]) && Holds(buf, at + 1, l)
    ensures MoveAt(buf, at) == Label(at + 1 + |l|) && buf[at + 1..at + 1 + |l|] == l
  {
    assert buf[at] == buf[at..at + 1][0];
  }

  lemma FirstLabel(ls: seq<NameLabel>)
    requires ls != []
    ensures EncodeLabels(ls) == [|Take63(ls[0])|] + Take63(ls[0]) + EncodeLabels(ls[1..])
  {
    hide Take63;
    var l := Take63(ls[0]);
    Associative([|l|] + l, LabelBytes(ls[1..]), [0]);
  }

  /** What a printed name reads as, in any packet that holds it */
  lemma NameAtEncoded(buf: bytes, at: nat, name: bytes)
    requires Holds(buf, at, EncodeName(name))
    ensures NameAt(buf, at) ==
            var parts := NonEmpty(Split(name));
            if |parts| < MAX_VISITS then Some((Join(RereadAll(parts)), at + |EncodeName(name)|)) else None
  {
    hide Meaning, EndOf, Split, NonEmpty, EncodeLabels, Holds, Utf8.Lossy, Take63, Join;
    var parts := NonEmpty(Split(name));
    MeaningOfEncoded(buf, at, parts, MAX_VISITS);
    assert RereadAll(parts) == Reread1(Take63All(parts));
  }

  lemma {:induction false} JoinOfSplit(s: bytes)
    ensures Join(Split(s)) == s
  {
    hide DotAt;
    var i := DotAt(s);
    if i < |s| {
      var head, rest := s[..i], s[i + 1..];
      JoinOfSplit(rest);
      var parts := Split(s);
      assert parts == [head] + Split(rest);
      assert parts[0] == head && parts[1..] == Split(rest);
      assert s == head + [DOT] + rest;
    }
  }

  lemma {:induction false} DotAtOf(p: NameLabel, t: bytes)
    requires DOT !in p
    ensures DotAt(p) == |p|
    ensures DotAt(p + [DOT] + t) == |p|
  {
    if p != [] {
      DotAtOf(p[1..], t);
      assert (p + [DOT] + t)[1..] == p[1..] + [DOT] + t;
    }
  }

  lemma SplitOfCons(p: NameLabel, t: bytes)
    requires DOT !in p
    ensures Split(p + [DOT] + t) == [p] + Split(t)
  {
    DotAtOf(p, t);
    var s := p + [DOT] + t;
    assert s[..|p|] == p;
    assert s[|p| + 1..] == t;
  }

  lemma {:induction false} SplitOfJoin(parts: seq<NameLabel>)
    requires |parts| > 0
    requires forall p :: p in parts ==> DOT !in p
    ensures Split(Join(parts)) == parts
  {
    if |parts| == 1 {
      DotAtOf(parts[0], []);
    } else {
      SplitOfJoin(parts[1..]);
      SplitOfCons(parts[0], Join(parts[1..]));
    }
  }

  lemma {:induction false} NonEmptyOfFull(parts: seq<NameLabel>)
    requires |NonEmpty(parts)| == |parts| || forall p :: p in parts ==> p != []
    ensures NonEmpty(parts) == parts
    ensures forall p :: p in parts ==> p != []
  {
    if parts != [] {
      assert parts[0] in parts && forall p :: p in parts[1..] ==> p in parts;
      NonEmptyOfFull(parts[1..]);
      assert parts == [parts[0]] + parts[1..];
    }
  }

  /**
   * Names that survive printing: the root, or at most 127 parts, none empty, each either at most 63
   * octets long, or of 64 or 65 octets with a replacement character at its end.
   */
  predicate Survives(name: bytes) {
    || name == []
    || (&& |Split(name)| <= 127
        && forall p :: p in Split(name) ==> p != [] && (|p| <= 63 || Restored(p)))
  }

  /** A label that is cut inside its final replacement character, which the lossy conversion puts back */
  predicate Restored(p: NameLabel) {
    63 < |p| <= 65 && p[|p| - 3..] == Utf8.REPLACEMENT
  }

  /** A well-formed label that is too long reads as itself exactly when the cut goes through that character. */
  lemma LongRereads(p: NameLabel)
    requires Utf8.Valid(p) && |p| > MAX_LABEL
    ensures Reread(p) == p <==> Restored(p)
  {
    hide Utf8.Valid, Utf8.Lossy, Utf8.Boundary, Utf8.CharLen;
    Utf8.LossyOfCut(p, MAX_LABEL);
    if Restored(p) {
      var i := |p| - 3;
      assert p[i..] == Utf8.REPLACEMENT && p[i] == Utf8.REPLACEMENT[0];
      Utf8.BoundaryBefore(p, i, MAX_LABEL);
      Utf8.BoundaryInReplacement(MAX_LABEL - i);
      assert p == p[..i] + p[i..];
    }
  }

  lemma {:induction false} SplitOfValid(name: bytes)
    requires Utf8.Valid(name)
    ensures forall p :: p in Split(name) ==> Utf8.Valid(p)
  {
    var i := DotAt(name);
    if i < |name| {
      Utf8.ValidAround(name, i);
      SplitOfValid(name[i + 1..]);
    }
  }

  /** For text, surviving means that every part is present and reads as itself. */
  lemma SurvivesMeansRereads(name: bytes)
    requires Utf8.Valid(name) && name != []
    ensures Survives(name) <==>
            |Split(name)| < MAX_VISITS && NonEmpty(Split(name)) == Split(name) && RereadAll(Split(name)) == Split(name)
  {
    hide Split, NonEmpty, Reread, Utf8.Valid, Restored;
    var parts := Split(name);
    SplitOfValid(name);
    forall p | p in parts ensures Reread(p) == p <==> |p| <= MAX_LABEL || Restored(p) {
      if |p| <= MAX_LABEL {
        ShortRereads(p);
      } else {
        LongRereads(p);
      }
    }
    AllReread(parts);
    if NonEmpty(parts) == parts || Survives(name) {
      NonEmptyOfFull(parts);
    }
  }

  lemma ShortRereads(p: NameLabel)
    requires |p| <= MAX_LABEL && Utf8.Valid(p)
    ensures Reread(p) == p
  {
    Utf8.LossyOfValid(p);
  }

  lemma AllReread(parts: seq<NameLabel>)
    ensures RereadAll(parts) == parts <==> forall p :: p in parts ==> Reread(p) == p
  {
    hide Reread;
    if RereadAll(parts) == parts {
      forall p | p in parts ensures Reread(p) == p {
        var i :| 0 <= i < |parts| && parts[i] == p;
        assert RereadAll(parts)[i] == Reread(p);
      }
    }
  }

  /**
   * Print/read inversion for names, exactly: reading back a printed name returns that name, and the
   * offset just past it, if and only if the name survives.
   */
  lemma NameRoundTrip(buf: bytes, at: nat, name: bytes)
    requires Utf8.Valid(name)
    requires Holds(buf, at, EncodeName(name))
    ensures NameAt(buf, at) == Some((name, at + |EncodeName(name)|)) <==> Survives(name)
  {
    NameAtEncoded(buf, at, name);
    var parts := NonEmpty(Split(name));
    if name == [] {
      assert Split(name) == [[]];
    } else {
      SurvivesMeansRereads(name);
      JoinOfSplit(name);
      if Join(RereadAll(parts)) == name {
        RereadIsDotFree(parts);
        if parts != [] {
          SplitOfJoin(RereadAll(parts));
          NonEmptyOfFull(Split(name));
        }
      }
    }
  }

  /** A doubled dot is not printed, so such a name does not come back. */
  lemma DoubledDotIsLost()
    ensures var name: bytes := [0x61, DOT, DOT, 0x62]; Utf8.Valid(name) && !Survives(name)
  {
    hide Split;
    var name: bytes := [0x61, DOT, DOT, 0x62];
    SplitOfCons([0x61], [DOT, 0x62]);
    SplitOfCons([], [0x62]);
    assert name == [0x61] + [DOT] + [DOT, 0x62];
    assert [DOT, 0x62] == [] + [DOT] + [0x62];
    assert Split(name)[1] == [];
    assert [] in Split(name);
    Utf8.AsciiIsValid(name);
  }

  lemma RereadIsDotFree(parts: seq<NameLabel>)
    requires forall p :: p in parts ==> DOT !in p
    ensures forall p :: p in RereadAll(parts) ==> DOT !in p
  {
    forall i | 0 <= i < |parts| ensures DOT !in RereadAll(parts)[i] {
      assert parts[i] in parts;
      Utf8.LossyKeepsAbsence(Take63(parts[i]), DOT);
    }
  }

  lemma {:induction false} JoinOfValid(parts: seq<NameLabel>)
    requires forall p :: p in parts ==> Utf8.Valid(p)
    ensures Utf8.Valid(Join(parts))
  {
    hide Utf8.Valid, Utf8.CharLen, Utf8.Lossy;
    if |parts| == 0 {
      Utf8.NothingIsValid();
    } else {
      TailIsPart(parts);
      if |parts| > 1 {
        var rest := Join(parts[1..]);
        JoinOfValid(parts[1..]);
        Utf8.AsciiFirst([DOT]);
        Utf8.ValidPrepend([DOT], rest);
        Utf8.ValidConcat(parts[0], [DOT] + rest);
        Associative(parts[0], [DOT], rest);
      }
    }
  }

  /** A name read from a packet is text. */
  lemma NameAtIsText(buf: bytes, p: nat)
    requires NameAt(buf, p).Some?
    ensures Utf8.Valid(NameAt(buf, p).value.0)
  {
    var ls := Meaning(buf, p, MAX_VISITS).value;
    forall i | 0 <= i < |ls| ensures Utf8.Valid(Reread1(ls)[i]) {
      Utf8.LossyIsValid(ls[i]);
    }
    JoinOfValid(Reread1(ls));
  }

  /** A name whose labels are dot-free well-formed text survives, whatever pointers it was written with. */
  lemma PlainNameSurvives(buf: bytes, p: nat)
    requires Meaning(buf, p, MAX_VISITS).Some?
    requires forall l :: l in Meaning(buf, p, MAX_VISITS).value ==> DOT !in l && Utf8.Valid(l)
    ensures NameAt(buf, p).value.0 == Join(Meaning(buf, p, MAX_VISITS).value)
    ensures Survives(NameAt(buf, p).value.0)
  {
    var ls := Meaning(buf, p, MAX_VISITS).value;
    forall i | 0 <= i < |ls| ensures Reread1(ls)[i] == ls[i] {
      assert ls[i] in ls;
      Utf8.LossyOfValid(ls[i]);
    }
    assert Reread1(ls) == ls;
    if ls != [] {
      SplitOfJoin(ls);
    }
  }

  // ---------- Compressed names ----------

  const POINTER_MARK := 0xC000

  /** Labels followed by a pointer to position `t` (section 4.1.4 of RFC 1035) */
  function Compressed(ls: seq<NameLabel>, t: nat): bytes
    requires t < 0x4000
  {
    LabelBytes(ls) + PutU16(POINTER_MARK + t)
  }

  lemma PointerMoves(buf: bytes, p: nat, t: nat, fuel: nat)
    requires t < 0x4000 && t < |buf| && Holds(buf, p, PutU16(POINTER_MARK + t))
    ensures Meaning(buf, p, fuel) == if fuel == 0 then None else Meaning(buf, t, fuel - 1)
    ensures EndOf(buf, p) == p + 2
  {
    assert buf[p] == buf[p..p + 2][0] && buf[p + 1] == buf[p..p + 2][1];
    assert MoveAt(buf, p) == Pointer(t);
  }

  lemma CompressedFirst(ls: seq<NameLabel>, t: nat)
    requires ls != [] && t < 0x4000
    ensures Compressed(ls, t) == [|Take63(ls[0])|] + Take63(ls[0]) + Compressed(ls[1..], t)
  {
    hide Take63, PutU16;
    var l := Take63(ls[0]);
    Associative([|l|] + l, LabelBytes(ls[1..]), PutU16(POINTER_MARK + t));
  }

  lemma {:induction false} MeaningOfCompressed(buf: bytes, p: nat, ls: seq<NameLabel>, t: nat, parts: seq<NameLabel>, fuel: nat)
    requires t < 0x4000 && Holds(buf, p, Compressed(ls, t)) && Holds(buf, t, EncodeLabels(parts))
    requires forall l :: l in ls + parts ==> l != []
    ensures Meaning(buf, p, fuel) ==
            if |ls| + 1 + |parts| < fuel then Some(Take63All(ls) + Take63All(parts)) else None
    ensures EndOf(buf, p) == p + |Compressed(ls, t)|
    decreases |ls|
  {
    hide Take63, Take63All, MoveAt, EncodeLabels, Holds, Meaning, EndOf, Compressed;
    if ls == [] {
      BarePointer(buf, p, t, parts);
      PointerMoves(buf, p, t, fuel);
      assert forall l :: l in parts ==> l in ls + parts;
      if fuel > 0 {
        MeaningOfEncoded(buf, t, parts, fuel - 1);
      }
      assert Take63All([]) == [];
      assert Take63All(ls) + Take63All(parts) == Take63All(parts);
    } else {
      var l, rest := Take63(ls[0]), ls[1..];
      var n := p + 1 + |l|;
      assert ls[0] in ls + parts && forall x :: x in rest + parts ==> x in ls + parts;
      CompressedFirst(ls, t);
      HoldsParts(buf, p, [|l|] + l, Compressed(rest, t));
      HoldsParts(buf, p, [|l|], l);
      LabelMove(buf, p, l);
      LabelMeans(buf, p, n, fuel);
      MeaningOfCompressed(buf, n, rest, t, parts, if fuel == 0 then 0 else fuel - 1);
      Take63First(ls);
      Associative([l], Take63All(rest), Take63All(parts));
    }
  }

  lemma BarePointer(buf: bytes, p: nat, t: nat, parts: seq<NameLabel>)
    requires t < 0x4000 && Holds(buf, p, Compressed([], t)) && Holds(buf, t, EncodeLabels(parts))
    ensures Compressed([], t) == PutU16(POINTER_MARK + t) && t < |buf|
  {
  }

  /** The labels `ls` in front of `name` */
  function Prefixed(ls: seq<NameLabel>, name: bytes): bytes {
    if name == [] then Join(ls) else if ls == [] then name else Join(ls) + [DOT] + name
  }

  lemma {:induction false} JoinConcat(a: seq<NameLabel>, b: seq<NameLabel>)
    requires a != [] && b != []
    ensures Join(a + b) == Join(a) + [DOT] + Join(b)
  {
    assert (a + b)[1..] == a[1..] + b;
    if |a| == 1 {
      assert a[1..] + b == b;
    } else {
      JoinConcat(a[1..], b);
      Associative(a[0] + [DOT], Join(a[1..]) + [DOT], Join(b));
      Associative(a[0] + [DOT], Join(a[1..]), [DOT]);
    }
  }

  lemma PrefixedIsJoin(ls: seq<NameLabel>, name: bytes)
    requires name == [] || NonEmpty(Split(name)) == Split(name)
    ensures Join(ls + NonEmpty(Split(name))) == Prefixed(ls, name)
  {
    hide Join, Split;
    var parts := NonEmpty(Split(name));
    if name == [] {
      assert parts == [] by { NoParts(); }
      assert ls + parts == ls;
    } else {
      JoinOfSplit(name);
      if ls == [] {
        assert ls + parts == parts;
      } else {
        JoinConcat(ls, parts);
      }
    }
  }

  lemma NoParts()
    ensures NonEmpty(Split([])) == []
  {
    var parts := Split([]);
    assert parts == [[]] && parts[1..] == [];
  }

  /** A label that prints and reads as itself: not empty, at most 63 octets of text */
  predicate ShortLabel(l: NameLabel) {
    0 < |l| <= MAX_LABEL && Utf8.Valid(l)
  }

  /**
   * Reading a compressed name: labels and a pointer to a name that was printed elsewhere in the packet read as
   * the labels in front of that name, and the reader goes on right after the pointer. The reader follows at
   * most 128 positions, so it finds nothing if labels, pointer and parts are more than that.
   */
  lemma CompressedRoundTrip(buf: bytes, p: nat, ls: seq<NameLabel>, t: nat, name: bytes)
    requires t < 0x4000 && Utf8.Valid(name) && Survives(name)
    requires forall l :: l in ls ==> ShortLabel(l)
    requires Holds(buf, t, EncodeName(name)) && Holds(buf, p, Compressed(ls, t))
    ensures var parts := if name == [] then 0 else |Split(name)|;
            NameAt(buf, p) ==
            if |ls| + 1 + parts <= 127 then Some((Prefixed(ls, name), p + |Compressed(ls, t)|)) else None
  {
    hide Meaning, EndOf, Split, Holds, EncodeLabels, Compressed, Utf8.Valid, Utf8.Lossy, Join, Reread, Prefixed, Survives,
         NonEmpty, Take63All, Reread1, RereadAll, ShortLabel;
    var parts := NonEmpty(Split(name));
    SurvivingParts(name);
    NoneEmpty(ls, parts);
    MeaningOfCompressed(buf, p, ls, t, parts, MAX_VISITS);
    BothReread(ls, parts);
    PrefixedIsJoin(ls, name);
  }

  lemma NoneEmpty(ls: seq<NameLabel>, parts: seq<NameLabel>)
    requires (forall l :: l in ls ==> ShortLabel(l)) && forall l :: l in parts ==> l != []
    ensures forall l :: l in ls + parts ==> l != []
  {
    hide Utf8.Valid;
  }

  lemma BothReread(ls: seq<NameLabel>, parts: seq<NameLabel>)
    requires (forall l :: l in ls ==> ShortLabel(l)) && RereadAll(parts) == parts
    ensures Reread1(Take63All(ls) + Take63All(parts)) == ls + parts
  {
    hide Take63All, Reread1, RereadAll, ShortLabel;
    RereadShort(ls);
    Reread1Concat(Take63All(ls), Take63All(parts));
    RereadIsBoth(parts);
  }

  lemma SurvivingParts(name: bytes)
    requires Utf8.Valid(name) && Survives(name)
    ensures var parts := NonEmpty(Split(name));
            && |parts| == (if name == [] then 0 else |Split(name)|)
            && (name == [] || parts == Split(name)) && RereadAll(parts) == parts
            && forall l :: l in parts ==> l != []
  {
    hide Split, NonEmpty, Reread, Utf8.Valid;
    if name == [] {
      NoParts();
      assert RereadAll([]) == [];
    } else {
      SurvivesMeansRereads(name);
    }
  }

  lemma RereadIsBoth(parts: seq<NameLabel>)
    ensures Reread1(Take63All(parts)) == RereadAll(parts)
  {
  }

  lemma RereadShort(ls: seq<NameLabel>)
    requires forall l :: l in ls ==> ShortLabel(l)
    ensures Reread1(Take63All(ls)) == ls
  {
    forall i | 0 <= i < |ls| ensures Reread1(Take63All(ls))[i] == ls[i] {
      assert ls[i] in ls;
      Utf8.LossyOfValid(ls[i]);
    }
  }

  lemma Reread1Concat(a: seq<NameLabel>, b: seq<NameLabel>)
    ensures Reread1(a + b) == Reread1(a) + Reread1(b)
  {
    hide Utf8.Lossy;
  }
}
