/**
 * UTF-8 well-formedness (Table 3-7 of the Unicode Standard) and the lossy conversion that Rust's
 * `String::from_utf8_lossy` performs: every maximal ill-formed subpart becomes U+FFFD.
 */
module Utf8 {
  import opened Bytes

  const REPLACEMENT: bytes := [0xEF, 0xBF, 0xBD]

  predicate IsContinuation(b: byte) {
    0x80 <= b <= 0xBF
  }

  /** The first two octets of a three-octet character */
  predicate IsLead3(b0: byte, b1: byte) {
    || (b0 == 0xE0 && 0xA0 <= b1 <= 0xBF)
    || (0xE1 <= b0 <= 0xEC && IsContinuation(b1))
    || (b0 == 0xED && 0x80 <= b1 <= 0x9F)
    || (0xEE <= b0 <= 0xEF && IsContinuation(b1))
  }

  /** The first two octets of a four-octet character */
  predicate IsLead4(b0: byte, b1: byte) {
    || (b0 == 0xF0 && 0x90 <= b1 <= 0xBF)
    || (0xF1 <= b0 <= 0xF3 && IsContinuation(b1))
    || (b0 == 0xF4 && 0x80 <= b1 <= 0x8F)
  }

  /** Length of the well-formed character at the front of `s`, 0 if there is none */
  function CharLen(s: bytes): (n: nat)
    ensures n <= |s| && n <= 4
    ensures forall i :: 0 < i < n ==> IsContinuation(s[i])
  {
    if |s| == 0 then 0
    else if s[0] < 0x80 then 1
    else if |s| >= 2 && 0xC2 <= s[0] <= 0xDF && IsContinuation(s[1]) then 2
    else if |s| >= 3 && IsLead3(s[0], s[1]) && IsContinuation(s[2]) then 3
    else if |s| >= 4 && IsLead4(s[0], s[1]) && IsContinuation(s[2]) && IsContinuation(s[3]) then 4
    else 0
  }

  /** Length of the maximal ill-formed subpart at the front of `s` */
  function SkipLen(s: bytes): (n: nat)
    requires |s| > 0 && CharLen(s) == 0
    ensures 0 < n <= |s|
  {
    if |s| >= 2 && IsLead3(s[0], s[1]) then 2
    else if |s| >= 2 && IsLead4(s[0], s[1]) then
      if |s| >= 3 && IsContinuation(s[2]) then 3 else 2
    else 1
  }

  predicate Valid(s: bytes) {
    s == [] || (CharLen(s) > 0 && Valid(s[CharLen(s)..]))
  }

  /** `String::from_utf8_lossy` */
  function Lossy(s: bytes): (r: bytes)
    ensures s != [] ==> r != []
  {
    if s == [] then []
    else if CharLen(s) > 0 then s[..CharLen(s)] + Lossy(s[CharLen(s)..])
    else REPLACEMENT + Lossy(s[SkipLen(s)..])
  }

  lemma CharLenOfPrefix(s: bytes, t: bytes)
    requires CharLen(s) > 0
    ensures CharLen(s + t) == CharLen(s)
  {
  }

  lemma AsciiFirst(s: bytes)
    requires s != [] && s[0] < 0x80
    ensures CharLen(s) == 1
  {
  }

  lemma NothingIsValid()
    ensures Valid([])
  {
  }

  lemma {:induction false} ValidPrepend(s: bytes, t: bytes)
    requires CharLen(s) == |s| > 0
    requires Valid(t)
    ensures Valid(s + t)
  {
    hide CharLen;
    CharLenOfPrefix(s, t);
    assert (s + t)[|s|..] == t;
  }

  lemma {:induction false} AsciiIsValid(b: bytes)
    requires forall i :: 0 <= i < |b| ==> b[i] < 0x80
    ensures Valid(b)
  {
    if b != [] {
      AsciiFirst(b);
      AsciiIsValid(b[1..]);
    }
  }

  /** The conversion always produces well-formed text. */
  lemma {:induction false} LossyIsValid(s: bytes)
    ensures Valid(Lossy(s))
  {
    if s != [] {
      var n := CharLen(s);
      if n > 0 {
        LossyIsValid(s[n..]);
        CharLenOfTake(s);
        ValidPrepend(s[..n], Lossy(s[n..]));
      } else {
        LossyIsValid(s[SkipLen(s)..]);
        ValidPrepend(REPLACEMENT, Lossy(s[SkipLen(s)..]));
      }
    }
  }

  lemma CharLenOfTake(s: bytes)
    ensures CharLen(s[..CharLen(s)]) == CharLen(s)
  {
  }

  /** On well-formed text the conversion is the identity. */
  lemma {:induction false} LossyOfValid(s: bytes)
    requires Valid(s)
    ensures Lossy(s) == s
  {
    hide CharLen;
    if s != [] {
      LossyOfValid(s[CharLen(s)..]);
      assert s == s[..CharLen(s)] + s[CharLen(s)..];
    }
  }

  lemma {:induction false} ValidConcat(s: bytes, t: bytes)
    requires Valid(s) && Valid(t)
    ensures Valid(s + t)
  {
    hide CharLen;
    if s == [] {
      assert s + t == t;
    } else {
      var n := CharLen(s);
      ValidConcat(s[n..], t);
      CharLenOfPrefix(s, t);
      assert (s + t)[n..] == s[n..] + t;
    }
  }

  /** Cutting well-formed text at an ASCII octet leaves two well-formed pieces. */
  lemma {:induction false} ValidAround(s: bytes, i: nat)
    requires Valid(s)
    requires i < |s| && s[i] < 0x80
    ensures Valid(s[..i]) && Valid(s[i + 1..])
  {
    hide CharLen;
    var n := CharLen(s);
    if i == 0 {
      AsciiFirst(s);
    } else {
      assert n <= i;
      ValidAround(s[n..], i - n);
      assert s[n..][i - n + 1..] == s[i + 1..];
      var head := s[..n];
      CharLenOfTake(s);
      ValidPrepend(head, s[n..][..i - n]);
      assert s[..i] == head + s[n..][..i - n];
    }
  }

  /** The last character boundary of well-formed text at or before `n` */
  function Boundary(s: bytes, n: nat): (j: nat)
    ensures j <= n
  {
    if n == 0 || CharLen(s) == 0 || CharLen(s) > n then 0
    else CharLen(s) + Boundary(s[CharLen(s)..], n - CharLen(s))
  }

  /** Cutting well-formed text keeps its whole characters and leaves one replacement for a character cut through. */
  lemma {:induction false} LossyOfCut(s: bytes, n: nat)
    requires Valid(s) && n <= |s|
    ensures var j := Boundary(s, n); Lossy(s[..n]) == s[..j] + (if j == n then [] else REPLACEMENT)
  {
    hide CharLen;
    var c := CharLen(s);
    if n == 0 || s == [] {
      assert s[..n] == [];
    } else if c > n {
      CutCharacter(s, n);
    } else {
      var cut := s[..n];
      LossyOfCut(s[c..], n - c);
      CharLenOfCut(s, n);
      assert cut[..c] == s[..c] && cut[c..] == s[c..][..n - c];
      var j := Boundary(s[c..], n - c);
      assert s[..c] + s[c..][..j] == s[..c + j];
    }
  }

  lemma CharLenOfCut(s: bytes, n: nat)
    requires CharLen(s) <= n <= |s|
    ensures CharLen(s) > 0 ==> CharLen(s[..n]) == CharLen(s)
  {
  }

  lemma CutCharacter(s: bytes, n: nat)
    requires 0 < n < CharLen(s)
    ensures Lossy(s[..n]) == REPLACEMENT
  {
    var cut := s[..n];
    assert CharLen(cut) == 0 && SkipLen(cut) == n;
    assert cut[n..] == [];
  }

  /** An octet that is no continuation starts a character. */
  lemma {:induction false} BoundaryBefore(s: bytes, i: nat, n: nat)
    requires Valid(s) && i <= n && i < |s| && !IsContinuation(s[i])
    ensures Boundary(s, n) == i + Boundary(s[i..], n - i)
    decreases i
  {
    hide CharLen;
    var c := CharLen(s);
    if i == 0 {
      assert s[0..] == s;
    } else {
      assert c <= i;
      BoundaryBefore(s[c..], i - c, n - c);
      assert s[c..][i - c..] == s[i..];
    }
  }

  lemma BoundaryInReplacement(n: nat)
    requires 0 < n < 3
    ensures Boundary(REPLACEMENT, n) == 0 && !IsContinuation(REPLACEMENT[0])
  {
    assert CharLen(REPLACEMENT) == 3;
  }

  /** The conversion neither removes nor invents a given ASCII octet. */
  lemma {:induction false} LossyKeepsAbsence(s: bytes, c: byte)
    requires c < 0x80 && c !in s
    ensures c !in Lossy(s)
  {
    if s != [] {
      if CharLen(s) > 0 {
        LossyKeepsAbsence(s[CharLen(s)..], c);
      } else {
        LossyKeepsAbsence(s[SkipLen(s)..], c);
      }
    }
  }

  // ---------- Characters as numbers ----------

  /** Unicode scalar values: every code point but the surrogates */
  predicate IsScalar(c: nat) {
    c < 0xD800 || 0xDFFF < c <= 0x10FFFF
  }

  /** The octets of a scalar value (Table 3-6 of the Unicode Standard) */
  function EncodeScalar(c: nat): bytes
    requires IsScalar(c)
  {
    if c < 0x80 then [c]
    else if c < 0x800 then [0xC0 + c / 0x40, 0x80 + c % 0x40]
    else if c < 0x1_0000 then [0xE0 + c / 0x1000, 0x80 + c / 0x40 % 0x40, 0x80 + c % 0x40]
    else [0xF0 + c / 0x4_0000, 0x80 + c / 0x1000 % 0x40, 0x80 + c / 0x40 % 0x40, 0x80 + c % 0x40]
  }

  function DecodeScalar(s: bytes): nat
    requires CharLen(s) > 0
  {
    match CharLen(s)
    case 1 => s[0]
    case 2 => (s[0] as int - 0xC0) * 0x40 + (s[1] as int - 0x80)
    case 3 => (s[0] as int - 0xE0) * 0x1000 + (s[1] as int - 0x80) * 0x40 + (s[2] as int - 0x80)
    case _ => (s[0] as int - 0xF0) * 0x4_0000 + (s[1] as int - 0x80) * 0x1000 + (s[2] as int - 0x80) * 0x40 + (s[3] as int - 0x80)
  }

  /** Every scalar value is one well-formed character. */
  lemma ScalarIsChar(c: nat)
    requires IsScalar(c)
    ensures CharLen(EncodeScalar(c)) == |EncodeScalar(c)|
  {
  }

  lemma SixBits(high: nat, low: nat)
    requires low < 0x40
    ensures (high * 0x40 + low) / 0x40 == high && (high * 0x40 + low) % 0x40 == low
  {
  }

  lemma ThreeDigits(x: nat, y: nat, z: nat)
    requires y < 0x40 && z < 0x40
    ensures var c := x * 0x1000 + y * 0x40 + z; c / 0x1000 == x && c / 0x40 % 0x40 == y && c % 0x40 == z
  {
    SixBits(x * 0x40 + y, z);
    SixBits(x, y);
  }

  lemma FourDigits(x: nat, y: nat, z: nat, u: nat)
    requires y < 0x40 && z < 0x40 && u < 0x40
    ensures var c := x * 0x4_0000 + y * 0x1000 + z * 0x40 + u;
            c / 0x4_0000 == x && c / 0x1000 % 0x40 == y && c / 0x40 % 0x40 == z && c % 0x40 == u
  {
    ThreeDigits(x * 0x40 + y, z, u);
    SixBits(x, y);
  }

  /** And every well-formed character is the shortest form of one scalar value. */
  lemma CharIsScalar(s: bytes)
    requires CharLen(s) > 0
    ensures IsScalar(DecodeScalar(s)) && EncodeScalar(DecodeScalar(s)) == s[..CharLen(s)]
  {
    match CharLen(s)
    case 1 =>
    case 2 => SixBits(s[0] as int - 0xC0, s[1] as int - 0x80);
    case 3 => ThreeOctets(s);
    case _ => FourOctets(s);
  }

  lemma ThreeOctets(s: bytes)
    requires CharLen(s) == 3
    ensures IsScalar(DecodeScalar(s)) && EncodeScalar(DecodeScalar(s)) == s[..3]
  {
    var x, y, z := s[0] as int - 0xE0, s[1] as int - 0x80, s[2] as int - 0x80;
    ThreeDigits(x, y, z);
    var c := DecodeScalar(s);
    assert 0x800 <= c < 0x1_0000;
    assert EncodeScalar(c) == [s[0], s[1], s[2]];
  }

  lemma FourOctets(s: bytes)
    requires CharLen(s) == 4
    ensures IsScalar(DecodeScalar(s)) && EncodeScalar(DecodeScalar(s)) == s[..4]
  {
    var x, y, z, u := s[0] as int - 0xF0, s[1] as int - 0x80, s[2] as int - 0x80, s[3] as int - 0x80;
    FourDigits(x, y, z, u);
    var c := DecodeScalar(s);
    assert 0x1_0000 <= c <= 0x10FFFF;
    assert EncodeScalar(c) == [s[0], s[1], s[2], s[3]];
  }
}
