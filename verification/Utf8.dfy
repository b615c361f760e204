/**
 * UTF-16 strings and their UTF-8 bytes: the branch structure of writeStringUTF8, the encoding and the syntax of
 * sections 3 and 4 of RFC 3629, and the ASCII fast path of decodeUTF8 around the host's TextDecoder.
 */
module Utf8 {
  import opened Bytes

  type u16 = x: int | 0 <= x < 0x1_0000
  type Str = seq<u16>
  type Decoder = seq<byte> -> Str

  predicate High(c: u16) { 0xd800 <= c < 0xdc00 }
  predicate Low(c: u16) { 0xdc00 <= c < 0xe000 }

  /** No unpaired surrogate. */
  predicate WellFormed(s: Str) {
    if s == [] then true
    else if High(s[0]) then |s| > 1 && Low(s[1]) && WellFormed(s[2..])
    else !Low(s[0]) && WellFormed(s[1..])
  }

  /** writeStringUTF8: the bytes written for a string, unit by unit. */
  function Encode(s: Str): (b: seq<byte>)
  {
    if s == [] then []
    else
      var c := s[0];
      if c < 0x80 then [c] + Encode(s[1..])
      else if c < 0x800 then [0xc0 + c / 64, 0x80 + c % 64] + Encode(s[1..])
      else if High(c) then
        if |s| == 1 then [0xf0, 0x80, 0x80, 0x80]
        else Supplementary(Pair(c, s[1])) + Encode(s[2..])
      else if Low(c) then Encode(s[1..])
      else [0xe0 + c / 64 / 64, 0x80 + c / 64 % 64, 0x80 + c % 64] + Encode(s[1..])
  }

  /** The code point of a surrogate pair. */
  function Pair(hi: int, lo: int): int {
    0x1_0000 + (hi - 0xd800) * 0x400 + (lo - 0xdc00)
  }

  /** Four bytes of a code point; a byte store keeps the low eight bits. */
  function Supplementary(cp: int): (b: seq<byte>)
    ensures |b| == 4
  {
    [(0xf0 + cp / 64 / 64 / 64) % 256, 0x80 + cp / 64 / 64 % 64, 0x80 + cp / 64 % 64, 0x80 + cp % 64]
  }

  // ---------------------------------------------------------------------------
  // RFC 3629
  // ---------------------------------------------------------------------------

  predicate Scalar(v: int) { 0 <= v < 0xd800 || 0xe000 <= v < 0x11_0000 }

  /** Section 3: the octets of one scalar value. */
  function RfcOctets(v: int): (b: seq<byte>)
    requires Scalar(v)
  {
    if v < 0x80 then [v]
    else if v < 0x800 then [0xc0 + v / 64, 0x80 + v % 64]
    else if v < 0x1_0000 then [0xe0 + v / 64 / 64, 0x80 + v / 64 % 64, 0x80 + v % 64]
    else [0xf0 + v / 64 / 64 / 64, 0x80 + v / 64 / 64 % 64, 0x80 + v / 64 % 64, 0x80 + v % 64]
  }

  /** The scalar values of a well-formed UTF-16 string. */
  function Scalars(s: Str): (r: seq<int>)
    requires WellFormed(s)
    ensures forall i :: 0 <= i < |r| ==> Scalar(r[i])
  {
    if s == [] then []
    else if High(s[0]) then [Pair(s[0], s[1])] + Scalars(s[2..])
    else [s[0]] + Scalars(s[1..])
  }

  function RfcEncode(vs: seq<int>): (b: seq<byte>)
    requires forall i :: 0 <= i < |vs| ==> Scalar(vs[i])
  {
    if vs == [] then [] else RfcOctets(vs[0]) + RfcEncode(vs[1..])
  }

  /** Shifts six more payload bits of a tail octet in. */
  function Join(high: int, tail: int): int { high * 64 + (tail - 0x80) }

  predicate Tail(b: byte) { 0x80 <= b < 0xc0 }

  /** UTF-16 units of one scalar value. */
  function Units(v: int): (s: Str)
    requires Scalar(v)
  {
    if v < 0x1_0000 then [v] else [0xd800 + (v - 0x1_0000) / 0x400, 0xdc00 + (v - 0x1_0000) % 0x400]
  }

  /** Section 4: the first UTF8-char of a byte string as (scalar value, octet count), when the syntax admits one. */
  function FirstChar(b: seq<byte>): (r: Option<(int, nat)>)
    requires b != []
    ensures r.Some? ==> Scalar(r.value.0) && 1 <= r.value.1 <= |b|
  {
    if b[0] < 0x80 then Some((b[0], 1))
    else if |b| >= 2 && 0xc2 <= b[0] < 0xe0 && Tail(b[1]) then
      Some((Join(b[0] - 0xc0, b[1]), 2))
    else if |b| >= 3 && 0xe0 <= b[0] < 0xf0 && Tail(b[1]) && Tail(b[2])
         && (b[0] == 0xe0 ==> b[1] >= 0xa0) && (b[0] == 0xed ==> b[1] < 0xa0) then
      Some((Join(Join(b[0] - 0xe0, b[1]), b[2]), 3))
    else if |b| >= 4 && 0xf0 <= b[0] < 0xf5 && Tail(b[1]) && Tail(b[2]) && Tail(b[3])
         && (b[0] == 0xf0 ==> b[1] >= 0x90) && (b[0] == 0xf4 ==> b[1] < 0x90) then
      Some((Join(Join(Join(b[0] - 0xf0, b[1]), b[2]), b[3]), 4))
    else None
  }

  /** The string a byte string denotes, or None when it is not UTF-8. */
  function RfcDecode(b: seq<byte>): (r: Option<Str>)
  {
    if b == [] then Some([])
    else match FirstChar(b)
      case None => None
      case Some((v, n)) =>
        match RfcDecode(b[n..])
        case None => None
        case Some(s) => Some(Units(v) + s)
  }

  /** On well-formed strings the writer emits the RFC 3629 octets of the string's scalar values. */
  lemma {:induction false} EncodeIsRfc(s: Str)
    requires WellFormed(s)
    ensures Encode(s) == RfcEncode(Scalars(s))
  {
    if s != [] {
      var n := if High(s[0]) then 2 else 1;
      EncodeIsRfc(s[n..]);
      assert Scalars(s)[1..] == Scalars(s[n..]);
      EncodeStep(s);
    }
  }

  /** The first step of the writer: one scalar value, then the rest. */
  lemma {:induction false} EncodeStep(s: Str)
    requires WellFormed(s) && s != []
    ensures var n := if High(s[0]) then 2 else 1;
            WellFormed(s[n..]) && Scalars(s) == [Scalars(s)[0]] + Scalars(s[n..]) &&
            Encode(s) == RfcOctets(Scalars(s)[0]) + Encode(s[n..]) && Units(Scalars(s)[0]) == s[..n]
  {
    if High(s[0]) {
      PairUnits(s[0], s[1]);
      assert s[..2] == [s[0], s[1]];
    } else {
      assert s[..1] == [s[0]];
      EncodeUnit(s);
    }
  }

  lemma {:induction false} EncodeUnit(s: Str)
    requires s != [] && !High(s[0]) && !Low(s[0])
    ensures Encode(s) == RfcOctets(s[0]) + Encode(s[1..])
  {
  }

  lemma {:induction false} PairUnits(hi: u16, lo: u16)
    requires High(hi) && Low(lo)
    ensures 0x1_0000 <= Pair(hi, lo) < 0x11_0000
    ensures Supplementary(Pair(hi, lo)) == RfcOctets(Pair(hi, lo))
    ensures Units(Pair(hi, lo)) == [hi, lo]
  {
    var cp := Pair(hi, lo);
    Quotient(cp - 0x1_0000, 0x400, hi - 0xd800, lo - 0xdc00);
    FourOctets(cp);
  }

  lemma {:induction false} FourOctets(cp: int)
    requires 0x1_0000 <= cp < 0x11_0000
    ensures Supplementary(cp) == RfcOctets(cp)
  {
    var q := cp / 64 / 64 / 64;
    assert q < 8;
    assert (0xf0 + q) % 256 == 0xf0 + q;
  }

  /** Section 4 recognises what section 3 produces, whatever follows it. */
  lemma {:induction false} FirstOfOctets(v: int, rest: seq<byte>)
    requires Scalar(v)
    ensures RfcOctets(v) + rest != []
    ensures FirstChar(RfcOctets(v) + rest) == Some((v, |RfcOctets(v)|))
  {
    if v < 0x800 {
      FirstOfTwo(v, rest);
    } else if v < 0x1_0000 {
      FirstOfThree(v, rest);
    } else {
      FirstOfFour(v, rest);
    }
  }

  lemma {:induction false} FirstOfTwo(v: int, rest: seq<byte>)
    requires 0 <= v < 0x800
    ensures FirstChar(RfcOctets(v) + rest) == Some((v, |RfcOctets(v)|))
  {
    assert v == Join(v / 64, 0x80 + v % 64);
    if v >= 0x80 { assert 2 <= v / 64 < 32; }
  }

  lemma {:induction false} FirstOfThree(v: int, rest: seq<byte>)
    requires Scalar(v) && 0x800 <= v < 0x1_0000
    ensures FirstChar(RfcOctets(v) + rest) == Some((v, |RfcOctets(v)|))
  {
    var q1, q2 := v / 64, v / 64 / 64;
    assert v == Join(q1, 0x80 + v % 64) && q1 == Join(q2, 0x80 + q1 % 64);
    assert 32 <= q1 < 1024 && q2 < 16;
    assert RfcOctets(v) == [0xe0 + q2, 0x80 + q1 % 64, 0x80 + v % 64];
  }

  lemma {:induction false} FirstOfFour(v: int, rest: seq<byte>)
    requires Scalar(v) && 0x1_0000 <= v
    ensures FirstChar(RfcOctets(v) + rest) == Some((v, |RfcOctets(v)|))
  {
    var q1, q2 := v / 64, v / 64 / 64;
    assert v == Join(q1, 0x80 + v % 64) && q1 == Join(q2, 0x80 + q1 % 64);
    assert q2 == Join(q2 / 64, 0x80 + q2 % 64);
    assert 16 <= q2 < 272;
    assert RfcOctets(v) == [0xf0 + q2 / 64, 0x80 + q2 % 64, 0x80 + q1 % 64, 0x80 + v % 64];
  }

  /** Decoding the written bytes gives the string back. */
  lemma {:induction false} DecodeEncode(s: Str)
    requires WellFormed(s)
    ensures RfcDecode(Encode(s)) == Some(s)
  {
    if s != [] {
      var n := if High(s[0]) then 2 else 1;
      var v := Scalars(s)[0];
      EncodeStep(s);
      DecodeEncode(s[n..]);
      FirstOfOctets(v, Encode(s[n..]));
      assert Encode(s)[|RfcOctets(v)|..] == Encode(s[n..]);
      assert s == s[..n] + s[n..];
    }
  }

  /** A written string holds a zero byte exactly when it holds U+0000, so NUL-free names are safe cstrings. */
  lemma {:induction false} EncodeNul(s: Str)
    requires WellFormed(s)
    ensures 0 in Encode(s) <==> 0 in s
  {
    if s != [] {
      var n := if High(s[0]) then 2 else 1;
      EncodeStep(s);
      EncodeNul(s[n..]);
      assert s == s[..n] + s[n..];
      var o := RfcOctets(Scalars(s)[0]);
      assert 0 in Encode(s) <==> 0 in o || 0 in Encode(s[n..]);
      assert s[..n] == if n == 2 then [s[0], s[1]] else [s[0]];
    }
  }

  ghost predicate Ascii(b: seq<byte>) {
    forall i :: 0 <= i < |b| ==> b[i] < 0x80
  }

  /** A low surrogate without a high one before it is not written. */
  lemma {:induction false} LoneLow(a: Str, c: u16, b: Str)
    requires WellFormed(a) && 0xdc00 <= c < 0xe000
    ensures Encode(a + [c] + b) == Encode(a) + Encode(b)
  {
    assert a + [c] + b == a + ([c] + b);
    EncodeBehind(a, [c] + b);
    assert ([c] + b)[1..] == b;
  }

  /** A high surrogate at the end is written as F0 80 80 80. */
  lemma {:induction false} LoneHigh(a: Str, c: u16)
    requires WellFormed(a) && 0xd800 <= c < 0xdc00
    ensures Encode(a + [c]) == Encode(a) + [0xf0, 0x80, 0x80, 0x80]
  {
    EncodeBehind(a, [c]);
  }

  /** A high surrogate takes the next unit for its partner, whatever that is. */
  lemma {:induction false} HighTakesNext(a: Str, c: u16, d: u16, b: Str)
    requires WellFormed(a) && 0xd800 <= c < 0xdc00
    ensures var cp := 0x1_0000 + (c - 0xd800) * 1024 + (d - 0xdc00);
            Encode(a + [c, d] + b) ==
            Encode(a) + [(0xf0 + cp / 262144) % 256, 0x80 + cp / 4096 % 64, 0x80 + cp / 64 % 64, 0x80 + cp % 64]
            + Encode(b)
  {
    hide Supplementary, Pair;
    PairBytes(c, d);
    var rest := [c, d] + b;
    assert a + [c, d] + b == a + rest;
    EncodeBehind(a, rest);
    assert rest[2..] == b && rest[0] == c && rest[1] == d;
    var x := Supplementary(Pair(c, d));
    assert Encode(rest) == x + Encode(b);
    assert Encode(a) + (x + Encode(b)) == Encode(a) + x + Encode(b);
  }

  lemma {:induction false} PairBytes(c: u16, d: u16)
    requires 0xd800 <= c < 0xdc00
    ensures var cp := 0x1_0000 + (c - 0xd800) * 1024 + (d - 0xdc00);
            Supplementary(Pair(c, d)) ==
            [(0xf0 + cp / 262144) % 256, 0x80 + cp / 4096 % 64, 0x80 + cp / 64 % 64, 0x80 + cp % 64]
  {
    var cp := Pair(c, d);
    assert cp / 64 / 64 == cp / 4096 && cp / 64 / 64 / 64 == cp / 262144;
  }

  lemma {:induction false} EncodeBehind(a: Str, b: Str)
    requires WellFormed(a)
    ensures Encode(a + b) == Encode(a) + Encode(b)
    decreases |a|
  {
    hide Supplementary, Pair;
    if a == [] {
      assert a + b == b && [] + Encode(b) == Encode(b);
    } else if High(a[0]) {
      EncodeBehind(a[2..], b);
      assert (a + b)[2..] == a[2..] + b;
      var x := Supplementary(Pair(a[0], a[1]));
      assert x + (Encode(a[2..]) + Encode(b)) == x + Encode(a[2..]) + Encode(b);
    } else {
      EncodeBehind(a[1..], b);
      assert (a + b)[1..] == a[1..] + b;
      EncodeFirst(a + b);
      EncodeFirst(a);
    }
  }

  /** A unit that is no surrogate is written for itself. */
  lemma {:induction false} EncodeFirst(s: Str)
    requires s != [] && !High(s[0]) && !Low(s[0])
    ensures Encode(s) == Encode([s[0]]) + Encode(s[1..])
  {
    assert [s[0]][1..] == [] && Encode([]) == [];
  }

  predicate HasBom(b: seq<byte>) {
    |b| >= 3 && b[0] == 0xef && b[1] == 0xbb && b[2] == 0xbf
  }

  /** What is known of `new TextDecoder('utf-8')`: RFC 3629 decoding of valid input without a byte order mark. */
  ghost predicate LawfulDecoder(dec: Decoder) {
    forall b :: RfcDecode(b).Some? && !HasBom(b) ==> dec(b) == RfcDecode(b).value
  }

  lemma {:induction false} AsciiDecodes(b: seq<byte>)
    requires Ascii(b)
    ensures RfcDecode(b) == Some(b)
  {
    if b != [] {
      AsciiDecodes(b[1..]);
      assert b == [b[0]] + b[1..];
    }
  }

  /** Meaning of decodeUTF8 on the bytes it is given. */
  function Text(dec: Decoder, b: seq<byte>): Str {
    if b == [] then []
    else if |b| <= 64 && forall i :: 0 <= i < |b| ==> b[i] < 0x80 then b
    else dec(b)
  }

  /** The ASCII fast path changes nothing: for every length the result is the host decoder's. */
  lemma {:induction false} TextIsHost(dec: Decoder, b: seq<byte>)
    requires LawfulDecoder(dec)
    ensures Text(dec, b) == dec(b)
  {
    if b == [] {
      assert RfcDecode(b) == Some([]);
    } else if |b| <= 64 && Ascii(b) {
      AsciiDecodes(b);
    }
  }

  lemma {:induction false} BomIsFeff(b: seq<byte>)
    ensures HasBom(b) ==> FirstChar(b) == Some((0xfeff, 3)) && Units(0xfeff) == [0xfeff]
  {
  }

  lemma {:induction false} BomFree(s: Str)
    requires WellFormed(s) && (s != [] ==> s[0] != 0xfeff)
    ensures !HasBom(Encode(s))
  {
    if s != [] {
      EncodeStep(s);
      FirstOfOctets(Scalars(s)[0], Encode(s[if High(s[0]) then 2 else 1..]));
      BomIsFeff(Encode(s));
    }
  }

  /** Strings written by the serializer are read back by decodeUTF8, unless a leading U+FEFF is taken for a mark. */
  lemma {:induction false} TextOfEncoded(dec: Decoder, s: Str)
    requires LawfulDecoder(dec) && WellFormed(s) && (s != [] ==> s[0] != 0xfeff)
    ensures Text(dec, Encode(s)) == s
  {
    TextIsHost(dec, Encode(s));
    DecodeEncode(s);
    BomFree(s);
  }

  /** decodeUTF8 at an offset: bytes missing at the end of the buffer become NUL characters, or are not passed on. */
  function TextAt(dec: Decoder, buf: seq<byte>, o: nat, n: nat): Str {
    var w := Window(buf, o, n);
    if n == 0 then []
    else if n <= 64 && forall i :: 0 <= i < n ==> w[i] < 0x80 then w
    else dec(Sub(buf, o, n))
  }

  lemma {:induction false} TextAtPlaced(dec: Decoder, buf: seq<byte>, o: nat, n: nat)
    requires o + n <= |buf|
    ensures TextAt(dec, buf, o, n) == Text(dec, buf[o..o + n])
  {
    WindowPlaced(buf, o, buf[o..o + n]);
  }

  /** decodeUTF8: OR-accumulate up to 64 bytes, fall back to the host decoder on a set high bit or a longer input. */
  method DecodeUtf8(dec: Decoder, buf: seq<byte>, o: nat, len: nat) returns (s: Str)
    ensures s == TextAt(dec, buf, o, len)
  {
    if len == 0 { return []; }
    ghost var b := Window(buf, o, len);
    if len <= 64 {
      var acc: bv8 := 0;
      var codes: Str := [];
      for i := 0 to len
        invariant codes == b[..i]
        invariant acc & 0x80 == 0 <==> forall k :: 0 <= k < i ==> b[k] < 0x80
      {
        var c := Bits(buf, o + i);
        assert b[i] == c && b[..i + 1] == b[..i] + [c];
        HighBit(c, acc);
        acc := acc | (c as bv8);
        codes := codes + [c];
      }
      assert b[..len] == b;
      if acc & 0x80 != 0 { return dec(Sub(buf, o, len)); }
      return codes;
    }
    return dec(Sub(buf, o, len));
  }

  lemma {:induction false} HighBit(c: byte, acc: bv8)
    ensures (acc | (c as bv8)) & 0x80 == 0 <==> acc & 0x80 == 0 && c < 0x80
  {
    var x := c as bv8;
    assert c < 0x80 <==> x < 0x80;
    assert x < 0x80 <==> x & 0x80 == 0;
  }
}
