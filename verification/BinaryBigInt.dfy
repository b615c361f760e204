/**
 * Arbitrary-size integers as BSON binaries: hexadecimal digits, padded to whole bytes, with an optional signum byte.
 */
module BinaryBigInt {
  import opened Bytes
  import opened Wire
  import opened Types
  import opened Meaning
  import opened Readers
  import opened Target

  type nibble = x: int | 0 <= x < 16

  /** The digits of `value.toString(16)` without the sign. */
  function HexDigits(n: nat): (s: seq<nibble>)
    ensures |s| >= 1
  {
    if n < 16 then [n] else HexDigits(n / 16) + [n % 16]
  }

  /** `BigInt('0x' + hex)` */
  function HexValue(s: seq<nibble>): nat {
    if s == [] then 0 else HexValue(s[..|s| - 1]) * 16 + s[|s| - 1]
  }

  function Padded(s: seq<nibble>): (r: seq<nibble>)
    ensures |r| % 2 == 0
    ensures |r| == |s| + |s| % 2
  {
    if |s| % 2 == 1 then [0] + s else s
  }

  /** Two digits make a byte. */
  function Octet(hi: int, lo: int): byte
    requires 0 <= hi < 16 && 0 <= lo < 16
  {
    hi * 16 + lo
  }

  function Pairs(s: seq<nibble>): (b: seq<byte>)
    requires |s| % 2 == 0
    ensures |b| == |s| / 2
  {
    seq<byte>(|s| / 2, i requires 0 <= i < |s| / 2 => Octet(s[2 * i], s[2 * i + 1]))
  }

  lemma {:induction false} HexLeads(n: nat)
    requires n > 0
    ensures HexDigits(n)[0] > 0
  {
    if n >= 16 { HexLeads(n / 16); }
  }

  /**
   * The data of a bigint: nothing for 0; otherwise the absolute value, most significant byte first and not 0, behind a
   * byte for the sign in the signed form.
   */
  lemma {:induction false} BigDataIs(signed: bool, v: int)
    ensures BigData(signed, 0) == []
    ensures v != 0 ==> |BigData(signed, v)| > (if signed then 1 else 0)
    ensures v != 0 ==>
              var data := BigData(signed, v);
              var magnitude := if signed then data[1..] else data;
              && (signed ==> data[0] == if v < 0 then 255 else 0)
              && BigEndian(magnitude) == (if v < 0 then -v else v) && magnitude[0] != 0
  {
    hide Magnitude, BigEndian;
    if v != 0 {
      MagnitudeValue(v);
      MagnitudeLeads(v);
      var data := BigData(signed, v);
      assert (if signed then data[1..] else data) == Magnitude(v);
    }
  }

  lemma {:induction false} MagnitudeLeads(v: int)
    requires v != 0
    ensures Magnitude(v) != [] && Magnitude(v)[0] != 0
  {
    HexLeads(Abs(v));
  }

  /** hexTable over the bytes. */
  function HexOf(b: seq<byte>): seq<nibble> {
    if b == [] then [] else HexOf(b[..|b| - 1]) + [b[|b| - 1] / 16, b[|b| - 1] % 16]
  }

  function Abs(v: int): nat { if v < 0 then -v else v }

  /** The absolute value, most significant byte first. */
  function Magnitude(v: int): seq<byte> { Pairs(Padded(HexDigits(Abs(v)))) }

  /** The data of the binary. */
  function BigData(signed: bool, v: int): seq<byte> {
    if v == 0 then []
    else (if signed then [if v < 0 then 255 else 0] else []) + Magnitude(v)
  }

  lemma {:induction false} HexDigitsValue(n: nat)
    ensures HexValue(HexDigits(n)) == n
  {
    if n >= 16 {
      HexDigitsValue(n / 16);
      assert HexDigits(n)[..|HexDigits(n)| - 1] == HexDigits(n / 16);
    } else {
      assert HexValue([]) == 0;
    }
  }

  /** The digit count is exact: n needs k digits when 16^(k-1) <= n < 16^k. */
  function Pow16(k: nat): nat { if k == 0 then 1 else 16 * Pow16(k - 1) }

  lemma {:induction false} HexDigitsCount(n: nat)
    ensures n < Pow16(|HexDigits(n)|)
    ensures n > 0 ==> Pow16(|HexDigits(n)| - 1) <= n
  {
    if n >= 16 { HexDigitsCount(n / 16); }
  }

  lemma {:induction false} HexPrepend(s: seq<nibble>)
    ensures HexValue([0] + s) == HexValue(s)
  {
    if s == [] {
      assert [0] + s == [0] && HexValue([]) == 0;
    } else {
      var t := s[..|s| - 1];
      HexPrepend(t);
      assert ([0] + s)[..|s|] == [0] + t;
    }
  }

  lemma {:induction false} PairsValue(s: seq<nibble>)
    requires |s| % 2 == 0
    ensures BigEndian(Pairs(s)) == HexValue(s)
  {
    if s != [] {
      var n := |s|;
      var t := s[..n - 2];
      PairsValue(t);
      assert Pairs(s)[..n / 2 - 1] == Pairs(t);
      assert s[..n - 1][..n - 2] == t;
      assert HexValue(s) == (HexValue(t) * 16 + s[n - 2]) * 16 + s[n - 1];
    }
  }

  lemma {:induction false} HexOfValue(b: seq<byte>)
    ensures HexValue(HexOf(b)) == BigEndian(b)
  {
    if b != [] {
      var n := |b|;
      var t := HexOf(b[..n - 1]);
      HexOfValue(b[..n - 1]);
      var s := t + [b[n - 1] / 16, b[n - 1] % 16];
      assert s[..|s| - 1] == t + [b[n - 1] / 16];
      assert s[..|s| - 1][..|t|] == t;
    }
  }

  lemma {:induction false} MagnitudeValue(v: int)
    ensures BigEndian(Magnitude(v)) == Abs(v) && Magnitude(v) != []
  {
    var s := HexDigits(Abs(v));
    HexDigitsValue(Abs(v));
    HexPrepend(s);
    PairsValue(Padded(s));
  }

  /**
   * Reading what was written: the signed form gives the integer back, the unsigned form its absolute value, as long
   * as the data does not exceed 16 MB; beyond that the reader rejects it.
   */
  lemma {:induction false} BigRoundTrip(signed: bool, v: int)
    ensures BinaryBigOf(if signed then Signed else Unsigned, BigData(signed, v)) ==
            if |BigData(signed, v)| > MAX_BIGINT then Err(BadBigInt)
            else Ok(VBig(if signed || v >= 0 then v else -v))
  {
    hide Magnitude, BigEndian;
    if v != 0 {
      MagnitudeValue(v);
      if signed {
        assert BigData(true, v)[1..] == Magnitude(v);
      } else {
        assert BigData(false, v) == Magnitude(v);
      }
    }
  }

  /** The size follows the number of hexadecimal digits, rounded up to whole bytes. */
  lemma {:induction false} BigSize(signed: bool, v: int)
    ensures v == 0 ==> BigData(signed, v) == []
    ensures v != 0 ==>
            var k := |HexDigits(Abs(v))|;
            && |BigData(signed, v)| == (if signed then 1 else 0) + (k + 1) / 2
            && Pow16(k - 1) <= Abs(v) < Pow16(k)
  {
    HexDigitsCount(Abs(v));
  }

  // ---------------------------------------------------------------------------
  // The loops over digits
  // ---------------------------------------------------------------------------

  function BinaryHead(size: nat, subtype: byte): Script { Script(Le32(size) + [subtype], 4, false) }

  /** Size, subtype 0 and the data; setInt32 keeps 32 bits of the size. */
  function BigScript(signed: bool, v: int): Script {
    Then(BinaryHead(|BigData(signed, v)|, 0), Plain(BigData(signed, v)))
  }

  method WriteDigits(buffer: array<byte>, o: int, hex: seq<nibble>, ghost done: seq<byte>) returns (p: int)
    requires Pending(buffer[..], o, done) && |hex| % 2 == 0
    modifies buffer
    ensures Pending(buffer[..], p, done + Pairs(hex))
  {
    var n := |hex| / 2;
    assert done + Pairs(hex)[..0] == done;
    for i := 0 to n
      invariant Pending(buffer[..], o + i, done + Pairs(hex)[..i])
    {
      StoreByte(buffer, o + i, Octet(hex[i * 2], hex[i * 2 + 1]), done + Pairs(hex)[..i]);
      assert done + Pairs(hex)[..i] + [Pairs(hex)[i]] == done + Pairs(hex)[..i + 1];
    }
    assert Pairs(hex)[..n] == Pairs(hex);
    return o + n;
  }

  /** Size and subtype. */
  method WriteBinaryHead(buffer: array<byte>, o: int, size: nat, subtype: byte, ghost done: seq<byte>)
    returns (st: Status, p: int)
    requires Pending(buffer[..], o, done)
    modifies buffer
    ensures Wrote(done, buffer[..], BinaryHead(size, subtype), st, p)
  {
    st, p := StoreBlock(buffer, o, Le32(size), 4, done);
    if st != Fine { return; }
    assert Le32(size)[..4] == Le32(size);
    StoreByte(buffer, p, subtype, done + Le32(size));
    assert done + Le32(size) + [subtype] == done + (Le32(size) + [subtype]);
    p := p + 1;
  }

  /** The signum byte and the digits. */
  method WriteBigData(buffer: array<byte>, o: int, signed: bool, v: int, ghost done: seq<byte>) returns (p: int)
    requires Pending(buffer[..], o, done)
    modifies buffer
    ensures Pending(buffer[..], p, done + BigData(signed, v))
  {
    if v == 0 {
      assert done + [] == done;
      return o;
    }
    var hex := Padded(HexDigits(Abs(v)));
    if signed {
      StoreByte(buffer, o, if v < 0 then 255 else 0, done);
      p := WriteDigits(buffer, o + 1, hex, done + [if v < 0 then 255 else 0]);
      assert done + [if v < 0 then 255 else 0] + Pairs(hex) == done + BigData(signed, v);
    } else {
      p := WriteDigits(buffer, o, hex, done);
      assert BigData(signed, v) == Pairs(hex);
    }
  }

  /** The size both writers compute from the digits. */
  function DataSize(signed: bool, v: int): (n: nat)
    ensures n == |BigData(signed, v)|
  {
    if v == 0 then 0 else (if signed then 1 else 0) + |Padded(HexDigits(Abs(v)))| / 2
  }

  /** writeBinaryBigInt and writeSignedBinaryBigInt. */
  method WriteBig(buffer: array<byte>, o: int, signed: bool, v: int, ghost done: seq<byte>)
    returns (st: Status, p: int)
    requires Pending(buffer[..], o, done)
    modifies buffer
    ensures Wrote(done, buffer[..], BigScript(signed, v), st, p)
  {
    var size := DataSize(signed, v);
    st, p := WriteBinaryHead(buffer, o, size, 0, done);
    if st != Fine { return; }
    ghost var head := BinaryHead(size, 0);
    p := WriteBigData(buffer, p, signed, v, done + head.bytes);
    Sequence(done, head, Plain(BigData(signed, v)), buffer[..], st, p);
  }

  /** The digits of the bytes from `first` on. */
  method ReadDigits(buf: seq<byte>, o: int, first: nat, size: nat) returns (value: nat)
    requires first <= size
    ensures value == BigEndian(Window(buf, o, size)[first..])
  {
    var hex: seq<nibble> := [];
    ghost var w := Window(buf, o, size);
    for i := first to size
      invariant hex == HexOf(w[first..i])
    {
      var b := Bits(buf, o + i);
      assert w[first..i + 1][..i - first] == w[first..i] && w[i] == b;
      hex := hex + [b / 16, b % 16];
    }
    assert w[first..size] == w[first..];
    HexOfValue(w[first..]);
    value := HexValue(hex);
  }

  /** readBinaryBigInt and readSignedBinaryBigInt. */
  method ReadBig(form: BigForm, buf: seq<byte>, o: nat) returns (res: Result<(Value, int)>)
    requires form != Long
    ensures res == ReadBinaryBig(form, buf, o)
  {
    var size := ReadI32(buf, o);
    if size == 0 { return Ok((VBig(0), o + 5)); }
    if size < 0 || size > MAX_BIGINT { return Err(BadBigInt); }
    var first := if form.Signed? then 1 else 0;
    var value: int := ReadDigits(buf, o + 5, first, size);
    if form.Signed? {
      var signum := Bits(buf, o + 5);
      assert Window(buf, o + 5, size)[0] == signum;
      return Ok((VBig(if signum == 255 then -value else value), o + 5 + size));
    }
    assert Window(buf, o + 5, size)[0..] == Window(buf, o + 5, size);
    return Ok((VBig(value), o + 5 + size));
  }
}
