/** Byte sequences, little-endian integers, and the partial byte reads of a typed array. */
module Bytes {

  type byte = x: int | 0 <= x < 256

  const TWO31 := 0x8000_0000
  const TWO32 := 0x1_0000_0000
  const TWO63 := 0x8000_0000_0000_0000
  const TWO64 := 0x1_0000_0000_0000_0000

  datatype Option<+T> = None | Some(value: T)

  /** The codes of an ASCII text. */
  function Spell(text: string): (s: seq<byte>)
    requires forall i :: 0 <= i < |text| ==> text[i] < 128 as char
    ensures |s| == |text| && forall i :: 0 <= i < |s| ==> s[i] == text[i] as int
  {
    seq<byte>(|text|, i requires 0 <= i < |text| => text[i] as int)
  }

  /** `s` occupies the bytes of `buf` that start at `o`. */
  ghost predicate Placed(buf: seq<byte>, o: int, s: seq<byte>) {
    0 <= o && o + |s| <= |buf| && buf[o..o + |s|] == s
  }

  lemma {:induction false} PlacedAppend(buf: seq<byte>, o: int, a: seq<byte>, b: seq<byte>)
    ensures Placed(buf, o, a + b) <==> Placed(buf, o, a) && Placed(buf, o + |a|, b)
  {
    if Placed(buf, o, a + b) {
      assert buf[o..o + |a|] == buf[o..o + |a + b|][..|a|];
      assert buf[o + |a|..o + |a| + |b|] == buf[o..o + |a + b|][|a|..];
    }
    if Placed(buf, o, a) && Placed(buf, o + |a|, b) {
      assert buf[o..o + |a + b|] == buf[o..o + |a|] + buf[o + |a|..o + |a| + |b|];
    }
  }

  lemma {:induction false} PlacedAt(buf: seq<byte>, o: int, s: seq<byte>, i: nat)
    requires Placed(buf, o, s) && i < |s|
    ensures 0 <= o && o + i < |buf| && buf[o + i] == s[i]
  {
    assert buf[o..o + |s|][i] == buf[o + i];
  }

  /** `buffer[i]` as compared by the program: -1 stands for `undefined`, which equals no byte. */
  function At(buf: seq<byte>, i: int): int {
    if 0 <= i < |buf| then buf[i] else -1
  }

  /** `buffer[i]` as used in bit arithmetic, where `undefined` counts as 0. */
  function Bits(buf: seq<byte>, i: int): byte {
    if 0 <= i < |buf| then buf[i] else 0
  }

  /** `n` bytes from `o` on, missing ones as 0. */
  function Window(buf: seq<byte>, o: int, n: nat): (s: seq<byte>)
    ensures |s| == n
  {
    seq<byte>(n, i => Bits(buf, o + i))
  }

  /** `buffer.subarray(o, o + n)`, clamped to the buffer. */
  function Sub(buf: seq<byte>, o: nat, n: nat): seq<byte> {
    if o >= |buf| then [] else buf[o..if o + n <= |buf| then o + n else |buf|]
  }

  lemma {:induction false} WindowPlaced(buf: seq<byte>, o: int, s: seq<byte>)
    requires Placed(buf, o, s)
    ensures Window(buf, o, |s|) == s
  {
    forall i | 0 <= i < |s| ensures Window(buf, o, |s|)[i] == s[i] { PlacedAt(buf, o, s, i); }
  }

  function Pow256(n: nat): (p: nat)
    ensures p >= 1
  {
    if n == 0 then 1 else 256 * Pow256(n - 1)
  }

  /** Two's complement reduction to 32 bits, signed. */
  function Wrap32(v: int): (r: int)
    ensures -TWO31 <= r < TWO31
    ensures -TWO31 <= v < TWO31 ==> r == v
  {
    var u := v % TWO32;
    if u < TWO31 then u else u - TWO32
  }

  function Wrap64(v: int): (r: int)
    ensures -TWO63 <= r < TWO63
    ensures -TWO63 <= v < TWO63 ==> r == v
  {
    var u := v % TWO64;
    if u < TWO63 then u else u - TWO64
  }

  /** The low `n` bytes of `v`, least significant first; negative numbers in two's complement. */
  function LeBytes(v: int, n: nat): (s: seq<byte>)
    ensures |s| == n
    decreases n
  {
    if n == 0 then [] else [v % 256] + LeBytes(v / 256, n - 1)
  }

  /** Widths of the integers on the wire. */
  const WORD: nat := 4
  const LONGWORD: nat := 8

  /** DataView.setInt32 / setUint32. */
  function Le32(v: int): (s: seq<byte>)
    ensures |s| == 4
  {
    LeBytes(v, WORD)
  }

  /** DataView.setBigInt64. */
  function Le64(v: int): (s: seq<byte>)
    ensures |s| == 8
  {
    LeBytes(v, LONGWORD)
  }

  /** `n` bytes as an unsigned little-endian number. */
  function ReadLe(buf: seq<byte>, o: int, n: nat): (r: nat)
    ensures r < Pow256(n)
    decreases n
  {
    if n == 0 then 0 else Bits(buf, o) + 256 * ReadLe(buf, o + 1, n - 1)
  }

  function ReadU32(buf: seq<byte>, o: int): (r: int)
    ensures 0 <= r < TWO32
  {
    assert Pow256(4) == TWO32;
    ReadLe(buf, o, WORD)
  }

  /** readInt32: OR of shifted bytes, the top byte carrying the sign. */
  function ReadI32(buf: seq<byte>, o: int): (r: int)
    ensures -TWO31 <= r < TWO31
  {
    var u := ReadU32(buf, o);
    if u < TWO31 then u else u - TWO32
  }

  /** readInt64 and readInt64AsNumber: high word times 2^32 plus the unsigned low word. */
  function ReadI64(buf: seq<byte>, o: int): (r: int)
    ensures -TWO63 <= r < TWO63
  {
    ReadI32(buf, o + 4) * TWO32 + ReadU32(buf, o)
  }

  /** The four bytes of a word, least significant first. */
  lemma {:induction false} WordBytes(v: int)
    ensures Le32(v) == [v % 256, v / 256 % 256, v / 65536 % 256, v / 16777216 % 256]
  {
    assert v / 256 / 256 == v / 65536 && v / 256 / 256 / 256 == v / 16777216;
    assert LeBytes(v / 256 / 256, 2) == [v / 256 / 256 % 256, v / 256 / 256 / 256 % 256];
  }

  /** A word read is its four bytes, least significant first, in two's complement. */
  lemma {:induction false} WordRead(buf: seq<byte>, o: int)
    ensures var low := Bits(buf, o) + 256 * Bits(buf, o + 1) + 65536 * Bits(buf, o + 2);
            var top := Bits(buf, o + 3);
            ReadI32(buf, o) == low + 16777216 * (if top < 128 then top else top - 256)
  {
    assert ReadLe(buf, o + 2, 2) == Bits(buf, o + 2) + 256 * Bits(buf, o + 3);
    assert ReadLe(buf, o + 1, 3) == Bits(buf, o + 1) + 256 * ReadLe(buf, o + 2, 2);
  }

  lemma {:induction false} ModStep(v: int, p: nat)
    requires p >= 1
    ensures v % (256 * p) == v % 256 + 256 * (v / 256 % p)
    ensures v / (256 * p) == v / 256 / p
  {
    var a := v / 256;
    var q, r := a / p, a % p;
    var s := v % 256 + 256 * r;
    assert a == q * p + r;
    assert v == 256 * a + v % 256;
    assert v == 256 * (q * p) + s;
    assert 256 * (q * p) == q * (256 * p);
    Quotient(v, 256 * p, q, s);
  }

  lemma {:induction false} Quotient(v: int, m: int, q: int, r: int)
    requires m > 0 && v == q * m + r && 0 <= r < m
    ensures v % m == r && v / m == q
  {
    var k := v / m - q;
    assert v == (v / m) * m + v % m;
    assert k * m == r - v % m by { assert (v / m) * m - q * m == k * m; }
    assert k > 0 ==> k * m >= m;
    assert k < 0 ==> k * m <= -m;
  }

  lemma {:induction false} ReadLeBytes(buf: seq<byte>, o: int, v: int, n: nat)
    requires Placed(buf, o, LeBytes(v, n))
    ensures ReadLe(buf, o, n) == v % Pow256(n)
    decreases n
  {
    if n > 0 {
      assert LeBytes(v, n) == [v % 256] + LeBytes(v / 256, n - 1);
      PlacedAppend(buf, o, [v % 256], LeBytes(v / 256, n - 1));
      PlacedAt(buf, o, [v % 256], 0);
      ReadLeBytes(buf, o + 1, v / 256, n - 1);
      ModStep(v, Pow256(n - 1));
    }
  }

  lemma {:induction false} LeSplit(v: int, a: nat, b: nat)
    ensures LeBytes(v, a + b) == LeBytes(v, a) + LeBytes(v / Pow256(a), b)
    decreases a
  {
    if a > 0 {
      LeSplit(v / 256, a - 1, b);
      ModStep(v, Pow256(a - 1));
      assert LeBytes(v, a + b) == [v % 256] + LeBytes(v / 256, a - 1 + b);
    }
  }

  lemma {:induction false} ReadLe32(buf: seq<byte>, o: int, v: int)
    requires Placed(buf, o, Le32(v))
    ensures ReadU32(buf, o) == v % TWO32
    ensures ReadI32(buf, o) == Wrap32(v)
  {
    ReadLeBytes(buf, o, v, 4);
    assert Pow256(4) == TWO32;
  }

  lemma {:induction false} ReadLe64(buf: seq<byte>, o: int, v: int)
    requires Placed(buf, o, Le64(v))
    ensures ReadI64(buf, o) == Wrap64(v)
  {
    assert Pow256(4) == TWO32;
    LeSplit(v, 4, 4);
    PlacedAppend(buf, o, Le32(v), Le32(v / TWO32));
    ReadLe32(buf, o, v);
    ReadLe32(buf, o + 4, v / TWO32);
    HighWord(v);
  }

  lemma {:induction false} HighWord(v: int)
    ensures Wrap64(v) == Wrap32(v / TWO32) * TWO32 + v % TWO32
  {
    var q := v / TWO32;
    var p := q / TWO32;
    Quotient(v, TWO64, p, q % TWO32 * TWO32 + v % TWO32);
  }
}
