/**
 * Names as cstrings. Names known when the code is generated are written in batches whose last store may overrun the
 * name; array indices and run-time keys are written byte by byte.
 */
module Names {
  import opened Bytes
  import opened Wire
  import opened Utf8
  import opened Target

  // --- packing

  /** The integer whose little-endian bytes are `s`: the OR of shifted character codes in the generated code. */
  function Pack(s: seq<byte>): nat {
    if s == [] then 0 else s[0] + 256 * Pack(s[1..])
  }

  function Zeros(n: nat): seq<byte> { seq<byte>(n, _ => 0) }

  /** A store of `n` packed bytes writes the packed characters, then zeros. */
  lemma {:induction false} PackBytes(s: seq<byte>, n: nat)
    requires |s| <= n
    ensures LeBytes(Pack(s), n) == s + Zeros(n - |s|)
    decreases n
  {
    if n > 0 {
      if s == [] {
        PackBytes([], n - 1);
        assert Zeros(n) == [0] + Zeros(n - 1);
      } else {
        PackBytes(s[1..], n - 1);
        assert Pack(s) % 256 == s[0] && Pack(s) / 256 == Pack(s[1..]);
        assert s == [s[0]] + s[1..];
      }
    }
  }

  /** setUint32 of packed characters, advancing over `keep` bytes. */
  function Word(s: seq<byte>): Script
    requires |s| <= 4
  {
    Script(s, 4, false)
  }

  method StoreWord(buffer: array<byte>, o: int, s: seq<byte>, ghost done: seq<byte>) returns (st: Status, p: int)
    requires Pending(buffer[..], o, done) && |s| <= 4
    modifies buffer
    ensures Wrote(done, buffer[..], Word(s), st, p)
  {
    PackBytes(s, 4);
    assert (s + Zeros(4 - |s|))[..|s|] == s;
    st, p := StoreBlock(buffer, o, Le32(Pack(s)), |s|, done);
  }

  method StoreBytes(buffer: array<byte>, o: int, s: seq<byte>, ghost done: seq<byte>) returns (p: int)
    requires Pending(buffer[..], o, done)
    modifies buffer
    ensures Pending(buffer[..], p, done + s)
  {
    p := o;
    assert done + s[..0] == done;
    for i := 0 to |s|
      invariant Pending(buffer[..], p, done + s[..i])
    {
      StoreByte(buffer, p, s[i], done + s[..i]);
      assert done + s[..i] + [s[i]] == done + s[..i + 1];
      p := p + 1;
    }
    assert s[..|s|] == s;
  }

  /** The next multiple of four: how far the batched stores reach. */
  function RoundUp(n: nat): nat { (n + 3) / 4 * 4 }

  function Batched(s: seq<byte>): Script { Script(s, RoundUp(|s|), false) }

  /** One packed store of `width` bytes, of which `n` belong to the name. */
  method StoreChunk(buffer: array<byte>, o: int, s: seq<byte>, i: nat, n: nat, width: nat, ghost done: seq<byte>)
    returns (st: Status, p: int)
    requires i + n <= |s| && n <= width && Pending(buffer[..], o, done + s[..i])
    modifies buffer
    ensures st == if o + width > buffer.Length then RangeError else Fine
    ensures st == Fine ==> Pending(buffer[..], p, done + s[..i + n])
  {
    var part := s[i..i + n];
    PackBytes(part, width);
    assert (part + Zeros(width - n))[..n] == part;
    st, p := StoreBlock(buffer, o, LeBytes(Pack(part), width), n, done + s[..i]);
    assert done + s[..i] + part == done + s[..i + n];
  }

  /** Eight bytes at a time, then four, then one word over the last one to three bytes. */
  method StoreBatched(buffer: array<byte>, o: int, s: seq<byte>, ghost done: seq<byte>) returns (st: Status, p: int)
    requires Pending(buffer[..], o, done) && |s| >= 4
    modifies buffer
    ensures Wrote(done, buffer[..], Batched(s), st, p)
  {
    var i := 0;
    st, p := Fine, o;
    assert done + s[..0] == done;
    assert s[..|s|] == s;
    while i + 8 <= |s|
      invariant 0 <= i <= |s| && i % 4 == 0 && st == Fine
      invariant Pending(buffer[..], p, done + s[..i])
      invariant o + i <= buffer.Length || i == 0
    {
      st, p := StoreChunk(buffer, p, s, i, 8, 8, done);
      if st != Fine { return; }
      i := i + 8;
    }
    if i + 4 <= |s| {
      st, p := StoreChunk(buffer, p, s, i, 4, 4, done);
      if st != Fine { return; }
      i := i + 4;
    }
    if i < |s| {
      st, p := StoreChunk(buffer, p, s, i, |s| - i, 4, done);
    }
  }

  // --- static names

  /** writeNameJIT. */
  function NameScript(name: seq<byte>): Script {
    if |name| + 1 <= 4 then Word(name + [0])
    else if |name| + 1 <= 6 then Plain(name + [0])
    else Batched(name + [0])
  }

  method WriteName(buffer: array<byte>, o: int, name: seq<byte>, ghost done: seq<byte>) returns (st: Status, p: int)
    requires Pending(buffer[..], o, done)
    modifies buffer
    ensures Wrote(done, buffer[..], NameScript(name), st, p)
  {
    if |name| + 1 <= 4 {
      st, p := StoreWord(buffer, o, name + [0], done);
    } else if |name| + 1 <= 6 {
      p := StoreBytes(buffer, o, name + [0], done);
      st := Fine;
    } else {
      st, p := StoreBatched(buffer, o, name + [0], done);
    }
  }

  /** writeHeader for a name known at generation time; `fixed` when a store of the value follows. */
  function HeaderScript(tag: byte, name: seq<byte>, fixed: bool): (s: Script)
  {
    if |name| + 2 <= 4 && fixed then Word(Header(tag, name))
    else if |name| + 2 <= 6 then Then(Plain([tag]), NameScript(name))
    else Batched(Header(tag, name))
  }

  method WriteHeader(buffer: array<byte>, o: int, tag: byte, name: seq<byte>, fixed: bool, ghost done: seq<byte>)
    returns (st: Status, p: int)
    requires Pending(buffer[..], o, done)
    modifies buffer
    ensures Wrote(done, buffer[..], HeaderScript(tag, name, fixed), st, p)
  {
    if |name| + 2 <= 4 && fixed {
      st, p := StoreWord(buffer, o, Header(tag, name), done);
    } else if |name| + 2 <= 6 {
      StoreByte(buffer, o, tag, done);
      st, p := WriteName(buffer, o + 1, name, done + [tag]);
      Sequence(done, Plain([tag]), NameScript(name), buffer[..], st, p);
    } else {
      st, p := StoreBatched(buffer, o, Header(tag, name), done);
    }
  }

  /** Every branch leaves type, name and terminator in exactly the range the cursor moves over. */
  lemma {:induction false} HeaderBytes(tag: byte, name: seq<byte>, fixed: bool)
    ensures HeaderScript(tag, name, fixed).bytes == Header(tag, name) && !HeaderScript(tag, name, fixed).bad
    ensures -1 <= HeaderScript(tag, name, fixed).far <= |name| + 2 + 3
  {
    assert [tag] + (name + [0]) == Header(tag, name);
  }

  // --- run-time names

  /** The decimal digits of an array index. */
  function Digits(n: nat): seq<byte> {
    if n < 10 then [48 + n] else Digits(n / 10) + [48 + n % 10]
  }

  /** The number that decimal digits denote. */
  function Decimal(s: seq<byte>): int {
    if s == [] then 0 else Decimal(s[..|s| - 1]) * 10 + (s[|s| - 1] as int - 48)
  }

  /** Digits are the decimal numeral of the index: digits only, of that value, without leading zeros. */
  lemma {:induction false} DigitsDecimal(n: nat)
    ensures Decimal(Digits(n)) == n
    ensures |Digits(n)| >= 1 && (Digits(n)[0] == 48 ==> Digits(n) == [48])
    ensures forall k :: 0 <= k < |Digits(n)| ==> 48 <= Digits(n)[k] < 58
  {
    if n < 10 {
      assert Digits(n)[..0] == [] && Decimal([]) == 0;
    } else {
      DigitsDecimal(n / 10);
      var k := |Digits(n)| - 1;
      assert Digits(n)[..k] == Digits(n / 10);
      DecimalZero();
    }
  }

  lemma {:induction false} DecimalZero()
    ensures Decimal([48]) == 0
  {
    assert [48][..0] == [] && Decimal([]) == 0;
  }

  lemma {:induction false} NulFreeJoin(s: seq<byte>, t: seq<byte>)
    requires NulFree(s) && NulFree(t)
    ensures NulFree(s + t)
  {
    if s == [] {
      assert s + t == t;
    } else {
      NulFreeJoin(s[1..], t);
      assert (s + t)[1..] == s[1..] + t;
    }
  }

  lemma {:induction false} DigitsNulFree(n: nat)
    ensures NulFree(Digits(n))
  {
    if n >= 10 {
      DigitsNulFree(n / 10);
      assert NulFree([48 + n % 10]);
      NulFreeJoin(Digits(n / 10), [48 + n % 10]);
    }
  }

  /** writeIndexCString: one to three digits in line, longer indices through their decimal string. */
  method WriteIndex(buffer: array<byte>, o: int, idx: nat, ghost done: seq<byte>) returns (p: int)
    requires Pending(buffer[..], o, done)
    modifies buffer
    ensures Pending(buffer[..], p, done + (Digits(idx) + [0]))
  {
    if idx < 10 {
      p := StoreBytes(buffer, o, [48 + idx, 0], done);
      assert Digits(idx) + [0] == [48 + idx, 0];
    } else if idx < 100 {
      p := StoreBytes(buffer, o, [48 + idx / 10, 48 + idx % 10, 0], done);
      assert Digits(idx) + [0] == [48 + idx / 10, 48 + idx % 10, 0];
    } else if idx < 1000 {
      p := StoreBytes(buffer, o, [48 + idx / 100, 48 + idx / 10 % 10, 48 + idx % 10, 0], done);
      assert idx / 10 / 10 == idx / 100;
      assert Digits(idx / 10) == [48 + idx / 100, 48 + idx / 10 % 10];
      assert Digits(idx) + [0] == [48 + idx / 100, 48 + idx / 10 % 10, 48 + idx % 10, 0];
    } else {
      p := StoreBytes(buffer, o, Digits(idx) + [0], done);
    }
  }

  /** The header of an array element. */
  function IndexScript(tag: byte, idx: nat): Script { Plain(Header(tag, Digits(idx))) }

  method WriteIndexHeader(buffer: array<byte>, o: int, tag: byte, idx: nat, ghost done: seq<byte>) returns (p: int)
    requires Pending(buffer[..], o, done)
    modifies buffer
    ensures Pending(buffer[..], p, done + Header(tag, Digits(idx)))
  {
    StoreByte(buffer, o, tag, done);
    p := WriteIndex(buffer, o + 1, idx, done + [tag]);
    assert done + [tag] + (Digits(idx) + [0]) == done + Header(tag, Digits(idx));
  }

  /** The bytes and units of one turn of the writer's loop. */
  function TurnBytes(s: Str): seq<byte>
    requires s != []
  {
    var c := s[0];
    if c < 0x80 then [c]
    else if c < 0x800 then [0xc0 + c / 64, 0x80 + c % 64]
    else if High(c) then
      if |s| == 1 then [0xf0, 0x80, 0x80, 0x80] else Supplementary(Pair(c, s[1]))
    else if Low(c) then []
    else [0xe0 + c / 64 / 64, 0x80 + c / 64 % 64, 0x80 + c % 64]
  }

  function TurnUnits(s: Str): nat
    requires s != []
  {
    if High(s[0]) && |s| > 1 then 2 else 1
  }

  lemma {:induction false} TurnStep(s: Str)
    requires s != []
    ensures Encode(s) == TurnBytes(s) + Encode(s[TurnUnits(s)..])
  {
    if High(s[0]) && |s| == 1 {
      assert s[1..] == [];
    } else if Low(s[0]) {
      assert [] + Encode(s[1..]) == Encode(s[1..]);
    }
  }

  /** writeStringUTF8. */
  method WriteUtf8(buffer: array<byte>, o: int, s: Str, ghost done: seq<byte>) returns (p: int)
    requires Pending(buffer[..], o, done)
    modifies buffer
    ensures Pending(buffer[..], p, done + Encode(s))
  {
    p := o;
    var i := 0;
    ghost var out := done;
    assert s[0..] == s;
    while i < |s|
      invariant 0 <= i <= |s|
      invariant Pending(buffer[..], p, out) && out + Encode(s[i..]) == done + Encode(s)
    {
      var bytes, n := TurnBytes(s[i..]), TurnUnits(s[i..]);
      TurnStep(s[i..]);
      p := StoreBytes(buffer, p, bytes, out);
      assert out + (bytes + Encode(s[i..][n..])) == out + bytes + Encode(s[i..][n..]);
      assert s[i..][n..] == s[i + n..];
      out := out + bytes;
      i := i + n;
    }
    assert out + [] == out;
  }

  // --- one byte for each char code

  lemma {:induction false} EncodeLonger(name: Str)
    requires forall i :: 0 <= i < |name| ==> name[i] < 0x100
    ensures |Encode(name)| >= |name|
    ensures |Encode(name)| == |name| ==> Encode(name) == name
    ensures |Encode(name)| == |name| <==> forall i :: 0 <= i < |name| ==> name[i] < 0x80
  {
    if name != [] {
      var rest := name[1..];
      EncodeLonger(rest);
      assert name == [name[0]] + rest;
    }
  }

  /**
   * A static name is written and compared as its char codes. For codes up to 255 these are the bytes of its UTF-8 text,
   * which is what the parser reads and any other program writes, exactly for ASCII names.
   */
  lemma {:induction false} StaticNameIff(name: Str)
    requires forall i :: 0 <= i < |name| ==> name[i] < 0x100
    ensures Encode(name) == name <==> forall i :: 0 <= i < |name| ==> name[i] < 0x80
  {
    EncodeLonger(name);
  }
}
