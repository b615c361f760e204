/**
 * The BSON wire format ("Non-terminals" and "Basic Types" of the BSON specification 1.1) as a syntax tree,
 * the bytes each tree stands for, and the cursor arithmetic of skipValue over those bytes.
 */
module Wire {
  import opened Bytes

  const DOUBLE := 0x01
  const STRING := 0x02
  const OBJECT := 0x03
  const ARRAY := 0x04
  const BINARY := 0x05
  const UNDEFINED := 0x06
  const OID := 0x07
  const BOOLEAN := 0x08
  const DATE := 0x09
  const NULL := 0x0a
  const REGEX := 0x0b
  const INT := 0x10
  const TIMESTAMP := 0x11
  const LONG := 0x12
  const DECIMAL128 := 0x13
  const MIN_KEY := 0xff
  const MAX_KEY := 0x7f

  /** One element value. CODE, SYMBOL and DB_POINTER are rejected by every reader and have no constructor. */
  datatype Wire =
    | WDouble(bits: seq<byte>)
    | WString(utf8: seq<byte>)
    | WObject(doc: Doc)
    | WArray(elems: Doc)
    | WBinary(subtype: byte, data: seq<byte>)
    | WUndefined
    | WOid(oid: seq<byte>)
    | WBool(b: bool)
    | WDate(ms: int)
    | WNull
    | WRegex(pattern: seq<byte>, options: seq<byte>)
    | WInt(i: int)
    | WTimestamp(stamp: int)
    | WLong(long: int)
    | WDecimal(dec: seq<byte>)
    | WMinKey
    | WMaxKey

  /** The element list of a document; an array is a document whose names are ignored by its readers. */
  datatype Doc = Nil | Cons(name: seq<byte>, val: Wire, rest: Doc)

  function Tag(w: Wire): (t: byte)
    ensures t != 0
  {
    match w
    case WDouble(_) => DOUBLE
    case WString(_) => STRING
    case WObject(_) => OBJECT
    case WArray(_) => ARRAY
    case WBinary(_, _) => BINARY
    case WUndefined => UNDEFINED
    case WOid(_) => OID
    case WBool(_) => BOOLEAN
    case WDate(_) => DATE
    case WNull => NULL
    case WRegex(_, _) => REGEX
    case WInt(_) => INT
    case WTimestamp(_) => TIMESTAMP
    case WLong(_) => LONG
    case WDecimal(_) => DECIMAL128
    case WMinKey => MIN_KEY
    case WMaxKey => MAX_KEY
  }

  lemma {:induction false} TagKinds(w: Wire)
    ensures Tag(w) == OBJECT <==> w.WObject?
    ensures Tag(w) == ARRAY <==> w.WArray?
    ensures Tag(w) == NULL || Tag(w) == UNDEFINED <==> w.WNull? || w.WUndefined?
  {
  }

  function EncVal(w: Wire): (s: seq<byte>)
    decreases w, 0
  {
    match w
    case WDouble(bits) => bits
    case WString(utf8) => Le32(|utf8| + 1) + utf8 + [0]
    case WObject(d) => EncDoc(d)
    case WArray(d) => EncDoc(d)
    case WBinary(st, data) => Le32(|data|) + [st] + data
    case WUndefined => []
    case WOid(oid) => oid
    case WBool(b) => [if b then 1 else 0]
    case WDate(ms) => Le64(ms)
    case WNull => []
    case WRegex(p, f) => p + [0] + f + [0]
    case WInt(i) => Le32(i)
    case WTimestamp(t) => Le64(t)
    case WLong(i) => Le64(i)
    case WDecimal(dec) => dec
    case WMinKey => []
    case WMaxKey => []
  }

  function Header(tag: byte, name: seq<byte>): (s: seq<byte>)
    ensures |s| == |name| + 2
  {
    [tag] + name + [0]
  }

  function EncFields(d: Doc): (s: seq<byte>)
    decreases d, 0
  {
    match d
    case Nil => []
    case Cons(name, w, rest) => Header(Tag(w), name) + EncVal(w) + EncFields(rest)
  }

  function EncDoc(d: Doc): (s: seq<byte>)
    ensures |s| >= 5
    decreases d, 1
  {
    var f := EncFields(d);
    Le32(|f| + 5) + f + [0]
  }

  /** An element is its type byte as the specification has it, its name, a NUL and its value. */
  lemma {:induction false} ElementBytes(name: seq<byte>, w: Wire, rest: Doc)
    ensures var tag: byte := match w
                             case WDouble(_) => 1
                             case WString(_) => 2
                             case WObject(_) => 3
                             case WArray(_) => 4
                             case WBinary(_, _) => 5
                             case WUndefined => 6
                             case WOid(_) => 7
                             case WBool(_) => 8
                             case WDate(_) => 9
                             case WNull => 10
                             case WRegex(_, _) => 11
                             case WInt(_) => 16
                             case WTimestamp(_) => 17
                             case WLong(_) => 18
                             case WDecimal(_) => 19
                             case WMinKey => 255
                             case WMaxKey => 127;
            EncFields(Cons(name, w, rest)) == [tag] + name + [0] + EncVal(w) + EncFields(rest)
  {
  }

  ghost predicate NulFree(s: seq<byte>) {
    s != [] ==> s[0] != 0 && NulFree(s[1..])
  }

  lemma {:induction false} NulFreeAt(s: seq<byte>, i: nat)
    requires NulFree(s) && i < |s|
    ensures s[i] != 0
  {
    if i > 0 { NulFreeAt(s[1..], i - 1); }
  }

  /** Field widths, integer ranges, NUL-free names and sizes that an int32 can carry. */
  ghost predicate WfVal(w: Wire)
    decreases w, 0
  {
    match w
    case WDouble(bits) => |bits| == 8
    case WString(utf8) => |utf8| + 1 < TWO31
    case WObject(d) => WfDoc(d)
    case WArray(d) => WfDoc(d)
    case WBinary(st, data) => |data| < TWO31
    case WOid(oid) => |oid| == 12
    case WDate(ms) => -TWO63 <= ms < TWO63
    case WRegex(p, f) => NulFree(p) && NulFree(f)
    case WInt(i) => -TWO31 <= i < TWO31
    case WTimestamp(t) => -TWO63 <= t < TWO63
    case WLong(i) => -TWO63 <= i < TWO63
    case WDecimal(dec) => |dec| == 16
    case _ => true
  }

  ghost predicate WfFields(d: Doc)
    decreases d, 0
  {
    d.Cons? ==> NulFree(d.name) && WfVal(d.val) && WfFields(d.rest)
  }

  ghost predicate WfDoc(d: Doc)
    decreases d, 1
  {
    WfFields(d) && |EncDoc(d)| < TWO31
  }

  /** Number of tree nodes: the termination measure of every reader. */
  function WeightVal(w: Wire): nat
    decreases w, 0
  {
    match w
    case WObject(d) => 1 + Weight(d)
    case WArray(d) => 1 + Weight(d)
    case _ => 0
  }

  function Weight(d: Doc): nat
    decreases d, 1
  {
    match d
    case Nil => 0
    case Cons(_, w, rest) => 1 + WeightVal(w) + Weight(rest)
  }

  // ---------------------------------------------------------------------------
  // Cursor movement
  // ---------------------------------------------------------------------------

  datatype Error =
    | UnexpectedEnd
    | NegativeLength
    | SizeTooSmall
    | UnknownType
    | UnknownLearnedType
    | Conversion
    | Missing
    | BadBigInt
    | HostError

  datatype Result<+T> = Ok(v: T) | Err(e: Error)

  /** Position of the first NUL at or after `o`, or the end of the buffer. */
  function NulFrom(buf: seq<byte>, o: nat): (r: nat)
    ensures r >= o
    decreases |buf| - o
  {
    if o < |buf| && buf[o] != 0 then NulFrom(buf, o + 1) else o
  }

  lemma {:induction false} NulFromPlaced(buf: seq<byte>, o: nat, name: seq<byte>)
    requires NulFree(name) && Placed(buf, o, name + [0])
    ensures NulFrom(buf, o) == o + |name| < |buf|
    decreases |name|
  {
    PlacedAt(buf, o, name + [0], 0);
    if name != [] {
      assert name + [0] == [name[0]] + (name[1..] + [0]);
      PlacedAppend(buf, o, [name[0]], name[1..] + [0]);
      NulFromPlaced(buf, o + 1, name[1..]);
    }
  }

  /** `while (o < bufLen && buffer[o++] !== 0);` */
  method SkipPastNul(buf: seq<byte>, o: nat) returns (r: nat)
    ensures r == PastNul(buf, o)
  {
    r := o;
    while r < |buf|
      invariant PastNul(buf, r) == PastNul(buf, o)
    {
      var b := buf[r];
      r := r + 1;
      if b == 0 { return; }
    }
  }

  function PastNul(buf: seq<byte>, o: nat): (r: nat)
    ensures r >= o
  {
    var z := NulFrom(buf, o);
    if z < |buf| then z + 1 else z
  }

  /** skipValue: the offset after a value of the given type. */
  function SkipValue(buf: seq<byte>, o: nat, tag: int): (r: Result<nat>)
    ensures r.Ok? ==> r.v >= o
  {
    if tag == DOUBLE then Ok(o + 8)
    else if tag == STRING then
      var len := ReadI32(buf, o);
      if len < 0 then Err(NegativeLength) else Ok(o + 4 + len)
    else if tag == OBJECT || tag == ARRAY then
      var size := ReadI32(buf, o);
      if size < 5 then Err(SizeTooSmall) else Ok(o + size)
    else if tag == BINARY then
      var len := ReadI32(buf, o);
      if len < 0 then Err(NegativeLength) else Ok(o + 4 + 1 + len)
    else if tag == UNDEFINED || tag == NULL || tag == MIN_KEY || tag == MAX_KEY then Ok(o)
    else if tag == OID then Ok(o + 12)
    else if tag == BOOLEAN then Ok(o + 1)
    else if tag == DATE || tag == TIMESTAMP || tag == LONG then Ok(o + 8)
    else if tag == INT then Ok(o + 4)
    else if tag == DECIMAL128 then Ok(o + 16)
    else if tag == REGEX then
      var p := PastNul(buf, o);
      if p >= |buf| then Err(UnexpectedEnd) else
      var f := PastNul(buf, p);
      if f > |buf| then Err(UnexpectedEnd) else Ok(f)
    else Err(UnknownType)
  }

  /** On any bytes skipValue fails on unknown types, sizes that are too small, and expressions that do not end. */
  lemma {:induction false} SkipFailsIff(buf: seq<byte>, o: nat, tag: int)
    ensures SkipValue(buf, o, tag).Err? <==>
            || tag !in {1, 2, 3, 4, 5, 6, 7, 8, 9, 10, 11, 16, 17, 18, 19, 127, 255}
            || (tag in {2, 5} && ReadI32(buf, o) < 0)
            || (tag in {3, 4} && ReadI32(buf, o) < 5)
            || (tag == 11 && PastNul(buf, o) >= |buf|)
    ensures SkipValue(buf, o, tag) == Err(UnknownType) <==>
            tag !in {1, 2, 3, 4, 5, 6, 7, 8, 9, 10, 11, 16, 17, 18, 19, 127, 255}
  {
    hide ReadI32;
    PastNulBound(buf, PastNul(buf, o));
  }

  lemma {:induction false} PastNulBound(buf: seq<byte>, o: nat)
    ensures o <= |buf| ==> PastNul(buf, o) <= |buf|
    decreases |buf| - o
  {
    if o < |buf| && buf[o] != 0 { PastNulBound(buf, o + 1); }
  }

  /** Where a sized value keeps its length, the readers see exactly that length. */
  lemma {:induction false} SizeField(buf: seq<byte>, o: nat, w: Wire)
    requires WfVal(w) && Placed(buf, o, EncVal(w))
    ensures w.WString? ==> ReadI32(buf, o) == |w.utf8| + 1
    ensures w.WObject? ==> ReadI32(buf, o) == |EncDoc(w.doc)|
    ensures w.WArray? ==> ReadI32(buf, o) == |EncDoc(w.elems)|
    ensures w.WBinary? ==> ReadI32(buf, o) == |w.data|
  {
    hide LeBytes, ReadLe;
    match w
    case WString(utf8) =>
      assert EncVal(w) == Le32(|utf8| + 1) + (utf8 + [0]);
      PlacedAppend(buf, o, Le32(|utf8| + 1), utf8 + [0]);
      ReadLe32(buf, o, |utf8| + 1);
    case WObject(d) => DocSize(buf, o, d);
    case WArray(d) => DocSize(buf, o, d);
    case WBinary(st, data) =>
      assert EncVal(w) == Le32(|data|) + ([st] + data);
      PlacedAppend(buf, o, Le32(|data|), [st] + data);
      ReadLe32(buf, o, |data|);
    case _ =>
  }

  lemma {:induction false} DocSize(buf: seq<byte>, o: nat, d: Doc)
    requires WfDoc(d) && Placed(buf, o, EncDoc(d))
    ensures ReadI32(buf, o) == |EncDoc(d)|
    ensures Placed(buf, o + 4, EncFields(d) + [0])
  {
    var f := EncFields(d);
    assert EncDoc(d) == Le32(|f| + 5) + (f + [0]);
    PlacedAppend(buf, o, Le32(|f| + 5), f + [0]);
    ReadLe32(buf, o, |f| + 5);
  }

  /** The cursor law: over a well-formed value skipValue moves exactly past its bytes. */
  lemma {:induction false} SkipValueExact(buf: seq<byte>, o: nat, w: Wire)
    requires WfVal(w) && Placed(buf, o, EncVal(w))
    ensures SkipValue(buf, o, Tag(w)) == Ok(o + |EncVal(w)|)
  {
    hide ReadI32, Placed, PastNul, LeBytes;
    SizeField(buf, o, w);
    if w.WRegex? {
      SkipRegexExact(buf, o, w.pattern, w.options);
    }
  }

  lemma {:induction false} SkipRegexExact(buf: seq<byte>, o: nat, p: seq<byte>, f: seq<byte>)
    requires NulFree(p) && NulFree(f) && Placed(buf, o, p + [0] + f + [0])
    ensures SkipValue(buf, o, REGEX) == Ok(o + |p| + |f| + 2)
  {
    assert p + [0] + f + [0] == (p + [0]) + (f + [0]);
    PlacedAppend(buf, o, p + [0], f + [0]);
    NulFromPlaced(buf, o, p);
    NulFromPlaced(buf, o + |p| + 1, f);
  }

  lemma {:induction false} EncFieldsSplit(d: Doc)
    requires d.Cons?
    ensures EncFields(d) + [0] == [Tag(d.val)] + ((d.name + [0]) + (EncVal(d.val) + (EncFields(d.rest) + [0])))
    ensures |EncFields(d)| == 2 + |d.name| + |EncVal(d.val)| + |EncFields(d.rest)|
  {
    var v, r := EncVal(d.val), EncFields(d.rest);
    assert EncFields(d) == Header(Tag(d.val), d.name) + v + r;
  }

  /** A well-formed element at the cursor: its type byte, its name, its value and what follows it. */
  lemma {:induction false} FieldPlaced(buf: seq<byte>, o: nat, d: Doc)
    requires d.Cons? && WfFields(d) && Placed(buf, o, EncFields(d) + [0])
    ensures o < |buf| && buf[o] == Tag(d.val) != 0
    ensures Placed(buf, o + 1, d.name + [0])
    ensures NulFrom(buf, o + 1) == o + 1 + |d.name| < |buf|
    ensures Placed(buf, o + 2 + |d.name|, EncVal(d.val))
    ensures Placed(buf, o + 2 + |d.name| + |EncVal(d.val)|, EncFields(d.rest) + [0])
    ensures |EncFields(d)| == 2 + |d.name| + |EncVal(d.val)| + |EncFields(d.rest)|
  {
    EncFieldsSplit(d);
    ElementParts(buf, o, [Tag(d.val)], d.name + [0], EncVal(d.val), EncFields(d.rest) + [0]);
    PlacedAt(buf, o, [Tag(d.val)], 0);
    NulFromPlaced(buf, o + 1, d.name);
  }

  lemma {:induction false} ElementParts(buf: seq<byte>, o: nat, t: seq<byte>, n: seq<byte>, v: seq<byte>, r: seq<byte>)
    requires Placed(buf, o, t + (n + (v + r)))
    ensures Placed(buf, o, t) && Placed(buf, o + |t|, n) && Placed(buf, o + |t| + |n|, v)
    ensures Placed(buf, o + |t| + |n| + |v|, r)
  {
    PlacedAppend(buf, o, t, n + (v + r));
    PlacedAppend(buf, o + |t|, n, v + r);
    PlacedAppend(buf, o + |t| + |n|, v, r);
  }

  /** The cursor of an element loop: elements `d`, then the terminator at `end`. */
  ghost predicate AtFields(buf: seq<byte>, o: int, end: int, d: Doc) {
    WfFields(d) && Placed(buf, o, EncFields(d) + [0]) && o + |EncFields(d)| == end
  }

  lemma {:induction false} OpenDoc(buf: seq<byte>, o: nat, d: Doc)
    requires WfDoc(d) && Placed(buf, o, EncDoc(d))
    ensures ReadI32(buf, o) == |EncDoc(d)|
    ensures AtFields(buf, o + 4, o + |EncDoc(d)| - 1, d)
  {
    DocSize(buf, o, d);
  }

  /** Inside the loop there is an element at the cursor, and its successor state is one value further. */
  lemma {:induction false} Element(buf: seq<byte>, o: nat, end: int, d: Doc)
    requires AtFields(buf, o, end, d) && o < end
    ensures d.Cons? && NulFree(d.name) && WfVal(d.val)
    ensures At(buf, o) == Tag(d.val)
    ensures Placed(buf, o + 1, d.name + [0]) && NulFrom(buf, o + 1) == o + 1 + |d.name| < |buf|
    ensures Placed(buf, o + 2 + |d.name|, EncVal(d.val))
    ensures AtFields(buf, o + 2 + |d.name| + |EncVal(d.val)|, end, d.rest)
    ensures Weight(d) == 1 + WeightVal(d.val) + Weight(d.rest)
  {
    FieldPlaced(buf, o, d);
  }

  /** The byte at the cursor is the terminator exactly when no element is left. */
  lemma {:induction false} Ended(buf: seq<byte>, o: nat, end: int, d: Doc)
    requires AtFields(buf, o, end, d)
    ensures o <= end < |buf|
    ensures o < end <==> d.Cons?
    ensures At(buf, o) == 0 <==> d.Nil?
  {
    if d.Cons? { FieldPlaced(buf, o, d); } else { PlacedAt(buf, o, EncFields(d) + [0], 0); }
  }
}
