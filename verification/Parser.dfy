/**
 * The untyped parser. It is total on arbitrary bytes: nested documents may overrun the document that holds them,
 * yet every nested offset is larger than the one before. On well-formed documents it is a function of the tree.
 */
module Parser {
  import opened Bytes
  import opened Wire
  import opened Utf8
  import opened Types
  import opened Readers
  import opened Untyped

  /** ParsedField: a BSON type and the offset of the value. */
  datatype Entry = Entry(tag: int, offset: nat)

  /** parseDocumentFields: the last field of each name, and all names in order. */
  datatype Fields = Fields(entries: map<Str, Entry>, keys: seq<Str>)

  const PROTO: Str := [95, 95, 112, 114, 111, 116, 111, 95, 95]

  /** readCString: the text and the offset behind its terminator. */
  function CString(e: Engine, buf: seq<byte>, o: nat): Result<(Str, nat)> {
    var z := NulFrom(buf, o);
    if z >= |buf| then Err(UnexpectedEnd) else Ok((Text(e.h.dec, buf[o..z]), z + 1))
  }

  /** ensureAvailable and the size check both document parsers start with: the end, or an error. */
  function Framing(buf: seq<byte>, o: nat): (r: Result<int>)
    ensures r.Ok? ==> o + 4 <= |buf| && r.v < |buf|
  {
    if o + 4 > |buf| then Err(UnexpectedEnd)
    else
      var size := ReadI32(buf, o);
      if size <= 0 || o + size > |buf| then Err(UnexpectedEnd) else Ok(o + size - 1)
  }

  /** A document is taken for one exactly if its size is there, positive, and covered by the buffer. */
  lemma {:induction false} FramedIff(buf: seq<byte>, o: nat)
    ensures Framing(buf, o).Ok? <==> |buf| - o >= 4 && 1 <= ReadI32(buf, o) <= |buf| - o
    ensures Framing(buf, o).Ok? ==> Framing(buf, o).v + 1 == o + ReadI32(buf, o)
  {
  }

  ghost predicate Beyond(fs: Fields, o: nat, n: nat) {
    && (forall key :: key in fs.keys ==> key in fs.entries)
    && (forall key :: key in fs.entries ==> o < fs.entries[key].offset <= n)
  }

  /** The element loop of parseDocumentFields. */
  function Scan(e: Engine, buf: seq<byte>, o: nat, end: int, fs: Fields): Result<Fields>
    requires end < |buf|
    decreases |buf| - o, 0
  {
    if o >= end || buf[o] == 0 then Ok(fs)
    else if o + 1 + 1 > |buf| then Err(UnexpectedEnd)
    else
      match CString(e, buf, o + 1)
      case Err(x) => Err(x)
      case Ok((name, p)) =>
        ScanPast(e, buf, p, buf[o], end, Fields(fs.entries[name := Entry(buf[o], p)], fs.keys + [name]))
  }

  /** The loop goes on behind the value it has recorded. */
  function ScanPast(e: Engine, buf: seq<byte>, p: nat, tag: int, end: int, fs: Fields): Result<Fields>
    requires end < |buf| && p <= |buf|
    decreases |buf| - p, 1
  {
    match SkipValue(buf, p, tag)
    case Err(x) => Err(x)
    case Ok(q) => Scan(e, buf, q, end, fs)
  }

  lemma {:induction false} ScanBeyond(e: Engine, buf: seq<byte>, o: nat, end: int, fs: Fields, start: nat)
    requires end < |buf| && start < o && Beyond(fs, start, |buf|)
    ensures Scan(e, buf, o, end, fs).Ok? ==> Beyond(Scan(e, buf, o, end, fs).v, start, |buf|)
    decreases |buf| - o
  {
    if o < end && buf[o] != 0 {
      match CString(e, buf, o + 1)
      case Err(_) =>
      case Ok((name, p)) =>
        var next := Fields(fs.entries[name := Entry(buf[o], p)], fs.keys + [name]);
        match SkipValue(buf, p, buf[o]) {
          case Err(_) =>
          case Ok(q) =>
            ScanBeyond(e, buf, q, end, next, start);
            assert ScanPast(e, buf, p, buf[o], end, next) == Scan(e, buf, q, end, next);
        }
    }
  }

  function ParseFields(e: Engine, buf: seq<byte>, o: nat): (r: Result<Fields>)
    ensures r.Ok? ==> Beyond(r.v, o, |buf|) && o < |buf|
  {
    match Framing(buf, o)
    case Err(x) => Err(x)
    case Ok(end) =>
      ScanBeyond(e, buf, o + 4, end, Fields(map[], []), o);
      Scan(e, buf, o + 4, end, Fields(map[], []))
  }

  /** The element loop of parseArrayElements. */
  function ScanElems(buf: seq<byte>, o: nat, end: int, acc: seq<Entry>): Result<seq<Entry>>
    requires end < |buf|
    decreases |buf| - o, 0
  {
    if o >= end || buf[o] == 0 then Ok(acc)
    else
      var z := NulFrom(buf, o + 1);
      if z >= |buf| then Err(UnexpectedEnd)
      else ScanElemsPast(buf, z + 1, buf[o], end, acc + [Entry(buf[o], z + 1)])
  }

  function ScanElemsPast(buf: seq<byte>, p: nat, tag: int, end: int, acc: seq<Entry>): Result<seq<Entry>>
    requires end < |buf| && p <= |buf|
    decreases |buf| - p, 1
  {
    match SkipValue(buf, p, tag)
    case Err(x) => Err(x)
    case Ok(q) => ScanElems(buf, q, end, acc)
  }

  ghost predicate AllBeyond(es: seq<Entry>, o: nat, n: nat) {
    forall i :: 0 <= i < |es| ==> o < es[i].offset <= n
  }

  lemma {:induction false} ScanElemsBeyond(buf: seq<byte>, o: nat, end: int, acc: seq<Entry>, start: nat)
    requires end < |buf| && start < o && AllBeyond(acc, start, |buf|)
    ensures ScanElems(buf, o, end, acc).Ok? ==> AllBeyond(ScanElems(buf, o, end, acc).v, start, |buf|)
    decreases |buf| - o
  {
    if o < end && buf[o] != 0 {
      var z := NulFrom(buf, o + 1);
      if z < |buf| {
        match SkipValue(buf, z + 1, buf[o])
        case Err(_) =>
        case Ok(q) =>
          var next := acc + [Entry(buf[o], z + 1)];
          ScanElemsBeyond(buf, q, end, next, start);
          assert ScanElemsPast(buf, z + 1, buf[o], end, next) == ScanElems(buf, q, end, next);
      }
    }
  }

  function ParseElems(buf: seq<byte>, o: nat): (r: Result<seq<Entry>>)
    ensures r.Ok? ==> AllBeyond(r.v, o, |buf|) && o < |buf|
  {
    match Framing(buf, o)
    case Err(x) => Err(x)
    case Ok(end) =>
      ScanElemsBeyond(buf, o + 4, end, [], o);
      ScanElems(buf, o + 4, end, [])
  }

  // --- values

  /** `result[key] = value`: replaces in place, or appends. */
  function Put(ps: Props, key: Str, v: Any): Props {
    match ps
    case PNil => PCons(key, v, PNil)
    case PCons(k, x, rest) => if k == key then PCons(k, v, rest) else PCons(k, x, Put(rest, key, v))
  }

  function Push(xs: Items, v: Any): Items {
    match xs
    case INil => ICons(v, INil)
    case ICons(x, rest) => ICons(x, Push(rest, v))
  }

  /** `flags.replace(/s/g, 'g')` */
  function GlobalFlags(s: Str): Str {
    if s == [] then [] else [if s[0] == 115 then 103 else s[0]] + GlobalFlags(s[1..])
  }

  function ParseBinary(buf: seq<byte>, o: nat): Result<Any> {
    var length := ReadI32(buf, o);
    if o + 5 + length > |buf| then Err(UnexpectedEnd)
    else if At(buf, o + 4) == 4 && length == 16 then Ok(AStr(UuidText(Window(buf, o + 5, 16))))
    else if length < 0 then Err(HostError)
    else Ok(ABinary(buf[o + 5..o + 5 + length]))
  }

  function ParseRegExp(e: Engine, buf: seq<byte>, o: nat): Result<Any> {
    match CString(e, buf, o)
    case Err(x) => Err(x)
    case Ok((pattern, p)) =>
      match CString(e, buf, p)
      case Err(x) => Err(x)
      case Ok((flags, _)) => e.regexp(pattern, GlobalFlags(flags))
  }

  function ParseText(e: Engine, buf: seq<byte>, o: nat): Result<Any> {
    match ReadBsonString(e.h, buf, o)
    case Err(x) => Err(x)
    case Ok((s, _)) => Ok(AStr(s))
  }

  /** parseValueAny on everything but documents and arrays. */
  function ParseLeaf(e: Engine, buf: seq<byte>, o: nat, tag: int): Result<Any> {
    if tag == STRING then ParseText(e, buf, o)
    else if tag == INT then Ok(ANum(Int(ReadI32(buf, o))))
    else if tag == DOUBLE then Ok(ANum(NanToZero(ReadDouble(e.h, buf, o))))
    else if tag == LONG || tag == TIMESTAMP then Ok(ABig(ReadI64(buf, o)))
    else if tag == BOOLEAN then Ok(ABool(At(buf, o) == 1))
    else if tag == NULL then Ok(ANull)
    else if tag == UNDEFINED then Ok(AUndef)
    else if tag == DATE then Ok(ADate(ReadI64(buf, o)))
    else if tag == OID then Ok(AStr(Hex(Window(buf, o, 12))))
    else if tag == REGEX then ParseRegExp(e, buf, o)
    else if tag == BINARY then ParseBinary(buf, o)
    else Err(UnknownType)
  }

  /** parseValueAny. */
  function ParseValue(e: Engine, buf: seq<byte>, o: nat, tag: int): Result<Any>
    decreases Left(buf, o), 3, 0
  {
    if tag == OBJECT then ParseObject(e, buf, o)
    else if tag == ARRAY then ParseArray(e, buf, o)
    else ParseLeaf(e, buf, o, tag)
  }

  function Left(buf: seq<byte>, o: nat): nat { if o <= |buf| then |buf| - o else 0 }

  /** parseDocumentToObject. */
  function ParseObject(e: Engine, buf: seq<byte>, o: nat): Result<Any>
    decreases Left(buf, o), 2, 0
  {
    match ParseFields(e, buf, o)
    case Err(x) => Err(x)
    case Ok(fs) => ParseKeys(e, buf, o, fs, 0, PNil)
  }

  /** Its loop over the names, from the i-th on. */
  function ParseKeys(e: Engine, buf: seq<byte>, o: nat, fs: Fields, i: nat, acc: Props): Result<Any>
    requires Beyond(fs, o, |buf|) && o < |buf| && i <= |fs.keys|
    decreases Left(buf, o), 1, |fs.keys| - i
  {
    if i == |fs.keys| then Ok(AObj(acc))
    else
      var key := fs.keys[i];
      if key == PROTO then ParseKeys(e, buf, o, fs, i + 1, acc)
      else
        match ParseValue(e, buf, fs.entries[key].offset, fs.entries[key].tag)
        case Err(x) => Err(x)
        case Ok(v) => ParseKeys(e, buf, o, fs, i + 1, Put(acc, key, v))
  }

  /** parseArrayToArray. */
  function ParseArray(e: Engine, buf: seq<byte>, o: nat): Result<Any>
    decreases Left(buf, o), 2, 0
  {
    match ParseElems(buf, o)
    case Err(x) => Err(x)
    case Ok(es) => ParseItems(e, buf, o, es, 0, INil)
  }

  function ParseItems(e: Engine, buf: seq<byte>, o: nat, es: seq<Entry>, i: nat, acc: Items): Result<Any>
    requires AllBeyond(es, o, |buf|) && o < |buf| && i <= |es|
    decreases Left(buf, o), 1, |es| - i
  {
    if i == |es| then Ok(AArr(acc))
    else
      match ParseValue(e, buf, es[i].offset, es[i].tag)
      case Err(x) => Err(x)
      case Ok(v) => ParseItems(e, buf, o, es, i + 1, Push(acc, v))
  }

  // ---------------------------------------------------------------------------
  // The loops
  // ---------------------------------------------------------------------------

  method ParseDocumentFields(e: Engine, buf: seq<byte>, offset: nat) returns (res: Result<Fields>)
    ensures res == ParseFields(e, buf, offset)
  {
    var fs := Fields(map[], []);
    if offset + 4 > |buf| { return Err(UnexpectedEnd); }
    var size := ReadI32(buf, offset);
    if size <= 0 || offset + size > |buf| { return Err(UnexpectedEnd); }
    var end := offset + size - 1;
    var o := offset + 4;
    ghost var goal := Scan(e, buf, o, end, fs);
    while o < end
      invariant Scan(e, buf, o, end, fs) == goal
      decreases |buf| - o
    {
      var tag := buf[o];
      if tag == 0 { break; }
      if o + 1 + 1 > |buf| { return Err(UnexpectedEnd); }
      var name, p;
      match CString(e, buf, o + 1) {
        case Err(x) => return Err(x);
        case Ok((text, q)) => name, p := text, q;
      }
      fs := Fields(fs.entries[name := Entry(tag, p)], fs.keys + [name]);
      assert ScanPast(e, buf, p, tag, end, fs) == goal;
      match SkipValue(buf, p, tag) {
        case Err(x) => return Err(x);
        case Ok(q) => o := q;
      }
    }
    return Ok(fs);
  }

  method ParseArrayElements(buf: seq<byte>, offset: nat) returns (res: Result<seq<Entry>>)
    ensures res == ParseElems(buf, offset)
  {
    var es: seq<Entry> := [];
    if offset + 4 > |buf| { return Err(UnexpectedEnd); }
    var size := ReadI32(buf, offset);
    if size <= 0 || offset + size > |buf| { return Err(UnexpectedEnd); }
    var end := offset + size - 1;
    var o := offset + 4;
    ghost var goal := ScanElems(buf, o, end, es);
    while o < end
      invariant ScanElems(buf, o, end, es) == goal
      decreases |buf| - o
    {
      var tag := buf[o];
      if tag == 0 { break; }
      var z := NulFrom(buf, o + 1);
      if z >= |buf| { return Err(UnexpectedEnd); }
      es := es + [Entry(tag, z + 1)];
      assert ScanElemsPast(buf, z + 1, tag, end, es) == goal;
      match SkipValue(buf, z + 1, tag) {
        case Err(x) => return Err(x);
        case Ok(q) => o := q;
      }
    }
    return Ok(es);
  }

  /** parseDocumentToObject: no precondition, so it ends with a value or an error on any bytes. */
  method ParseDocumentToObject(e: Engine, buf: seq<byte>, o: nat) returns (res: Result<Any>)
    ensures res == ParseObject(e, buf, o)
    decreases Left(buf, o), 2
  {
    var fields := ParseDocumentFields(e, buf, o);
    match fields
    case Err(x) => return Err(x);
    case Ok(fs) =>
      var result := PNil;
      for i := 0 to |fs.keys|
        invariant ParseKeys(e, buf, o, fs, i, result) == ParseObject(e, buf, o)
      {
        var key := fs.keys[i];
        if key != PROTO {
          var x := ParseValueAny(e, buf, fs.entries[key].offset, fs.entries[key].tag);
          match x
          case Err(y) => return Err(y);
          case Ok(v) => result := Put(result, key, v);
        }
      }
      return Ok(AObj(result));
  }

  method ParseArrayToArray(e: Engine, buf: seq<byte>, o: nat) returns (res: Result<Any>)
    ensures res == ParseArray(e, buf, o)
    decreases Left(buf, o), 2
  {
    var elems := ParseArrayElements(buf, o);
    match elems
    case Err(x) => return Err(x);
    case Ok(es) =>
      var result := INil;
      for i := 0 to |es|
        invariant ParseItems(e, buf, o, es, i, result) == ParseArray(e, buf, o)
      {
        var x := ParseValueAny(e, buf, es[i].offset, es[i].tag);
        match x
        case Err(y) => return Err(y);
        case Ok(v) => result := Push(result, v);
      }
      return Ok(AArr(result));
  }

  method ParseValueAny(e: Engine, buf: seq<byte>, o: nat, tag: int) returns (res: Result<Any>)
    ensures res == ParseValue(e, buf, o, tag)
    decreases Left(buf, o), 3
  {
    if tag == OBJECT {
      res := ParseDocumentToObject(e, buf, o);
    } else if tag == ARRAY {
      res := ParseArrayToArray(e, buf, o);
    } else {
      res := ParseLeaf(e, buf, o, tag);
    }
  }
}
