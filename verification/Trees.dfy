/**
 * Reading bytes back into a document tree: the inverse of the encoding of module Wire, as an independent definition of
 * what the bytes of a document say.
 */
module Trees {
  import opened Bytes
  import opened Wire
  import opened Readers

  /** A value of `n` bytes, if the buffer holds them. */
  function Sized(buf: seq<byte>, o: nat, n: nat, w: Wire): (r: Option<(Wire, nat)>)
    ensures r.Some? ==> o <= r.value.1 <= |buf|
  {
    if o + n <= |buf| then Some((w, o + n)) else None
  }

  function ReadRegex(buf: seq<byte>, o: nat): (r: Option<(Wire, nat)>)
    ensures r.Some? ==> o <= r.value.1 <= |buf|
  {
    var p := NulFrom(buf, o);
    var q := NulFrom(buf, p + 1);
    if q < |buf| then Some((WRegex(Window(buf, o, p - o), Window(buf, p + 1, q - p - 1)), q + 1)) else None
  }

  function ReadSized(buf: seq<byte>, o: nat, tag: int): (r: Option<(Wire, nat)>)
    ensures r.Some? ==> o <= r.value.1 <= |buf|
  {
    var n := ReadI32(buf, o);
    if tag == STRING && n >= 1 then Sized(buf, o, 4 + n, WString(Window(buf, o + 4, n - 1)))
    else if tag == BINARY && n >= 0 then Sized(buf, o, 5 + n, WBinary(Bits(buf, o + 4), Window(buf, o + 5, n)))
    else None
  }

  function ReadFixed(buf: seq<byte>, o: nat, tag: int): (r: Option<(Wire, nat)>)
    ensures r.Some? ==> o <= r.value.1 <= |buf|
  {
    if tag == DOUBLE then Sized(buf, o, 8, WDouble(Window(buf, o, 8)))
    else if tag == UNDEFINED then Sized(buf, o, 0, WUndefined)
    else if tag == OID then Sized(buf, o, 12, WOid(Window(buf, o, 12)))
    else if tag == BOOLEAN then Sized(buf, o, 1, WBool(At(buf, o) == 1))
    else if tag == DATE then Sized(buf, o, 8, WDate(ReadI64(buf, o)))
    else if tag == NULL then Sized(buf, o, 0, WNull)
    else if tag == INT then Sized(buf, o, 4, WInt(ReadI32(buf, o)))
    else if tag == TIMESTAMP then Sized(buf, o, 8, WTimestamp(ReadI64(buf, o)))
    else if tag == LONG then Sized(buf, o, 8, WLong(ReadI64(buf, o)))
    else if tag == DECIMAL128 then Sized(buf, o, 16, WDecimal(Window(buf, o, 16)))
    else if tag == MIN_KEY then Sized(buf, o, 0, WMinKey)
    else if tag == MAX_KEY then Sized(buf, o, 0, WMaxKey)
    else None
  }

  function ReadVal(buf: seq<byte>, o: nat, tag: int): (r: Option<(Wire, nat)>)
    requires o <= |buf|
    ensures r.Some? ==> o <= r.value.1 <= |buf|
    decreases |buf| - o, 1
  {
    if tag == OBJECT || tag == ARRAY then
      if o + 4 > |buf| then None
      else
        match ReadFields(buf, o + 4)
        case None => None
        case Some((d, p)) => Some((if tag == OBJECT then WObject(d) else WArray(d), p))
    else if tag == REGEX then ReadRegex(buf, o)
    else if tag == STRING || tag == BINARY then ReadSized(buf, o, tag)
    else ReadFixed(buf, o, tag)
  }

  /** Elements up to and including the terminator. */
  function ReadFields(buf: seq<byte>, o: nat): (r: Option<(Doc, nat)>)
    requires o <= |buf|
    ensures r.Some? ==> o < r.value.1 <= |buf|
    decreases |buf| - o, 0
  {
    if o == |buf| then None
    else if buf[o] == 0 then Some((Nil, o + 1))
    else
      var z := NulFrom(buf, o + 1);
      if z >= |buf| then None
      else
        match ReadVal(buf, z + 1, buf[o])
        case None => None
        case Some((w, p)) =>
          match ReadFields(buf, p)
          case None => None
          case Some((rest, q)) => Some((Cons(Window(buf, o + 1, z - o - 1), w, rest), q))
  }

  function TreeOf(bytes: seq<byte>): Option<Doc> {
    if |bytes| < 4 then None
    else
      match ReadFields(bytes, 4)
      case None => None
      case Some((d, _)) => Some(d)
  }

  lemma {:induction false} FixedReads(buf: seq<byte>, o: nat, w: Wire)
    requires WfVal(w) && Placed(buf, o, EncVal(w))
    requires !w.WObject? && !w.WArray? && !w.WRegex? && !w.WString? && !w.WBinary?
    ensures ReadFixed(buf, o, Tag(w)) == Some((w, o + |EncVal(w)|))
  {
    hide ReadI32, ReadI64, At, Window;
    SeeInt(buf, o, w);
    if w.WBool? { SeeBool(buf, o, w); }
    match w
    case WDouble(bits) => WindowPlaced(buf, o, bits);
    case WOid(oid) => WindowPlaced(buf, o, oid);
    case WDecimal(dec) => WindowPlaced(buf, o, dec);
    case _ =>
  }

  lemma {:induction false} SizedReads(buf: seq<byte>, o: nat, w: Wire)
    requires WfVal(w) && Placed(buf, o, EncVal(w)) && (w.WString? || w.WBinary?)
    ensures ReadSized(buf, o, Tag(w)) == Some((w, o + |EncVal(w)|))
  {
    hide ReadI32, Window, LeBytes;
    SizeField(buf, o, w);
    match w
    case WString(u) =>
      assert EncVal(w) == Le32(|u| + 1) + (u + [0]);
      PlacedAppend(buf, o, Le32(|u| + 1), u + [0]);
      PlacedAppend(buf, o + 4, u, [0]);
      WindowPlaced(buf, o + 4, u);
    case WBinary(st, data) =>
      SeeBinary(buf, o, w);
  }

  lemma {:induction false} RegexReads(buf: seq<byte>, o: nat, p: seq<byte>, f: seq<byte>)
    requires NulFree(p) && NulFree(f) && Placed(buf, o, p + [0] + f + [0])
    ensures ReadRegex(buf, o) == Some((WRegex(p, f), o + |p| + |f| + 2))
  {
    hide Placed, Window, NulFrom, NulFree;
    assert p + [0] + f + [0] == (p + [0]) + (f + [0]);
    PlacedAppend(buf, o, p + [0], f + [0]);
    NulFromPlaced(buf, o, p);
    NulFromPlaced(buf, o + |p| + 1, f);
    PlacedAppend(buf, o, p, [0]);
    PlacedAppend(buf, o + |p| + 1, f, [0]);
    WindowPlaced(buf, o, p);
    WindowPlaced(buf, o + |p| + 1, f);
  }

  lemma {:induction false} ValReads(buf: seq<byte>, o: nat, w: Wire)
    requires WfVal(w) && Placed(buf, o, EncVal(w))
    ensures ReadVal(buf, o, Tag(w)) == Some((w, o + |EncVal(w)|))
    decreases w, 0
  {
    hide ReadFixed, ReadSized, ReadRegex, ReadFields, LeBytes, Placed, NulFree;
    match w
    case WObject(d) =>
      DocSize(buf, o, d);
      FieldsRead(buf, o + 4, d);
    case WArray(d) =>
      DocSize(buf, o, d);
      FieldsRead(buf, o + 4, d);
    case WRegex(p, f) => RegexReads(buf, o, p, f);
    case WString(_) => SizedReads(buf, o, w);
    case WBinary(_, _) => SizedReads(buf, o, w);
    case _ => FixedReads(buf, o, w);
  }

  lemma {:induction false} ElementReads(buf: seq<byte>, o: nat, name: seq<byte>, w: Wire, p: nat, rest: Doc, q: nat)
    requires o < |buf| && buf[o] == Tag(w) && NulFrom(buf, o + 1) == o + 1 + |name| < |buf|
    requires Window(buf, o + 1, |name|) == name
    requires ReadVal(buf, o + 2 + |name|, Tag(w)) == Some((w, p)) && ReadFields(buf, p) == Some((rest, q))
    ensures ReadFields(buf, o) == Some((Cons(name, w, rest), q))
  {
    hide ReadVal, NulFrom, Window, Tag;
  }

  lemma {:induction false} FieldsRead(buf: seq<byte>, o: nat, d: Doc)
    requires WfFields(d) && Placed(buf, o, EncFields(d) + [0])
    ensures o <= |buf| && ReadFields(buf, o) == Some((d, o + |EncFields(d)| + 1))
    decreases d, 1
  {
    hide EncVal, ReadVal, NulFrom, Placed, Window, Header, Tag;
    match d
    case Nil =>
      assert EncFields(Nil) + [0] == [0];
      PlacedAt(buf, o, [0], 0);
    case Cons(name, w, rest) =>
      hide EncFields, ReadFields;
      FieldPlaced(buf, o, d);
      var p := o + 2 + |name| + |EncVal(w)|;
      ValReads(buf, o + 2 + |name|, w);
      FieldsRead(buf, p, rest);
      PlacedAppend(buf, o + 1, name, [0]);
      WindowPlaced(buf, o + 1, name);
      ElementReads(buf, o, name, w, p, rest, p + |EncFields(rest)| + 1);
  }

  /** A well-formed document is read back from its bytes, so no two documents have the same bytes. */
  lemma {:induction false} TreeReadsBack(d: Doc)
    requires WfDoc(d)
    ensures TreeOf(EncDoc(d)) == Some(d)
  {
    hide ReadFields, EncFields;
    assert Placed(EncDoc(d), 0, EncDoc(d));
    DocSize(EncDoc(d), 0, d);
    FieldsRead(EncDoc(d), 4, d);
  }
}
