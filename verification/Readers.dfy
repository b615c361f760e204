/** The per-type value readers of the typed deserializer, as they read bytes at a cursor. */
module Readers {
  import opened Bytes
  import opened Wire
  import opened Utf8
  import opened Types
  import opened Meaning

  function ReadDouble(h: Host, buf: seq<byte>, o: nat): Num { h.float64(Window(buf, o, 8)) }

  /** readBSONString: the string and the bytes consumed. */
  function ReadBsonString(h: Host, buf: seq<byte>, o: nat): Result<(Str, nat)> {
    var len := ReadI32(buf, o) - 1;
    if len < 0 then Err(NegativeLength)
    else if len == 0 then Ok(([], 5))
    else Ok((TextAt(h.dec, buf, o + 4, len), len + 5))
  }

  /**
   * readInt32 followed by an in-line decode; a negative length, at which decodeUTF8 throws, is in no well-formed value.
   */
  function InlineString(h: Host, buf: seq<byte>, o: nat): (Str, int) {
    var len := ReadI32(buf, o) - 1;
    (if len < 0 then [] else TextAt(h.dec, buf, o + 4, len), o + 4 + (len + 1))
  }

  function Skipped(v: Value, buf: seq<byte>, o: nat, tag: int): Result<(Value, int)> {
    match SkipValue(buf, o, tag)
    case Err(e) => Err(e)
    case Ok(p) => Ok((v, p))
  }

  function ReadStringValue(h: Host, buf: seq<byte>, o: nat, tag: int): Result<(Value, int)> {
    if tag == STRING then
      match ReadBsonString(h, buf, o)
      case Err(e) => Err(e)
      case Ok((s, n)) => Ok((VStr(s), o + n))
    else if tag == INT then Ok((VStr(h.numToStr(Int(ReadI32(buf, o)))), o + 4))
    else if tag == DOUBLE then Ok((VStr(h.numToStr(ReadDouble(h, buf, o))), o + 8))
    else if tag == BOOLEAN then Ok((VStr(if At(buf, o) == 1 then TRUE_TEXT else FALSE_TEXT), o + 1))
    else if tag == NULL || tag == UNDEFINED then Ok((VStr([]), o))
    else if tag == LONG then Ok((VStr(h.bigToStr(ReadI64(buf, o))), o + 8))
    else if tag == OID then Ok((VStr(Hex(Window(buf, o, 12))), o + 12))
    else Err(Conversion)
  }

  function ReadNumberValue(h: Host, buf: seq<byte>, o: nat, tag: int): Result<(Value, int)> {
    if tag == INT then Ok((VNum(Int(ReadI32(buf, o))), o + 4))
    else if tag == DOUBLE then Ok((VNum(NanToZero(ReadDouble(h, buf, o))), o + 8))
    else if tag == LONG then Ok((VNum(h.bigToNum(ReadI64(buf, o))), o + 8))
    else if tag == BOOLEAN then Ok((VNum(Int(if At(buf, o) == 1 then 1 else 0)), o + 1))
    else if tag == STRING then
      match ReadBsonString(h, buf, o)
      case Err(e) => Err(e)
      case Ok((s, n)) => Ok((VNum(h.strToNum(s)), o + n))
    else if tag == NULL || tag == UNDEFINED then Ok((VNum(Int(0)), o))
    else Skipped(VNum(Int(0)), buf, o, tag)
  }

  function ReadBooleanValue(h: Host, buf: seq<byte>, o: nat, tag: int): Result<(Value, int)> {
    if tag == BOOLEAN then Ok((VBool(At(buf, o) == 1), o + 1))
    else if tag == INT then Ok((VBool(ReadI32(buf, o) != 0), o + 4))
    else if tag == DOUBLE then
      Ok((VBool(ReadDouble(h, buf, o) != Int(0) && ReadDouble(h, buf, o) != Dbl(NEG_ZERO)), o + 8))
    else if tag == LONG then Ok((VBool(ReadI64(buf, o) != 0), o + 8))
    else if tag == STRING then
      match ReadBsonString(h, buf, o)
      case Err(e) => Err(e)
      case Ok((s, n)) => Ok((VBool(|s| > 0), o + n))
    else if tag == NULL || tag == UNDEFINED then Ok((VBool(false), o))
    else Skipped(VBool(false), buf, o, tag)
  }

  function WithCursor(r: Result<Value>, o: int): Result<(Value, int)> {
    match r
    case Err(e) => Err(e)
    case Ok(v) => Ok((v, o))
  }

  function ReadBigIntValue(h: Host, buf: seq<byte>, o: nat, tag: int): Result<(Value, int)> {
    if tag == LONG then Ok((VBig(ReadI64(buf, o)), o + 8))
    else if tag == INT then Ok((VBig(ReadI32(buf, o)), o + 4))
    else if tag == DOUBLE then WithCursor(FromHost(h.truncToBig(ReadDouble(h, buf, o))), o + 8)
    else if tag == BOOLEAN then Ok((VBig(if At(buf, o) == 1 then 1 else 0), o + 1))
    else if tag == STRING then
      match ReadBsonString(h, buf, o)
      case Err(e) => Err(e)
      case Ok((s, n)) => WithCursor(FromHost(h.strToBig(s)), o + n)
    else if tag == NULL || tag == UNDEFINED then Ok((VBig(0), o))
    else Skipped(VBig(0), buf, o, tag)
  }

  /** readBinaryBigInt and readSignedBinaryBigInt; their digit loops are in module BinaryBigInt. */
  function ReadBinaryBig(form: BigForm, buf: seq<byte>, o: nat): Result<(Value, int)> {
    var size := ReadI32(buf, o);
    if size == 0 then Ok((VBig(0), o + 5))
    else if size < 0 || size > MAX_BIGINT then Err(BadBigInt)
    else WithCursor(BinaryBigOf(form, Window(buf, o + 5, size)), o + 5 + size)
  }

  /** An unsigned BinaryBigInt read from another BSON type is clamped to 0n. */
  function ClampRead(form: BigForm, r: Result<(Value, int)>): Result<(Value, int)> {
    if form.Unsigned? && r.Ok? && r.v.0.VBig? && r.v.0.i < 0 then Ok((VBig(0), r.v.1)) else r
  }

  function ReadDateValue(h: Host, buf: seq<byte>, o: nat, tag: int): Result<(Value, int)> {
    if tag == DATE || tag == LONG then Ok((VDate(ReadI64(buf, o)), o + 8))
    else if tag == INT then Ok((VDate(ReadI32(buf, o)), o + 4))
    else if tag == DOUBLE then Ok((h.numToDate(ReadDouble(h, buf, o)), o + 8))
    else if tag == STRING then
      match ReadBsonString(h, buf, o)
      case Err(e) => Err(e)
      case Ok((s, n)) => Ok((h.strToDate(s), o + n))
    else if tag == NULL || tag == UNDEFINED then Ok((VDate(0), o))
    else Skipped(VDate(0), buf, o, tag)
  }

  function Validated(ok: bool, s: Str, o: int): Result<(Value, int)> {
    if ok then Ok((VStr(s), o)) else Err(Conversion)
  }

  function ReadUuid(h: Host, buf: seq<byte>, o: nat, tag: int): Result<(Value, int)> {
    if tag == BINARY then Ok((VStr(UuidText(Window(buf, o + 5, 16))), o + 21))
    else if tag == STRING then
      match ReadBsonString(h, buf, o)
      case Err(e) => Err(e)
      case Ok((s, n)) => Validated(IsUuidText(s), s, o + n)
    else Err(Conversion)
  }

  function ReadMongoId(h: Host, buf: seq<byte>, o: nat, tag: int): Result<(Value, int)> {
    if tag == OID then Ok((VStr(Hex(Window(buf, o, 12))), o + 12))
    else if tag == STRING then
      match ReadBsonString(h, buf, o)
      case Err(e) => Err(e)
      case Ok((s, n)) => Validated(IsMongoIdText(s), s, o + n)
    else Err(Conversion)
  }

  /** readBinaryValue: an empty array for other BSON types. */
  function ReadBinaryValue(buf: seq<byte>, o: nat, tag: int): Result<(Value, int)> {
    if tag == BINARY then
      var length := ReadI32(buf, o);
      if length < 0 then Err(NegativeLength) else Ok((VBytes(Window(buf, o + 5, length)), o + (4 + 1 + length)))
    else Skipped(VBytes([]), buf, o, tag)
  }

  /** deserializeUnionInto for string | number: the member is chosen by the BSON type. */
  function ReadTextOrNumber(h: Host, buf: seq<byte>, o: nat, tag: int): Result<(Value, int)> {
    if tag == STRING then Ok((VStr(InlineString(h, buf, o).0), InlineString(h, buf, o).1))
    else if tag == INT || tag == DOUBLE || tag == BOOLEAN then ReadNumberValue(h, buf, o, tag)
    else Err(Conversion)
  }

  /** deserializeEnumInto: any number or string is taken, everything else skipped. */
  function ReadEnum(h: Host, buf: seq<byte>, o: nat, tag: int): Result<(Slot, int)> {
    if tag == INT || tag == DOUBLE then
      match ReadNumberValue(h, buf, o, tag)
      case Err(e) => Err(e)
      case Ok((v, p)) => Ok((Set(v), p))
    else if tag == STRING then
      match ReadStringValue(h, buf, o, tag)
      case Err(e) => Err(e)
      case Ok((v, p)) => Ok((Set(v), p))
    else
      match SkipValue(buf, o, tag)
      case Err(e) => Err(e)
      case Ok(p) => Ok((Unset, p))
  }

  /** deserializeValueInto at a scalar type: the in-line fast paths, then the coercing readers. */
  function ReadScalar(h: Host, ty: Ty, buf: seq<byte>, o: nat, tag: int): Result<(Value, int)>
    requires IsScalar(ty)
  {
    match ty
    case TUuid => ReadUuid(h, buf, o, tag)
    case TMongoId => ReadMongoId(h, buf, o, tag)
    case TString =>
      if tag == STRING then Ok((VStr(InlineString(h, buf, o).0), InlineString(h, buf, o).1))
      else ReadStringValue(h, buf, o, tag)
    case TNumber =>
      if tag == INT then Ok((VNum(Int(ReadI32(buf, o))), o + 4))
      else if tag == DOUBLE then Ok((VNum(NanToZero(ReadDouble(h, buf, o))), o + 8))
      else ReadNumberValue(h, buf, o, tag)
    case TBoolean =>
      if tag == BOOLEAN then Ok((VBool(At(buf, o) == 1), o + 1)) else ReadBooleanValue(h, buf, o, tag)
    case TBigInt(form) =>
      if form == Long then
        if tag == LONG then Ok((VBig(ReadI64(buf, o)), o + 8)) else ReadBigIntValue(h, buf, o, tag)
      else if tag == BINARY then ReadBinaryBig(form, buf, o)
      else
        ClampRead(form, ReadBigIntValue(h, buf, o, tag))
    case TDate =>
      if tag == DATE then Ok((VDate(ReadI64(buf, o)), o + 8)) else ReadDateValue(h, buf, o, tag)
    case TLiteral(lit) => Skipped(lit, buf, o, tag)
    case TTextOrNumber => ReadTextOrNumber(h, buf, o, tag)
    case TBinary => ReadBinaryValue(buf, o, tag)
  }

  // ---------------------------------------------------------------------------
  // What the byte-level reads see of a placed wire value
  // ---------------------------------------------------------------------------

  lemma {:induction false} SeeDouble(h: Host, buf: seq<byte>, o: nat, w: Wire)
    requires w.WDouble? && WfVal(w) && Placed(buf, o, EncVal(w))
    ensures ReadDouble(h, buf, o) == h.float64(w.bits)
  {
    WindowPlaced(buf, o, w.bits);
  }

  lemma {:induction false} SeeBool(buf: seq<byte>, o: nat, w: Wire)
    requires w.WBool? && Placed(buf, o, EncVal(w))
    ensures (At(buf, o) == 1) == w.b
  {
    PlacedAt(buf, o, EncVal(w), 0);
  }

  lemma {:induction false} SeeInt(buf: seq<byte>, o: nat, w: Wire)
    requires WfVal(w) && Placed(buf, o, EncVal(w))
    ensures w.WInt? ==> ReadI32(buf, o) == w.i
    ensures w.WLong? ==> ReadI64(buf, o) == w.long
    ensures w.WDate? ==> ReadI64(buf, o) == w.ms
    ensures w.WTimestamp? ==> ReadI64(buf, o) == w.stamp
  {
    match w
    case WInt(i) => ReadLe32(buf, o, i);
    case WLong(i) => ReadLe64(buf, o, i);
    case WDate(i) => ReadLe64(buf, o, i);
    case WTimestamp(i) => ReadLe64(buf, o, i);
    case _ =>
  }

  lemma {:induction false} SeeOid(buf: seq<byte>, o: nat, w: Wire)
    requires w.WOid? && WfVal(w) && Placed(buf, o, EncVal(w))
    ensures Window(buf, o, 12) == w.oid
  {
    WindowPlaced(buf, o, w.oid);
  }

  lemma {:induction false} SeeString(h: Host, buf: seq<byte>, o: nat, w: Wire)
    requires w.WString? && WfVal(w) && Placed(buf, o, EncVal(w))
    ensures ReadBsonString(h, buf, o) == Ok((Text(h.dec, w.utf8), |EncVal(w)|))
    ensures InlineString(h, buf, o) == (Text(h.dec, w.utf8), o + |EncVal(w)|)
  {
    hide LeBytes, ReadLe;
    var u := w.utf8;
    SizeField(buf, o, w);
    assert EncVal(w) == Le32(|u| + 1) + (u + [0]);
    PlacedAppend(buf, o, Le32(|u| + 1), u + [0]);
    PlacedAppend(buf, o + 4, u, [0]);
    TextAtPlaced(h.dec, buf, o + 4, |u|);
    assert buf[o + 4..o + 4 + |u|] == u;
  }

  lemma {:induction false} SeeBinary(buf: seq<byte>, o: nat, w: Wire)
    requires w.WBinary? && WfVal(w) && Placed(buf, o, EncVal(w))
    ensures ReadI32(buf, o) == |w.data| && At(buf, o + 4) == w.subtype
    ensures Window(buf, o + 5, |w.data|) == w.data
  {
    SizeField(buf, o, w);
    assert EncVal(w) == Le32(|w.data|) + ([w.subtype] + w.data);
    PlacedAppend(buf, o, Le32(|w.data|), [w.subtype] + w.data);
    PlacedAppend(buf, o + 4, [w.subtype], w.data);
    PlacedAt(buf, o + 4, [w.subtype], 0);
    WindowPlaced(buf, o + 5, w.data);
  }

  lemma {:induction false} See(h: Host, buf: seq<byte>, o: nat, w: Wire)
    requires WfVal(w) && Placed(buf, o, EncVal(w))
    ensures w.WDouble? ==> ReadDouble(h, buf, o) == h.float64(w.bits)
    ensures w.WBool? ==> (At(buf, o) == 1) == w.b
    ensures w.WInt? ==> ReadI32(buf, o) == w.i
    ensures w.WLong? ==> ReadI64(buf, o) == w.long
    ensures w.WDate? ==> ReadI64(buf, o) == w.ms
    ensures w.WOid? ==> Window(buf, o, 12) == w.oid
    ensures w.WString? ==> ReadBsonString(h, buf, o) == Ok((Text(h.dec, w.utf8), |EncVal(w)|))
    ensures w.WString? ==> InlineString(h, buf, o) == (Text(h.dec, w.utf8), o + |EncVal(w)|)
    ensures w.WBinary? ==> ReadI32(buf, o) == |w.data| && Window(buf, o + 5, |w.data|) == w.data
    ensures SkipValue(buf, o, Tag(w)) == Ok(o + |EncVal(w)|)
  {
    if w.WDouble? { SeeDouble(h, buf, o, w); }
    if w.WBool? { SeeBool(buf, o, w); }
    SeeInt(buf, o, w);
    if w.WOid? { SeeOid(buf, o, w); }
    if w.WString? { SeeString(h, buf, o, w); }
    if w.WBinary? { SeeBinary(buf, o, w); }
    SkipValueExact(buf, o, w);
  }

  /**
   * Reading a scalar gives its meaning, and the cursor ends where skipValue would end, coercions and skipped
   * mismatches included.
   */
  lemma {:induction false} ReadScalarExact(h: Host, ty: Ty, buf: seq<byte>, o: nat, w: Wire)
    requires IsScalar(ty) && Readable(ty, w) && WfVal(w) && Placed(buf, o, EncVal(w))
    ensures ReadScalar(h, ty, buf, o, Tag(w)) == WithCursor(ScalarOf(h, ty, w), o + |EncVal(w)|)
  {
    hide SkipValue, ReadI32, ReadI64, ReadDouble, At, Window, ReadBsonString, InlineString, Text, TextAt, Placed;
    hide StringOf, NumberOf, BooleanOf, BigOf, DateOf, UuidOf, MongoIdOf, TextOrNumberOf, BinaryOf;
    See(h, buf, o, w);
    match ty
    case TString => StringExact(h, buf, o, w);
    case TNumber => NumberExact(h, buf, o, w);
    case TBoolean => BooleanExact(h, buf, o, w);
    case TBigInt(form) => BigExact(h, form, buf, o, w);
    case TDate => DateExact(h, buf, o, w);
    case TUuid => UuidExact(h, buf, o, w);
    case TMongoId => MongoIdExact(h, buf, o, w);
    case TLiteral(_) =>
    case TTextOrNumber => TextOrNumberExact(h, buf, o, w);
    case TBinary => BinaryExact(h, buf, o, w);
  }

  lemma {:induction false} StringExact(h: Host, buf: seq<byte>, o: nat, w: Wire)
    requires WfVal(w) && Placed(buf, o, EncVal(w))
    ensures ReadScalar(h, TString, buf, o, Tag(w)) == WithCursor(StringOf(h, w), o + |EncVal(w)|)
  {
    hide SkipValue, ReadI32, ReadI64, ReadDouble, At, Window, ReadBsonString, InlineString, Text, TextAt, Placed;
    See(h, buf, o, w);
  }

  lemma {:induction false} NumberExact(h: Host, buf: seq<byte>, o: nat, w: Wire)
    requires WfVal(w) && Placed(buf, o, EncVal(w))
    ensures ReadScalar(h, TNumber, buf, o, Tag(w)) == Ok((NumberOf(h, w), o + |EncVal(w)|))
  {
    hide SkipValue, ReadI32, ReadI64, ReadDouble, At, Window, ReadBsonString, InlineString, Text, TextAt, Placed;
    See(h, buf, o, w);
  }

  lemma {:induction false} BooleanExact(h: Host, buf: seq<byte>, o: nat, w: Wire)
    requires WfVal(w) && Placed(buf, o, EncVal(w))
    ensures ReadScalar(h, TBoolean, buf, o, Tag(w)) == Ok((BooleanOf(h, w), o + |EncVal(w)|))
  {
    hide SkipValue, ReadI32, ReadI64, ReadDouble, At, Window, ReadBsonString, InlineString, Text, TextAt, Placed;
    See(h, buf, o, w);
  }

  lemma {:induction false} BigExact(h: Host, form: BigForm, buf: seq<byte>, o: nat, w: Wire)
    requires WfVal(w) && Placed(buf, o, EncVal(w))
    ensures ReadScalar(h, TBigInt(form), buf, o, Tag(w)) == WithCursor(BigOf(h, form, w), o + |EncVal(w)|)
  {
    hide SkipValue, ReadI64, ReadDouble, ReadBsonString, Text, Placed, LongOf;
    var end := o + |EncVal(w)|;
    if w.WBinary? { SeeBinary(buf, o, w); }
    LongExact(h, buf, o, w);
    assert ClampRead(form, WithCursor(LongOf(h, w), end)) == WithCursor(Clamp(form, LongOf(h, w)), end);
  }

  lemma {:induction false} LongExact(h: Host, buf: seq<byte>, o: nat, w: Wire)
    requires WfVal(w) && Placed(buf, o, EncVal(w))
    ensures ReadBigIntValue(h, buf, o, Tag(w)) == WithCursor(LongOf(h, w), o + |EncVal(w)|)
  {
    hide SkipValue, ReadI32, ReadI64, ReadDouble, At, Window, ReadBsonString, InlineString, Text, TextAt, Placed;
    See(h, buf, o, w);
  }

  lemma {:induction false} DateExact(h: Host, buf: seq<byte>, o: nat, w: Wire)
    requires WfVal(w) && Placed(buf, o, EncVal(w))
    ensures ReadScalar(h, TDate, buf, o, Tag(w)) == Ok((DateOf(h, w), o + |EncVal(w)|))
  {
    hide SkipValue, ReadI32, ReadI64, ReadDouble, At, Window, ReadBsonString, InlineString, Text, TextAt, Placed;
    See(h, buf, o, w);
  }

  lemma {:induction false} UuidExact(h: Host, buf: seq<byte>, o: nat, w: Wire)
    requires Readable(TUuid, w) && WfVal(w) && Placed(buf, o, EncVal(w))
    ensures ReadScalar(h, TUuid, buf, o, Tag(w)) == WithCursor(UuidOf(h, w), o + |EncVal(w)|)
  {
    hide SkipValue, ReadI32, ReadI64, ReadDouble, At, Window, ReadBsonString, InlineString, Text, TextAt, Placed;
    See(h, buf, o, w);
  }

  lemma {:induction false} MongoIdExact(h: Host, buf: seq<byte>, o: nat, w: Wire)
    requires WfVal(w) && Placed(buf, o, EncVal(w))
    ensures ReadScalar(h, TMongoId, buf, o, Tag(w)) == WithCursor(MongoIdOf(h, w), o + |EncVal(w)|)
  {
    hide SkipValue, ReadI32, ReadI64, ReadDouble, At, Window, ReadBsonString, InlineString, Text, TextAt, Placed;
    See(h, buf, o, w);
  }

  lemma {:induction false} TextOrNumberExact(h: Host, buf: seq<byte>, o: nat, w: Wire)
    requires WfVal(w) && Placed(buf, o, EncVal(w))
    ensures ReadScalar(h, TTextOrNumber, buf, o, Tag(w)) == WithCursor(TextOrNumberOf(h, w), o + |EncVal(w)|)
  {
    hide SkipValue, ReadI32, ReadI64, ReadDouble, At, Window, ReadBsonString, InlineString, Text, TextAt, Placed;
    See(h, buf, o, w);
  }

  lemma {:induction false} BinaryExact(h: Host, buf: seq<byte>, o: nat, w: Wire)
    requires WfVal(w) && Placed(buf, o, EncVal(w))
    ensures ReadScalar(h, TBinary, buf, o, Tag(w)) == Ok((BinaryOf(w), o + |EncVal(w)|))
  {
    hide SkipValue, ReadI32, ReadI64, ReadDouble, At, Window, ReadBsonString, InlineString, Text, TextAt, Placed;
    See(h, buf, o, w);
  }

  function WithSlot(r: Result<Slot>, o: int): Result<(Slot, int)> {
    match r
    case Err(e) => Err(e)
    case Ok(s) => Ok((s, o))
  }

  lemma {:induction false} EnumExact(h: Host, buf: seq<byte>, o: nat, w: Wire)
    requires WfVal(w) && Placed(buf, o, EncVal(w))
    ensures ReadEnum(h, buf, o, Tag(w)) == WithSlot(EnumOf(h, w), o + |EncVal(w)|)
  {
    hide SkipValue, ReadI32, ReadI64, ReadDouble, At, Window, ReadBsonString, InlineString, Text, TextAt, Placed;
    See(h, buf, o, w);
  }

  /**
   * The in-line UUID read always moves 21 bytes, so its cursor agrees with skipValue exactly for 16-byte binaries.
   */
  lemma {:induction false} UuidCursorExact(h: Host, buf: seq<byte>, o: nat, w: Wire)
    requires w.WBinary? && WfVal(w) && Placed(buf, o, EncVal(w))
    ensures ReadScalar(h, TUuid, buf, o, BINARY).Ok?
    ensures Ok(ReadScalar(h, TUuid, buf, o, BINARY).v.1) == SkipValue(buf, o, BINARY) <==> |w.data| == 16
  {
    SkipValueExact(buf, o, w);
  }
}
