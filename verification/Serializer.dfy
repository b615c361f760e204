/**
 * The typed serializer. ToDoc is the document a typed value stands for; Emit is the script of stores the generated
 * code performs; the methods write in place and realise the script in every buffer, too small ones included.
 */
module Serializer {
  import opened Bytes
  import opened Wire
  import opened Utf8
  import opened Types
  import opened Target
  import opened Names
  import opened BinaryBigInt

  /** A name known at generation time, or a run-time array index. */
  datatype PropertyName = Static(name: seq<byte>) | Index(i: nat)

  function NameBytes(pn: PropertyName): seq<byte> {
    match pn
    case Static(name) => name
    case Index(i) => Digits(i)
  }

  // ---------------------------------------------------------------------------
  // Typed values
  // ---------------------------------------------------------------------------

  predicate Nullish(v: Value) { v.VNull? || v.VUndef? }

  predicate IsNum(n: Num) {
    match n
    case Int(i) => -TWO31 <= i < TWO31
    case NaN => true
    case Dbl(bits) => |bits| == 8
  }

  /** What the type system promises about a value handed to the serializer of its type. */
  ghost predicate HasType(env: Env, ty: Ty, v: Value)
    requires GoodEnv(env) && GoodTy(env, ty)
    decreases v, 2, TySize(ty)
  {
    match ty
    case TNumber => v.VNum? && IsNum(v.n)
    case TString => v.VStr?
    case TBoolean => v.VBool?
    case TBigInt(_) => v.VBig?
    case TLiteral(lit) => v == lit && (v.VNum? ==> IsNum(v.n))
    case TDate => v.VDate? || v.VInvalidDate?
    case TMongoId => v.VStr?
    case TUuid => v.VStr?
    case TEnum => v.VNum? && v.n.Int? && IsNum(v.n)
    case TTextOrNumber => v.VStr? || (v.VNum? && IsNum(v.n))
    case TBinary => v.VBytes?
    case TObject(id) => v.VObj? && HasFields(env, env[id], v, 0)
    case TArray(t) => v.VArr? && HasElems(env, t, v, 0)
    case TNullable(t) => Nullish(v) || HasType(env, t, v)
  }

  ghost predicate HasFields(env: Env, f: seq<Field>, v: Value, k: nat)
    requires GoodEnv(env) && GoodFields(env, f) && v.VObj? && k <= |f|
    decreases v, 1, |f| - k
  {
    k < |f| ==>
      && (if f[k].name in v.props
          then (f[k].optional && Nullish(v.props[f[k].name])) || HasType(env, f[k].ty, v.props[f[k].name])
          else f[k].optional || f[k].ty.TNullable?)
      && HasFields(env, f, v, k + 1)
  }

  ghost predicate HasElems(env: Env, ty: Ty, v: Value, i: nat)
    requires GoodEnv(env) && GoodTy(env, ty) && v.VArr? && i <= |v.elems|
    decreases v, 1, |v.elems| - i
  {
    i < |v.elems| ==> HasType(env, ty, v.elems[i]) && HasElems(env, ty, v, i + 1)
  }

  // ---------------------------------------------------------------------------
  // The document of a value
  // ---------------------------------------------------------------------------

  const NAN_BITS: seq<byte> := [0, 0, 0, 0, 0, 0, 0xf8, 0x7f]

  /** `(value | 0) === value`; -0 passes the test and is stored as 0. */
  predicate IsInt32(n: Num) { n.Int? || n == Dbl(NEG_ZERO) }

  function NumWire(n: Num): Wire {
    if IsInt32(n) then WInt(if n.Int? then n.i else 0)
    else WDouble(if n.NaN? then NAN_BITS else n.bits)
  }

  /** -0 is stored as the int32 0, NaN as its canonical bytes, any other double as its own. */
  lemma {:induction false} StoredNumber(n: Num)
    ensures n.Int? ==> NumWire(n) == WInt(n.i)
    ensures n.NaN? ==> NumWire(n) == WDouble([0, 0, 0, 0, 0, 0, 0xf8, 0x7f])
    ensures n.Dbl? ==> NumWire(n) == if n.bits == [0, 0, 0, 0, 0, 0, 0, 0x80] then WInt(0) else WDouble(n.bits)
  {
  }

  /** The value of a hexadecimal digit in hexTable, 0 for anything else. */
  function HexVal(c: int): nibble {
    if 48 <= c < 58 then c - 48 else if 65 <= c < 71 then c - 55 else if 97 <= c < 103 then c - 87 else 0
  }

  function HexAt(s: Str, i: nat): nibble { if i < |s| then HexVal(s[i]) else 0 }

  function OidBytes(s: Str): (b: seq<byte>)
    ensures |b| == 12
  {
    seq<byte>(12, i requires 0 <= i < 12 => Octet(HexAt(s, 2 * i), HexAt(s, 2 * i + 1)))
  }

  const UUID_POSITIONS: seq<nat> := [0, 2, 4, 6, 9, 11, 14, 16, 19, 21, 24, 26, 28, 30, 32, 34]

  function UuidBytes(s: Str): (b: seq<byte>)
    ensures |b| == 16
  {
    seq<byte>(16, i requires 0 <= i < 16 => Octet(HexAt(s, UUID_POSITIONS[i]), HexAt(s, UUID_POSITIONS[i] + 1)))
  }

  function ScalarWire(ty: Ty, v: Value): Wire {
    match v
    case VNum(n) => NumWire(n)
    case VStr(s) =>
      if ty.TMongoId? then WOid(OidBytes(s)) else if ty.TUuid? then WBinary(4, UuidBytes(s)) else WString(Encode(s))
    case VBool(b) => WBool(b)
    case VBig(i) =>
      if ty.TBigInt? && ty.form != Long then WBinary(0, BigData(ty.form.Signed?, i)) else WLong(Wrap64(i))
    case VDate(ms) => WDate(Wrap64(ms))
    case VInvalidDate => WDate(0)
    case VBytes(b) => WBinary(0, b)
    case _ => WNull
  }

  ghost function ToWire(env: Env, ty: Ty, v: Value): Wire
    requires GoodEnv(env) && GoodTy(env, ty) && HasType(env, ty, v)
    decreases v, 2, TySize(ty)
  {
    match ty
    case TObject(id) => WObject(FieldsDoc(env, env[id], v, 0))
    case TArray(t) => WArray(ElemsDoc(env, t, v, 0))
    case TNullable(t) => if Nullish(v) then WNull else ToWire(env, t, v)
    case _ => ScalarWire(ty, v)
  }

  /** Properties in declaration order: absent optional ones omitted, present nullish ones as null. */
  ghost function FieldsDoc(env: Env, f: seq<Field>, v: Value, k: nat): Doc
    requires GoodEnv(env) && GoodFields(env, f) && v.VObj? && k <= |f| && HasFields(env, f, v, k)
    decreases v, 1, |f| - k
  {
    if k == |f| then Nil
    else
      var rest := FieldsDoc(env, f, v, k + 1);
      var name := f[k].name;
      if name !in v.props then
        if f[k].optional then rest else Cons(name, WNull, rest)
      else if f[k].optional && Nullish(v.props[name]) then Cons(name, WNull, rest)
      else Cons(name, ToWire(env, f[k].ty, v.props[name]), rest)
  }

  ghost function ElemsDoc(env: Env, ty: Ty, v: Value, i: nat): Doc
    requires GoodEnv(env) && GoodTy(env, ty) && v.VArr? && i <= |v.elems| && HasElems(env, ty, v, i)
    decreases v, 1, |v.elems| - i
  {
    if i == |v.elems| then Nil
    else Cons(Digits(i), ToWire(env, ty, v.elems[i]), ElemsDoc(env, ty, v, i + 1))
  }

  /** The names of a document, read as decimal numbers. */
  function Indices(d: Doc): seq<int> { if d.Nil? then [] else [Decimal(d.name)] + Indices(d.rest) }

  function ElementNames(d: Doc): seq<seq<byte>> { if d.Nil? then [] else [d.name] + ElementNames(d.rest) }

  predicate Rising(ns: seq<int>) { forall j, k :: 0 <= j < k < |ns| ==> ns[j] < ns[k] }

  lemma {:induction false} NamesAt(d: Doc, k: nat)
    requires k < |ElementNames(d)|
    ensures |Indices(d)| == |ElementNames(d)| && Indices(d)[k] == Decimal(ElementNames(d)[k])
  {
    if k > 0 {
      NamesAt(d.rest, k - 1);
    } else if d.rest.Cons? {
      NamesAt(d.rest, 0);
    }
  }

  /** Elements under rising indices have different names. */
  lemma {:induction false} NamesDiffer(d: Doc, j: nat, k: nat)
    requires Rising(Indices(d)) && j < k < |ElementNames(d)|
    ensures ElementNames(d)[j] != ElementNames(d)[k]
  {
    NamesAt(d, j);
    NamesAt(d, k);
  }

  /** The elements of a typed array are named by their positions. */
  lemma {:induction false} ElemsIndexed(env: Env, ty: Ty, v: Value, i: nat)
    requires GoodEnv(env) && GoodTy(env, ty) && v.VArr? && i <= |v.elems| && HasElems(env, ty, v, i)
    ensures var ns := Indices(ElemsDoc(env, ty, v, i));
            |ns| == |v.elems| - i && (forall k :: 0 <= k < |ns| ==> ns[k] == i + k) && Rising(ns)
    decreases |v.elems| - i
  {
    hide ToWire, HasType, Digits, Decimal;
    if i < |v.elems| {
      ElemsIndexed(env, ty, v, i + 1);
      DigitsDecimal(i);
      assert Indices(ElemsDoc(env, ty, v, i))[1..] == Indices(ElemsDoc(env, ty, v, i + 1));
    }
  }

  /** The document serialized for a value of object type `id`. */
  ghost function ToDoc(env: Env, id: nat, v: Value): Doc
    requires GoodEnv(env) && id < |env| && HasType(env, TObject(id), v)
  {
    FieldsDoc(env, env[id], v, 0)
  }

  // ---------------------------------------------------------------------------
  // Scripts
  // ---------------------------------------------------------------------------

  function Whole(bytes: seq<byte>): Script { Script(bytes, |bytes|, false) }

  function NameOf(pn: PropertyName): Script {
    match pn
    case Static(name) => NameScript(name)
    case Index(i) => Plain(Digits(i) + [0])
  }

  function HeaderOf(tag: byte, pn: PropertyName, fixed: bool): Script {
    match pn
    case Static(name) => HeaderScript(tag, name, fixed)
    case Index(i) => IndexScript(tag, i)
  }

  function StringBody(s: Str): Script { Script(Le32(|Encode(s)| + 1) + Encode(s) + [0], 4, false) }

  /** The id writers reject strings of the wrong length and take any characters. */
  function IdScript(s: Str, length: nat, bytes: seq<byte>): Script {
    if |s| != length then Script([], -1, true) else Plain(bytes)
  }

  /** The size placeholder, the elements, the terminator and the backfilled size. */
  function Framed(body: Script): Script {
    Script(Le32(|body.bytes| + 5) + body.bytes + [0], if body.far < 0 then 4 else 4 + body.far, body.bad)
  }

  /** A plain number: the name first, then the type byte and the value. */
  function NumberScript(pn: PropertyName, n: Num): Script {
    var w := NumWire(n);
    Then(Plain([Tag(w)]), Then(NameOf(pn), Whole(EncVal(w))))
  }

  /** The stores of a scalar value behind its header. */
  function ValueScript(ty: Ty, v: Value): Script {
    match v
    case VNum(n) => Whole(EncVal(NumWire(n)))
    case VStr(s) =>
      if ty.TMongoId? then IdScript(s, 24, OidBytes(s))
      else if ty.TUuid? then Then(BinaryHead(16, 4), IdScript(s, 36, UuidBytes(s)))
      else StringBody(s)
    case VBool(b) => Plain([if b then 1 else 0])
    case VBig(i) =>
      if ty.TBigInt? && ty.form != Long then BigScript(ty.form.Signed?, i) else Whole(Le64(i))
    case VDate(ms) => Then(Whole(Le32(ms)), Whole(Le32(ms / TWO32)))
    case VInvalidDate => Then(Whole(Le32(0)), Whole(Le32(0)))
    case VBytes(b) => Then(BinaryHead(|b|, 0), Whole(b))
    case _ => SKIP
  }

  /** Where writeHeader is told that a fixed-width value follows. */
  predicate FixedValue(ty: Ty, v: Value) {
    match v
    case VStr(_) => ty.TUuid?
    case VBig(_) => !(ty.TBigInt? && ty.form != Long)
    case VNull => false
    case _ => true
  }

  /** Where serializeNumber decides between int32 and double: enums are known to be int32. */
  predicate PlainNumber(ty: Ty) { ty.TNumber? || ty.TTextOrNumber? }

  function ScalarScript(pn: PropertyName, ty: Ty, v: Value): Script {
    if PlainNumber(ty) && v.VNum? then NumberScript(pn, v.n)
    else Then(HeaderOf(Tag(ScalarWire(ty, v)), pn, FixedValue(ty, v)), ValueScript(ty, v))
  }

  /** serializeValue. */
  ghost function Emit(env: Env, pn: PropertyName, ty: Ty, v: Value): Script
    requires GoodEnv(env) && GoodTy(env, ty) && HasType(env, ty, v)
    decreases v, 2, TySize(ty)
  {
    match ty
    case TObject(id) => Then(HeaderOf(OBJECT, pn, true), Framed(EmitFields(env, env[id], v, 0)))
    case TArray(t) => Then(HeaderOf(ARRAY, pn, true), Framed(EmitElems(env, t, v, 0)))
    case TNullable(t) => if Nullish(v) then HeaderOf(NULL, pn, false) else Emit(env, pn, t, v)
    case _ => ScalarScript(pn, ty, v)
  }

  /** serializeObjectProperties from the k-th property on. */
  ghost function EmitFields(env: Env, f: seq<Field>, v: Value, k: nat): Script
    requires GoodEnv(env) && GoodFields(env, f) && v.VObj? && k <= |f| && HasFields(env, f, v, k)
    decreases v, 1, |f| - k
  {
    if k == |f| then SKIP
    else Then(EmitField(env, f, v, k), EmitFields(env, f, v, k + 1))
  }

  ghost function EmitField(env: Env, f: seq<Field>, v: Value, k: nat): Script
    requires GoodEnv(env) && GoodFields(env, f) && v.VObj? && k < |f| && HasFields(env, f, v, k)
    decreases v, 0, 0
  {
    var name := f[k].name;
    if name !in v.props then if f[k].optional then SKIP else HeaderOf(NULL, Static(name), false)
    else if f[k].optional && Nullish(v.props[name]) then HeaderOf(NULL, Static(name), false)
    else Emit(env, Static(name), f[k].ty, v.props[name])
  }

  ghost function EmitElems(env: Env, ty: Ty, v: Value, i: nat): Script
    requires GoodEnv(env) && GoodTy(env, ty) && v.VArr? && i <= |v.elems| && HasElems(env, ty, v, i)
    decreases v, 1, |v.elems| - i
  {
    if i == |v.elems| then SKIP
    else Then(Emit(env, Index(i), ty, v.elems[i]), EmitElems(env, ty, v, i + 1))
  }

  /** The script of a whole document. */
  ghost function EmitDoc(env: Env, id: nat, v: Value): Script
    requires GoodEnv(env) && id < |env| && HasType(env, TObject(id), v)
  {
    Framed(EmitFields(env, env[id], v, 0))
  }

  // ---------------------------------------------------------------------------
  // The bytes of a script are the encoding of the document
  // ---------------------------------------------------------------------------

  lemma {:induction false} HeaderIs(tag: byte, pn: PropertyName, fixed: bool)
    ensures HeaderOf(tag, pn, fixed).bytes == Header(tag, NameBytes(pn)) && !HeaderOf(tag, pn, fixed).bad
    ensures HeaderOf(tag, pn, fixed).far >= -1
  {
    if pn.Static? { HeaderBytes(tag, pn.name, fixed); }
  }

  /** The two words of serializeDate are one 64-bit integer, for dates before 1970 too. */
  lemma {:induction false} DateWords(ms: int)
    ensures Le32(ms) + Le32(ms / TWO32) == Le64(ms) == Le64(Wrap64(ms))
  {
    assert Pow256(4) == TWO32;
    LeSplit(ms, 4, 4);
    Wrap64Bytes(ms);
  }

  /** Storing keeps the low bytes: v and v plus a multiple of 256^n have the same n bytes. */
  lemma {:induction false} LeWraps(v: int, q: int, n: nat)
    ensures LeBytes(v + q * Pow256(n), n) == LeBytes(v, n)
    decreases n
  {
    if n > 0 {
      var p := q * Pow256(n - 1);
      assert q * Pow256(n) == 256 * p by { assert Pow256(n) == 256 * Pow256(n - 1); }
      assert (v + 256 * p) % 256 == v % 256 && (v + 256 * p) / 256 == v / 256 + p;
      LeWraps(v / 256, q, n - 1);
    }
  }

  lemma {:induction false} Wrap64Bytes(v: int)
    ensures Le64(Wrap64(v)) == Le64(v)
  {
    assert Pow256(8) == TWO64;
    var q := v / TWO64;
    if v % TWO64 < TWO63 {
      LeWraps(Wrap64(v), q, 8);
    } else {
      LeWraps(Wrap64(v), q + 1, 8);
    }
  }

  lemma {:induction false} ValueExact(ty: Ty, v: Value)
    ensures ValueScript(ty, v).far >= -1
    ensures !ValueScript(ty, v).bad ==> ValueScript(ty, v).bytes == EncVal(ScalarWire(ty, v))
  {
    hide LeBytes, OidBytes, UuidBytes, BigData, Encode, NumWire;
    match v
    case VBig(i) => Wrap64Bytes(i);
    case VDate(ms) => DateWords(ms);
    case VInvalidDate => DateWords(0);
    case VNum(_) =>
    case VBool(_) =>
    case VStr(_) =>
    case _ =>
  }

  /** An element written is its header and its encoded value. */
  ghost predicate Renders(s: Script, pn: PropertyName, w: Wire) {
    s.far >= -1 && (!s.bad ==> s.bytes == Header(Tag(w), NameBytes(pn)) + EncVal(w))
  }

  lemma {:induction false} ScalarExact(pn: PropertyName, ty: Ty, v: Value)
    ensures Renders(ScalarScript(pn, ty, v), pn, ScalarWire(ty, v))
  {
    var w := ScalarWire(ty, v);
    ValueExact(ty, v);
    if PlainNumber(ty) && v.VNum? {
      assert [Tag(w)] + (NameBytes(pn) + [0] + EncVal(w)) == Header(Tag(w), NameBytes(pn)) + EncVal(w);
    } else {
      HeaderIs(Tag(w), pn, FixedValue(ty, v));
    }
  }

  lemma {:induction false} NullExact(pn: PropertyName)
    ensures Renders(HeaderOf(NULL, pn, false), pn, WNull)
  {
    HeaderIs(NULL, pn, false);
    assert Header(NULL, NameBytes(pn)) + [] == Header(NULL, NameBytes(pn));
  }

  lemma {:induction false} FramedExact(pn: PropertyName, w: Wire, body: Script, d: Doc)
    requires body.far >= -1 && (!body.bad ==> body.bytes == EncFields(d))
    requires w == WObject(d) || w == WArray(d)
    ensures Renders(Then(HeaderOf(Tag(w), pn, true), Framed(body)), pn, w)
  {
    hide LeBytes, HeaderOf;
    HeaderIs(Tag(w), pn, true);
    if !body.bad { assert EncVal(w) == EncDoc(d) == Framed(body).bytes; }
  }

  /** The serializer writes the encoding of the document: one element. */
  lemma {:induction false} EmitExact(env: Env, pn: PropertyName, ty: Ty, v: Value)
    requires GoodEnv(env) && GoodTy(env, ty) && HasType(env, ty, v)
    ensures Renders(Emit(env, pn, ty, v), pn, ToWire(env, ty, v))
    decreases v, 2, TySize(ty)
  {
    hide Then, Framed, HeaderOf, ScalarScript, ScalarWire, EncFields, LeBytes, Renders;
    match ty
    case TObject(id) =>
      EmitFieldsExact(env, env[id], v, 0);
      FramedExact(pn, ToWire(env, ty, v), EmitFields(env, env[id], v, 0), FieldsDoc(env, env[id], v, 0));
    case TArray(t) =>
      EmitElemsExact(env, t, v, 0);
      FramedExact(pn, ToWire(env, ty, v), EmitElems(env, t, v, 0), ElemsDoc(env, t, v, 0));
    case TNullable(t) =>
      if Nullish(v) { NullExact(pn); } else { EmitExact(env, pn, t, v); }
    case _ => ScalarExact(pn, ty, v);
  }

  lemma {:induction false} EmitFieldsExact(env: Env, f: seq<Field>, v: Value, k: nat)
    requires GoodEnv(env) && GoodFields(env, f) && v.VObj? && k <= |f| && HasFields(env, f, v, k)
    ensures var s := EmitFields(env, f, v, k);
            s.far >= -1 && (!s.bad ==> s.bytes == EncFields(FieldsDoc(env, f, v, k)))
    decreases v, 1, |f| - k
  {
    if k < |f| {
      EmitFieldsExact(env, f, v, k + 1);
      var pn := Static(f[k].name);
      NullExact(pn);
      if f[k].name in v.props {
        var x := v.props[f[k].name];
        if !(f[k].optional && Nullish(x)) { EmitExact(env, pn, f[k].ty, x); }
      } else if f[k].optional {
        assert [] + EmitFields(env, f, v, k + 1).bytes == EmitFields(env, f, v, k + 1).bytes;
      }
    }
  }

  lemma {:induction false} EmitElemsExact(env: Env, ty: Ty, v: Value, i: nat)
    requires GoodEnv(env) && GoodTy(env, ty) && v.VArr? && i <= |v.elems| && HasElems(env, ty, v, i)
    ensures var s := EmitElems(env, ty, v, i);
            s.far >= -1 && (!s.bad ==> s.bytes == EncFields(ElemsDoc(env, ty, v, i)))
    decreases v, 1, |v.elems| - i
  {
    if i < |v.elems| {
      EmitExact(env, Index(i), ty, v.elems[i]);
      EmitElemsExact(env, ty, v, i + 1);
    }
  }

  /** A document written is the encoding of its tree. */
  lemma {:induction false} EmitDocExact(env: Env, id: nat, v: Value)
    requires GoodEnv(env) && id < |env| && HasType(env, TObject(id), v)
    ensures EmitDoc(env, id, v).far >= 4
    ensures !EmitDoc(env, id, v).bad ==> EmitDoc(env, id, v).bytes == EncDoc(ToDoc(env, id, v))
  {
    EmitFieldsExact(env, env[id], v, 0);
  }

  lemma {:induction false} EmitFar(env: Env, pn: PropertyName, ty: Ty, v: Value)
    requires GoodEnv(env) && GoodTy(env, ty) && HasType(env, ty, v)
    ensures Emit(env, pn, ty, v).far >= -1
  {
    EmitExact(env, pn, ty, v);
  }

  lemma {:induction false} EmitElemsFar(env: Env, ty: Ty, v: Value, i: nat)
    requires GoodEnv(env) && GoodTy(env, ty) && v.VArr? && i <= |v.elems| && HasElems(env, ty, v, i)
    ensures EmitElems(env, ty, v, i).far >= -1
  {
    EmitElemsExact(env, ty, v, i);
  }

  // ---------------------------------------------------------------------------
  // The generated writers
  // ---------------------------------------------------------------------------

  method StoreWhole(buffer: array<byte>, o: int, bytes: seq<byte>, ghost done: seq<byte>) returns (st: Status, p: int)
    requires Pending(buffer[..], o, done)
    modifies buffer
    ensures Wrote(done, buffer[..], Whole(bytes), st, p)
  {
    assert bytes[..|bytes|] == bytes;
    st, p := StoreBlock(buffer, o, bytes, |bytes|, done);
  }

  method WriteAnyHeader(buffer: array<byte>, o: int, tag: byte, pn: PropertyName, fixed: bool, ghost done: seq<byte>)
    returns (st: Status, p: int)
    requires Pending(buffer[..], o, done)
    modifies buffer
    ensures Wrote(done, buffer[..], HeaderOf(tag, pn, fixed), st, p)
  {
    match pn
    case Static(name) => st, p := WriteHeader(buffer, o, tag, name, fixed, done);
    case Index(i) =>
      p := WriteIndexHeader(buffer, o, tag, i, done);
      st := Fine;
  }

  method WriteAnyName(buffer: array<byte>, o: int, pn: PropertyName, ghost done: seq<byte>) returns (st: Status, p: int)
    requires Pending(buffer[..], o, done)
    modifies buffer
    ensures Wrote(done, buffer[..], NameOf(pn), st, p)
  {
    match pn
    case Static(name) => st, p := WriteName(buffer, o, name, done);
    case Index(i) =>
      p := WriteIndex(buffer, o, i, done);
      st := Fine;
  }

  /** Setting the reserved type byte once the type is known. */
  method SetType(buffer: array<byte>, at: int, tag: byte, ghost done: seq<byte>, ghost hole: byte,
                 ghost rest: seq<byte>)
    requires at == |done| && Agrees(buffer[..], done + [hole] + rest)
    modifies buffer
    ensures Agrees(buffer[..], done + [tag] + rest)
  {
    ghost var a := buffer[..];
    if at < buffer.Length { buffer[at] := tag; }
    forall i | 0 <= i < |done + [tag] + rest| && i < buffer.Length ensures buffer[..][i] == (done + [tag] + rest)[i] {
      assert i != at ==> buffer[..][i] == a[i] == (done + [hole] + rest)[i];
    }
  }

  /** serializeNumber of a plain number: name, type byte, value. */
  method SerializeNumber(buffer: array<byte>, o: int, pn: PropertyName, n: Num, ghost done: seq<byte>)
    returns (st: Status, p: int)
    requires Pending(buffer[..], o, done)
    modifies buffer
    ensures Wrote(done, buffer[..], NumberScript(pn, n), st, p)
  {
    ghost var hole := Window(buffer[..], o, 1)[0];
    Reserve(buffer[..], o, 1, done);
    assert Window(buffer[..], o, 1) == [hole];
    var w := NumWire(n);
    ghost var name, value := NameOf(pn), Whole(EncVal(w));
    ghost var typed := Plain([Tag(w)]);
    st, p := WriteAnyName(buffer, o + 1, pn, done + [hole]);
    if st != Fine { return; }
    SetType(buffer, o, Tag(w), done, hole, name.bytes);
    st, p := StoreWhole(buffer, p, EncVal(w), done + typed.bytes + name.bytes);
    Sequence(done + typed.bytes, name, value, buffer[..], st, p);
    Sequence(done, typed, Then(name, value), buffer[..], st, p);
  }

  /** serializeStringBody: skip the length, write the text, set the length. */
  method SerializeStringBody(buffer: array<byte>, o: int, s: Str, ghost done: seq<byte>) returns (st: Status, p: int)
    requires Pending(buffer[..], o, done)
    modifies buffer
    ensures Wrote(done, buffer[..], StringBody(s), st, p)
  {
    ghost var hole := Window(buffer[..], o, 4);
    Reserve(buffer[..], o, 4, done);
    p := WriteUtf8(buffer, o + 4, s, done + hole);
    StoreByte(buffer, p, 0, done + hole + Encode(s));
    p := p + 1;
    ghost var text := Encode(s) + [0];
    assert done + hole + Encode(s) + [0] == done + hole + text;
    st := Backfill(buffer, o, p - (o + 4), done, hole, text);
    assert done + Le32(|text|) + text == done + (Le32(|Encode(s)| + 1) + Encode(s) + [0]);
  }

  /** writeObjectIdBranchless and writeUUIDBranchless: the length check, then one byte for two digits. */
  method SerializeId(buffer: array<byte>, o: int, s: Str, length: nat, bytes: seq<byte>, ghost done: seq<byte>)
    returns (st: Status, p: int)
    requires Pending(buffer[..], o, done)
    modifies buffer
    ensures Wrote(done, buffer[..], IdScript(s, length, bytes), st, p)
  {
    if |s| != length { return BadText, o; }
    p := StoreBytes(buffer, o, bytes, done);
    st := Fine;
  }

  method SerializeUuidBody(buffer: array<byte>, o: int, s: Str, ghost done: seq<byte>) returns (st: Status, p: int)
    requires Pending(buffer[..], o, done)
    modifies buffer
    ensures Wrote(done, buffer[..], Then(BinaryHead(16, 4), IdScript(s, 36, UuidBytes(s))), st, p)
  {
    ghost var id := IdScript(s, 36, UuidBytes(s));
    st, p := WriteBinaryHead(buffer, o, 16, 4, done);
    if st != Fine { Stopped(done, BinaryHead(16, 4), id, buffer[..], st, p); return; }
    st, p := SerializeId(buffer, p, s, 36, UuidBytes(s), done + BinaryHead(16, 4).bytes);
    Sequence(done, BinaryHead(16, 4), id, buffer[..], st, p);
  }

  /** serializeDate: low and high word. */
  method SerializeDateBody(buffer: array<byte>, o: int, ms: int, ghost done: seq<byte>) returns (st: Status, p: int)
    requires Pending(buffer[..], o, done)
    modifies buffer
    ensures Wrote(done, buffer[..], Then(Whole(Le32(ms)), Whole(Le32(ms / TWO32))), st, p)
  {
    ghost var low, high := Whole(Le32(ms)), Whole(Le32(ms / TWO32));
    st, p := StoreWhole(buffer, o, Le32(ms), done);
    if st != Fine { Stopped(done, low, high, buffer[..], st, p); return; }
    st, p := StoreWhole(buffer, p, Le32(ms / TWO32), done + Le32(ms));
    Sequence(done, low, high, buffer[..], st, p);
  }

  /** serializeUint8Array behind its header: length, subtype, and one block. */
  method SerializeBytesBody(buffer: array<byte>, o: int, b: seq<byte>, ghost done: seq<byte>)
    returns (st: Status, p: int)
    requires Pending(buffer[..], o, done)
    modifies buffer
    ensures Wrote(done, buffer[..], Then(BinaryHead(|b|, 0), Whole(b)), st, p)
  {
    ghost var head, data := BinaryHead(|b|, 0), Whole(b);
    st, p := WriteBinaryHead(buffer, o, |b|, 0, done);
    if st != Fine { Stopped(done, head, data, buffer[..], st, p); return; }
    st, p := StoreWhole(buffer, p, b, done + head.bytes);
    Sequence(done, head, data, buffer[..], st, p);
  }

  method SerializeBody(buffer: array<byte>, o: int, ty: Ty, v: Value, ghost done: seq<byte>)
    returns (st: Status, p: int)
    requires Pending(buffer[..], o, done)
    modifies buffer
    ensures Wrote(done, buffer[..], ValueScript(ty, v), st, p)
  {
    match v
    case VNum(n) => st, p := StoreWhole(buffer, o, EncVal(NumWire(n)), done);
    case VStr(s) =>
      if ty.TMongoId? {
        st, p := SerializeId(buffer, o, s, 24, OidBytes(s), done);
      } else if ty.TUuid? {
        st, p := SerializeUuidBody(buffer, o, s, done);
      } else {
        st, p := SerializeStringBody(buffer, o, s, done);
      }
    case VBool(b) =>
      StoreByte(buffer, o, if b then 1 else 0, done);
      st, p := Fine, o + 1;
    case VBig(i) =>
      if ty.TBigInt? && ty.form != Long {
        st, p := WriteBig(buffer, o, ty.form.Signed?, i, done);
      } else {
        st, p := StoreWhole(buffer, o, Le64(i), done);
      }
    case VDate(ms) => st, p := SerializeDateBody(buffer, o, ms, done);
    case VInvalidDate => st, p := SerializeDateBody(buffer, o, 0, done);
    case VBytes(b) => st, p := SerializeBytesBody(buffer, o, b, done);
    case _ =>
      assert done + [] == done;
      st, p := Fine, o;
  }

  method SerializeScalar(buffer: array<byte>, o: int, pn: PropertyName, ty: Ty, v: Value, ghost done: seq<byte>)
    returns (st: Status, p: int)
    requires Pending(buffer[..], o, done)
    modifies buffer
    ensures Wrote(done, buffer[..], ScalarScript(pn, ty, v), st, p)
  {
    if PlainNumber(ty) && v.VNum? {
      st, p := SerializeNumber(buffer, o, pn, v.n, done);
      return;
    }
    var tag := Tag(ScalarWire(ty, v));
    ghost var head, body := HeaderOf(tag, pn, FixedValue(ty, v)), ValueScript(ty, v);
    ValueExact(ty, v);
    HeaderIs(tag, pn, FixedValue(ty, v));
    st, p := WriteAnyHeader(buffer, o, tag, pn, FixedValue(ty, v), done);
    if st != Fine { Stopped(done, head, body, buffer[..], st, p); return; }
    st, p := SerializeBody(buffer, p, ty, v, done + head.bytes);
    Sequence(done, head, body, buffer[..], st, p);
  }

  /** The terminator and the size of a document whose elements are written. */
  method CloseFrame(buffer: array<byte>, start: int, o: int, ghost done: seq<byte>, ghost body: Script)
    returns (p: int)
    requires start == |done| && start + 4 <= buffer.Length
    requires Wrote(done + Le32(0), buffer[..], body, Fine, o)
    modifies buffer
    ensures Wrote(done, buffer[..], Framed(body), Fine, p)
  {
    ghost var zero, elements := Le32(0), body.bytes + [0];
    StoreByte(buffer, o, 0, done + zero + body.bytes);
    assert done + zero + body.bytes + [0] == done + zero + elements;
    p := o + 1;
    var st := Backfill(buffer, start, p - start, done, zero, elements);
    assert done + Le32(|body.bytes| + 5) + elements == done + (Le32(|body.bytes| + 5) + body.bytes + [0]);
  }

  /** serializeValue. */
  method SerializeValue(env: Env, buffer: array<byte>, o: int, pn: PropertyName, ty: Ty, v: Value,
                        ghost done: seq<byte>)
    returns (st: Status, p: int)
    requires GoodEnv(env) && GoodTy(env, ty) && HasType(env, ty, v) && Pending(buffer[..], o, done)
    modifies buffer
    ensures Wrote(done, buffer[..], Emit(env, pn, ty, v), st, p)
    decreases v, 2, TySize(ty)
  {
    match ty
    case TObject(id) =>
      ghost var head, body := HeaderOf(OBJECT, pn, true), EmitDoc(env, id, v);
      HeaderIs(OBJECT, pn, true);
      EmitDocExact(env, id, v);
      st, p := WriteAnyHeader(buffer, o, OBJECT, pn, true, done);
      if st != Fine { Stopped(done, head, body, buffer[..], st, p); return; }
      st, p := SerializeDocument(env, buffer, p, id, v, done + head.bytes);
      Sequence(done, head, body, buffer[..], st, p);
    case TArray(t) =>
      ghost var head, body := HeaderOf(ARRAY, pn, true), Framed(EmitElems(env, t, v, 0));
      HeaderIs(ARRAY, pn, true);
      EmitElemsExact(env, t, v, 0);
      st, p := WriteAnyHeader(buffer, o, ARRAY, pn, true, done);
      if st != Fine { Stopped(done, head, body, buffer[..], st, p); return; }
      st, p := SerializeArray(env, buffer, p, t, v, done + head.bytes);
      Sequence(done, head, body, buffer[..], st, p);
    case TNullable(t) =>
      if Nullish(v) {
        st, p := WriteAnyHeader(buffer, o, NULL, pn, false, done);
      } else {
        st, p := SerializeValue(env, buffer, o, pn, t, v, done);
      }
    case _ => st, p := SerializeScalar(buffer, o, pn, ty, v, done);
  }

  /** buildObjectSerializer and serializeNestedObject: placeholder, properties, terminator, size. */
  method SerializeDocument(env: Env, buffer: array<byte>, o: int, id: nat, v: Value, ghost done: seq<byte>)
    returns (st: Status, p: int)
    requires GoodEnv(env) && id < |env| && HasType(env, TObject(id), v) && Pending(buffer[..], o, done)
    modifies buffer
    ensures Wrote(done, buffer[..], EmitDoc(env, id, v), st, p)
    decreases v, 2, 0, 0
  {
    ghost var body := EmitFields(env, env[id], v, 0);
    EmitFieldsExact(env, env[id], v, 0);
    st, p := StoreWhole(buffer, o, Le32(0), done);
    if st != Fine { return; }
    st, p := SerializeProperties(env, buffer, p, env[id], v, done + Le32(0));
    if st != Fine { return; }
    p := CloseFrame(buffer, o, p, done, body);
  }

  /** serializeObjectProperties. */
  method SerializeProperties(env: Env, buffer: array<byte>, o: int, f: seq<Field>, v: Value, ghost done: seq<byte>)
    returns (st: Status, p: int)
    requires GoodEnv(env) && GoodFields(env, f) && v.VObj? && HasFields(env, f, v, 0) && Pending(buffer[..], o, done)
    modifies buffer
    ensures Wrote(done, buffer[..], EmitFields(env, f, v, 0), st, p)
    decreases v, 1, 0, 0
  {
    st, p := Fine, o;
    ghost var all := EmitFields(env, f, v, 0);
    ghost var pre := SKIP;
    EmitFieldsExact(env, f, v, 0);
    ThenSkip(all);
    assert done + [] == done;
    for k := 0 to |f|
      invariant HasFields(env, f, v, k) && st == Fine && pre.far >= -1
      invariant Wrote(done, buffer[..], pre, st, p) && Then(pre, EmitFields(env, f, v, k)) == all
    {
      ghost var one, rest := EmitField(env, f, v, k), EmitFields(env, f, v, k + 1);
      EmitFieldsExact(env, f, v, k);
      EmitFieldsExact(env, f, v, k + 1);
      st, p := SerializeProperty(env, buffer, p, f, v, k, done + pre.bytes);
      if st != Fine {
        Stopped(done + pre.bytes, one, rest, buffer[..], st, p);
        Sequence(done, pre, Then(one, rest), buffer[..], st, p);
        return;
      }
      Sequence(done, pre, one, buffer[..], st, p);
      ThenAssoc(pre, one, rest);
      pre := Then(pre, one);
    }
    ThenSkip(pre);
  }

  method SerializeProperty(env: Env, buffer: array<byte>, o: int, f: seq<Field>, v: Value, k: nat,
                           ghost done: seq<byte>)
    returns (st: Status, p: int)
    requires GoodEnv(env) && GoodFields(env, f) && v.VObj? && k < |f| && HasFields(env, f, v, k)
    requires Pending(buffer[..], o, done)
    modifies buffer
    ensures Wrote(done, buffer[..], EmitField(env, f, v, k), st, p)
    decreases v, 0, 0, 0
  {
    var name := f[k].name;
    if f[k].optional {
      if name !in v.props {
        assert done + [] == done;
        return Fine, o;
      }
      if Nullish(v.props[name]) {
        st, p := WriteAnyHeader(buffer, o, NULL, Static(name), false, done);
        return;
      }
    }
    if name !in v.props {
      st, p := WriteAnyHeader(buffer, o, NULL, Static(name), false, done);
    } else {
      st, p := SerializeValue(env, buffer, o, Static(name), f[k].ty, v.props[name], done);
    }
  }

  /** serializeArray behind its header. */
  method SerializeArray(env: Env, buffer: array<byte>, o: int, ty: Ty, v: Value, ghost done: seq<byte>)
    returns (st: Status, p: int)
    requires GoodEnv(env) && GoodTy(env, ty) && v.VArr? && HasElems(env, ty, v, 0) && Pending(buffer[..], o, done)
    modifies buffer
    ensures Wrote(done, buffer[..], Framed(EmitElems(env, ty, v, 0)), st, p)
    decreases v, 2, 0, 0
  {
    ghost var body := EmitElems(env, ty, v, 0);
    EmitElemsExact(env, ty, v, 0);
    st, p := StoreWhole(buffer, o, Le32(0), done);
    if st != Fine { return; }
    st, p := SerializeElements(env, buffer, p, ty, v, done + Le32(0));
    if st != Fine { return; }
    p := CloseFrame(buffer, o, p, done, body);
  }

  method SerializeElements(env: Env, buffer: array<byte>, o: int, ty: Ty, v: Value, ghost done: seq<byte>)
    returns (st: Status, p: int)
    requires GoodEnv(env) && GoodTy(env, ty) && v.VArr? && HasElems(env, ty, v, 0) && Pending(buffer[..], o, done)
    modifies buffer
    ensures Wrote(done, buffer[..], EmitElems(env, ty, v, 0), st, p)
    decreases v, 1, 0, 0
  {
    hide Then, Emit, HasType;
    st, p := Fine, o;
    ghost var all := EmitElems(env, ty, v, 0);
    ghost var pre := SKIP;
    EmitElemsFar(env, ty, v, 0);
    ThenSkip(all);
    assert done + [] == done;
    for i := 0 to |v.elems|
      invariant HasElems(env, ty, v, i) && st == Fine && pre.far >= -1
      invariant Wrote(done, buffer[..], pre, st, p) && Then(pre, EmitElems(env, ty, v, i)) == all
    {
      ghost var one, rest := Emit(env, Index(i), ty, v.elems[i]), EmitElems(env, ty, v, i + 1);
      EmitFar(env, Index(i), ty, v.elems[i]);
      EmitElemsFar(env, ty, v, i + 1);
      st, p := SerializeValue(env, buffer, p, Index(i), ty, v.elems[i], done + pre.bytes);
      if st != Fine {
        Stopped(done + pre.bytes, one, rest, buffer[..], st, p);
        Sequence(done, pre, Then(one, rest), buffer[..], st, p);
        return;
      }
      Sequence(done, pre, one, buffer[..], st, p);
      ThenAssoc(pre, one, rest);
      ThenFar(pre, one);
      pre := Then(pre, one);
    }
    ThenSkip(pre);
  }
}
