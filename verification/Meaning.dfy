/**
 * What decoding a document tree at a type means, stated on the tree alone: no bytes, cursors, fast paths or state.
 * Every reader of the codec is proved to compute this function.
 */
module Meaning {
  import opened Bytes
  import opened Wire
  import opened Utf8
  import opened Types

  /** The target variable of a read: untouched, or assigned. */
  datatype Slot = Unset | Set(v: Value)

  function Update(before: Slot, s: Slot): Slot { if s.Unset? then before else s }

  function Assigned(r: Result<Value>): Result<Slot> {
    match r
    case Err(e) => Err(e)
    case Ok(v) => Ok(Set(v))
  }

  function OrUndefined(s: Slot): Value { if s.Unset? then VUndef else s.v }

  predicate IsNullTag(tag: int) { tag == NULL || tag == UNDEFINED }

  const TRUE_TEXT: Str := [116, 114, 117, 101]
  const FALSE_TEXT: Str := [102, 97, 108, 115, 101]

  // --- scalars: the value a wire value denotes at a scalar type, coercions included

  function StringOf(h: Host, w: Wire): Result<Value>
  {
    match w
    case WString(utf8) => Ok(VStr(Text(h.dec, utf8)))
    case WInt(i) => Ok(VStr(h.numToStr(Int(i))))
    case WDouble(bits) => Ok(VStr(h.numToStr(h.float64(bits))))
    case WBool(b) => Ok(VStr(if b then TRUE_TEXT else FALSE_TEXT))
    case WNull => Ok(VStr([]))
    case WUndefined => Ok(VStr([]))
    case WLong(i) => Ok(VStr(h.bigToStr(i)))
    case WOid(oid) => Ok(VStr(Hex(oid)))
    case _ => Err(Conversion)
  }

  function NumberOf(h: Host, w: Wire): Value
  {
    match w
    case WInt(i) => VNum(Int(i))
    case WDouble(bits) => VNum(NanToZero(h.float64(bits)))
    case WLong(i) => VNum(h.bigToNum(i))
    case WBool(b) => VNum(Int(if b then 1 else 0))
    case WString(utf8) => VNum(h.strToNum(Text(h.dec, utf8)))
    case _ => VNum(Int(0))
  }

  function BooleanOf(h: Host, w: Wire): Value
  {
    match w
    case WBool(b) => VBool(b)
    case WInt(i) => VBool(i != 0)
    case WDouble(bits) => VBool(h.float64(bits) != Int(0) && h.float64(bits) != Dbl(NEG_ZERO))
    case WLong(i) => VBool(i != 0)
    case WString(utf8) => VBool(Text(h.dec, utf8) != [])
    case _ => VBool(false)
  }

  function FromHost(r: Option<int>): Result<Value> {
    match r
    case None => Err(HostError)
    case Some(i) => Ok(VBig(i))
  }

  function LongOf(h: Host, w: Wire): Result<Value>
  {
    match w
    case WLong(i) => Ok(VBig(i))
    case WInt(i) => Ok(VBig(i))
    case WDouble(bits) => FromHost(h.truncToBig(h.float64(bits)))
    case WBool(b) => Ok(VBig(if b then 1 else 0))
    case WString(utf8) => FromHost(h.strToBig(Text(h.dec, utf8)))
    case _ => Ok(VBig(0))
  }

  const MAX_BIGINT := 16 * 1024 * 1024

  function BinaryBigOf(form: BigForm, data: seq<byte>): Result<Value> {
    if data == [] then Ok(VBig(0))
    else if |data| > MAX_BIGINT then Err(BadBigInt)
    else if form.Signed? then
      var m: int := BigEndian(data[1..]);
      Ok(VBig(if data[0] == 255 then -m else m))
    else Ok(VBig(BigEndian(data)))
  }

  function Clamp(form: BigForm, r: Result<Value>): Result<Value> {
    if form.Unsigned? && r.Ok? && r.v.VBig? && r.v.i < 0 then Ok(VBig(0)) else r
  }

  function BigOf(h: Host, form: BigForm, w: Wire): Result<Value>
  {
    if form != Long && w.WBinary? then BinaryBigOf(form, w.data) else Clamp(form, LongOf(h, w))
  }

  function DateOf(h: Host, w: Wire): Value
  {
    match w
    case WDate(ms) => VDate(ms)
    case WLong(ms) => VDate(ms)
    case WInt(ms) => VDate(ms)
    case WDouble(bits) => h.numToDate(h.float64(bits))
    case WString(utf8) => h.strToDate(Text(h.dec, utf8))
    case _ => VDate(0)
  }

  function UuidOf(h: Host, w: Wire): Result<Value>
    requires w.WBinary? ==> |w.data| == 16
  {
    match w
    case WBinary(_, data) => Ok(VStr(UuidText(data)))
    case WString(utf8) => var s := Text(h.dec, utf8); if IsUuidText(s) then Ok(VStr(s)) else Err(Conversion)
    case _ => Err(Conversion)
  }

  function MongoIdOf(h: Host, w: Wire): Result<Value> {
    match w
    case WOid(oid) => Ok(VStr(Hex(oid)))
    case WString(utf8) => var s := Text(h.dec, utf8); if IsMongoIdText(s) then Ok(VStr(s)) else Err(Conversion)
    case _ => Err(Conversion)
  }

  /** The dispatch of a union on the BSON type, for string | number: a boolean is coerced, nothing else is. */
  function TextOrNumberOf(h: Host, w: Wire): Result<Value> {
    match w
    case WString(_) => StringOf(h, w)
    case WInt(_) => Ok(NumberOf(h, w))
    case WDouble(_) => Ok(NumberOf(h, w))
    case WBool(_) => Ok(NumberOf(h, w))
    case _ => Err(Conversion)
  }

  function BinaryOf(w: Wire): Value { VBytes(if w.WBinary? then w.data else []) }

  /** An enum takes any number or string; everything else is skipped. */
  function EnumOf(h: Host, w: Wire): Result<Slot> {
    match w
    case WInt(_) => Ok(Set(NumberOf(h, w)))
    case WDouble(_) => Ok(Set(NumberOf(h, w)))
    case WString(_) => Assigned(StringOf(h, w))
    case _ => Ok(Unset)
  }

  predicate IsScalar(ty: Ty) { !ty.TObject? && !ty.TArray? && !ty.TNullable? && !ty.TEnum? }

  /** No parts of its own: scalars and enums. */
  predicate IsFlat(ty: Ty) { IsScalar(ty) || ty.TEnum? }

  /** Types of the kind class: a missing property or a null is an error. */
  predicate IsClass(ty: Ty) { ty.TDate? || ty.TBinary? }

  /** Scalar widths a read depends on; a UUID target needs a 16-byte binary, see UuidCursorExact. */
  predicate Readable(ty: Ty, w: Wire) {
    ty.TUuid? && w.WBinary? ==> |w.data| == 16
  }

  function ScalarOf(h: Host, ty: Ty, w: Wire): Result<Value>
    requires IsScalar(ty) && Readable(ty, w)
  {
    match ty
    case TNumber => Ok(NumberOf(h, w))
    case TString => StringOf(h, w)
    case TBoolean => Ok(BooleanOf(h, w))
    case TBigInt(form) => BigOf(h, form, w)
    case TLiteral(lit) => Ok(lit)
    case TDate => Ok(DateOf(h, w))
    case TMongoId => MongoIdOf(h, w)
    case TUuid => UuidOf(h, w)
    case TTextOrNumber => TextOrNumberOf(h, w)
    case TBinary => Ok(BinaryOf(w))
  }

  // --- the domain: what a wire tree must satisfy at the type it is read at

  /**
   * Every UUID target meets a 16-byte binary (see UuidCursorExact) and, because the unrolled readers skip the clamp
   * of unsigned BinaryBigInt (see UnrolledSkipsClamp), no such target meets a negative LONG.
   */
  ghost predicate Fits(env: Env, ty: Ty, w: Wire)
    requires GoodEnv(env) && GoodTy(env, ty)
    decreases w, TySize(ty)
  {
    match ty
    case TObject(id) => w.WObject? ==> FitsDoc(env, id, w.doc)
    case TArray(t) => w.WArray? ==> FitsElems(env, t, w.elems)
    case TNullable(t) => Fits(env, t, w)
    case TUuid => w.WBinary? ==> |w.data| == 16
    case TBigInt(Unsigned) => w.WLong? ==> w.long >= 0
    case _ => true
  }

  ghost predicate FitsElems(env: Env, ty: Ty, d: Doc)
    requires GoodEnv(env) && GoodTy(env, ty)
    decreases d, 0
  {
    d.Cons? ==> Fits(env, ty, d.val) && FitsElems(env, ty, d.rest)
  }

  ghost predicate FitsDoc(env: Env, id: nat, d: Doc)
    requires GoodEnv(env) && id < |env|
    decreases d, 1
  {
    FitsFields(env, env[id], d)
  }

  ghost predicate FitsFields(env: Env, f: seq<Field>, d: Doc)
    requires GoodEnv(env) && GoodFields(env, f)
    decreases d, 0
  {
    d.Cons? ==>
      && (Find(f, d.name) < |f| ==> Fits(env, f[Find(f, d.name)].ty, d.val))
      && FitsFields(env, f, d.rest)
  }

  // --- documents

  /** getDefaultForType, where a sentinel can be skipped. */
  function Default(ty: Ty): Slot {
    match ty
    case TNumber => Set(VNum(Int(0)))
    case TString => Set(VStr([]))
    case TMongoId => Set(VStr([]))
    case TUuid => Set(VStr([]))
    case TBoolean => Set(VBool(false))
    case TBigInt(_) => Set(VBig(0))
    case TLiteral(lit) => Set(lit)
    case _ => Unset
  }

  function Initial(f: Field): Slot { if f.optional then Unset else Default(f.ty) }

  function Initials(f: seq<Field>): (r: seq<Slot>)
    ensures |r| == |f|
  {
    seq(|f|, k requires 0 <= k < |f| => Initial(f[k]))
  }

  ghost function ValueOf(h: Host, env: Env, ty: Ty, w: Wire): Result<Slot>
    requires GoodEnv(env) && GoodTy(env, ty) && WfVal(w) && Fits(env, ty, w)
    decreases w, 1, TySize(ty)
  {
    match ty
    case TObject(id) =>
      if w.WObject? then
        assert WfDoc(w.doc);
        Assigned(DocOf(h, env, id, w.doc))
      else if IsNullTag(Tag(w)) then Err(Conversion)
      else Ok(Unset)
    case TArray(t) =>
      if w.WArray? then
        assert WfDoc(w.elems);
        match ElemsOf(h, env, t, w.elems)
        case Err(e) => Err(e)
        case Ok(vs) => Ok(Set(VArr(vs)))
      else Err(Conversion)
    case TNullable(t) =>
      if IsNullTag(Tag(w)) then Ok(Set(VNull)) else ValueOf(h, env, t, w)
    case TEnum => EnumOf(h, w)
    case _ => Assigned(ScalarOf(h, ty, w))
  }

  /** An array element; a skipped mismatch leaves undefined. */
  ghost function ElemOf(h: Host, env: Env, ty: Ty, w: Wire): Result<Value>
    requires GoodEnv(env) && GoodTy(env, ty) && WfVal(w) && Fits(env, ty, w)
    decreases w, 2, 0
  {
    match ValueOf(h, env, ty, w)
    case Err(e) => Err(e)
    case Ok(s) => Ok(OrUndefined(s))
  }

  ghost function ElemsOf(h: Host, env: Env, ty: Ty, d: Doc): Result<seq<Value>>
    requires GoodEnv(env) && GoodTy(env, ty) && WfFields(d) && FitsElems(env, ty, d)
    decreases d, 0
  {
    match d
    case Nil => Ok([])
    case Cons(_, w, rest) =>
      match ElemOf(h, env, ty, w)
      case Err(e) => Err(e)
      case Ok(v) =>
        match ElemsOf(h, env, ty, rest)
        case Err(e) => Err(e)
        case Ok(vs) => Ok([v] + vs)
  }

  /**
   * A property value: null in an optional property is an explicit undefined, in an object or class property an error.
   */
  ghost function FieldOf(h: Host, env: Env, f: Field, w: Wire): Result<Slot>
    requires GoodEnv(env) && GoodTy(env, f.ty) && WfVal(w) && Fits(env, f.ty, w)
    decreases w, 2, 0
  {
    if !f.ty.TNullable? && f.optional && IsNullTag(Tag(w)) then Ok(Set(VUndef))
    else if (f.ty.TObject? || IsClass(f.ty)) && IsNullTag(Tag(w)) then Err(Conversion)
    else ValueOf(h, env, f.ty, w)
  }

  /** The target variables after one element; an unknown element changes nothing. */
  ghost function StepOf(h: Host, env: Env, f: seq<Field>, slots: seq<Slot>, name: seq<byte>, w: Wire)
    : (r: Result<seq<Slot>>)
    requires GoodEnv(env) && GoodFields(env, f) && |slots| == |f| && WfVal(w)
    requires Find(f, name) < |f| ==> Fits(env, f[Find(f, name)].ty, w)
    ensures r.Ok? ==> |r.v| == |f|
    decreases w, 9, 0
  {
    var k := Find(f, name);
    if k == |f| then Ok(slots)
    else
      match FieldOf(h, env, f[k], w)
      case Err(e) => Err(e)
      case Ok(s) => Ok(slots[k := Update(slots[k], s)])
  }

  /** The target variables after all elements, in document order. */
  ghost function Fold(h: Host, env: Env, f: seq<Field>, slots: seq<Slot>, d: Doc): (r: Result<seq<Slot>>)
    requires GoodEnv(env) && GoodFields(env, f) && |slots| == |f| && WfFields(d) && FitsFields(env, f, d)
    ensures r.Ok? ==> |r.v| == |f|
    decreases d, 0
  {
    match d
    case Nil => Ok(slots)
    case Cons(name, w, rest) =>
      match StepOf(h, env, f, slots, name, w)
      case Err(e) => Err(e)
      case Ok(s) => Fold(h, env, f, s, rest)
  }

  /** Objects, class instances and unions: without a default, and an error when missing. */
  predicate Needed(ty: Ty) { ty.TObject? || IsClass(ty) || ty.TTextOrNumber? }

  /** The result object: assigned slots, absent optionals, nullables and enums omitted, anything needed an error. */
  function Build(f: seq<Field>, slots: seq<Slot>): Result<map<seq<byte>, Value>>
    requires |slots| == |f|
  {
    if f == [] then Ok(map[])
    else
      var last := |f| - 1;
      match Build(f[..last], slots[..last])
      case Err(e) => Err(e)
      case Ok(m) =>
        if slots[last].Set? then Ok(m[f[last].name := slots[last].v])
        else if !f[last].optional && Needed(f[last].ty) then Err(Missing)
        else Ok(m)
  }

  function Finish(f: seq<Field>, r: Result<seq<Slot>>): Result<Value>
    requires r.Ok? ==> |r.v| == |f|
  {
    match r
    case Err(e) => Err(e)
    case Ok(slots) =>
      match Build(f, slots)
      case Err(e) => Err(e)
      case Ok(m) => Ok(VObj(m))
  }

  ghost function DocOf(h: Host, env: Env, id: nat, d: Doc): Result<Value>
    requires GoodEnv(env) && id < |env| && WfFields(d) && FitsDoc(env, id, d)
    decreases d, 1
  {
    Finish(env[id], Fold(h, env, env[id], Initials(env[id]), d))
  }
}
