/**
 * Shape learning: the decoder learns the field order of documents at run time, compiles a reader for each learned
 * order and dispatches on the first byte of the first field name. The learned state lives in handles, one for each
 * top-level type and one for each nested type, and grows while decoding.
 *
 * Main result: in any learned state, on every document of the domain, decoding returns Meaning.DocOf, which is
 * what the slow path returns. Where the two paths of the program differ, the difference is stated exactly.
 */
module Shapes {
  import opened Bytes
  import opened Wire
  import opened Utf8
  import opened Types
  import opened Meaning
  import opened Readers
  import opened SlowPath

  datatype ShapeField = ShapeField(name: seq<byte>, tag: int)
  type Shape = seq<ShapeField>

  /** A compiled reader and the byte it is dispatched on (-1 where that read is past the buffer). */
  datatype Learned = Learned(firstByte: int, shape: Shape)

  datatype Handle = Handle(learned: seq<Learned>, failed: set<int>)

  const FRESH := Handle([], {})

  // ---------------------------------------------------------------------------
  // Compatibility and in-line reads
  // ---------------------------------------------------------------------------

  /** `type.kind === ReflectionKind.string`: the annotated identifier types are strings too. */
  predicate StringKind(ty: Ty) { ty.TString? || ty.TUuid? || ty.TMongoId? }

  /** isBsonTypeCompatible, for the fragment of types modelled. */
  predicate Compatible(ty: Ty, tag: int) {
    match ty
    case TNullable(t) => Compatible(t, tag)
    case TLiteral(lit) =>
      || (tag == STRING && lit.VStr?)
      || ((tag == INT || tag == DOUBLE) && lit.VNum?)
      || (tag == BOOLEAN && lit.VBool?)
    case _ =>
      || ((tag == INT || tag == DOUBLE) && ty.TNumber?)
      || (tag == STRING && ty.TString?)
      || (tag == BOOLEAN && ty.TBoolean?)
      || (tag == DATE && ty.TDate?)
      || (tag == LONG && ty.TBigInt?)
      || (tag == OID && StringKind(ty))
      || (tag == OBJECT && (ty.TObject? || IsClass(ty)))
      || (tag == ARRAY && ty.TArray?)
      || (tag == BINARY && ty.TUuid?)
  }

  datatype Read = Bail | Got(v: Value, p: int)

  /** buildShapeValueReadInline at a scalar type. A class given an OBJECT becomes an object without content. */
  function ShapeScalar(h: Host, ty: Ty, tag: int, buf: seq<byte>, o: nat): Read {
    if ty.TLiteral? then
      if tag == STRING then Got(ty.lit, o + 4 + ReadI32(buf, o))
      else if tag == INT then Got(ty.lit, o + 4)
      else if tag == DOUBLE then Got(ty.lit, o + 8)
      else if tag == BOOLEAN then Got(ty.lit, o + 1)
      else Bail
    else if tag == INT then Got(VNum(Int(ReadI32(buf, o))), o + 4)
    else if tag == DOUBLE then
      var d := ReadDouble(h, buf, o);
      if d.NaN? then Bail else Got(VNum(d), o + 8)
    else if tag == STRING then Got(VStr(InlineString(h, buf, o).0), InlineString(h, buf, o).1)
    else if tag == BOOLEAN then Got(VBool(At(buf, o) == 1), o + 1)
    else if tag == DATE && ty.TDate? then Got(VDate(ReadI64(buf, o)), o + 8)
    else if tag == LONG then Got(VBig(ReadI64(buf, o)), o + 8)
    else if tag == OID then Got(VStr(Hex(Window(buf, o, 12))), o + 12)
    else if tag == BINARY && ty.TUuid? then Got(VStr(UuidText(Window(buf, o + 5, 16))), o + 21)
    else if tag == OBJECT && IsClass(ty) then Got(VObj(map[]), o + ReadI32(buf, o))
    else Bail
  }

  /** Element types a shape reads in line; arrays of any other type always bail out. */
  predicate InlineElem(ty: Ty) { ty.TObject? || IsClass(ty) || StringKind(ty) || ty.TNumber? || ty.TBoolean? }

  /** A primitive array element: no validation of identifier strings, no NaN check. */
  function ShapeElem(h: Host, ty: Ty, tag: int, buf: seq<byte>, o: nat): Read {
    if StringKind(ty) then
      if tag == STRING then Got(VStr(InlineString(h, buf, o).0), InlineString(h, buf, o).1) else Bail
    else if ty.TNumber? then
      if tag == INT then Got(VNum(Int(ReadI32(buf, o))), o + 4)
      else if tag == DOUBLE then Got(VNum(ReadDouble(h, buf, o)), o + 8)
      else Bail
    else if ty.TBoolean? && tag == BOOLEAN then Got(VBool(At(buf, o) == 1), o + 1)
    else if IsClass(ty) && tag == OBJECT then Got(VObj(map[]), o + ReadI32(buf, o))
    else Bail
  }

  // ---------------------------------------------------------------------------
  // Where the shape path agrees with the slow path
  // ---------------------------------------------------------------------------

  /** No OID at a UUID, no document at a class, no negative LONG at an unsigned BinaryBigInt. */
  predicate AgreesScalar(ty: Ty, w: Wire) {
    && !(ty.TUuid? && w.WOid?)
    && !(IsClass(ty) && w.WObject?)
    && !(ty == TBigInt(Unsigned) && w.WLong? && w.long < 0)
  }

  /** In arrays: no NaN, no malformed identifier string, no document at a class. */
  predicate AgreesElem(h: Host, ty: Ty, w: Wire) {
    && !(ty.TNumber? && w.WDouble? && h.float64(w.bits).NaN?)
    && !(ty.TUuid? && w.WString? && !IsUuidText(Text(h.dec, w.utf8)))
    && !(ty.TMongoId? && w.WString? && !IsMongoIdText(Text(h.dec, w.utf8)))
    && !(IsClass(ty) && w.WObject?)
  }

  predicate NanHere(h: Host, ty: Ty, w: Wire) { ty.TNumber? && w.WDouble? && h.float64(w.bits).NaN? }

  /**
   * The in-line read of a learned field bails out exactly on a NaN double; otherwise it moves past the value, and
   * it gives what the slow path gives exactly when AgreesScalar holds.
   */
  lemma {:induction false} ShapeScalarExact(h: Host, ty: Ty, buf: seq<byte>, o: nat, w: Wire)
    requires IsScalar(ty) && Compatible(ty, Tag(w)) && Readable(ty, w) && WfVal(w) && Placed(buf, o, EncVal(w))
    ensures var r := ShapeScalar(h, ty, Tag(w), buf, o);
            && (r.Bail? <==> NanHere(h, ty, w))
            && (r.Got? ==> r.p == o + |EncVal(w)|)
            && (r.Got? ==> (ScalarOf(h, ty, w) == Ok(r.v) <==> AgreesScalar(ty, w)))
  {
    if ty.TLiteral? {
      ShapeLiteralExact(h, ty, buf, o, w);
    } else {
      ShapePlainExact(h, ty, buf, o, w);
    }
  }

  lemma {:induction false} ShapeLiteralExact(h: Host, ty: Ty, buf: seq<byte>, o: nat, w: Wire)
    requires ty.TLiteral? && Compatible(ty, Tag(w)) && WfVal(w) && Placed(buf, o, EncVal(w))
    ensures ShapeScalar(h, ty, Tag(w), buf, o) == Got(ty.lit, o + |EncVal(w)|)
  {
    SizeField(buf, o, w);
  }

  lemma {:induction false} ShapePlainExact(h: Host, ty: Ty, buf: seq<byte>, o: nat, w: Wire)
    requires IsScalar(ty) && !ty.TLiteral? && Compatible(ty, Tag(w)) && Readable(ty, w)
    requires WfVal(w) && Placed(buf, o, EncVal(w))
    ensures var r := ShapeScalar(h, ty, Tag(w), buf, o);
            && (r.Bail? <==> NanHere(h, ty, w))
            && (r.Got? ==> r.p == o + |EncVal(w)|)
            && (r.Got? ==> (ScalarOf(h, ty, w) == Ok(r.v) <==> AgreesScalar(ty, w)))
  {
    hide Placed, Window, ReadI32, ReadI64, At, ReadDouble, InlineString, Text, TextAt, SkipValue, ReadBsonString;
    See(h, buf, o, w);
    SizeField(buf, o, w);
  }

  /** The wire values a primitive element reader takes; anything else bails out. */
  predicate SmoothElem(ty: Ty, w: Wire) {
    || (StringKind(ty) && w.WString?)
    || (ty.TNumber? && (w.WInt? || w.WDouble?))
    || (ty.TBoolean? && w.WBool?)
    || ((IsClass(ty) || ty.TObject?) && w.WObject?)
  }

  ghost predicate ElemExact(h: Host, ty: Ty, buf: seq<byte>, o: nat, w: Wire)
    requires IsScalar(ty) && Readable(ty, w)
  {
    var r := ShapeElem(h, ty, Tag(w), buf, o);
    && (r.Got? <==> SmoothElem(ty, w))
    && (r.Got? ==> r.p == o + |EncVal(w)|)
    && (r.Got? ==> (ScalarOf(h, ty, w) == Ok(r.v) <==> AgreesElem(h, ty, w)))
  }

  /** The same for array elements; here it is NaN and the identifier strings that go wrong. */
  lemma {:induction false} ShapeElemExact(h: Host, ty: Ty, buf: seq<byte>, o: nat, w: Wire)
    requires IsScalar(ty) && WfVal(w) && Placed(buf, o, EncVal(w)) && Readable(ty, w)
    ensures ElemExact(h, ty, buf, o, w)
  {
    hide LeBytes, ReadLe, Text, Hex;
    if StringKind(ty) {
      StringElemExact(h, ty, buf, o, w);
    } else if ty.TNumber? {
      NumberElemExact(h, buf, o, w);
    } else {
      if w.WBool? { SeeBool(buf, o, w); }
      SizeField(buf, o, w);
    }
  }

  lemma {:induction false} StringElemExact(h: Host, ty: Ty, buf: seq<byte>, o: nat, w: Wire)
    requires StringKind(ty) && WfVal(w) && Placed(buf, o, EncVal(w)) && Readable(ty, w)
    ensures ElemExact(h, ty, buf, o, w)
  {
    if w.WString? { SeeString(h, buf, o, w); }
  }

  lemma {:induction false} NumberElemExact(h: Host, buf: seq<byte>, o: nat, w: Wire)
    requires WfVal(w) && Placed(buf, o, EncVal(w))
    ensures ElemExact(h, TNumber, buf, o, w)
  {
    if w.WDouble? { SeeDouble(h, buf, o, w); }
    if w.WInt? { SeeInt(buf, o, w); }
  }

  // ---------------------------------------------------------------------------
  // The domain, and what a shape follows without bailing out
  // ---------------------------------------------------------------------------

  /** Learning throws on the two key sentinels that skipValue accepts. */
  predicate IsKey(w: Wire) { w.WMinKey? || w.WMaxKey? }

  predicate HasKeys(d: Doc) { d.Cons? && (IsKey(d.val) || HasKeys(d.rest)) }

  ghost predicate AgreesVal(h: Host, env: Env, ty: Ty, w: Wire)
    requires GoodEnv(env) && GoodTy(env, ty)
    decreases w, TySize(ty)
  {
    match ty
    case TNullable(t) => AgreesVal(h, env, t, w)
    case TObject(id) => w.WObject? ==> AgreesDoc(h, env, id, w.doc)
    case TArray(t) => w.WArray? ==> AgreesElems(h, env, t, w.elems)
    case _ => AgreesScalar(ty, w)
  }

  ghost predicate AgreesElems(h: Host, env: Env, ty: Ty, d: Doc)
    requires GoodEnv(env) && GoodTy(env, ty)
    decreases d, 0
  {
    d.Cons? ==>
      && (if ty.TObject? then d.val.WObject? ==> AgreesDoc(h, env, ty.id, d.val.doc) else AgreesElem(h, ty, d.val))
      && AgreesElems(h, env, ty, d.rest)
  }

  ghost predicate AgreesDoc(h: Host, env: Env, id: nat, d: Doc)
    requires GoodEnv(env) && id < |env|
    decreases d, 1
  {
    !HasKeys(d) && AgreesFields(h, env, env[id], d)
  }

  ghost predicate AgreesFields(h: Host, env: Env, f: seq<Field>, d: Doc)
    requires GoodEnv(env) && GoodFields(env, f)
    decreases d, 0
  {
    d.Cons? ==>
      && (Find(f, d.name) < |f| ==> AgreesVal(h, env, f[Find(f, d.name)].ty, d.val))
      && AgreesFields(h, env, f, d.rest)
  }

  predicate SmoothElems(ty: Ty, d: Doc) { d.Cons? ==> SmoothElem(ty, d.val) && SmoothElems(ty, d.rest) }

  /** The values a compiled field reader handles without bailing out. */
  predicate SmoothVal(h: Host, ty: Ty, w: Wire) {
    match Core(ty)
    case TObject(_) => true
    case TArray(t) => w.WArray? && InlineElem(t) && SmoothElems(t, w.elems)
    case _ => !NanHere(h, Core(ty), w)
  }

  /** All fields of a shape are known and of directly compatible BSON types. */
  predicate ShapeFits(f: seq<Field>, shape: Shape) {
    forall i :: 0 <= i < |shape| ==> FieldFits(f, shape[i])
  }

  predicate FieldFits(f: seq<Field>, sf: ShapeField) {
    Find(f, sf.name) < |f| && Compatible(f[Find(f, sf.name)].ty, sf.tag)
  }

  /** The document follows the shape from its i-th field on. */
  predicate Follows(h: Host, f: seq<Field>, shape: Shape, i: nat, d: Doc)
    requires i <= |shape| && ShapeFits(f, shape)
    decreases d
  {
    match d
    case Nil => i == |shape|
    case Cons(name, w, rest) =>
      && i < |shape| && shape[i] == ShapeField(name, Tag(w))
      && SmoothVal(h, f[Find(f, name)].ty, w) && Follows(h, f, shape, i + 1, rest)
  }

  function Names(d: Doc): set<seq<byte>> { if d.Nil? then {} else {d.name} + Names(d.rest) }

  predicate Complete(f: seq<Field>, names: set<seq<byte>>) {
    forall k :: 0 <= k < |f| ==> f[k].optional || f[k].name in names
  }

  function ShapeOf(d: Doc): Shape {
    match d
    case Nil => []
    case Cons(name, w, rest) => [ShapeField(name, Tag(w))] + ShapeOf(rest)
  }

  // ---------------------------------------------------------------------------
  // Learning
  // ---------------------------------------------------------------------------

  /** skipBsonValueForShapeLearning: no key sentinels, and no end check behind a regular expression. */
  function LearnSkip(buf: seq<byte>, o: nat, tag: int): Result<nat> {
    if tag == MIN_KEY || tag == MAX_KEY then Err(UnknownLearnedType)
    else if tag == REGEX then Ok(PastNul(buf, PastNul(buf, o)))
    else
      match SkipValue(buf, o, tag)
      case Ok(p) => Ok(p)
      case Err(e) => Err(if e.UnknownType? then UnknownLearnedType else e)
  }

  lemma {:induction false} LearnSkipExact(buf: seq<byte>, o: nat, w: Wire)
    requires WfVal(w) && Placed(buf, o, EncVal(w))
    ensures LearnSkip(buf, o, Tag(w)) == if IsKey(w) then Err(UnknownLearnedType) else Ok(o + |EncVal(w)|)
  {
    SkipValueExact(buf, o, w);
  }

  method SkipLearned(buf: seq<byte>, o: nat, tag: int, ghost w: Wire) returns (res: Result<nat>)
    requires WfVal(w) && tag == Tag(w) && Placed(buf, o, EncVal(w))
    ensures res == if IsKey(w) then Err(UnknownLearnedType) else Ok(o + |EncVal(w)|)
  {
    LearnSkipExact(buf, o, w);
    res := LearnSkip(buf, o, tag);
  }

  function LearnOf(d: Doc): Result<Shape> { if HasKeys(d) then Err(UnknownLearnedType) else Ok(ShapeOf(d)) }

  ghost predicate Learning(fields: Shape, rest: Doc, goal: Result<Shape>) {
    if HasKeys(rest) then goal == Err(UnknownLearnedType) else goal == Ok(fields + ShapeOf(rest))
  }

  lemma {:induction false} LearnStep(fields: Shape, rest: Doc, goal: Result<Shape>)
    requires rest.Cons? && Learning(fields, rest, goal) && !IsKey(rest.val)
    ensures Learning(fields + [ShapeField(rest.name, Tag(rest.val))], rest.rest, goal)
  {
    var sf := ShapeField(rest.name, Tag(rest.val));
    assert fields + ([sf] + ShapeOf(rest.rest)) == fields + [sf] + ShapeOf(rest.rest);
  }

  /** The name loop of learnShape, stopping at a NUL or at the end of the document. */
  method LearnName(buf: seq<byte>, o: nat, end: int, ghost name: seq<byte>) returns (bytes: seq<byte>, p: nat)
    requires NulFree(name) && Placed(buf, o, name + [0]) && o + |name| < end <= |buf|
    ensures bytes == name && p == o + |name|
  {
    bytes, p := [], o;
    NulFromPlaced(buf, o, name);
    PlacedAppend(buf, o, name, [0]);
    while p < end && buf[p] != 0
      invariant o <= p <= o + |name|
      invariant NulFrom(buf, p) == o + |name| && bytes == buf[o..p]
    {
      bytes := bytes + [buf[p]];
      p := p + 1;
    }
  }

  /** One field of learnShape: its name and type, and the cursor behind its value. */
  method LearnField(buf: seq<byte>, o: nat, end: int, tag: int, ghost name: seq<byte>, ghost w: Wire)
    returns (res: Result<ShapeField>, p: int)
    requires NulFree(name) && WfVal(w) && tag == Tag(w) && o + |name| < end <= |buf|
    requires Placed(buf, o, name + [0]) && Placed(buf, o + |name| + 1, EncVal(w))
    ensures IsKey(w) ==> res == Err(UnknownLearnedType)
    ensures !IsKey(w) ==> res == Ok(ShapeField(name, Tag(w))) && p == o + |name| + 1 + |EncVal(w)|
  {
    var bytes, q := LearnName(buf, o, end, name);
    var x := SkipLearned(buf, q + 1, tag, w);
    match x
    case Err(e) => return Err(e), q;
    case Ok(n) => return Ok(ShapeField(bytes, tag)), n;
  }

  /** One turn of the loop of learnShape. */
  method LearnTurn(buf: seq<byte>, o: nat, end: int, fields: Shape, ghost rest: Doc, ghost goal: Result<Shape>)
    returns (res: Result<Shape>, p: int)
    requires AtFields(buf, o, end, rest) && o < end && Learning(fields, rest, goal)
    ensures rest.Cons?
    ensures res.Err? ==> goal == Err(res.e)
    ensures res.Ok? ==> o < p && AtFields(buf, p, end, rest.rest) && Learning(res.v, rest.rest, goal)
  {
    hide LeBytes, EncFields, EncVal, SkipValue, Tag, NulFrom;
    var tag := NextTag(buf, o, end, rest);
    if tag == 0 { return Ok(fields), o + 1; }
    Ended(buf, o + 2 + |rest.name| + |EncVal(rest.val)|, end, rest.rest);
    var x, n := LearnField(buf, o + 1, end, tag, rest.name, rest.val);
    match x
    case Err(e) => return Err(e), o;
    case Ok(sf) =>
      LearnStep(fields, rest, goal);
      return Ok(fields + [sf]), n;
  }

  /** learnShape: the field names and BSON types of a document, or an error exactly on a key sentinel. */
  method LearnShape(buf: seq<byte>, o0: nat, ghost d: Doc) returns (res: Result<Shape>)
    requires WfDoc(d) && Placed(buf, o0, EncDoc(d))
    ensures res == LearnOf(d)
  {
    OpenDoc(buf, o0, d);
    var size := ReadI32(buf, o0);
    var fields: Shape := [];
    if size < 5 || o0 + size > |buf| { return Ok(fields); }
    var end := o0 + size - 1;
    var o := o0 + 4;
    ghost var rest, goal := d, LearnOf(d);
    assert fields + ShapeOf(d) == ShapeOf(d);
    while o < end
      invariant AtFields(buf, o, end, rest) && Learning(fields, rest, goal)
      decreases end - o
    {
      var x, q := LearnTurn(buf, o, end, fields, rest, goal);
      if x.Err? { return x; }
      fields, o := x.v, q;
      rest := rest.rest;
    }
    Ended(buf, o, end, rest);
    assert fields + [] == fields;
    return Ok(fields);
  }

  // ---------------------------------------------------------------------------
  // Index names of arrays that are not well formed
  // ---------------------------------------------------------------------------

  /** `while (buf[ao] !== 0) ao++` after up to `n` turns; behind the buffer undefined is not 0 either. */
  function NameTurns(buf: seq<byte>, o: nat, n: nat): nat
    decreases n
  {
    if n == 0 || At(buf, o) == 0 then o else NameTurns(buf, o + 1, n - 1)
  }

  ghost predicate NameEnds(buf: seq<byte>, o: nat) { exists n: nat :: At(buf, NameTurns(buf, o, n)) == 0 }

  lemma {:induction false} NameTurnsTo(buf: seq<byte>, o: nat, n: nat)
    ensures NulFrom(buf, o) < |buf| && n >= NulFrom(buf, o) - o ==> NameTurns(buf, o, n) == NulFrom(buf, o)
    ensures NulFrom(buf, o) >= |buf| ==> NameTurns(buf, o, n) == o + n && At(buf, o + n) != 0
    decreases n
  {
    if n > 0 && At(buf, o) != 0 { NameTurnsTo(buf, o + 1, n - 1); }
  }

  /**
   * The loop by which the array readers of a learned shape skip an index name ends exactly if the name is terminated;
   * otherwise it runs on behind the buffer forever.
   */
  lemma {:induction false} NameEndsIff(buf: seq<byte>, o: nat)
    ensures NameEnds(buf, o) <==> NulFrom(buf, o) < |buf|
  {
    if NulFrom(buf, o) < |buf| {
      NameTurnsTo(buf, o, NulFrom(buf, o) - o);
      assert At(buf, NameTurns(buf, o, NulFrom(buf, o) - o)) == 0 by { NulHere(buf, o); }
    } else if NameEnds(buf, o) {
      var n: nat :| At(buf, NameTurns(buf, o, n)) == 0;
      NameTurnsTo(buf, o, n);
    }
  }

  lemma {:induction false} NulHere(buf: seq<byte>, o: nat)
    requires NulFrom(buf, o) < |buf|
    ensures At(buf, NulFrom(buf, o)) == 0
    decreases |buf| - o
  {
    if o < |buf| && buf[o] != 0 { NulHere(buf, o + 1); }
  }

  // ---------------------------------------------------------------------------
  // Result objects
  // ---------------------------------------------------------------------------

  /** The result object of a compiled reader; a missing required property bails out. */
  function BuildShape(f: seq<Field>, vars: map<seq<byte>, Value>): Option<map<seq<byte>, Value>> {
    if f == [] then Some(map[])
    else
      var last := f[|f| - 1];
      match BuildShape(f[..|f| - 1], vars)
      case None => None
      case Some(m) =>
        if last.name in vars then Some(m[last.name := vars[last.name]])
        else if last.optional then Some(m)
        else None
  }

  /** The variables of the compiled reader hold what the slow path's slots hold. */
  ghost predicate Mirrors(f: seq<Field>, slots: seq<Slot>, vars: map<seq<byte>, Value>) {
    && |slots| == |f|
    && forall k :: 0 <= k < |f| ==>
         slots[k] == if f[k].name in vars then Set(vars[f[k].name]) else Initial(f[k])
  }

  lemma {:induction false} BuildShapeExact(f: seq<Field>, slots: seq<Slot>, vars: map<seq<byte>, Value>)
    requires Mirrors(f, slots, vars)
    ensures BuildShape(f, vars).Some? <==> Complete(f, vars.Keys)
    ensures BuildShape(f, vars).Some? ==> Build(f, slots) == Ok(BuildShape(f, vars).value)
  {
    if f != [] {
      var n := |f| - 1;
      BuildShapeExact(f[..n], slots[..n], vars);
      assert Complete(f, vars.Keys) <==> Complete(f[..n], vars.Keys) && (f[n].optional || f[n].name in vars.Keys);
    }
  }

  /** Reading a value of a known field keeps the variables and the slots in step. */
  lemma {:induction false} MirrorStep(env: Env, f: seq<Field>, slots: seq<Slot>, vars: map<seq<byte>, Value>, k: nat,
                                      v: Value)
    requires GoodFields(env, f) && Mirrors(f, slots, vars) && k < |f|
    ensures Mirrors(f, slots[k := Set(v)], vars[f[k].name := v])
  {
  }

  // ---------------------------------------------------------------------------
  // The learned state
  // ---------------------------------------------------------------------------

  /** Every learned shape fits the type; first bytes are learned at most once and never both learned and failed. */
  ghost predicate GoodHandle(f: seq<Field>, hd: Handle) {
    && (forall j :: 0 <= j < |hd.learned| ==>
          ShapeFits(f, hd.learned[j].shape) && hd.learned[j].firstByte !in hd.failed)
    && (forall j, k :: 0 <= j < k < |hd.learned| ==> hd.learned[j].firstByte != hd.learned[k].firstByte)
  }

  ghost predicate GoodHandles(env: Env, hs: seq<Handle>) {
    |hs| == |env| && forall id :: 0 <= id < |hs| ==> GoodHandle(env[id], hs[id])
  }

  /** Learned shapes are only ever appended, failed first bytes only ever added. */
  ghost predicate Grew(a: seq<Handle>, b: seq<Handle>) {
    |a| == |b| && forall id :: 0 <= id < |a| ==> a[id].learned <= b[id].learned && a[id].failed <= b[id].failed
  }

  /** The compiled dispatcher: the first learned shape of that first byte, or the number of shapes. */
  function Lookup(learned: seq<Learned>, firstByte: int, k: nat): (r: nat)
    requires k <= |learned|
    ensures k <= r <= |learned|
    ensures r < |learned| ==> learned[r].firstByte == firstByte
    ensures r == |learned| ==> forall j :: k <= j < r ==> learned[j].firstByte != firstByte
    decreases |learned| - k
  {
    if k == |learned| || learned[k].firstByte == firstByte then k else Lookup(learned, firstByte, k + 1)
  }

  function Learn(hs: seq<Handle>, id: nat, firstByte: int, shape: Shape): seq<Handle>
    requires id < |hs|
  {
    hs[id := Handle(hs[id].learned + [Learned(firstByte, shape)], hs[id].failed)]
  }

  function Fail(hs: seq<Handle>, id: nat, firstByte: int): seq<Handle>
    requires id < |hs|
  {
    hs[id := Handle(hs[id].learned, hs[id].failed + {firstByte})]
  }

  lemma {:induction false} LearnKeeps(env: Env, hs: seq<Handle>, id: nat, firstByte: int, shape: Shape)
    requires GoodHandles(env, hs) && id < |env| && ShapeFits(env[id], shape) && firstByte !in hs[id].failed
    requires Lookup(hs[id].learned, firstByte, 0) == |hs[id].learned|
    ensures GoodHandles(env, Learn(hs, id, firstByte, shape)) && Grew(hs, Learn(hs, id, firstByte, shape))
  {
  }

  lemma {:induction false} FailKeeps(env: Env, hs: seq<Handle>, id: nat, firstByte: int)
    requires GoodHandles(env, hs) && id < |env|
    requires Lookup(hs[id].learned, firstByte, 0) == |hs[id].learned|
    ensures GoodHandles(env, Fail(hs, id, firstByte)) && Grew(hs, Fail(hs, id, firstByte))
  {
  }

  lemma {:induction false} GrewTrans(a: seq<Handle>, b: seq<Handle>, c: seq<Handle>)
    requires Grew(a, b) && Grew(b, c)
    ensures Grew(a, c)
  {
    forall id | 0 <= id < |a| ensures a[id].learned <= c[id].learned {
      assert a[id].learned <= b[id].learned <= c[id].learned;
    }
  }

  datatype Outcome<+T> = Bailed | Done(v: T) | Threw(e: Error)

  function FromResult<T>(r: Result<T>): Outcome<T> {
    match r
    case Ok(v) => Done(v)
    case Err(e) => Threw(e)
  }

  ghost predicate Here(h: Host, f: seq<Field>, sf: ShapeField, d: Doc) {
    && d.Cons? && sf == ShapeField(d.name, Tag(d.val))
    && Find(f, d.name) < |f| && SmoothVal(h, f[Find(f, d.name)].ty, d.val)
  }

  lemma {:induction false} CompatibleField(h: Host, env: Env, f: Field, w: Wire)
    requires GoodEnv(env) && GoodTy(env, f.ty) && WfVal(w) && Fits(env, f.ty, w) && AgreesVal(h, env, f.ty, w)
    requires Compatible(f.ty, Tag(w))
    ensures GoodTy(env, Core(f.ty)) && !Core(f.ty).TNullable? && Fits(env, Core(f.ty), w)
    ensures AgreesVal(h, env, Core(f.ty), w) && Compatible(Core(f.ty), Tag(w))
    ensures FieldOf(h, env, f, w) == ValueOf(h, env, Core(f.ty), w)
  {
  }

  datatype Call = Call(id: nat, buf: seq<byte>, o: nat)

  ghost predicate InDomain(h: Host, env: Env, c: Call, d: Doc)
    requires GoodEnv(env)
  {
    && c.id < |env| && WfDoc(d) && FitsDoc(env, c.id, d) && AgreesDoc(h, env, c.id, d)
    && Placed(c.buf, c.o, EncDoc(d))
  }

  ghost predicate Answers(h: Host, env: Env, c: Call, d: Doc, r: Result<Value>) {
    GoodEnv(env) && InDomain(h, env, c, d) && r == DocOf(h, env, c.id, d)
  }

  /** A turn of a history: a decode in the domain, or one learning step of any other decode. */
  datatype Turn = Decode(c: Call) | Other(isTop: bool, id: nat, firstByte: int, shape: Result<Shape>)

  ghost predicate TurnFits(h: Host, env: Env, t: Turn, d: Doc)
    requires GoodEnv(env)
  {
    match t
    case Decode(c) => InDomain(h, env, c, d)
    case Other(_, id, _, _) => id < |env|
  }

  ghost predicate Expected(h: Host, env: Env, t: Turn, d: Doc, r: Option<Result<Value>>) {
    t.Decode? ==> r.Some? && Answers(h, env, t.c, d, r.value)
  }

  predicate Known(hd: Handle, firstByte: int) {
    Lookup(hd.learned, firstByte, 0) < |hd.learned| || firstByte in hd.failed
  }

  /** A first byte met for the first time is learned with the shape of its document, or marked as failed. */
  ghost predicate Remembers(f: seq<Field>, before: Handle, after: Handle, firstByte: int, shape: Shape) {
    !Known(before, firstByte) ==>
      var n := |before.learned|;
      if ShapeFits(f, shape) then n < |after.learned| && after.learned[n] == Learned(firstByte, shape)
      else firstByte in after.failed
  }

  /** A document with a key sentinel in an unknown field: learning throws, the slow path ignores the field. */
  lemma {:induction false} KeySentinelDiverges(h: Host, env: Env, id: nat, name: seq<byte>, key: Wire)
    requires GoodEnv(env) && id < |env| && NulFree(name) && Find(env[id], name) == |env[id]| && IsKey(key)
    ensures WfFields(Cons(name, key, Nil)) && FitsDoc(env, id, Cons(name, key, Nil))
    ensures LearnOf(Cons(name, key, Nil)).Err?
    ensures DocOf(h, env, id, Cons(name, key, Nil)) == DocOf(h, env, id, Nil)
  {
    var d := Cons(name, key, Nil);
    var f := env[id];
    assert WfFields(Nil) && WfVal(key) && WfFields(d);
    assert GoodFields(env, f) && FitsFields(env, f, Nil) && FitsFields(env, f, d);
    assert StepOf(h, env, f, Initials(f), name, key) == Ok(Initials(f));
  }

  class ShapeDecoder {
    const h: Host
    const env: Env
    /** The base deserializer, and the extracted deserializers of nested types. */
    const slow: SlowPath.Decoder
    var nested: seq<Handle>
    var top: seq<Handle>

    ghost predicate Valid()
      reads this
    {
      GoodEnv(env) && slow.h == h && slow.env == env && GoodHandles(env, nested) && GoodHandles(env, top)
      && (forall id :: 0 <= id < |top| ==> top[id].failed == {})
    }

    constructor (slow: SlowPath.Decoder)
      requires GoodEnv(slow.env)
      ensures Valid() && this.slow == slow && env == slow.env && h == slow.h
      ensures forall id :: 0 <= id < |env| ==> nested[id] == FRESH && top[id] == FRESH
    {
      this.slow, h, env := slow, slow.h, slow.env;
      nested, top := seq(|slow.env|, _ => FRESH), seq(|slow.env|, _ => FRESH);
    }

    /** The slow path of a handle. */
    method Fallback(buf: seq<byte>, o: nat, id: nat, ctx: Ctx, ghost d: Doc) returns (res: Result<Value>, p: int)
      requires Valid() && id < |env| && WfDoc(d) && FitsDoc(env, id, d) && Placed(buf, o, EncDoc(d))
      modifies slow`r
      ensures res == DocOf(h, env, id, d)
      ensures res.Ok? ==> p == o + |EncDoc(d)|
    {
      res, p := slow.DecodeBody(buf, o, id, ctx, d);
    }

    /** handle.fn of a nested type: dispatch on the first byte, learn on a new one, fall back on a bailout. */
    method CallNested(buf: seq<byte>, o: nat, id: nat, ghost d: Doc) returns (res: Result<Value>, p: int)
      requires Valid() && id < |env| && WfDoc(d) && FitsDoc(env, id, d) && AgreesDoc(h, env, id, d)
      requires Placed(buf, o, EncDoc(d))
      modifies this`nested, slow`r
      ensures Valid() && Grew(old(nested), nested)
      ensures Remembers(env[id], old(nested[id]), nested[id], At(buf, o + 5), ShapeOf(d))
      ensures res == DocOf(h, env, id, d)
      ensures res.Ok? ==> p == o + |EncDoc(d)|
      decreases Weight(d), 6
    {
      var firstByte := At(buf, o + 5);
      var k := Lookup(nested[id].learned, firstByte, 0);
      if k < |nested[id].learned| {
        res, p := RunOrFall(buf, o, id, nested[id].learned[k].shape, Ctx(0, {id}), d);
      } else if firstByte in nested[id].failed {
        res, p := Fallback(buf, o, id, Ctx(0, {id}), d);
      } else {
        var shape := LearnShape(buf, o, d);
        ghost var before := nested;
        if ShapeFits(env[id], shape.v) {
          LearnKeeps(env, nested, id, firstByte, shape.v);
          nested := Learn(nested, id, firstByte, shape.v);
          ghost var mid := nested;
          res, p := RunOrFall(buf, o, id, shape.v, Ctx(0, {id}), d);
          GrewTrans(before, mid, nested);
        } else {
          FailKeeps(env, nested, id, firstByte);
          nested := Fail(nested, id, firstByte);
          res, p := Fallback(buf, o, id, Ctx(0, {id}), d);
        }
      }
    }

    /** Runs a compiled reader, and the slow path when it bails out. */
    method RunOrFall(buf: seq<byte>, o: nat, id: nat, shape: Shape, ctx: Ctx, ghost d: Doc)
      returns (res: Result<Value>, p: int)
      requires Valid() && id < |env| && WfDoc(d) && FitsDoc(env, id, d) && AgreesDoc(h, env, id, d)
      requires Placed(buf, o, EncDoc(d)) && ShapeFits(env[id], shape)
      modifies this`nested, slow`r
      ensures Valid() && Grew(old(nested), nested)
      ensures res == DocOf(h, env, id, d)
      ensures res.Ok? ==> p == o + |EncDoc(d)|
      decreases Weight(d), 5
    {
      var x;
      x, p := RunShape(buf, o, id, shape, d);
      match x
      case Done(v) => res := Ok(v);
      case Threw(e) => res := Err(e);
      case Bailed => res, p := Fallback(buf, o, id, ctx, d);
    }

    /** The compiled reader of a shape: the learned fields in the learned order, or a bailout. */
    method RunShape(buf: seq<byte>, o0: nat, id: nat, shape: Shape, ghost d: Doc) returns (res: Outcome<Value>, p: int)
      requires Valid() && id < |env| && WfDoc(d) && FitsDoc(env, id, d) && AgreesDoc(h, env, id, d)
      requires Placed(buf, o0, EncDoc(d)) && ShapeFits(env[id], shape)
      modifies this`nested, slow`r
      ensures Valid() && Grew(old(nested), nested)
      ensures res.Done? ==> DocOf(h, env, id, d) == Ok(res.v) && p == o0 + |EncDoc(d)|
      ensures res.Threw? ==> DocOf(h, env, id, d) == Err(res.e)
      ensures res.Done? ==> Follows(h, env[id], shape, 0, d) && Complete(env[id], Names(d))
      ensures res.Bailed? ==> !(Follows(h, env[id], shape, 0, d) && Complete(env[id], Names(d)))
      decreases Weight(d), 4
    {
      var f := env[id];
      var end := Open(buf, o0, d);
      var o: int := o0 + 4;
      hide LeBytes, EncFields, EncVal, Placed, WfVal, SmoothVal, Compatible, Fold, Mirrors, AgreesVal, Build;
      var vars: map<seq<byte>, Value> := map[];
      ghost var slots, rest := Initials(f), d;
      ghost var goal := Fold(h, env, f, slots, d);
      for i := 0 to |shape|
        invariant Valid() && Grew(old(nested), nested)
        invariant o >= 0 && AtFields(buf, o, end, rest) && Weight(rest) <= Weight(d)
        invariant Folding(h, env, f, slots, rest, goal) && Mirrors(f, slots, vars) && AgreesFields(h, env, f, rest)
        invariant Follows(h, f, shape, i, rest) == Follows(h, f, shape, 0, d)
        invariant vars.Keys + Names(rest) == Names(d)
      {
        ghost var before := nested;
        var x;
        x, o, slots := ShapeTurn(buf, o, end, f, shape[i], vars, slots, rest, goal);
        GrewTrans(old(nested), before, nested);
        match x
        case Bailed => return Bailed, o;
        case Threw(e) => return Threw(e), o;
        case Done(next) =>
          vars := next;
          rest := rest.rest;
      }
      Ended(buf, o, end, rest);
      if At(buf, o) != 0 { return Bailed, o; }
      FoldEnd(h, env, f, slots, goal);
      BuildShapeExact(f, slots, vars);
      match BuildShape(f, vars)
      case None => return Bailed, o;
      case Some(m) => return Done(VObj(m)), end + 1;
    }

    /** The bounds, type byte and name check of a learned field. */
    method AtShapeField(buf: seq<byte>, o: nat, end: int, sf: ShapeField, ghost rest: Doc) returns (ok: bool)
      requires AtFields(buf, o, end, rest) && NulFree(sf.name)
      ensures ok <==> rest.Cons? && sf == ShapeField(rest.name, Tag(rest.val))
      ensures ok ==> WfVal(rest.val) && Placed(buf, o + 2 + |sf.name|, EncVal(rest.val))
      ensures ok ==> AtFields(buf, o + 2 + |sf.name| + |EncVal(rest.val)|, end, rest.rest)
      ensures ok ==> Weight(rest) == 1 + WeightVal(rest.val) + Weight(rest.rest)
    {
      Ended(buf, o, end, rest);
      if o >= end { return false; }
      var tag := NextTag(buf, o, end, rest);
      NameCheckExact(buf, o + 1, sf.name, rest.name);
      return tag == sf.tag && NameCheck(buf, o + 1, sf.name);
    }

    /** One field of a compiled reader: bounds, type byte and name, then the in-line read. */
    method ShapeTurn(buf: seq<byte>, o: nat, end: int, f: seq<Field>, sf: ShapeField, vars: map<seq<byte>, Value>,
                     ghost slots: seq<Slot>, ghost rest: Doc, ghost goal: Result<seq<Slot>>)
      returns (res: Outcome<map<seq<byte>, Value>>, p: int, ghost next: seq<Slot>)
      requires Valid() && AtFields(buf, o, end, rest) && FieldFits(f, sf)
      requires Folding(h, env, f, slots, rest, goal) && Mirrors(f, slots, vars) && AgreesFields(h, env, f, rest)
      modifies this`nested, slow`r
      ensures Valid() && Grew(old(nested), nested)
      ensures res.Bailed? ==> !Here(h, f, sf, rest)
      ensures res.Threw? ==> goal == Err(res.e)
      ensures res.Done? ==> Here(h, f, sf, rest) && res.v.Keys == vars.Keys + {rest.name}
      ensures res.Done? ==> p >= 0 && AtFields(buf, p, end, rest.rest) && Folding(h, env, f, next, rest.rest, goal)
      ensures res.Done? ==> Mirrors(f, next, res.v)
      decreases Weight(rest), 3
    {
      hide LeBytes, EncFields, EncVal, Placed, SmoothVal, Fold, FieldOf, Mirrors, AgreesVal, WfVal, Compatible;
      var matched := AtShapeField(buf, o, end, sf, rest);
      if !matched { return Bailed, o, slots; }
      FoldStep(h, env, f, slots, rest, goal);
      var k := Find(f, sf.name);
      var x;
      x, p := ReadField(buf, o + (2 + |sf.name|), sf.tag, f[k], rest.val);
      match x
      case Bailed => return Bailed, p, slots;
      case Threw(e) => return Threw(e), p, slots;
      case Done(v) =>
        MirrorStep(env, f, slots, vars, k, v);
        assert StepOf(h, env, f, slots, rest.name, rest.val) == Ok(slots[k := Set(v)]);
        return Done(vars[sf.name := v]), p, slots[k := Set(v)];
    }

    /** buildShapeValueReadInline: the nullable unwrapping. */
    method ReadField(buf: seq<byte>, o: nat, tag: int, f: Field, ghost w: Wire) returns (res: Outcome<Value>, p: int)
      requires Valid() && GoodTy(env, f.ty) && WfVal(w) && Fits(env, f.ty, w) && AgreesVal(h, env, f.ty, w)
      requires Placed(buf, o, EncVal(w)) && tag == Tag(w) && Compatible(f.ty, tag)
      modifies this`nested, slow`r
      ensures Valid() && Grew(old(nested), nested)
      ensures res.Done? ==> FieldOf(h, env, f, w) == Ok(Set(res.v)) && p == o + |EncVal(w)|
      ensures res.Threw? ==> FieldOf(h, env, f, w) == Err(res.e)
      ensures res.Done? ==> SmoothVal(h, f.ty, w)
      ensures res.Bailed? ==> !SmoothVal(h, f.ty, w)
      decreases WeightVal(w), 10
    {
      CompatibleField(h, env, f, w);
      res, p := ReadInline(buf, o, tag, Core(f.ty), w);
    }

    /** buildShapeValueReadInline behind the nullable unwrapping. */
    method ReadInline(buf: seq<byte>, o: nat, tag: int, ty: Ty, ghost w: Wire) returns (res: Outcome<Value>, p: int)
      requires Valid() && GoodTy(env, ty) && !ty.TNullable? && WfVal(w) && Fits(env, ty, w) && AgreesVal(h, env, ty, w)
      requires Placed(buf, o, EncVal(w)) && tag == Tag(w) && Compatible(ty, tag)
      modifies this`nested, slow`r
      ensures Valid() && Grew(old(nested), nested)
      ensures res.Done? ==> ValueOf(h, env, ty, w) == Ok(Set(res.v)) && p == o + |EncVal(w)|
      ensures res.Threw? ==> ValueOf(h, env, ty, w) == Err(res.e)
      ensures res.Done? ==> SmoothVal(h, ty, w)
      ensures res.Bailed? ==> !SmoothVal(h, ty, w)
      decreases WeightVal(w), 9
    {
      match ty
      case TObject(id) => res, p := ReadObject(buf, o, id, w);
      case TArray(t) => res, p := ReadArray(buf, o, t, w);
      case _ => res, p := ReadPlain(buf, o, tag, ty, w);
    }

    method ReadPlain(buf: seq<byte>, o: nat, tag: int, ty: Ty, ghost w: Wire) returns (res: Outcome<Value>, p: int)
      requires GoodEnv(env) && GoodTy(env, ty) && IsScalar(ty) && WfVal(w) && Fits(env, ty, w)
      requires AgreesVal(h, env, ty, w) && Placed(buf, o, EncVal(w)) && tag == Tag(w) && Compatible(ty, tag)
      ensures !res.Threw?
      ensures res.Done? ==> ValueOf(h, env, ty, w) == Ok(Set(res.v)) && p == o + |EncVal(w)| && SmoothVal(h, ty, w)
      ensures res.Bailed? ==> !SmoothVal(h, ty, w)
    {
      ShapeScalarExact(h, ty, buf, o, w);
      match ShapeScalar(h, ty, tag, buf, o)
      case Bail => res, p := Bailed, o;
      case Got(v, q) => res, p := Done(v), q;
    }

    /** callNestedHandle. */
    method ReadObject(buf: seq<byte>, o: nat, id: nat, ghost w: Wire) returns (res: Outcome<Value>, p: int)
      requires Valid() && id < |env| && WfVal(w) && Fits(env, TObject(id), w)
      requires Placed(buf, o, EncVal(w)) && w.WObject? && AgreesDoc(h, env, id, w.doc)
      modifies this`nested, slow`r
      ensures Valid() && Grew(old(nested), nested) && !res.Bailed?
      ensures res.Done? ==> ValueOf(h, env, TObject(id), w) == Ok(Set(res.v)) && p == o + |EncVal(w)|
      ensures res.Threw? ==> ValueOf(h, env, TObject(id), w) == Err(res.e)
      decreases WeightVal(w), 8
    {
      ObjectValue(h, env, id, w);
      var x;
      x, p := CallNested(buf, o, id, w.doc);
      res := FromResult(x);
    }

    method ReadArray(buf: seq<byte>, o: nat, ty: Ty, ghost w: Wire) returns (res: Outcome<Value>, p: int)
      requires Valid() && GoodTy(env, ty) && WfVal(w) && Fits(env, TArray(ty), w) && AgreesVal(h, env, TArray(ty), w)
      requires Placed(buf, o, EncVal(w)) && w.WArray?
      modifies this`nested, slow`r
      ensures Valid() && Grew(old(nested), nested)
      ensures res.Done? ==> ValueOf(h, env, TArray(ty), w) == Ok(Set(res.v)) && p == o + |EncVal(w)|
      ensures res.Threw? ==> ValueOf(h, env, TArray(ty), w) == Err(res.e)
      ensures res.Done? ==> SmoothVal(h, TArray(ty), w)
      ensures res.Bailed? ==> !SmoothVal(h, TArray(ty), w)
      decreases WeightVal(w), 8
    {
      ArrayValue(h, env, ty, w);
      var x;
      x, p := ReadElems(buf, o, ty, w.elems);
      match x
      case Bailed => res := Bailed;
      case Threw(e) => res := Threw(e);
      case Done(vs) => res := Done(VArr(vs));
    }

    /** The element loops of a compiled reader. */
    method ReadElems(buf: seq<byte>, o0: nat, ty: Ty, ghost d: Doc) returns (res: Outcome<seq<Value>>, p: int)
      requires Valid() && GoodTy(env, ty) && WfDoc(d) && FitsElems(env, ty, d) && AgreesElems(h, env, ty, d)
      requires Placed(buf, o0, EncDoc(d))
      modifies this`nested, slow`r
      ensures Valid() && Grew(old(nested), nested)
      ensures res.Done? ==> ElemsOf(h, env, ty, d) == Ok(res.v) && p == o0 + |EncDoc(d)|
      ensures res.Threw? ==> ElemsOf(h, env, ty, d) == Err(res.e)
      ensures res.Done? ==> InlineElem(ty) && SmoothElems(ty, d)
      ensures res.Bailed? ==> !(InlineElem(ty) && SmoothElems(ty, d))
      decreases Weight(d), 4
    {
      if !InlineElem(ty) { return Bailed, o0; }
      var arr: seq<Value> := [];
      var end := Open(buf, o0, d);
      var o: int := o0 + 4;
      ghost var rest := d;
      ghost var goal := ElemsOf(h, env, ty, d);
      CollectStart(h, env, ty, d);
      while o < end
        invariant Valid() && Grew(old(nested), nested)
        invariant o >= 0 && AtFields(buf, o, end, rest) && Weight(rest) <= Weight(d)
        invariant Collecting(h, env, ty, arr, rest, goal) && AgreesElems(h, env, ty, rest)
        invariant SmoothElems(ty, rest) == SmoothElems(ty, d)
        decreases end - o
      {
        ghost var before := nested;
        var x, q := ReadElemTurn(buf, o, end, ty, arr, rest, goal);
        GrewTrans(old(nested), before, nested);
        match x
        case Bailed => return Bailed, q;
        case Threw(e) => return Threw(e), q;
        case Done(next) =>
          arr, o := next, q;
          rest := rest.rest;
      }
      Ended(buf, o, end, rest);
      CollectEnd(h, env, ty, arr, goal);
      return Done(arr), end + 1;
    }

    method ReadElemTurn(buf: seq<byte>, o: nat, end: int, ty: Ty, arr: seq<Value>,
                        ghost rest: Doc, ghost goal: Result<seq<Value>>)
      returns (res: Outcome<seq<Value>>, p: int)
      requires Valid() && InlineElem(ty) && AtFields(buf, o, end, rest) && o < end
      requires Collecting(h, env, ty, arr, rest, goal) && AgreesElems(h, env, ty, rest)
      modifies this`nested, slow`r
      ensures Valid() && Grew(old(nested), nested)
      ensures rest.Cons?
      ensures res.Bailed? ==> !SmoothElem(ty, rest.val)
      ensures res.Threw? ==> goal == Err(res.e)
      ensures res.Done? ==> o < p && AtFields(buf, p, end, rest.rest) && Collecting(h, env, ty, res.v, rest.rest, goal)
      ensures res.Done? ==> SmoothElem(ty, rest.val)
      decreases Weight(rest), 3
    {
      hide LeBytes, EncVal, EncFields, SmoothElem, AgreesElem, Tag;
      CollectStep(h, env, ty, arr, rest, goal);
      var tag := NextTag(buf, o, end, rest);
      if tag == 0 { return Bailed, o + 1; }
      NulFromPlaced(buf, o + 1, rest.name);
      var x;
      x, p := ReadElem(buf, NulFrom(buf, o + 1) + 1, tag, ty, rest.val);
      match x
      case Bailed => res := Bailed;
      case Threw(e) => res := Threw(e);
      case Done(v) => res := Done(arr + [v]);
    }

    method ReadElem(buf: seq<byte>, o: nat, tag: int, ty: Ty, ghost w: Wire) returns (res: Outcome<Value>, p: int)
      requires Valid() && InlineElem(ty) && GoodTy(env, ty) && WfVal(w) && Fits(env, ty, w)
      requires if ty.TObject? then w.WObject? ==> AgreesDoc(h, env, ty.id, w.doc) else AgreesElem(h, ty, w)
      requires Placed(buf, o, EncVal(w)) && tag == Tag(w)
      modifies this`nested, slow`r
      ensures Valid() && Grew(old(nested), nested)
      ensures res.Done? ==> ElemOf(h, env, ty, w) == Ok(res.v) && p == o + |EncVal(w)|
      ensures res.Threw? ==> ElemOf(h, env, ty, w) == Err(res.e)
      ensures res.Done? ==> SmoothElem(ty, w)
      ensures res.Bailed? ==> !SmoothElem(ty, w)
      decreases WeightVal(w), 9
    {
      hide LeBytes, ReadLe, EncVal, WfVal, ElemsOf, AgreesFields;
      match ty
      case TObject(id) =>
        TagKinds(w);
        if tag != OBJECT { return Bailed, o; }
        res, p := ReadObject(buf, o, id, w);
      case _ =>
        ShapeElemExact(h, ty, buf, o, w);
        match ShapeElem(h, ty, tag, buf, o) {
          case Bail => res, p := Bailed, o;
          case Got(v, q) => res, p := Done(v), q;
        }
    }

    /** handle.fn of a top-level type; it relearns whenever a first byte is unknown, and keeps no failures. */
    method DecodeTop(buf: seq<byte>, o: nat, id: nat, ghost d: Doc) returns (res: Result<Value>)
      requires Valid() && id < |env| && WfDoc(d) && FitsDoc(env, id, d) && AgreesDoc(h, env, id, d)
      requires Placed(buf, o, EncDoc(d))
      modifies this, slow`r
      ensures Valid() && Grew(old(nested), nested) && Grew(old(top), top)
      ensures ShapeFits(env[id], ShapeOf(d)) ==>
              Remembers(env[id], old(top[id]), top[id], At(buf, o + 5), ShapeOf(d))
      ensures res == DocOf(h, env, id, d)
    {
      var firstByte := At(buf, o + 5);
      var k := Lookup(top[id].learned, firstByte, 0);
      var p;
      if k < |top[id].learned| {
        res, p := RunOrFall(buf, o, id, top[id].learned[k].shape, ROOT, d);
      } else {
        var shape := LearnShape(buf, o, d);
        if ShapeFits(env[id], shape.v) {
          LearnKeeps(env, top, id, firstByte, shape.v);
          top := Learn(top, id, firstByte, shape.v);
          res, p := RunOrFall(buf, o, id, shape.v, ROOT, d);
        } else {
          res, p := Fallback(buf, o, id, ROOT, d);
        }
      }
    }

    method Answer(c: Call, ghost d: Doc) returns (res: Result<Value>)
      requires Valid() && InDomain(h, env, c, d)
      modifies this, slow`r
      ensures Valid() && Answers(h, env, c, d, res)
    {
      res := DecodeTop(c.buf, c.o, c.id, d);
    }

    /**
     * What a decode of any other bytes can do to the learned state, of malformed documents and of documents outside
     * the domain: onBailout of a handle meets a first byte, and learnShape gives some shape or throws.
     */
    method LearnOther(isTop: bool, id: nat, firstByte: int, shape: Result<Shape>)
      requires Valid() && id < |env|
      modifies this
      ensures Valid() && Grew(old(nested), nested) && Grew(old(top), top)
    {
      var hd := if isTop then top[id] else nested[id];
      if Lookup(hd.learned, firstByte, 0) < |hd.learned| || firstByte in hd.failed { return; }
      match shape
      case Err(_) =>
      case Ok(fields) =>
        if ShapeFits(env[id], fields) {
          if isTop {
            LearnKeeps(env, top, id, firstByte, fields);
            top := Learn(top, id, firstByte, fields);
          } else {
            LearnKeeps(env, nested, id, firstByte, fields);
            nested := Learn(nested, id, firstByte, fields);
          }
        } else if !isTop {
          FailKeeps(env, nested, id, firstByte);
          nested := Fail(nested, id, firstByte);
        }
    }

    /**
     * Shape learning is invisible: every decode of every history returns the slow path's result, also between decodes
     * of malformed and other documents, which may learn whatever they can.
     */
    method Replay(turns: seq<Turn>, ghost docs: seq<Doc>) returns (results: seq<Option<Result<Value>>>)
      requires Valid() && |docs| == |turns|
      requires forall i :: 0 <= i < |turns| ==> TurnFits(h, env, turns[i], docs[i])
      modifies this, slow`r
      ensures Valid() && |results| == |turns|
      ensures forall i :: 0 <= i < |turns| ==> Expected(h, env, turns[i], docs[i], results[i])
    {
      results := [];
      for i := 0 to |turns|
        invariant Valid() && |results| == i
        invariant forall j :: 0 <= j < i ==> Expected(h, env, turns[j], docs[j], results[j])
      {
        match turns[i]
        case Decode(c) =>
          var res := Answer(c, docs[i]);
          results := results + [Some(res)];
        case Other(isTop, id, firstByte, shape) =>
          LearnOther(isTop, id, firstByte, shape);
          results := results + [None];
      }
    }
  }
}
