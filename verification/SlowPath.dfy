/**
 * The base deserializer: a while-loop field matcher and an unrolled per-field fast path with fallback. Which of
 * the two reads a nested document depends on the build context. Both are proved to compute Meaning.DocOf on every
 * well-formed document of the domain, errors and end offsets included.
 */
module SlowPath {
  import opened Bytes
  import opened Wire
  import opened Types
  import opened Meaning
  import opened Readers

  /** BSONBuildState: nesting depth of generated code and the object types being generated. */
  datatype Ctx = Ctx(depth: nat, stack: set<nat>) {
    function ForProperty(): Ctx { Ctx(depth + 1, stack) }
    function ForIndex(): Ctx { Ctx(depth, {}) }
    predicate ShouldExtract(id: nat) { id in stack || depth >= 3 }
  }

  const ROOT := Ctx(0, {})

  // --- name matching

  predicate BytesAt(buf: seq<byte>, o: int, name: seq<byte>) {
    forall i :: 0 <= i < |name| ==> At(buf, o + i) == name[i]
  }

  /** buildNameCheck: compares `name[0]` first, so an empty name (whose first byte is undefined) matches nothing. */
  predicate LoopNameCheck(buf: seq<byte>, o: int, name: seq<byte>) {
    name != [] && BytesAt(buf, o, name) && At(buf, o + |name|) == 0
  }

  /** The check of the unrolled readers and of learned shapes; an empty name matches an empty name. */
  predicate NameCheck(buf: seq<byte>, o: int, name: seq<byte>) {
    BytesAt(buf, o, name) && At(buf, o + |name|) == 0
  }

  /** The if-chain of buildFieldMatcher: the first field at or after `k` whose name is at the cursor, or |f|. */
  function MatchName(buf: seq<byte>, o: int, f: seq<Field>, k: nat): (r: nat)
    requires k <= |f|
    ensures r <= |f|
    decreases |f| - k
  {
    if k == |f| || LoopNameCheck(buf, o, f[k].name) then k else MatchName(buf, o, f, k + 1)
  }

  lemma {:induction false} NameCheckExact(buf: seq<byte>, o: int, name: seq<byte>, actual: seq<byte>)
    requires NulFree(name) && NulFree(actual) && Placed(buf, o, actual + [0])
    ensures NameCheck(buf, o, name) <==> name == actual
  {
    if NameCheck(buf, o, name) {
      if |name| < |actual| {
        PlacedAt(buf, o, actual + [0], |name|);
        NulFreeAt(actual, |name|);
      } else if |name| > |actual| {
        PlacedAt(buf, o, actual + [0], |actual|);
        NulFreeAt(name, |actual|);
      } else {
        forall i | 0 <= i < |name| ensures name[i] == actual[i] { PlacedAt(buf, o, actual + [0], i); }
      }
    } else if name == actual {
      forall i | 0 <= i < |name| ensures At(buf, o + i) == name[i] { PlacedAt(buf, o, actual + [0], i); }
      PlacedAt(buf, o, actual + [0], |name|);
      assert BytesAt(buf, o, name);
    }
  }

  /** A property named "" is found by the unrolled readers but never by the while loop. */
  lemma {:induction false} EmptyNameDiverges(buf: seq<byte>, o: int, name: seq<byte>, actual: seq<byte>)
    requires NulFree(name) && NulFree(actual) && Placed(buf, o, actual + [0])
    ensures LoopNameCheck(buf, o, name) == NameCheck(buf, o, name) <==> !(name == [] && actual == [])
  {
    NameCheckExact(buf, o, name, actual);
  }

  lemma {:induction false} MatchNameExact(buf: seq<byte>, o: int, env: Env, f: seq<Field>, actual: seq<byte>, k: nat)
    requires GoodFields(env, f) && k <= |f| && NulFree(actual) && Placed(buf, o, actual + [0])
    ensures MatchName(buf, o, f, k) == FindFrom(f, actual, k)
    decreases |f| - k
  {
    if k < |f| {
      NameCheckExact(buf, o, f[k].name, actual);
      MatchNameExact(buf, o, env, f, actual, k + 1);
    }
  }

  // --- loop states and their steps

  function Prepend(acc: seq<Value>, r: Result<seq<Value>>): Result<seq<Value>> {
    match r
    case Err(e) => Err(e)
    case Ok(vs) => Ok(acc + vs)
  }

  lemma {:induction false} ArrayValue(h: Host, env: Env, ty: Ty, w: Wire)
    requires GoodEnv(env) && GoodTy(env, ty) && WfVal(w) && Fits(env, TArray(ty), w)
    ensures Tag(w) == ARRAY <==> w.WArray?
    ensures w.WArray? ==> WfDoc(w.elems) && FitsElems(env, ty, w.elems)
    ensures w.WArray? ==> EncVal(w) == EncDoc(w.elems) && Weight(w.elems) < WeightVal(w)
    ensures w.WArray? ==> ValueOf(h, env, TArray(ty), w) == match ElemsOf(h, env, ty, w.elems) {
                            case Err(e) => Err(e)
                            case Ok(vs) => Ok(Set(VArr(vs)))
                          }
    ensures !w.WArray? ==> ValueOf(h, env, TArray(ty), w) == Err(Conversion)
  {
    TagKinds(w);
  }

  lemma {:induction false} ObjectValue(h: Host, env: Env, id: nat, w: Wire)
    requires GoodEnv(env) && id < |env| && WfVal(w) && Fits(env, TObject(id), w)
    ensures Tag(w) == OBJECT <==> w.WObject?
    ensures w.WObject? ==> WfDoc(w.doc) && FitsDoc(env, id, w.doc)
    ensures w.WObject? ==> EncVal(w) == EncDoc(w.doc) && Weight(w.doc) < WeightVal(w)
    ensures w.WObject? ==> ValueOf(h, env, TObject(id), w) == Assigned(DocOf(h, env, id, w.doc))
    ensures !w.WObject? ==> ValueOf(h, env, TObject(id), w) == if IsNullTag(Tag(w)) then Err(Conversion) else Ok(Unset)
  {
    TagKinds(w);
  }

  /** `arr` is read, `rest` is left, and together they are the goal. */
  ghost predicate Collecting(h: Host, env: Env, ty: Ty, arr: seq<Value>, rest: Doc, goal: Result<seq<Value>>) {
    && GoodEnv(env) && GoodTy(env, ty) && WfFields(rest) && FitsElems(env, ty, rest)
    && Prepend(arr, ElemsOf(h, env, ty, rest)) == goal
  }

  lemma {:induction false} CollectStart(h: Host, env: Env, ty: Ty, d: Doc)
    requires GoodEnv(env) && GoodTy(env, ty) && WfFields(d) && FitsElems(env, ty, d)
    ensures Collecting(h, env, ty, [], d, ElemsOf(h, env, ty, d))
  {
    var r := ElemsOf(h, env, ty, d);
    if r.Ok? { assert [] + r.v == r.v; }
  }

  lemma {:induction false} CollectStep(h: Host, env: Env, ty: Ty, arr: seq<Value>, rest: Doc, goal: Result<seq<Value>>)
    requires Collecting(h, env, ty, arr, rest, goal)
    ensures rest.Cons? ==> Fits(env, ty, rest.val)
    ensures rest.Cons? ==>
            var x := ElemOf(h, env, ty, rest.val);
            && (x.Err? ==> goal == Err(x.e))
            && (x.Ok? ==> Collecting(h, env, ty, arr + [x.v], rest.rest, goal))
  {
    if rest.Cons? {
      var x := ElemOf(h, env, ty, rest.val);
      var t := ElemsOf(h, env, ty, rest.rest);
      if x.Ok? && t.Ok? {
        assert arr + ([x.v] + t.v) == arr + [x.v] + t.v;
      }
    }
  }

  lemma {:induction false} CollectEnd(h: Host, env: Env, ty: Ty, arr: seq<Value>, goal: Result<seq<Value>>)
    requires Collecting(h, env, ty, arr, Nil, goal)
    ensures goal == Ok(arr)
  {
    assert arr + [] == arr;
  }

  /** `slots` after the elements already read, `rest` left, and together they give the goal. */
  ghost predicate Folding(h: Host, env: Env, f: seq<Field>, slots: seq<Slot>, rest: Doc, goal: Result<seq<Slot>>) {
    && GoodEnv(env) && GoodFields(env, f) && |slots| == |f| && WfFields(rest) && FitsFields(env, f, rest)
    && Fold(h, env, f, slots, rest) == goal
  }

  lemma {:induction false} FoldStep(h: Host, env: Env, f: seq<Field>, slots: seq<Slot>, rest: Doc,
                                    goal: Result<seq<Slot>>)
    requires Folding(h, env, f, slots, rest, goal)
    ensures rest.Cons? && Find(f, rest.name) < |f| ==> Fits(env, f[Find(f, rest.name)].ty, rest.val)
    ensures rest.Cons? ==>
            var x := StepOf(h, env, f, slots, rest.name, rest.val);
            && (x.Err? ==> goal == Err(x.e))
            && (x.Ok? ==> Folding(h, env, f, x.v, rest.rest, goal))
  {
  }

  lemma {:induction false} FindHere(env: Env, f: seq<Field>, k: nat)
    requires GoodFields(env, f) && k < |f|
    ensures Find(f, f[k].name) == k
  {
    FindIs(f, f[k].name, 0, k);
  }

  lemma {:induction false} FoldEnd(h: Host, env: Env, f: seq<Field>, slots: seq<Slot>, goal: Result<seq<Slot>>)
    requires Folding(h, env, f, slots, Nil, goal)
    ensures goal == Ok(slots)
  {
  }

  function Core(ty: Ty): Ty { if ty.TNullable? then ty.inner else ty }

  /** The one BSON type a reader decodes in line. */
  function Primary(ty: Ty): Option<int> {
    match ty
    case TNumber => Some(INT)
    case TString => Some(STRING)
    case TBoolean => Some(BOOLEAN)
    case TBigInt(_) => Some(LONG)
    case TDate => Some(DATE)
    case _ => None
  }

  function ReadPrimary(h: Host, buf: seq<byte>, o: nat, tag: int): (Value, int) {
    if tag == INT then (VNum(Int(ReadI32(buf, o))), o + 4)
    else if tag == STRING then (VStr(InlineString(h, buf, o).0), InlineString(h, buf, o).1)
    else if tag == BOOLEAN then (VBool(At(buf, o) == 1), o + 1)
    else if tag == LONG then (VBig(ReadI64(buf, o)), o + 8)
    else (VDate(ReadI64(buf, o)), o + 8)
  }

  ghost predicate Primed(env: Env, f: Field, w: Wire) {
    GoodEnv(env) && GoodTy(env, f.ty) && WfVal(w) && Fits(env, f.ty, w) && Primary(Core(f.ty)) == Some(Tag(w) as int)
  }

  lemma {:induction false} FieldIsScalar(h: Host, env: Env, f: Field, w: Wire)
    requires GoodEnv(env) && GoodTy(env, f.ty) && WfVal(w) && Fits(env, f.ty, w)
    requires IsScalar(Core(f.ty)) && !IsNullTag(Tag(w))
    ensures Readable(Core(f.ty), w)
    ensures FieldOf(h, env, f, w) == Assigned(ScalarOf(h, Core(f.ty), w))
  {
    assert FieldOf(h, env, f, w) == ValueOf(h, env, f.ty, w) == ValueOf(h, env, Core(f.ty), w);
  }

  /** The in-line read is the full scalar read, except that it does not clamp. */
  lemma {:induction false} PrimaryIsScalar(h: Host, ty: Ty, buf: seq<byte>, o: nat, tag: int)
    requires Primary(ty) == Some(tag)
    requires ty == TBigInt(Unsigned) ==> ReadI64(buf, o) >= 0
    ensures ReadScalar(h, ty, buf, o, tag) == Ok(ReadPrimary(h, buf, o, tag))
  {
  }

  /** On its primary BSON type an unrolled reader agrees with the full reader. */
  lemma {:induction false} PrimaryExact(h: Host, env: Env, f: Field, buf: seq<byte>, o: nat, w: Wire)
    requires Primed(env, f, w) && Placed(buf, o, EncVal(w))
    ensures FieldOf(h, env, f, w) == Ok(Set(ReadPrimary(h, buf, o, Tag(w)).0))
    ensures ReadPrimary(h, buf, o, Tag(w)).1 == o + |EncVal(w)|
  {
    hide ReadScalar, ScalarOf, InlineString, ReadI32, ReadI64, At, Placed, EncVal;
    var ty := Core(f.ty);
    FieldIsScalar(h, env, f, w);
    assert Fits(env, ty, w);
    SeeInt(buf, o, w);
    PrimaryIsScalar(h, ty, buf, o, Tag(w));
    ReadScalarExact(h, ty, buf, o, w);
  }

  /** The in-line LONG read of an unrolled reader keeps a negative value that the while loop clamps to 0n. */
  lemma {:induction false} UnrolledSkipsClamp(h: Host, buf: seq<byte>, o: nat, w: Wire)
    requires w.WLong? && WfVal(w) && Placed(buf, o, EncVal(w))
    ensures BigOf(h, Unsigned, w) == Ok(ReadPrimary(h, buf, o, LONG).0) <==> w.long >= 0
  {
    See(h, buf, o, w);
  }

  /** Reads the document size; the cursor then stands at the first element. */
  method Open(buf: seq<byte>, o: nat, ghost d: Doc) returns (end: int)
    requires WfDoc(d) && Placed(buf, o, EncDoc(d))
    ensures end == o + |EncDoc(d)| - 1 && AtFields(buf, o + 4, end, d)
  {
    OpenDoc(buf, o, d);
    end := o + (ReadI32(buf, o) - 1);
  }

  /** Reads the type byte of the next element. */
  method NextTag(buf: seq<byte>, o: nat, end: int, ghost d: Doc) returns (tag: int)
    requires AtFields(buf, o, end, d) && o < end
    ensures d.Cons? && NulFree(d.name) && WfVal(d.val) && tag == Tag(d.val)
    ensures Placed(buf, o + 1, d.name + [0]) && Placed(buf, o + 2 + |d.name|, EncVal(d.val))
    ensures AtFields(buf, o + 2 + |d.name| + |EncVal(d.val)|, end, d.rest)
    ensures Weight(d) == 1 + WeightVal(d.val) + Weight(d.rest)
  {
    Element(buf, o, end, d);
    tag := At(buf, o);
  }

  /** skipCString and skipValue over an unknown element. */
  method SkipElement(buf: seq<byte>, o: nat, tag: int, ghost name: seq<byte>, ghost w: Wire) returns (res: Result<nat>)
    requires NulFree(name) && WfVal(w) && tag == Tag(w)
    requires Placed(buf, o, name + [0]) && Placed(buf, o + |name| + 1, EncVal(w))
    ensures res == Ok(o + |name| + 1 + |EncVal(w)|)
  {
    NulFromPlaced(buf, o, name);
    var z := NulFrom(buf, o);
    if z >= |buf| { return Err(UnexpectedEnd); }
    SkipValueExact(buf, z + 1, w);
    res := SkipValue(buf, z + 1, tag);
  }

  /** Reads a null (nothing to read) or skips a value of the wrong type. */
  method SkipOver(buf: seq<byte>, o: nat, tag: int, ghost w: Wire) returns (p: int)
    requires WfVal(w) && tag == Tag(w) && Placed(buf, o, EncVal(w))
    ensures p == o + |EncVal(w)|
  {
    SkipValueExact(buf, o, w);
    p := SkipValue(buf, o, tag).v;
  }

  /** What one unrolled reader leaves of the elements: it takes the next one if that has its name. */
  function AfterReader(f: Field, d: Doc): Doc { if d.Cons? && d.name == f.name then d.rest else d }

  /** What the readers of the fields from the k-th on leave; nothing, for documents in declaration order. */
  function Leftover(f: seq<Field>, k: nat, d: Doc): Doc
    requires k <= |f|
    decreases |f| - k
  {
    if k == |f| then d else Leftover(f, k + 1, AfterReader(f[k], d))
  }

  /** Unrolled at depth 0 for 1 to 24 properties. */
  predicate Unrolls(f: seq<Field>) { 0 < |f| <= 24 }

  class Decoder {
    const h: Host
    const env: Env
    /** Which shared [value, offset] cell each generated document body writes; bodies may share cells. */
    const cellOf: (nat, Ctx) -> nat
    var r: map<nat, (Slot, int)>

    constructor (h: Host, env: Env, cellOf: (nat, Ctx) -> nat)
      ensures this.h == h && this.env == env && this.cellOf == cellOf
    {
      this.h, this.env, this.cellOf := h, env, cellOf;
      r := map[];
    }

    /** deserializeValueInto: the value for the target variable, or Unset where the target is left alone. */
    method DecodeValue(buf: seq<byte>, o: nat, tag: int, ty: Ty, ctx: Ctx, ghost w: Wire)
      returns (res: Result<Slot>, p: int)
      requires GoodEnv(env) && GoodTy(env, ty) && WfVal(w) && Fits(env, ty, w)
      requires Placed(buf, o, EncVal(w)) && tag == Tag(w)
      modifies this`r
      ensures res == ValueOf(h, env, ty, w)
      ensures res.Ok? ==> p == o + |EncVal(w)| && SkipValue(buf, o, tag) == Ok(p)
      decreases WeightVal(w), 1, TySize(ty)
    {
      SkipValueExact(buf, o, w);
      match ty
      case TNullable(t) =>
        if tag == NULL || tag == UNDEFINED {
          p := SkipOver(buf, o, tag, w);
          return Ok(Set(VNull)), p;
        }
        res, p := DecodeValue(buf, o, tag, t, ctx, w);
      case TObject(id) => res, p := DecodeObject(buf, o, tag, id, ctx, w);
      case TArray(t) => res, p := DecodeArray(buf, o, tag, t, ctx, w);
      case TEnum => res, p := DecodeEnum(buf, o, tag, w);
      case _ => res, p := DecodeScalar(buf, o, tag, ty, w);
    }

    method DecodeEnum(buf: seq<byte>, o: nat, tag: int, ghost w: Wire) returns (res: Result<Slot>, p: int)
      requires WfVal(w) && Placed(buf, o, EncVal(w)) && tag == Tag(w)
      ensures res == EnumOf(h, w)
      ensures res.Ok? ==> p == o + |EncVal(w)|
    {
      EnumExact(h, buf, o, w);
      match ReadEnum(h, buf, o, tag)
      case Err(e) => return Err(e), o;
      case Ok((s, q)) => return Ok(s), q;
    }

    method DecodeScalar(buf: seq<byte>, o: nat, tag: int, ty: Ty, ghost w: Wire) returns (res: Result<Slot>, p: int)
      requires IsScalar(ty) && Readable(ty, w) && WfVal(w) && Placed(buf, o, EncVal(w)) && tag == Tag(w)
      ensures res == Assigned(ScalarOf(h, ty, w))
      ensures res.Ok? ==> p == o + |EncVal(w)|
    {
      ReadScalarExact(h, ty, buf, o, w);
      match ReadScalar(h, ty, buf, o, tag)
      case Err(e) => return Err(e), o;
      case Ok((v, q)) => return Ok(Set(v)), q;
    }

    /** deserializeArrayInto: anything but an array is an error. */
    method DecodeArray(buf: seq<byte>, o: nat, tag: int, ty: Ty, ctx: Ctx, ghost w: Wire)
      returns (res: Result<Slot>, p: int)
      requires GoodEnv(env) && GoodTy(env, ty) && WfVal(w) && Fits(env, TArray(ty), w)
      requires Placed(buf, o, EncVal(w)) && tag == Tag(w)
      modifies this`r
      ensures res == ValueOf(h, env, TArray(ty), w)
      ensures res.Ok? ==> p == o + |EncVal(w)|
      decreases WeightVal(w), 0, 0
    {
      ArrayValue(h, env, ty, w);
      if tag != ARRAY { return Err(Conversion), o; }
      var x;
      x, p := DecodeElems(buf, o, ty, ctx.ForIndex(), w.elems);
      match x
      case Err(e) => res := Err(e);
      case Ok(vs) => res := Ok(Set(VArr(vs)));
    }

    /** deserializeObjectInto: null is an error, any other non-object is skipped. */
    method DecodeObject(buf: seq<byte>, o: nat, tag: int, id: nat, ctx: Ctx, ghost w: Wire)
      returns (res: Result<Slot>, p: int)
      requires GoodEnv(env) && id < |env| && WfVal(w) && Fits(env, TObject(id), w)
      requires Placed(buf, o, EncVal(w)) && tag == Tag(w)
      modifies this`r
      ensures res == ValueOf(h, env, TObject(id), w)
      ensures res.Ok? ==> p == o + |EncVal(w)|
      decreases WeightVal(w), 0, 0
    {
      ObjectValue(h, env, id, w);
      if tag == OBJECT {
        var x;
        x, p := DecodeEmbedded(buf, o, id, ctx, w.doc);
        res := Assigned(x);
      } else if tag == NULL || tag == UNDEFINED {
        res, p := Err(Conversion), o;
      } else {
        p := SkipOver(buf, o, tag, w);
        res := Ok(Unset);
      }
    }

    /** In line, or through the extracted function of a recursive or deeply nested type. */
    method DecodeEmbedded(buf: seq<byte>, o: nat, id: nat, ctx: Ctx, ghost d: Doc) returns (res: Result<Value>, p: int)
      requires GoodEnv(env) && id < |env| && WfDoc(d) && FitsDoc(env, id, d) && Placed(buf, o, EncDoc(d))
      modifies this`r
      ensures res == DocOf(h, env, id, d)
      ensures res.Ok? ==> p == o + |EncDoc(d)|
      decreases Weight(d), 7, 0
    {
      if ctx.ShouldExtract(id) {
        res, p := DecodeBody(buf, o, id, Ctx(0, {id}), d);
      } else {
        res, p := DecodeBody(buf, o, id, Ctx(ctx.depth, ctx.stack + {id}), d);
      }
    }

    /** One array element: skip the index name, read the value; an untouched target stays undefined. */
    method DecodeElem(buf: seq<byte>, o: nat, tag: int, ty: Ty, ctx: Ctx, ghost name: seq<byte>, ghost w: Wire)
      returns (res: Result<Value>, p: int)
      requires GoodEnv(env) && GoodTy(env, ty) && WfVal(w) && Fits(env, ty, w) && NulFree(name)
      requires tag == Tag(w) && Placed(buf, o, name + [0]) && Placed(buf, o + |name| + 1, EncVal(w))
      modifies this`r
      ensures res == ElemOf(h, env, ty, w)
      ensures res.Ok? ==> p == o + |name| + 1 + |EncVal(w)|
      decreases WeightVal(w), 2, 0
    {
      NulFromPlaced(buf, o, name);
      var z := NulFrom(buf, o);
      if z >= |buf| { return Err(UnexpectedEnd), o; }
      var x;
      x, p := DecodeValue(buf, z + 1, tag, ty, ctx, w);
      match x
      case Err(e) => res := Err(e);
      case Ok(s) => res := Ok(OrUndefined(s));
    }

    /** One turn of the element loop. */
    method ElemTurn(buf: seq<byte>, o: nat, end: int, ty: Ty, arr: seq<Value>, ctx: Ctx,
                    ghost rest: Doc, ghost goal: Result<seq<Value>>)
      returns (stop: bool, res: Result<seq<Value>>, p: int)
      requires AtFields(buf, o, end, rest) && o < end && Collecting(h, env, ty, arr, rest, goal)
      modifies this`r
      ensures rest.Cons? && !stop
      ensures res.Err? ==> goal == Err(res.e)
      ensures res.Ok? ==> o < p && AtFields(buf, p, end, rest.rest) && Collecting(h, env, ty, res.v, rest.rest, goal)
      decreases Weight(rest), 0, 0
    {
      CollectStep(h, env, ty, arr, rest, goal);
      var tag := NextTag(buf, o, end, rest);
      if tag == 0 { return true, Ok(arr), o + 1; }
      var x;
      x, p := DecodeElem(buf, o + 1, tag, ty, ctx, rest.name, rest.val);
      stop := false;
      match x
      case Err(e) => res := Err(e);
      case Ok(v) => res := Ok(arr + [v]);
    }

    method DecodeElems(buf: seq<byte>, o0: nat, ty: Ty, ctx: Ctx, ghost d: Doc)
      returns (res: Result<seq<Value>>, p: int)
      requires GoodEnv(env) && GoodTy(env, ty) && WfDoc(d) && FitsElems(env, ty, d) && Placed(buf, o0, EncDoc(d))
      modifies this`r
      ensures res == ElemsOf(h, env, ty, d)
      ensures res.Ok? ==> p == o0 + |EncDoc(d)|
      decreases Weight(d), 1, 0
    {
      var arr: seq<Value> := [];
      var end := Open(buf, o0, d);
      var o := o0 + 4;
      ghost var goal := ElemsOf(h, env, ty, d);
      ghost var rest := d;
      CollectStart(h, env, ty, d);
      while o < end
        invariant AtFields(buf, o, end, rest) && Weight(rest) <= Weight(d)
        invariant Collecting(h, env, ty, arr, rest, goal)
        decreases end - o
      {
        var stop, x, q := ElemTurn(buf, o, end, ty, arr, ctx, rest, goal);
        if stop { break; }
        if x.Err? { return x, q; }
        arr, o := x.v, q;
        rest := rest.rest;
      }
      Ended(buf, o, end, rest);
      CollectEnd(h, env, ty, arr, goal);
      return Ok(arr), end + 1;
    }

    /** A property value with the null handling of its declaration. */
    method DecodeField(buf: seq<byte>, o: nat, tag: int, f: Field, ctx: Ctx, ghost w: Wire)
      returns (res: Result<Slot>, p: int)
      requires GoodEnv(env) && GoodTy(env, f.ty) && WfVal(w) && Fits(env, f.ty, w)
      requires Placed(buf, o, EncVal(w)) && tag == Tag(w)
      modifies this`r
      ensures res == FieldOf(h, env, f, w)
      ensures res.Ok? ==> p == o + |EncVal(w)|
      decreases WeightVal(w), 2, 0
    {
      if f.optional && !f.ty.TNullable? {
        if tag == NULL || tag == UNDEFINED {
          p := SkipOver(buf, o, tag, w);
          return Ok(Set(VUndef)), p;
        }
      } else if f.ty.TObject? || IsClass(f.ty) {
        if tag == NULL || tag == UNDEFINED { return Err(Conversion), o; }
      }
      res, p := DecodeValue(buf, o, tag, f.ty, ctx, w);
    }

    /** buildFieldMatcher: decode the value of a known name, or skip name and value. */
    method MatchField(buf: seq<byte>, o0: nat, tag: int, f: seq<Field>, slots: seq<Slot>, ctx: Ctx,
                      ghost name: seq<byte>, ghost w: Wire)
      returns (res: Result<seq<Slot>>, p: int)
      requires GoodEnv(env) && GoodFields(env, f) && |slots| == |f| && WfVal(w) && NulFree(name)
      requires Find(f, name) < |f| ==> Fits(env, f[Find(f, name)].ty, w)
      requires tag == Tag(w) && Placed(buf, o0, name + [0]) && Placed(buf, o0 + |name| + 1, EncVal(w))
      modifies this`r
      ensures res == StepOf(h, env, f, slots, name, w)
      ensures res.Ok? ==> p == o0 + |name| + 1 + |EncVal(w)|
      decreases WeightVal(w), 4, 0
    {
      MatchNameExact(buf, o0, env, f, name, 0);
      var k := MatchName(buf, o0, f, 0);
      if k < |f| {
        var x;
        x, p := DecodeField(buf, o0 + (|f[k].name| + 1), tag, f[k], ctx.ForProperty(), w);
        match x
        case Err(e) => res := Err(e);
        case Ok(s) => res := Ok(slots[k := Update(slots[k], s)]);
      } else {
        var q := SkipElement(buf, o0, tag, name, w);
        match q
        case Err(e) => return Err(e), o0;
        case Ok(n) => return Ok(slots), n;
      }
    }

    /** One turn of the while loop. */
    method FieldTurn(buf: seq<byte>, o: nat, end: int, f: seq<Field>, slots: seq<Slot>, ctx: Ctx,
                     ghost rest: Doc, ghost goal: Result<seq<Slot>>)
      returns (stop: bool, res: Result<seq<Slot>>, p: int)
      requires AtFields(buf, o, end, rest) && o < end && Folding(h, env, f, slots, rest, goal)
      modifies this`r
      ensures rest.Cons? && !stop
      ensures res.Err? ==> goal == Err(res.e)
      ensures res.Ok? ==> o < p && AtFields(buf, p, end, rest.rest) && Folding(h, env, f, res.v, rest.rest, goal)
      decreases Weight(rest), 0, 0
    {
      FoldStep(h, env, f, slots, rest, goal);
      var tag := NextTag(buf, o, end, rest);
      if tag == 0 { return true, Ok(slots), o + 1; }
      res, p := MatchField(buf, o + 1, tag, f, slots, ctx, rest.name, rest.val);
      stop := false;
    }

    /** The while loop over elements. */
    method DecodeLoop(buf: seq<byte>, o0: nat, id: nat, ctx: Ctx, ghost d: Doc) returns (res: Result<Value>, p: int)
      requires GoodEnv(env) && id < |env| && WfDoc(d) && FitsDoc(env, id, d) && Placed(buf, o0, EncDoc(d))
      modifies this`r
      ensures res == DocOf(h, env, id, d)
      ensures res.Ok? ==> p == o0 + |EncDoc(d)|
      decreases Weight(d), 3, 0
    {
      var f := env[id];
      var end := Open(buf, o0, d);
      var o := o0 + 4;
      var slots := Initials(f);
      ghost var rest := d;
      ghost var goal := Fold(h, env, f, slots, d);
      while o < end
        invariant AtFields(buf, o, end, rest) && Weight(rest) <= Weight(d)
        invariant Folding(h, env, f, slots, rest, goal)
        decreases end - o
      {
        var stop, x, q := FieldTurn(buf, o, end, f, slots, ctx, rest, goal);
        if stop { break; }
        if x.Err? { return Err(x.e), q; }
        slots, o := x.v, q;
        rest := rest.rest;
      }
      Ended(buf, o, end, rest);
      FoldEnd(h, env, f, slots, goal);
      return Finish(f, Ok(slots)), end + 1;
    }

    /** A reader whose name matched: in-line read of the primary BSON type, handleOther for everything else. */
    method ReadMatched(buf: seq<byte>, o: nat, tag: int, f: Field, ctx: Ctx, ghost w: Wire)
      returns (res: Result<Slot>, p: int)
      requires GoodEnv(env) && GoodTy(env, f.ty) && WfVal(w) && Fits(env, f.ty, w)
      requires Placed(buf, o, EncVal(w)) && tag == Tag(w)
      modifies this`r
      ensures res == FieldOf(h, env, f, w)
      ensures res.Ok? ==> p == o + |EncVal(w)|
      decreases WeightVal(w), 3, 0
    {
      if Primary(Core(f.ty)) == Some(tag) {
        PrimaryExact(h, env, f, buf, o, w);
        var (v, q) := ReadPrimary(h, buf, o, tag);
        return Ok(Set(v)), q;
      }
      res, p := DecodeField(buf, o, tag, f, ctx.ForProperty(), w);
    }

    /** One unrolled reader: leaves the value and the next offset in the shared cell. */
    method Reader(buf: seq<byte>, o: nat, end: int, f: seq<Field>, k: nat, cell: nat, ctx: Ctx,
                  ghost slots: seq<Slot>, ghost rest: Doc, ghost goal: Result<seq<Slot>>)
      returns (res: Result<()>, ghost left: Doc)
      requires k < |f| && AtFields(buf, o, end, rest) && Folding(h, env, f, slots, rest, goal)
      requires slots[k] == Initial(f[k])
      modifies this`r
      ensures res.Err? ==> goal == Err(res.e)
      ensures res.Ok? ==> cell in r && Folding(h, env, f, slots[k := r[cell].0], left, goal)
      ensures res.Ok? ==> r[cell].1 >= 0 && AtFields(buf, r[cell].1, end, left) && Weight(left) <= Weight(rest)
      ensures res.Ok? ==> left == AfterReader(f[k], rest)
      decreases Weight(rest), 3, 0
    {
      hide EncFields, EncVal, Placed, Fold, FieldOf, WfVal, NameCheck, LeBytes;
      Ended(buf, o, end, rest);
      if o < end {
        FoldStep(h, env, f, slots, rest, goal);
        var ft := NextTag(buf, o, end, rest);
        NameCheckExact(buf, o + 1, f[k].name, rest.name);
        if ft != 0 && NameCheck(buf, o + 1, f[k].name) {
          FindHere(env, f, k);
          var x, q := ReadMatched(buf, o + (1 + |f[k].name| + 1), ft, f[k], ctx, rest.val);
          match x
          case Err(e) => return Err(e), rest;
          case Ok(s) =>
            // the nested decode may itself have written this cell; the result is stored only now
            r := r[cell := (Update(Initial(f[k]), s), q)];
            return Ok(()), rest.rest;
        }
      }
      r := r[cell := (Initial(f[k]), o)];
      assert slots[k := slots[k]] == slots;
      return Ok(()), rest;
    }

    /** The unrolled readers in declaration order. */
    method RunReaders(buf: seq<byte>, o0: nat, id: nat, ctx: Ctx, ghost d: Doc)
      returns (res: Result<seq<Slot>>, o: int, end: int, ghost rest: Doc)
      requires GoodEnv(env) && id < |env| && WfDoc(d) && FitsDoc(env, id, d) && Placed(buf, o0, EncDoc(d))
      modifies this`r
      ensures res.Err? ==> DocOf(h, env, id, d) == Err(res.e)
      ensures res.Ok? ==> rest == Leftover(env[id], 0, d) && o >= 0 && AtFields(buf, o, end, rest)
      ensures res.Ok? ==> end == o0 + |EncDoc(d)| - 1
      ensures res.Ok? ==> Folding(h, env, env[id], res.v, rest, Fold(h, env, env[id], Initials(env[id]), d))
      decreases Weight(d), 4, 0
    {
      var f := env[id];
      end := Open(buf, o0, d);
      o := o0 + 4;
      var slots := Initials(f);
      var cell := cellOf(id, ctx);
      rest := d;
      ghost var goal := Fold(h, env, f, slots, d);
      for k := 0 to |f|
        invariant o >= 0 && AtFields(buf, o, end, rest) && Weight(rest) <= Weight(d)
        invariant Folding(h, env, f, slots, rest, goal) && Leftover(f, k, rest) == Leftover(f, 0, d)
        invariant forall j :: k <= j < |f| ==> slots[j] == Initial(f[j])
      {
        var x;
        x, rest := Reader(buf, o, end, f, k, cell, ctx, slots, rest, goal);
        if x.Err? { return Err(x.e), o, end, rest; }
        slots := slots[k := r[cell].0];
        o := r[cell].1;
      }
      res := Ok(slots);
    }

    /** The readers, the terminator check, and the fallback to the loop; `fell` says that it was needed. */
    method DecodeUnrolled(buf: seq<byte>, o0: nat, id: nat, ctx: Ctx, ghost d: Doc)
      returns (res: Result<Value>, p: int, fell: bool)
      requires GoodEnv(env) && id < |env| && WfDoc(d) && FitsDoc(env, id, d) && Placed(buf, o0, EncDoc(d))
      modifies this`r
      ensures res == DocOf(h, env, id, d)
      ensures res.Ok? ==> p == o0 + |EncDoc(d)| && (fell <==> Leftover(env[id], 0, d) != Nil)
      decreases Weight(d), 5, 0
    {
      hide Fold, EncDoc, EncFields, Leftover;
      var f := env[id];
      var x, o, end;
      ghost var rest;
      fell := false;
      x, o, end, rest := RunReaders(buf, o0, id, ctx, d);
      match x
      case Err(e) => return Err(e), o, false;
      case Ok(slots) =>
        Ended(buf, o, end, rest);
        if At(buf, o) != 0 {
          res, p := DecodeLoop(buf, o0, id, ROOT, d);
          fell := true;
          return;
        }
        FoldEnd(h, env, f, slots, Fold(h, env, f, Initials(f), d));
        return Finish(f, Ok(slots)), end + 1, false;
    }

    /** buildDocumentBody: unroll at depth 0 for 1 to 24 properties, loop otherwise. */
    method DecodeBody(buf: seq<byte>, o: nat, id: nat, ctx: Ctx, ghost d: Doc) returns (res: Result<Value>, p: int)
      requires GoodEnv(env) && id < |env| && WfDoc(d) && FitsDoc(env, id, d) && Placed(buf, o, EncDoc(d))
      modifies this`r
      ensures res == DocOf(h, env, id, d)
      ensures res.Ok? ==> p == o + |EncDoc(d)|
      decreases Weight(d), 6, 0
    {
      if ctx.depth == 0 && Unrolls(env[id]) {
        var fell;
        res, p, fell := DecodeUnrolled(buf, o, id, ctx, d);
      } else {
        res, p := DecodeLoop(buf, o, id, ctx, d);
      }
    }
  }
}
