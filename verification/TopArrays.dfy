/**
 * Arrays as top-level types. Their elements are decoded in line at depth 0, where objects use the unrolled readers; the
 * early return behind those readers then leaves the function of the whole array, with the pair of one object and its
 * offset. The array comes back exactly if no object needs the fallback.
 */
module TopArrays {
  import opened Bytes
  import opened Wire
  import opened Types
  import opened Meaning
  import opened SlowPath

  /** How an in-line value ends: with what is assigned to its variable, or by returning an object from the function. */
  datatype Exit = Passed(s: Slot) | Returned(v: Value)

  /** What the function returns: the array, or one object. */
  datatype Top = Elements(vs: seq<Value>) | Object(v: Value)

  // --- objects that need the fallback

  ghost predicate Escapes(env: Env, ty: Ty, w: Wire)
    requires GoodEnv(env) && GoodTy(env, ty)
    decreases w, TySize(ty)
  {
    match ty
    case TObject(id) => w.WObject? && Unrolls(env[id]) && Leftover(env[id], 0, w.doc) != Nil
    case TArray(t) => w.WArray? && AnyEscapes(env, t, w.elems)
    case TNullable(t) => !IsNullTag(Tag(w)) && Escapes(env, t, w)
    case _ => false
  }

  ghost predicate AnyEscapes(env: Env, ty: Ty, d: Doc)
    requires GoodEnv(env) && GoodTy(env, ty)
    decreases d, 0
  {
    d.Cons? && (Escapes(env, ty, d.val) || AnyEscapes(env, ty, d.rest))
  }

  // --- what the function computes

  function Assign(r: Result<Slot>): Result<Exit> {
    match r case Err(e) => Err(e) case Ok(s) => Ok(Passed(s))
  }

  function Leave(r: Result<Value>): Result<Exit> {
    match r case Err(e) => Err(e) case Ok(v) => Ok(Returned(v))
  }

  function ArrayExit(r: Result<Top>): Result<Exit> {
    match r
    case Err(e) => Err(e)
    case Ok(Elements(vs)) => Ok(Passed(Set(VArr(vs))))
    case Ok(Object(v)) => Ok(Returned(v))
  }

  function Push(vs: seq<Value>, r: Result<Top>): Result<Top> {
    match r
    case Ok(Elements(ws)) => Ok(Elements(vs + ws))
    case _ => r
  }

  ghost function ExitOf(h: Host, env: Env, ty: Ty, w: Wire): Result<Exit>
    requires GoodEnv(env) && GoodTy(env, ty) && WfVal(w) && Fits(env, ty, w)
    decreases w, 1, TySize(ty)
  {
    match ty
    case TObject(id) =>
      if Escapes(env, ty, w) then
        ObjectValue(h, env, id, w);
        Leave(DocOf(h, env, id, w.doc))
      else Assign(ValueOf(h, env, ty, w))
    case TArray(t) =>
      if w.WArray? then
        ArrayValue(h, env, t, w);
        ArrayExit(TopOf(h, env, t, w.elems))
      else Err(Conversion)
    case TNullable(t) => if IsNullTag(Tag(w)) then Ok(Passed(Set(VNull))) else ExitOf(h, env, t, w)
    case _ => Assign(ValueOf(h, env, ty, w))
  }

  /** The elements in order, up to the first error or the first object that needs the fallback. */
  ghost function TopOf(h: Host, env: Env, ty: Ty, d: Doc): Result<Top>
    requires GoodEnv(env) && GoodTy(env, ty) && WfFields(d) && FitsElems(env, ty, d)
    decreases d, 0
  {
    match d
    case Nil => Ok(Elements([]))
    case Cons(_, w, rest) =>
      match ExitOf(h, env, ty, w)
      case Err(e) => Err(e)
      case Ok(Returned(v)) => Ok(Object(v))
      case Ok(Passed(s)) => Push([OrUndefined(s)], TopOf(h, env, ty, rest))
  }

  // --- when it is the array

  lemma {:induction false} ExitIff(h: Host, env: Env, ty: Ty, w: Wire)
    requires GoodEnv(env) && GoodTy(env, ty) && WfVal(w) && Fits(env, ty, w)
    ensures !Escapes(env, ty, w) ==> ExitOf(h, env, ty, w) == Assign(ValueOf(h, env, ty, w))
    ensures Escapes(env, ty, w) ==> ExitOf(h, env, ty, w).Err? || ExitOf(h, env, ty, w).v.Returned?
    decreases w, 1, TySize(ty)
  {
    hide DocOf, Leftover, Unrolls, ScalarOf, ElemsOf, EncVal, EncDoc, TopOf, AnyEscapes;
    match ty
    case TObject(_) =>
    case TArray(t) =>
      ArrayValue(h, env, t, w);
      if w.WArray? { TopIff(h, env, t, w.elems); }
    case TNullable(t) => if !IsNullTag(Tag(w)) { ExitIff(h, env, t, w); }
    case _ =>
  }

  /** The meaning of the array is what is returned exactly if no object needs the fallback, or an error comes first. */
  lemma {:induction false} TopIff(h: Host, env: Env, ty: Ty, d: Doc)
    requires GoodEnv(env) && GoodTy(env, ty) && WfFields(d) && FitsElems(env, ty, d)
    ensures !AnyEscapes(env, ty, d) ==>
              TopOf(h, env, ty, d) == match ElemsOf(h, env, ty, d) {
                                        case Err(e) => Err(e)
                                        case Ok(vs) => Ok(Elements(vs))
                                      }
    ensures AnyEscapes(env, ty, d) ==> TopOf(h, env, ty, d).Err? || TopOf(h, env, ty, d).v.Object?
    decreases d, 0
  {
    hide Escapes, ExitOf, ValueOf;
    if d.Cons? {
      ExitIff(h, env, ty, d.val);
      TopIff(h, env, ty, d.rest);
    }
  }

  /** Objects in declaration order need no fallback: properties may be missing, but none is unknown or out of order. */
  ghost predicate InOrder(f: seq<Field>, k: nat, d: Doc)
    requires k <= |f|
    decreases |f| - k
  {
    if k == |f| then d == Nil
    else (d.Cons? && d.name == f[k].name && InOrder(f, k + 1, d.rest)) || InOrder(f, k + 1, d)
  }

  lemma {:induction false} InOrderLater(f: seq<Field>, k: nat, d: Doc)
    requires k <= |f| && InOrder(f, k, d) && d.Cons?
    ensures exists j :: k <= j < |f| && f[j].name == d.name
    decreases |f| - k
  {
    if k < |f| && !(d.name == f[k].name && InOrder(f, k + 1, d.rest)) { InOrderLater(f, k + 1, d); }
  }

  lemma {:induction false} LeftoverIff(env: Env, f: seq<Field>, k: nat, d: Doc)
    requires GoodFields(env, f) && k <= |f|
    ensures Leftover(f, k, d) == Nil <==> InOrder(f, k, d)
    decreases |f| - k
  {
    if k < |f| {
      LeftoverIff(env, f, k + 1, AfterReader(f[k], d));
      if d.Cons? && d.name == f[k].name && InOrder(f, k + 1, d) {
        InOrderLater(f, k + 1, d);
        assert false;
      }
    }
  }

  /** An in-line object needs the fallback exactly if it has 1 to 24 properties and is not in declaration order. */
  lemma {:induction false} EscapesIff(env: Env, id: nat, w: Wire)
    requires GoodEnv(env) && id < |env|
    ensures Escapes(env, TObject(id), w) <==> w.WObject? && 1 <= |env[id]| <= 24 && !InOrder(env[id], 0, w.doc)
  {
    if w.WObject? { LeftoverIff(env, env[id], 0, w.doc); }
  }

  /** One property the type does not know is enough. */
  lemma {:induction false} UnknownEscapes(env: Env, id: nat, name: seq<byte>, w: Wire)
    requires GoodEnv(env) && id < |env| && 1 <= |env[id]| <= 24 && Find(env[id], name) == |env[id]|
    ensures Escapes(env, TObject(id), WObject(Cons(name, w, Nil)))
  {
    UnknownLeft(env[id], 0, name, w);
  }

  lemma {:induction false} UnknownLeft(f: seq<Field>, k: nat, name: seq<byte>, w: Wire)
    requires k <= |f| && FindFrom(f, name, k) == |f|
    ensures Leftover(f, k, Cons(name, w, Nil)) == Cons(name, w, Nil)
    decreases |f| - k
  {
    if k < |f| { UnknownLeft(f, k + 1, name, w); }
  }

  /** What is returned is the first object that needs the fallback, if those before it can be read. */
  lemma {:induction false} TopReturns(h: Host, env: Env, id: nat, d: Doc, k: nat)
    requires GoodEnv(env) && id < |env| && WfFields(d) && FitsElems(env, TObject(id), d)
    requires FirstEscape(h, env, id, d, k)
    ensures var w := EscapeAt(h, env, id, d, k);
            TopOf(h, env, TObject(id), d) == match DocOf(h, env, id, w.doc) {
                                               case Err(e) => Err(e)
                                               case Ok(v) => Ok(Object(v))
                                             }
    decreases d
  {
    ExitIff(h, env, TObject(id), d.val);
    if k > 0 { TopReturns(h, env, id, d.rest, k - 1); }
  }

  /** The k-th element is the first to need the fallback, and those before it can be read. */
  ghost predicate FirstEscape(h: Host, env: Env, id: nat, d: Doc, k: nat)
    requires GoodEnv(env) && id < |env| && WfFields(d) && FitsElems(env, TObject(id), d)
    decreases d
  {
    && d.Cons?
    && if k == 0 then Escapes(env, TObject(id), d.val)
       else !Escapes(env, TObject(id), d.val) && ElemOf(h, env, TObject(id), d.val).Ok?
            && FirstEscape(h, env, id, d.rest, k - 1)
  }

  ghost function EscapeAt(h: Host, env: Env, id: nat, d: Doc, k: nat): (w: Wire)
    requires GoodEnv(env) && id < |env| && WfFields(d) && FitsElems(env, TObject(id), d)
    requires FirstEscape(h, env, id, d, k)
    ensures w.WObject? && WfDoc(w.doc) && FitsDoc(env, id, w.doc)
    decreases d
  {
    if k == 0 then
      ObjectValue(h, env, id, d.val);
      d.val
    else EscapeAt(h, env, id, d.rest, k - 1)
  }

  // --- the generated function

  ghost predicate Gathering(h: Host, env: Env, ty: Ty, arr: seq<Value>, rest: Doc, goal: Result<Top>) {
    && GoodEnv(env) && GoodTy(env, ty) && WfFields(rest) && FitsElems(env, ty, rest)
    && Push(arr, TopOf(h, env, ty, rest)) == goal
  }

  lemma {:induction false} GatherStart(h: Host, env: Env, ty: Ty, d: Doc)
    requires GoodEnv(env) && GoodTy(env, ty) && WfFields(d) && FitsElems(env, ty, d)
    ensures Gathering(h, env, ty, [], d, TopOf(h, env, ty, d))
  {
    var r := TopOf(h, env, ty, d);
    if r.Ok? && r.v.Elements? { assert [] + r.v.vs == r.v.vs; }
  }

  lemma {:induction false} GatherStep(h: Host, env: Env, ty: Ty, arr: seq<Value>, rest: Doc, goal: Result<Top>)
    requires Gathering(h, env, ty, arr, rest, goal) && rest.Cons?
    ensures WfVal(rest.val) && Fits(env, ty, rest.val)
    ensures var x := ExitOf(h, env, ty, rest.val);
            && (x.Err? ==> goal == Err(x.e))
            && (x.Ok? && x.v.Returned? ==> goal == Ok(Object(x.v.v)))
            && (x.Ok? && x.v.Passed? ==> Gathering(h, env, ty, arr + [OrUndefined(x.v.s)], rest.rest, goal))
  {
    hide ExitOf;
    var x := ExitOf(h, env, ty, rest.val);
    if x.Ok? && x.v.Passed? {
      var t := TopOf(h, env, ty, rest.rest);
      if t.Ok? && t.v.Elements? {
        assert arr + ([OrUndefined(x.v.s)] + t.v.vs) == arr + [OrUndefined(x.v.s)] + t.v.vs;
      }
    }
  }

  lemma {:induction false} GatherEnd(h: Host, env: Env, ty: Ty, arr: seq<Value>, goal: Result<Top>)
    requires Gathering(h, env, ty, arr, Nil, goal)
    ensures goal == Ok(Elements(arr))
  {
    assert arr + [] == arr;
  }

  /** deserializeValueInto, generated in line at depth 0. */
  method InlineValue(dec: Decoder, buf: seq<byte>, o: nat, tag: int, ty: Ty, ghost w: Wire)
    returns (res: Result<Exit>, p: int)
    requires GoodEnv(dec.env) && GoodTy(dec.env, ty) && WfVal(w) && Fits(dec.env, ty, w)
    requires Placed(buf, o, EncVal(w)) && tag == Tag(w)
    modifies dec`r
    ensures res == ExitOf(dec.h, dec.env, ty, w)
    ensures res.Ok? && res.v.Passed? ==> p == o + |EncVal(w)|
    decreases WeightVal(w), 1, TySize(ty)
  {
    hide Placed, EncVal, WfVal, Tag;
    match ty
    case TNullable(t) =>
      if tag == NULL || tag == UNDEFINED {
        p := SkipOver(buf, o, tag, w);
        return Ok(Passed(Set(VNull))), p;
      }
      res, p := InlineValue(dec, buf, o, tag, t, w);
    case TArray(t) =>
      ArrayValue(dec.h, dec.env, t, w);
      if tag != ARRAY { return Err(Conversion), o; }
      var x;
      x, p := TopArray(dec, buf, o, t, w.elems);
      res := ArrayExit(x);
    case TObject(id) => res, p := InlineObject(dec, buf, o, tag, id, w);
    case _ =>
      var x;
      x, p := dec.DecodeValue(buf, o, tag, ty, ROOT, w);
      res := Assign(x);
  }

  /** deserializeObjectInto with buildDocumentBody in line: behind the unrolled readers it may return early. */
  method InlineObject(dec: Decoder, buf: seq<byte>, o: nat, tag: int, id: nat, ghost w: Wire)
    returns (res: Result<Exit>, p: int)
    requires GoodEnv(dec.env) && id < |dec.env| && WfVal(w) && Fits(dec.env, TObject(id), w)
    requires Placed(buf, o, EncVal(w)) && tag == Tag(w)
    modifies dec`r
    ensures res == ExitOf(dec.h, dec.env, TObject(id), w)
    ensures res.Ok? && res.v.Passed? ==> p == o + |EncVal(w)|
    decreases WeightVal(w), 0, 0
  {
    hide Placed, EncVal, WfVal, Tag, Unrolls, DocOf;
    ObjectValue(dec.h, dec.env, id, w);
    if tag != OBJECT || !Unrolls(dec.env[id]) {
      var x;
      x, p := dec.DecodeObject(buf, o, tag, id, ROOT, w);
      return Assign(x), p;
    }
    var x, fell;
    x, p, fell := dec.DecodeUnrolled(buf, o, id, Ctx(0, {id}), w.doc);
    res := if fell then Leave(x) else Assign(Assigned(x));
  }

  /** createTopLevelArrayDeserializer, and the loop of an array within an array. */
  method TopArray(dec: Decoder, buf: seq<byte>, o0: nat, ty: Ty, ghost d: Doc) returns (res: Result<Top>, p: int)
    requires GoodEnv(dec.env) && GoodTy(dec.env, ty) && WfDoc(d) && FitsElems(dec.env, ty, d)
    requires Placed(buf, o0, EncDoc(d))
    modifies dec`r
    ensures res == TopOf(dec.h, dec.env, ty, d)
    ensures res.Ok? && res.v.Elements? ==> p == o0 + |EncDoc(d)|
    decreases Weight(d), 2, 0
  {
    hide EncDoc, EncFields, WfFields, TopOf, ExitOf;
    var arr: seq<Value> := [];
    var end := Open(buf, o0, d);
    var o: int := o0 + 4;
    ghost var goal, rest := TopOf(dec.h, dec.env, ty, d), d;
    GatherStart(dec.h, dec.env, ty, d);
    while o < end
      invariant o >= 0 && AtFields(buf, o, end, rest) && Weight(rest) <= Weight(d)
      invariant Gathering(dec.h, dec.env, ty, arr, rest, goal)
      decreases end - o
    {
      var x, q := ElementTurn(dec, buf, o, end, ty, arr, rest, goal);
      match x
      case Err(e) => return Err(e), q;
      case Ok(Returned(v)) => return Ok(Object(v)), q;
      case Ok(Passed(s)) =>
        arr, o := arr + [OrUndefined(s)], q;
        rest := rest.rest;
    }
    Ended(buf, o, end, rest);
    GatherEnd(dec.h, dec.env, ty, arr, goal);
    return Ok(Elements(arr)), end + 1;
  }

  /** One turn: type byte, index name, value. */
  method ElementTurn(dec: Decoder, buf: seq<byte>, o: nat, end: int, ty: Ty, ghost arr: seq<Value>,
                     ghost rest: Doc, ghost goal: Result<Top>)
    returns (res: Result<Exit>, p: int)
    requires Gathering(dec.h, dec.env, ty, arr, rest, goal) && AtFields(buf, o, end, rest) && o < end
    modifies dec`r
    ensures rest.Cons?
    ensures res.Err? ==> goal == Err(res.e)
    ensures res.Ok? && res.v.Returned? ==> goal == Ok(Object(res.v.v))
    ensures res.Ok? && res.v.Passed? ==>
              Gathering(dec.h, dec.env, ty, arr + [OrUndefined(res.v.s)], rest.rest, goal)
              && o < p && AtFields(buf, p, end, rest.rest)
    decreases Weight(rest), 1, 0
  {
    hide EncVal, EncFields, WfVal, Tag, Placed, ExitOf, TopOf;
    var tag := NextTag(buf, o, end, rest);
    GatherStep(dec.h, dec.env, ty, arr, rest, goal);
    NulFromPlaced(buf, o + 1, rest.name);
    res, p := InlineValue(dec, buf, NulFrom(buf, o + 1) + 1, tag, ty, rest.val);
  }
}
