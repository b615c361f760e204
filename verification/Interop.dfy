/**
 * The two codecs together: what the typed serializer writes, the untyped parser reads. A typed document comes out as an
 * object with its properties in declaration order, identifiers as text and bigints stored as bytes as binary data.
 */
module Interop {
  import opened Bytes
  import opened Wire
  import opened Utf8
  import opened Types
  import opened BinaryBigInt
  import opened Serializer
  import opened RoundTrip
  import opened Canonical
  import opened Untyped
  import opened Parser
  import opened UntypedRoundTrip
  import opened EndToEnd

  // ---------------------------------------------------------------------------
  // The untyped value of a typed one
  // ---------------------------------------------------------------------------

  function ScalarAsAny(ty: Ty, v: Value): Any {
    match v
    case VNum(n) => ANum(if n.NaN? || n == Dbl([0, 0, 0, 0, 0, 0, 0, 128]) then Int(0) else n)
    case VStr(s) =>
      if ty.TMongoId? then AStr(seq(|s|, i requires 0 <= i < |s| => Lowered(s[i])))
      else if ty.TUuid? then
        AStr(seq(|s|, i requires 0 <= i < |s| => if i in {8, 13, 18, 23} then 45 else Lowered(s[i])))
      else AStr(s)
    case VBool(b) => ABool(b)
    case VBig(i) => if ty.TBigInt? && ty.form != Long then ABinary(BigData(ty.form.Signed?, i)) else ABig(Wrap64(i))
    case VDate(ms) => ADate(Wrap64(ms))
    case VInvalidDate => ADate(0)
    case VBytes(b) => ABinary(b)
    case _ => ANull
  }

  ghost function AsAny(env: Env, ty: Ty, v: Value): Any
    requires GoodEnv(env) && GoodTy(env, ty) && HasType(env, ty, v)
    decreases v, 2, TySize(ty)
  {
    match ty
    case TObject(id) => AObj(AsProps(env, env[id], v, 0))
    case TArray(t) => AArr(AsItems(env, t, v, 0))
    case TNullable(t) => if Nullish(v) then ANull else AsAny(env, t, v)
    case _ => ScalarAsAny(ty, v)
  }

  /** The properties from the k-th on: absent optional ones missing, nullish ones null. */
  ghost function AsProps(env: Env, f: seq<Field>, v: Value, k: nat): Props
    requires GoodEnv(env) && GoodFields(env, f) && v.VObj? && k <= |f| && HasFields(env, f, v, k)
    decreases v, 1, |f| - k
  {
    if k == |f| then PNil
    else
      var rest := AsProps(env, f, v, k + 1);
      if Given(f[k], v) then PCons(f[k].name, AsAny(env, f[k].ty, v.props[f[k].name]), rest)
      else if f[k].name !in v.props && f[k].optional then rest
      else PCons(f[k].name, ANull, rest)
  }

  ghost function AsItems(env: Env, ty: Ty, v: Value, i: nat): Items
    requires GoodEnv(env) && GoodTy(env, ty) && v.VArr? && i <= |v.elems| && HasElems(env, ty, v, i)
    decreases v, 1, |v.elems| - i
  {
    if i == |v.elems| then INil else ICons(AsAny(env, ty, v.elems[i]), AsItems(env, ty, v, i + 1))
  }

  /** ASCII names, and none that the parser drops. */
  ghost predicate PlainNames(env: Env) {
    forall id, k :: 0 <= id < |env| && 0 <= k < |env[id]| ==> PlainName(env[id][k].name)
  }

  predicate PlainName(name: seq<byte>) {
    (forall i :: 0 <= i < |name| ==> name[i] < 128) && name != Spell("__proto__")
  }

  // ---------------------------------------------------------------------------
  // Scalars
  // ---------------------------------------------------------------------------

  lemma {:induction false} ScalarParses(e: Engine, env: Env, ty: Ty, v: Value)
    requires LawfulEngine(e) && GoodEnv(env) && GoodTy(env, ty) && IsLeaf(ty) && HasType(env, ty, v)
    requires StorableScalar(e.h, ty, v)
    ensures AnyVal(e, ScalarWire(ty, v)) == Ok(ScalarAsAny(ty, v))
  {
    hide Encode, Text, BigData, Hex, UuidText, OidBytes, UuidBytes;
    match v
    case VStr(s) =>
      if ty.TMongoId? {
        IdParses(s);
      } else if ty.TUuid? {
        UuidParses(s);
      } else {
        TextOfEncoded(e.h.dec, s);
      }
    case _ =>
  }

  predicate IsLeaf(ty: Ty) { !ty.TObject? && !ty.TArray? && !ty.TNullable? }

  lemma {:induction false} IdParses(s: Str)
    requires |s| == 24
    ensures Hex(OidBytes(s)) == seq(|s|, i requires 0 <= i < |s| => Lowered(s[i]))
  {
    hide Hex, OidBytes, Lowered;
    forall i: nat | i < 24 ensures Hex(OidBytes(s))[i] == Lowered(s[i]) { MongoIdLowered(s, i); }
  }

  lemma {:induction false} UuidParses(s: Str)
    requires |s| == 36
    ensures UuidText(UuidBytes(s)) ==
            seq(|s|, i requires 0 <= i < |s| => if i in {8, 13, 18, 23} then 45 else Lowered(s[i]))
  {
    hide UuidText, UuidBytes, Lowered;
    forall i: nat | i < 36
      ensures UuidText(UuidBytes(s))[i] == if i in {8, 13, 18, 23} then 45 else Lowered(s[i]) {
      UuidLowered(s, i);
    }
  }

  // ---------------------------------------------------------------------------
  // Documents whose names differ
  // ---------------------------------------------------------------------------

  /** All elements in order, each under the text of its name. */
  function AllProps(e: Engine, d: Doc): Result<Props>
    decreases Weight(d)
  {
    match d
    case Nil => Ok(PNil)
    case Cons(name, w, rest) =>
      match AnyVal(e, w)
      case Err(x) => Err(x)
      case Ok(v) =>
        match AllProps(e, rest)
        case Err(x) => Err(x)
        case Ok(ps) => Ok(PCons(KeyText(e, name), v, ps))
  }

  /** No name occurs twice, and none is dropped. */
  predicate Separate(e: Engine, d: Doc) {
    d.Cons? ==>
      && KeyText(e, d.name) !in KeyTexts(e, d.rest) && KeyText(e, d.name) != Spell("__proto__")
      && Separate(e, d.rest)
  }

  /** `rest` is what follows the first `i` elements of `d`. */
  predicate Behind(d: Doc, i: nat, rest: Doc)
    decreases i
  {
    if i == 0 then d == rest else d.Cons? && Behind(d.rest, i - 1, rest)
  }

  lemma {:induction false} BehindTexts(e: Engine, d: Doc, i: nat, rest: Doc)
    requires Behind(d, i, rest) && Separate(e, d)
    ensures i <= |KeyTexts(e, d)| && KeyTexts(e, d)[i..] == KeyTexts(e, rest) && Separate(e, rest)
    ensures rest.Cons? ==> KeyText(e, rest.name) in KeyTexts(e, d) && LastVal(e, d, KeyText(e, rest.name)) == rest.val
    ensures rest.Cons? ==> Behind(d, i + 1, rest.rest)
    decreases i
  {
    if i > 0 { BehindTexts(e, d.rest, i - 1, rest); }
  }

  lemma {:induction false} AllPropsFrom(e: Engine, d: Doc, i: nat, rest: Doc, acc: Props)
    requires Behind(d, i, rest) && Separate(e, d) && AllProps(e, rest).Ok? && i <= |KeyTexts(e, d)|
    requires forall key :: key in KeyTexts(e, rest) ==> key !in PropKeys(acc)
    ensures AnyKeys(e, d, i, acc) == Ok(AObj(Joined(acc, AllProps(e, rest).v)))
    decreases Weight(rest)
  {
    hide AnyVal, LastVal, Text;
    BehindTexts(e, d, i, rest);
    assert PROTO == Spell("__proto__");
    if rest.Nil? {
      assert KeyTexts(e, d)[i..] == [];
      JoinedNil(acc);
    } else {
      var key := KeyText(e, rest.name);
      assert KeyTexts(e, d)[i] == KeyTexts(e, d)[i..][0] == key;
      var v := AnyVal(e, rest.val).v;
      PutJoined(acc, key, v, AllProps(e, rest.rest).v);
      AllPropsFrom(e, d, i + 1, rest.rest, Put(acc, key, v));
    }
  }

  /** A document whose names differ parses to its elements in order. */
  lemma {:induction false} SeparateParses(e: Engine, d: Doc)
    requires Separate(e, d) && AllProps(e, d).Ok?
    ensures AnyVal(e, WObject(d)) == Ok(AObj(AllProps(e, d).v))
  {
    hide AllProps, Separate;
    AllPropsFrom(e, d, 0, d, PNil);
  }

  // ---------------------------------------------------------------------------
  // Typed documents
  // ---------------------------------------------------------------------------

  lemma {:induction false} NameText(e: Engine, name: seq<byte>)
    requires LawfulEngine(e) && PlainName(name)
    ensures KeyText(e, name) == name
  {
    AsciiDecodes(name);
  }

  lemma {:induction false} TypedParses(e: Engine, env: Env, ty: Ty, v: Value)
    requires LawfulEngine(e) && GoodEnv(env) && PlainNames(env) && GoodTy(env, ty) && HasType(env, ty, v)
    requires Storable(e.h, env, ty, v)
    ensures AnyVal(e, ToWire(env, ty, v)) == Ok(AsAny(env, ty, v))
    decreases v, 2, TySize(ty)
  {
    hide LawfulEngine, ScalarAsAny;
    match ty
    case TObject(id) =>
      FieldsParse(e, env, env[id], v, 0);
      SeparateParses(e, FieldsDoc(env, env[id], v, 0));
    case TArray(t) => ElemsParse(e, env, t, v, 0, INil);
    case TNullable(t) => if !Nullish(v) { TypedParses(e, env, t, v); }
    case _ => ScalarParses(e, env, ty, v);
  }

  lemma {:induction false} FieldsParse(e: Engine, env: Env, f: seq<Field>, v: Value, k: nat)
    requires LawfulEngine(e) && GoodEnv(env) && PlainNames(env) && GoodFields(env, f) && v.VObj? && k <= |f|
    requires forall j :: 0 <= j < |f| ==> PlainName(f[j].name)
    requires HasFields(env, f, v, k) && StorableFields(e.h, env, f, v, k)
    ensures var d := FieldsDoc(env, f, v, k);
            && AllProps(e, d) == Ok(AsProps(env, f, v, k)) && Separate(e, d)
            && forall key :: key in KeyTexts(e, d) ==> exists j :: k <= j < |f| && f[j].name == key
    decreases v, 1, |f| - k
  {
    hide LawfulEngine, Text, PlainName;
    if k < |f| {
      FieldsParse(e, env, f, v, k + 1);
      NameText(e, f[k].name);
      if Given(f[k], v) { TypedParses(e, env, f[k].ty, v.props[f[k].name]); }
      NotProto(f[k].name);
    }
  }

  lemma {:induction false} NotProto(name: seq<byte>)
    requires PlainName(name)
    ensures name != Spell("__proto__")
  {
  }

  lemma {:induction false} ElemsParse(e: Engine, env: Env, ty: Ty, v: Value, i: nat, acc: Items)
    requires LawfulEngine(e) && GoodEnv(env) && PlainNames(env) && GoodTy(env, ty) && v.VArr? && i <= |v.elems|
    requires HasElems(env, ty, v, i) && StorableElems(e.h, env, ty, v, i)
    ensures AnyElems(e, ElemsDoc(env, ty, v, i), acc) == Ok(AArr(Follow(acc, AsItems(env, ty, v, i))))
    decreases v, 1, |v.elems| - i
  {
    hide LawfulEngine;
    if i == |v.elems| {
      PushFollow(acc, AUndef, INil);
    } else {
      var x := AsAny(env, ty, v.elems[i]);
      TypedParses(e, env, ty, v.elems[i]);
      ElemsParse(e, env, ty, v, i + 1, Push(acc, x));
      PushFollow(acc, x, AsItems(env, ty, v, i + 1));
    }
  }

  /** The bytes of a typed value, wherever they lie, parse to its untyped value. */
  lemma {:induction false} TypedToUntyped(e: Engine, env: Env, id: nat, v: Value, buf: seq<byte>, o: nat)
    requires LawfulEngine(e) && GoodEnv(env) && PlainNames(env) && id < |env| && HasType(env, TObject(id), v)
    requires Storable(e.h, env, TObject(id), v)
    requires Placed(buf, o, EmitDoc(env, id, v).bytes) && |EmitDoc(env, id, v).bytes| < TWO31
    ensures ParseObject(e, buf, o) == Ok(AsAny(env, TObject(id), v))
  {
    hide EmitDoc, AsAny, Storable, AnyVal, ParseObject, EncDoc;
    TypedRoundTrip(e.h, env, id, v, buf, o);
    TypedParses(e, env, TObject(id), v);
    ParseObjectExact(e, buf, o, ToDoc(env, id, v));
    ObjectAny(e, ToDoc(env, id, v));
  }

  lemma {:induction false} ObjectAny(e: Engine, d: Doc)
    ensures AnyVal(e, WObject(d)) == AnyKeys(e, d, 0, PNil)
  {
  }
}
