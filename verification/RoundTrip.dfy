/**
 * Serializing a typed value and decoding the bytes gives the value back, up to an explicit normalisation, and
 * exactly when the value is canonical.
 */
module RoundTrip {
  import opened Bytes
  import opened Wire
  import opened Utf8
  import opened Types
  import opened Meaning
  import opened Names
  import opened BinaryBigInt
  import opened Serializer
  import opened SlowPath

  /** What is known of the engine: its text decoder, and that the written NaN is read as NaN. */
  ghost predicate LawfulHost(h: Host) {
    LawfulDecoder(h.dec) && h.float64(NAN_BITS) == NaN
  }

  ghost predicate IsText(s: Str) { WellFormed(s) && (s != [] ==> s[0] != 0xfeff) }

  /** A scalar the format can carry at its type. */
  ghost predicate StorableScalar(h: Host, ty: Ty, v: Value) {
    match v
    case VNum(n) => n.Dbl? ==> h.float64(n.bits) == n
    case VStr(s) =>
      if ty.TMongoId? then |s| == 24 else if ty.TUuid? then |s| == 36 else IsText(s)
    case VBig(i) => ty.TBigInt? && ty.form != Long ==> |BigData(ty.form.Signed?, i)| <= MAX_BIGINT
    case _ => true
  }

  /** Identifier strings of the right length, well-formed text without a byte order mark, integers up to 16 MB. */
  ghost predicate Storable(h: Host, env: Env, ty: Ty, v: Value)
    requires GoodEnv(env) && GoodTy(env, ty) && HasType(env, ty, v)
    decreases v, 2, TySize(ty)
  {
    match ty
    case TObject(id) => StorableFields(h, env, env[id], v, 0)
    case TArray(t) => StorableElems(h, env, t, v, 0)
    case TNullable(t) => Nullish(v) || Storable(h, env, t, v)
    case _ => StorableScalar(h, ty, v)
  }

  ghost predicate StorableFields(h: Host, env: Env, f: seq<Field>, v: Value, k: nat)
    requires GoodEnv(env) && GoodFields(env, f) && v.VObj? && k <= |f| && HasFields(env, f, v, k)
    decreases v, 1, |f| - k
  {
    k < |f| ==>
      && (Given(f[k], v) ==> Storable(h, env, f[k].ty, v.props[f[k].name]))
      && StorableFields(h, env, f, v, k + 1)
  }

  ghost predicate StorableElems(h: Host, env: Env, ty: Ty, v: Value, i: nat)
    requires GoodEnv(env) && GoodTy(env, ty) && v.VArr? && i <= |v.elems| && HasElems(env, ty, v, i)
    decreases v, 1, |v.elems| - i
  {
    i < |v.elems| ==> Storable(h, env, ty, v.elems[i]) && StorableElems(h, env, ty, v, i + 1)
  }

  /** The property carries a value of its type, not an absent or nullish optional. */
  predicate Given(f: Field, v: Value)
    requires v.VObj?
  {
    f.name in v.props && !(f.optional && Nullish(v.props[f.name]))
  }

  // ---------------------------------------------------------------------------
  // Normalisation
  // ---------------------------------------------------------------------------

  function NormalNum(n: Num): Num {
    if n.NaN? || n == Dbl(NEG_ZERO) then Int(0) else n
  }

  function NormalScalar(ty: Ty, v: Value): Value {
    match v
    case VNum(n) => if ty.TLiteral? then v else VNum(NormalNum(n))
    case VStr(s) =>
      if ty.TMongoId? then VStr(Hex(OidBytes(s))) else if ty.TUuid? then VStr(UuidText(UuidBytes(s))) else v
    case VBig(i) =>
      if ty.TBigInt? && ty.form != Long then VBig(if ty.form.Signed? then i else Abs(i)) else VBig(Wrap64(i))
    case VDate(ms) => VDate(Wrap64(ms))
    case VInvalidDate => VDate(0)
    case _ => v
  }

  /** The value read back. */
  ghost function Normal(env: Env, ty: Ty, v: Value): Value
    requires GoodEnv(env) && GoodTy(env, ty) && HasType(env, ty, v)
    decreases v, 2, TySize(ty)
  {
    match ty
    case TObject(id) => VObj(NormalFields(env, env[id], v, |env[id]|))
    case TArray(t) => VArr(NormalElems(env, t, v, 0))
    case TNullable(t) => if Nullish(v) then VNull else Normal(env, t, v)
    case _ => NormalScalar(ty, v)
  }

  /** An absent optional stays absent, a nullish one becomes undefined or null, everything else is normalised. */
  ghost function NormalSlot(env: Env, f: seq<Field>, v: Value, k: nat): Slot
    requires GoodEnv(env) && GoodFields(env, f) && v.VObj? && k < |f| && HasFields(env, f, v, k)
    decreases v, 0, 0
  {
    if Given(f[k], v) then Set(Normal(env, f[k].ty, v.props[f[k].name]))
    else if f[k].optional && f[k].name !in v.props then Unset
    else Set(if f[k].ty.TNullable? then VNull else VUndef)
  }

  /** The first `n` properties of the object read back. */
  ghost function NormalFields(env: Env, f: seq<Field>, v: Value, n: nat): map<seq<byte>, Value>
    requires GoodEnv(env) && GoodFields(env, f) && v.VObj? && n <= |f| && HasFields(env, f, v, 0)
    decreases v, 1, n
  {
    if n == 0 then map[]
    else
      HasFieldsAt(env, f, v, 0, n - 1);
      var m := NormalFields(env, f, v, n - 1);
      var s := NormalSlot(env, f, v, n - 1);
      if s.Set? then m[f[n - 1].name := s.v] else m
  }

  lemma {:induction false} HasFieldsAt(env: Env, f: seq<Field>, v: Value, k: nat, n: nat)
    requires GoodEnv(env) && GoodFields(env, f) && v.VObj? && k <= n <= |f| && HasFields(env, f, v, k)
    ensures HasFields(env, f, v, n)
    decreases n - k
  {
    if k < n { HasFieldsAt(env, f, v, k + 1, n); }
  }

  ghost function NormalElems(env: Env, ty: Ty, v: Value, i: nat): seq<Value>
    requires GoodEnv(env) && GoodTy(env, ty) && v.VArr? && i <= |v.elems| && HasElems(env, ty, v, i)
    decreases v, 1, |v.elems| - i
  {
    if i == |v.elems| then [] else [Normal(env, ty, v.elems[i])] + NormalElems(env, ty, v, i + 1)
  }

  // ---------------------------------------------------------------------------
  // The document is well formed and in the domain of the readers
  // ---------------------------------------------------------------------------

  lemma {:induction false} ScalarFits(env: Env, ty: Ty, v: Value)
    requires GoodEnv(env) && GoodTy(env, ty) && IsFlat(ty) && HasType(env, ty, v)
    requires |EncVal(ScalarWire(ty, v))| < TWO31
    ensures WfVal(ScalarWire(ty, v)) && Fits(env, ty, ScalarWire(ty, v))
  {
  }

  lemma {:induction false} WireFits(env: Env, ty: Ty, v: Value)
    requires GoodEnv(env) && GoodTy(env, ty) && HasType(env, ty, v)
    requires |EncVal(ToWire(env, ty, v))| < TWO31
    ensures WfVal(ToWire(env, ty, v)) && Fits(env, ty, ToWire(env, ty, v))
    decreases v, 2, TySize(ty)
  {
    match ty
    case TObject(id) => FieldsFit(env, env[id], v, 0);
    case TArray(t) => ElemsFit(env, t, v, 0);
    case TNullable(t) => if Nullish(v) { NullFits(env, t); } else { WireFits(env, t, v); }
    case _ => ScalarFits(env, ty, v);
  }

  lemma {:induction false} NullFits(env: Env, ty: Ty)
    requires GoodEnv(env) && GoodTy(env, ty)
    ensures WfVal(WNull) && Fits(env, ty, WNull)
    decreases TySize(ty)
  {
    if ty.TNullable? { NullFits(env, ty.inner); }
  }

  lemma {:induction false} FieldsFit(env: Env, f: seq<Field>, v: Value, k: nat)
    requires GoodEnv(env) && GoodFields(env, f) && v.VObj? && k <= |f| && HasFields(env, f, v, k)
    requires |EncFields(FieldsDoc(env, f, v, k))| < TWO31
    ensures WfFields(FieldsDoc(env, f, v, k)) && FitsFields(env, f, FieldsDoc(env, f, v, k))
    decreases v, 1, |f| - k
  {
    if k < |f| {
      FieldsFit(env, f, v, k + 1);
      FindHere(env, f, k);
      if Given(f[k], v) {
        WireFits(env, f[k].ty, v.props[f[k].name]);
      } else {
        NullFits(env, f[k].ty);
      }
    }
  }

  lemma {:induction false} ElemsFit(env: Env, ty: Ty, v: Value, i: nat)
    requires GoodEnv(env) && GoodTy(env, ty) && v.VArr? && i <= |v.elems| && HasElems(env, ty, v, i)
    requires |EncFields(ElemsDoc(env, ty, v, i))| < TWO31
    ensures WfFields(ElemsDoc(env, ty, v, i)) && FitsElems(env, ty, ElemsDoc(env, ty, v, i))
    decreases v, 1, |v.elems| - i
  {
    if i < |v.elems| {
      ElemsFit(env, ty, v, i + 1);
      WireFits(env, ty, v.elems[i]);
      DigitsNulFree(i);
    }
  }

  // ---------------------------------------------------------------------------
  // Reading back
  // ---------------------------------------------------------------------------

  lemma {:induction false} ScalarReadsBack(h: Host, env: Env, ty: Ty, v: Value)
    requires GoodEnv(env) && GoodTy(env, ty) && IsScalar(ty) && HasType(env, ty, v)
    requires LawfulHost(h) && StorableScalar(h, ty, v)
    ensures Readable(ty, ScalarWire(ty, v))
    ensures ScalarOf(h, ty, ScalarWire(ty, v)) == Ok(NormalScalar(ty, v))
    ensures !IsNullTag(Tag(ScalarWire(ty, v)))
  {
    hide Encode, Text, BigData, NumberOf, NumWire, NormalNum, Hex, UuidText, HexAt;
    match ty
    case TString => TextOfEncoded(h.dec, v.s);
    case TBigInt(form) => if form != Long { BigRoundTrip(form.Signed?, v.i); }
    case TNumber => NumberReadsBack(h, v.n);
    case TLiteral(_) => if v.VNum? { NumberTag(v.n); }
    case TTextOrNumber => if v.VNum? { TextOrNumberReadsBack(h, v.n); } else { TextOfEncoded(h.dec, v.s); }
    case _ =>
  }

  lemma {:induction false} NumberTag(n: Num)
    ensures !IsNullTag(Tag(NumWire(n)))
  {
  }

  lemma {:induction false} NumberReadsBack(h: Host, n: Num)
    requires IsNum(n) && LawfulHost(h) && (n.Dbl? ==> h.float64(n.bits) == n)
    ensures NumberOf(h, NumWire(n)) == VNum(NormalNum(n)) && !IsNullTag(Tag(NumWire(n)))
  {
  }

  lemma {:induction false} TextOrNumberReadsBack(h: Host, n: Num)
    requires IsNum(n) && LawfulHost(h) && (n.Dbl? ==> h.float64(n.bits) == n)
    ensures TextOrNumberOf(h, NumWire(n)) == Ok(VNum(NormalNum(n))) && !IsNullTag(Tag(NumWire(n)))
  {
    NumberReadsBack(h, n);
  }

  lemma {:induction false} EnumReadsBack(h: Host, env: Env, v: Value)
    requires GoodEnv(env) && HasType(env, TEnum, v)
    ensures ValueOf(h, env, TEnum, ScalarWire(TEnum, v)) == Ok(Set(NormalScalar(TEnum, v)))
    ensures !IsNullTag(Tag(ScalarWire(TEnum, v)))
  {
  }

  lemma {:induction false} ReadsBack(h: Host, env: Env, ty: Ty, v: Value)
    requires GoodEnv(env) && GoodTy(env, ty) && HasType(env, ty, v) && LawfulHost(h) && Storable(h, env, ty, v)
    requires WfVal(ToWire(env, ty, v)) && Fits(env, ty, ToWire(env, ty, v))
    ensures ValueOf(h, env, ty, ToWire(env, ty, v)) == Ok(Set(Normal(env, ty, v)))
    ensures !ty.TNullable? ==> !IsNullTag(Tag(ToWire(env, ty, v)))
    decreases v, 2, TySize(ty)
  {
    var w := ToWire(env, ty, v);
    match ty
    case TObject(id) =>
      DocReadsBack(h, env, id, v);
    case TArray(t) =>
      ElemsReadBack(h, env, t, v, 0);
    case TNullable(t) =>
      if !Nullish(v) {
        ReadsBack(h, env, t, v);
      }
    case TEnum => EnumReadsBack(h, env, v);
    case _ => ScalarReadsBack(h, env, ty, v);
  }

  lemma {:induction false} ElemsReadBack(h: Host, env: Env, ty: Ty, v: Value, i: nat)
    requires GoodEnv(env) && GoodTy(env, ty) && v.VArr? && i <= |v.elems| && HasElems(env, ty, v, i)
    requires LawfulHost(h) && StorableElems(h, env, ty, v, i)
    requires WfFields(ElemsDoc(env, ty, v, i)) && FitsElems(env, ty, ElemsDoc(env, ty, v, i))
    ensures ElemsOf(h, env, ty, ElemsDoc(env, ty, v, i)) == Ok(NormalElems(env, ty, v, i))
    decreases v, 1, |v.elems| - i
  {
    if i < |v.elems| {
      ReadsBack(h, env, ty, v.elems[i]);
      ElemsReadBack(h, env, ty, v, i + 1);
    }
  }

  lemma {:induction false} FieldReadsBack(h: Host, env: Env, f: seq<Field>, v: Value, k: nat, w: Wire)
    requires GoodEnv(env) && GoodFields(env, f) && v.VObj? && k < |f| && HasFields(env, f, v, k)
    requires LawfulHost(h) && StorableFields(h, env, f, v, k)
    requires f[k].name in v.props || !f[k].optional
    requires w == if Given(f[k], v) then ToWire(env, f[k].ty, v.props[f[k].name]) else WNull
    requires WfVal(w) && Fits(env, f[k].ty, w)
    ensures NormalSlot(env, f, v, k).Set?
    ensures FieldOf(h, env, f[k], w) == Ok(NormalSlot(env, f, v, k))
    decreases v, 0, 0
  {
    if Given(f[k], v) {
      var x := v.props[f[k].name];
      ReadsBack(h, env, f[k].ty, x);
    }
  }

  /** The slots once the first `k` properties are read. */
  ghost predicate Filled(env: Env, f: seq<Field>, v: Value, k: nat, slots: seq<Slot>)
    requires GoodEnv(env) && GoodFields(env, f) && v.VObj? && k <= |f| && HasFields(env, f, v, 0)
  {
    && |slots| == |f|
    && (forall j :: 0 <= j < k ==> HasFields(env, f, v, j) && slots[j] == NormalSlot(env, f, v, j))
    && (forall j :: k <= j < |f| ==> slots[j] == Initial(f[j]))
  }

  lemma {:induction false} FieldsReadBack(h: Host, env: Env, f: seq<Field>, v: Value, k: nat, slots: seq<Slot>)
    returns (done: seq<Slot>)
    requires GoodEnv(env) && GoodFields(env, f) && v.VObj? && k <= |f| && HasFields(env, f, v, 0)
             && HasFields(env, f, v, k)
    requires LawfulHost(h) && StorableFields(h, env, f, v, k) && Filled(env, f, v, k, slots)
    requires WfFields(FieldsDoc(env, f, v, k)) && FitsFields(env, f, FieldsDoc(env, f, v, k))
    ensures Fold(h, env, f, slots, FieldsDoc(env, f, v, k)) == Ok(done) && Filled(env, f, v, |f|, done)
    decreases v, 1, |f| - k
  {
    if k == |f| { return slots; }
    var d := FieldsDoc(env, f, v, k);
    if f[k].optional && f[k].name !in v.props {
      done := FieldsReadBack(h, env, f, v, k + 1, slots);
    } else {
      FindHere(env, f, k);
      FieldReadsBack(h, env, f, v, k, d.val);
      var next := slots[k := NormalSlot(env, f, v, k)];
      assert StepOf(h, env, f, slots, d.name, d.val) == Ok(next);
      done := FieldsReadBack(h, env, f, v, k + 1, next);
    }
  }

  lemma {:induction false} BuildFilled(env: Env, f: seq<Field>, v: Value, slots: seq<Slot>, n: nat)
    requires GoodEnv(env) && GoodFields(env, f) && v.VObj? && HasFields(env, f, v, 0) && n <= |f|
    requires Filled(env, f, v, |f|, slots)
    ensures Build(f[..n], slots[..n]) == Ok(NormalFields(env, f, v, n))
  {
    if n > 0 {
      BuildFilled(env, f, v, slots, n - 1);
      HasFieldsAt(env, f, v, 0, n - 1);
      assert f[..n][..n - 1] == f[..n - 1] && slots[..n][..n - 1] == slots[..n - 1];
      assert f[..n][n - 1] == f[n - 1] && slots[..n][n - 1] == NormalSlot(env, f, v, n - 1);
    }
  }

  lemma {:induction false} DocReadsBack(h: Host, env: Env, id: nat, v: Value)
    requires GoodEnv(env) && id < |env| && HasType(env, TObject(id), v) && LawfulHost(h)
    requires StorableFields(h, env, env[id], v, 0)
    requires WfFields(ToDoc(env, id, v)) && FitsDoc(env, id, ToDoc(env, id, v))
    ensures DocOf(h, env, id, ToDoc(env, id, v)) == Ok(Normal(env, TObject(id), v))
    decreases v, 1, |env[id]| + 1
  {
    var f := env[id];
    var slots := FieldsReadBack(h, env, f, v, 0, Initials(f));
    BuildFilled(env, f, v, slots, |f|);
    assert f[..|f|] == f && slots[..|f|] == slots;
  }
}
