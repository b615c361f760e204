/**
 * Serializer, growing buffer, learned shapes and slow path together: whatever was serialized and decoded before,
 * a storable value comes back as its normal form.
 */
module EndToEnd {
  import opened Bytes
  import opened Wire
  import opened Utf8
  import opened Types
  import opened Meaning
  import opened Target
  import opened Names
  import opened BinaryBigInt
  import opened Serializer
  import opened SlowPath
  import opened TopArrays
  import opened Shapes
  import opened RoundTrip
  import opened Canonical
  import opened Growth
  import opened Untyped
  import opened Parser
  import opened UntypedRoundTrip

  // --- which typed values can be written

  /** Every MongoId has 24 characters and every UUID 36. */
  ghost predicate IdsFit(env: Env, ty: Ty, v: Value)
    requires GoodEnv(env) && GoodTy(env, ty) && HasType(env, ty, v)
    decreases v, 2, TySize(ty)
  {
    match ty
    case TObject(id) => FieldIdsFit(env, env[id], v, 0)
    case TArray(t) => ElemIdsFit(env, t, v, 0)
    case TNullable(t) => Nullish(v) || IdsFit(env, t, v)
    case TMongoId => |v.s| == 24
    case TUuid => |v.s| == 36
    case _ => true
  }

  ghost predicate FieldIdsFit(env: Env, f: seq<Field>, v: Value, k: nat)
    requires GoodEnv(env) && GoodFields(env, f) && v.VObj? && k <= |f| && HasFields(env, f, v, k)
    decreases v, 1, |f| - k
  {
    k < |f| ==> (Given(f[k], v) ==> IdsFit(env, f[k].ty, v.props[f[k].name])) && FieldIdsFit(env, f, v, k + 1)
  }

  ghost predicate ElemIdsFit(env: Env, ty: Ty, v: Value, i: nat)
    requires GoodEnv(env) && GoodTy(env, ty) && v.VArr? && i <= |v.elems| && HasElems(env, ty, v, i)
    decreases v, 1, |v.elems| - i
  {
    i < |v.elems| ==> IdsFit(env, ty, v.elems[i]) && ElemIdsFit(env, ty, v, i + 1)
  }

  lemma {:induction false} StorableIds(h: Host, env: Env, ty: Ty, v: Value)
    requires GoodEnv(env) && GoodTy(env, ty) && HasType(env, ty, v) && Storable(h, env, ty, v)
    ensures IdsFit(env, ty, v)
    decreases v, 2, TySize(ty)
  {
    match ty
    case TObject(id) => StorableFieldIds(h, env, env[id], v, 0);
    case TArray(t) => StorableElemIds(h, env, t, v, 0);
    case TNullable(t) => if !Nullish(v) { StorableIds(h, env, t, v); }
    case _ =>
  }

  lemma {:induction false} StorableFieldIds(h: Host, env: Env, f: seq<Field>, v: Value, k: nat)
    requires GoodEnv(env) && GoodFields(env, f) && v.VObj? && k <= |f| && HasFields(env, f, v, k)
    requires StorableFields(h, env, f, v, k)
    ensures FieldIdsFit(env, f, v, k)
    decreases v, 1, |f| - k
  {
    if k < |f| {
      StorableFieldIds(h, env, f, v, k + 1);
      if Given(f[k], v) { StorableIds(h, env, f[k].ty, v.props[f[k].name]); }
    }
  }

  lemma {:induction false} StorableElemIds(h: Host, env: Env, ty: Ty, v: Value, i: nat)
    requires GoodEnv(env) && GoodTy(env, ty) && v.VArr? && i <= |v.elems| && HasElems(env, ty, v, i)
    requires StorableElems(h, env, ty, v, i)
    ensures ElemIdsFit(env, ty, v, i)
    decreases v, 1, |v.elems| - i
  {
    if i < |v.elems| {
      StorableIds(h, env, ty, v.elems[i]);
      StorableElemIds(h, env, ty, v, i + 1);
    }
  }

  /** A script that is bad exactly if it should be, and else reaches at most three bytes beyond its end. */
  ghost predicate Tight(s: Script, good: bool) {
    s.far >= -1 && (s.bad <==> !good) && (good ==> s.far <= |s.bytes| + 3)
  }

  lemma {:induction false} ThenTight(s: Script, a: bool, t: Script, b: bool)
    requires Tight(s, a) && Tight(t, b)
    ensures Tight(Then(s, t), a && b)
  {
  }

  lemma {:induction false} FramedTight(s: Script, good: bool)
    requires Tight(s, good)
    ensures Tight(Framed(s), good)
  {
  }

  lemma {:induction false} HeaderTight(tag: byte, pn: PropertyName, fixed: bool)
    ensures Tight(HeaderOf(tag, pn, fixed), true)
  {
    if pn.Static? { HeaderBytes(tag, pn.name, fixed); }
  }

  lemma {:induction false} ScalarTight(pn: PropertyName, ty: Ty, v: Value)
    requires ty.TMongoId? || ty.TUuid? ==> v.VStr?
    ensures Tight(ScalarScript(pn, ty, v), (ty.TMongoId? ==> |v.s| == 24) && (ty.TUuid? ==> |v.s| == 36))
  {
    hide OidBytes, UuidBytes, BigData, Encode, NumWire, HeaderOf, LeBytes;
    HeaderTight(Tag(ScalarWire(ty, v)), pn, FixedValue(ty, v));
  }

  /** An element is written unless it holds an identifier of the wrong length, and only then. */
  lemma {:induction false} EmitTight(env: Env, pn: PropertyName, ty: Ty, v: Value)
    requires GoodEnv(env) && GoodTy(env, ty) && HasType(env, ty, v)
    ensures Tight(Emit(env, pn, ty, v), IdsFit(env, ty, v))
    decreases v, 2, TySize(ty)
  {
    hide Tight, Then, Framed, HeaderOf, ScalarScript;
    match ty
    case TObject(id) =>
      EmitFieldsTight(env, env[id], v, 0);
      FramedTight(EmitFields(env, env[id], v, 0), FieldIdsFit(env, env[id], v, 0));
      HeaderTight(OBJECT, pn, true);
      ThenTight(HeaderOf(OBJECT, pn, true), true, Framed(EmitFields(env, env[id], v, 0)), IdsFit(env, ty, v));
    case TArray(t) =>
      EmitElemsTight(env, t, v, 0);
      FramedTight(EmitElems(env, t, v, 0), ElemIdsFit(env, t, v, 0));
      HeaderTight(ARRAY, pn, true);
      ThenTight(HeaderOf(ARRAY, pn, true), true, Framed(EmitElems(env, t, v, 0)), IdsFit(env, ty, v));
    case TNullable(t) => if Nullish(v) { HeaderTight(NULL, pn, false); } else { EmitTight(env, pn, t, v); }
    case _ => ScalarTight(pn, ty, v);
  }

  lemma {:induction false} SkipTight()
    ensures Tight(SKIP, true)
  {
  }

  lemma {:induction false} EmitFieldsTight(env: Env, f: seq<Field>, v: Value, k: nat)
    requires GoodEnv(env) && GoodFields(env, f) && v.VObj? && k <= |f| && HasFields(env, f, v, k)
    ensures Tight(EmitFields(env, f, v, k), FieldIdsFit(env, f, v, k))
    decreases v, 1, |f| - k
  {
    hide Tight, Then, HeaderOf;
    SkipTight();
    if k < |f| {
      EmitFieldsTight(env, f, v, k + 1);
      HeaderTight(NULL, Static(f[k].name), false);
      if Given(f[k], v) { EmitTight(env, Static(f[k].name), f[k].ty, v.props[f[k].name]); }
      ThenTight(EmitField(env, f, v, k), Given(f[k], v) ==> IdsFit(env, f[k].ty, v.props[f[k].name]),
                EmitFields(env, f, v, k + 1), FieldIdsFit(env, f, v, k + 1));
    }
  }

  lemma {:induction false} EmitElemsTight(env: Env, ty: Ty, v: Value, i: nat)
    requires GoodEnv(env) && GoodTy(env, ty) && v.VArr? && i <= |v.elems| && HasElems(env, ty, v, i)
    ensures Tight(EmitElems(env, ty, v, i), ElemIdsFit(env, ty, v, i))
    decreases v, 1, |v.elems| - i
  {
    hide Tight, Then;
    SkipTight();
    if i < |v.elems| {
      EmitTight(env, Index(i), ty, v.elems[i]);
      EmitElemsTight(env, ty, v, i + 1);
      ThenTight(Emit(env, Index(i), ty, v.elems[i]), IdsFit(env, ty, v.elems[i]), EmitElems(env, ty, v, i + 1),
                ElemIdsFit(env, ty, v, i + 1));
    }
  }

  /**
   * Typed serialization fails on identifiers of the wrong length and on documents of more than 2^31-1 bytes, and
   * succeeds otherwise; within three bytes of that size the last name's wide store may still run over the largest
   * buffer.
   */
  lemma {:induction false} TypedVerdict(env: Env, id: nat, v: Value)
    requires GoodEnv(env) && id < |env| && HasType(env, TObject(id), v)
    ensures var r, size := Verdict(EmitDoc(env, id, v)), |EncDoc(ToDoc(env, id, v))|;
            && (r == NoFailure ==> IdsFit(env, TObject(id), v) && size <= 0x7fff_ffff)
            && (IdsFit(env, TObject(id), v) && size <= 0x7fff_ffff - 3 ==> r == NoFailure)
            && (!IdsFit(env, TObject(id), v) ==> r == BadIdentifier || r == Overflow)
  {
    EmitFieldsTight(env, env[id], v, 0);
    FramedTight(EmitFields(env, env[id], v, 0), FieldIdsFit(env, env[id], v, 0));
    EmitDocExact(env, id, v);
  }

  // --- which values are in the domain of learned shapes

  /** No NaN in an array of numbers: learned shapes would keep it (see ShapeElemExact). */
  ghost predicate NanFree(env: Env, ty: Ty, v: Value)
    requires GoodEnv(env) && GoodTy(env, ty) && HasType(env, ty, v)
    decreases v, 2, TySize(ty)
  {
    match ty
    case TObject(id) => NanFreeFields(env, env[id], v, 0)
    case TArray(t) => NanFreeElems(env, t, v, 0)
    case TNullable(t) => Nullish(v) || NanFree(env, t, v)
    case _ => true
  }

  ghost predicate NanFreeFields(env: Env, f: seq<Field>, v: Value, k: nat)
    requires GoodEnv(env) && GoodFields(env, f) && v.VObj? && k <= |f| && HasFields(env, f, v, k)
    decreases v, 1, |f| - k
  {
    k < |f| ==>
      && (Given(f[k], v) ==> NanFree(env, f[k].ty, v.props[f[k].name]))
      && NanFreeFields(env, f, v, k + 1)
  }

  ghost predicate NanFreeElems(env: Env, ty: Ty, v: Value, i: nat)
    requires GoodEnv(env) && GoodTy(env, ty) && v.VArr? && i <= |v.elems| && HasElems(env, ty, v, i)
    decreases v, 1, |v.elems| - i
  {
    i < |v.elems| ==>
      && (if ty.TObject? then NanFree(env, ty, v.elems[i]) else ty.TNumber? ==> v.elems[i] != VNum(NaN))
      && NanFreeElems(env, ty, v, i + 1)
  }

  lemma {:induction false} WireAgrees(h: Host, env: Env, ty: Ty, v: Value)
    requires GoodEnv(env) && GoodTy(env, ty) && HasType(env, ty, v) && Storable(h, env, ty, v) && NanFree(env, ty, v)
    ensures AgreesVal(h, env, ty, ToWire(env, ty, v)) && !IsKey(ToWire(env, ty, v))
    decreases v, 2, TySize(ty)
  {
    match ty
    case TObject(id) => FieldsAgree(h, env, env[id], v, 0);
    case TArray(t) => ElemsAgree(h, env, t, v, 0);
    case TNullable(t) => if Nullish(v) { NullAgrees(h, env, t); } else { WireAgrees(h, env, t, v); }
    case _ =>
  }

  lemma {:induction false} NullAgrees(h: Host, env: Env, ty: Ty)
    requires GoodEnv(env) && GoodTy(env, ty)
    ensures AgreesVal(h, env, ty, WNull)
    decreases TySize(ty)
  {
    if ty.TNullable? { NullAgrees(h, env, ty.inner); }
  }

  lemma {:induction false} FieldsAgree(h: Host, env: Env, f: seq<Field>, v: Value, k: nat)
    requires GoodEnv(env) && GoodFields(env, f) && v.VObj? && k <= |f| && HasFields(env, f, v, k)
    requires StorableFields(h, env, f, v, k) && NanFreeFields(env, f, v, k)
    ensures AgreesFields(h, env, f, FieldsDoc(env, f, v, k)) && !HasKeys(FieldsDoc(env, f, v, k))
    decreases v, 1, |f| - k
  {
    if k < |f| {
      FieldsAgree(h, env, f, v, k + 1);
      FindHere(env, f, k);
      if Given(f[k], v) {
        WireAgrees(h, env, f[k].ty, v.props[f[k].name]);
      } else {
        NullAgrees(h, env, f[k].ty);
      }
    }
  }

  lemma {:induction false} ElemsAgree(h: Host, env: Env, ty: Ty, v: Value, i: nat)
    requires GoodEnv(env) && GoodTy(env, ty) && v.VArr? && i <= |v.elems| && HasElems(env, ty, v, i)
    requires StorableElems(h, env, ty, v, i) && NanFreeElems(env, ty, v, i)
    ensures AgreesElems(h, env, ty, ElemsDoc(env, ty, v, i))
    decreases v, 1, |v.elems| - i
  {
    if i < |v.elems| {
      if ty.TObject? {
        WireAgrees(h, env, ty, v.elems[i]);
      } else {
        ElemAgrees(h, env, ty, v.elems[i]);
      }
      ElemsAgree(h, env, ty, v, i + 1);
    }
  }

  lemma {:induction false} ElemAgrees(h: Host, env: Env, ty: Ty, v: Value)
    requires GoodEnv(env) && GoodTy(env, ty) && !ty.TObject? && HasType(env, ty, v) && Storable(h, env, ty, v)
    requires ty.TNumber? ==> v != VNum(NaN)
    ensures AgreesElem(h, ty, ToWire(env, ty, v))
  {
  }

  // --- canonical values have no NaN

  lemma {:induction false} CanonicalNanFree(env: Env, ty: Ty, v: Value)
    requires GoodEnv(env) && GoodTy(env, ty) && HasType(env, ty, v) && IsCanonical(env, ty, v)
    ensures NanFree(env, ty, v)
    decreases v, 2, TySize(ty)
  {
    match ty
    case TObject(id) => CanonicalFieldsNanFree(env, env[id], v, 0);
    case TArray(t) => CanonicalElemsNanFree(env, t, v, 0);
    case TNullable(t) => if !Nullish(v) { CanonicalNanFree(env, t, v); }
    case _ =>
  }

  lemma {:induction false} CanonicalFieldsNanFree(env: Env, f: seq<Field>, v: Value, k: nat)
    requires GoodEnv(env) && GoodFields(env, f) && v.VObj? && k <= |f| && HasFields(env, f, v, k)
    requires CanonicalFields(env, f, v, k)
    ensures NanFreeFields(env, f, v, k)
    decreases v, 1, |f| - k
  {
    if k < |f| {
      CanonicalFieldsNanFree(env, f, v, k + 1);
      if Given(f[k], v) { CanonicalNanFree(env, f[k].ty, v.props[f[k].name]); }
    }
  }

  lemma {:induction false} CanonicalElemsNanFree(env: Env, ty: Ty, v: Value, i: nat)
    requires GoodEnv(env) && GoodTy(env, ty) && v.VArr? && i <= |v.elems| && HasElems(env, ty, v, i)
    requires CanonicalElems(env, ty, v, i)
    ensures NanFreeElems(env, ty, v, i)
    decreases v, 1, |v.elems| - i
  {
    if i < |v.elems| {
      CanonicalNanFree(env, ty, v.elems[i]);
      CanonicalElemsNanFree(env, ty, v, i + 1);
    }
  }

  // --- round trips through the implementations

  /** Serialized bytes decode to the normal form of the value, by the slow path. */
  lemma {:induction false} TypedRoundTrip(h: Host, env: Env, id: nat, v: Value, buf: seq<byte>, o: nat)
    requires GoodEnv(env) && id < |env| && HasType(env, TObject(id), v) && LawfulHost(h)
    requires Storable(h, env, TObject(id), v)
    requires Placed(buf, o, EmitDoc(env, id, v).bytes) && |EmitDoc(env, id, v).bytes| < TWO31
    ensures var d := ToDoc(env, id, v);
            && WfDoc(d) && FitsDoc(env, id, d) && Placed(buf, o, EncDoc(d))
            && DocOf(h, env, id, d) == Ok(Normal(env, TObject(id), v))
  {
    StorableFieldIds(h, env, env[id], v, 0);
    EmitFieldsTight(env, env[id], v, 0);
    EmitDocExact(env, id, v);
    WireFits(env, TObject(id), v);
    DocReadsBack(h, env, id, v);
  }

  /** Serialize, then decode at offset 0 of the buffer handed out: in any learned state the normal form comes back. */
  method Echo(pool: BufferPool, decoder: ShapeDecoder, id: nat, v: Value) returns (failure: Failure, res: Result<Value>)
    requires pool.Valid() && decoder.Valid() && decoder.env == pool.env && LawfulHost(decoder.h)
    requires id < |pool.env| && HasType(pool.env, TObject(id), v)
    requires Storable(decoder.h, pool.env, TObject(id), v) && NanFree(pool.env, TObject(id), v)
    modifies pool`shared, pool.shared, pool.guard, decoder, decoder.slow`r
    ensures pool.Valid() && decoder.Valid()
    ensures failure == Verdict(EmitDoc(pool.env, id, v))
    ensures failure == NoFailure ==> res == Ok(Normal(pool.env, TObject(id), v))
  {
    hide Storable, NanFree, HasType, Normal, EmitDoc, EncDoc;
    var env := pool.env;
    var buffer, size;
    EmitIsScript(env, pool.e, id, v);
    failure, buffer, size := pool.RunSerialize(TypedJob(id, v));
    if failure != NoFailure { return failure, Err(HostError); }
    var bytes := buffer[..];
    assert bytes[0..size] == buffer[..size];
    TypedRoundTrip(decoder.h, env, id, v, bytes, 0);
    DocAgrees(decoder.h, env, id, v);
    res := decoder.DecodeTop(bytes, 0, id, ToDoc(env, id, v));
  }

  lemma {:induction false} EmitIsScript(env: Env, e: Engine, id: nat, v: Value)
    requires GoodEnv(env) && id < |env| && HasType(env, TObject(id), v)
    ensures IsJob(env, TypedJob(id, v)) && ScriptOf(env, e, TypedJob(id, v)) == EmitDoc(env, id, v)
  {
  }

  lemma {:induction false} DocAgrees(h: Host, env: Env, id: nat, v: Value)
    requires GoodEnv(env) && id < |env| && HasType(env, TObject(id), v)
    requires Storable(h, env, TObject(id), v) && NanFree(env, TObject(id), v)
    ensures AgreesDoc(h, env, id, ToDoc(env, id, v))
  {
    WireAgrees(h, env, TObject(id), v);
  }

  /** A canonical value comes back unchanged. */
  lemma {:induction false} CanonicalComesBack(h: Host, env: Env, id: nat, v: Value)
    requires GoodEnv(env) && id < |env| && HasType(env, TObject(id), v)
    requires Storable(h, env, TObject(id), v) && IsCanonical(env, TObject(id), v)
    ensures NanFree(env, TObject(id), v) && Normal(env, TObject(id), v) == v
  {
    CanonicalNanFree(env, TObject(id), v);
    CanonicalIff(h, env, TObject(id), v);
  }

  // --- arrays at the top

  /** What the serializer writes for an object is in declaration order. */
  lemma {:induction false} WrittenInOrder(env: Env, f: seq<Field>, v: Value, k: nat)
    requires GoodEnv(env) && GoodFields(env, f) && v.VObj? && k <= |f| && HasFields(env, f, v, k)
    ensures InOrder(f, k, FieldsDoc(env, f, v, k))
    decreases |f| - k
  {
    hide ToWire, HasType;
    if k < |f| { WrittenInOrder(env, f, v, k + 1); }
  }

  lemma {:induction false} WrittenStays(env: Env, ty: Ty, v: Value)
    requires GoodEnv(env) && GoodTy(env, ty) && HasType(env, ty, v)
    ensures !Escapes(env, ty, ToWire(env, ty, v))
    decreases v, 2, TySize(ty)
  {
    match ty
    case TObject(id) =>
      WrittenInOrder(env, env[id], v, 0);
      LeftoverIff(env, env[id], 0, FieldsDoc(env, env[id], v, 0));
    case TArray(t) => WrittenElemsStay(env, t, v, 0);
    case TNullable(t) => if !Nullish(v) { WrittenStays(env, t, v); }
    case _ =>
  }

  lemma {:induction false} WrittenElemsStay(env: Env, ty: Ty, v: Value, i: nat)
    requires GoodEnv(env) && GoodTy(env, ty) && v.VArr? && i <= |v.elems| && HasElems(env, ty, v, i)
    ensures !AnyEscapes(env, ty, ElemsDoc(env, ty, v, i))
    decreases v, 1, |v.elems| - i
  {
    if i < |v.elems| {
      WrittenStays(env, ty, v.elems[i]);
      WrittenElemsStay(env, ty, v, i + 1);
    }
  }

  /** An array that the serializer wrote is decoded at the top as a whole: to the normal forms of its elements. */
  lemma {:induction false} TopRoundTrip(h: Host, env: Env, ty: Ty, v: Value)
    requires GoodEnv(env) && GoodTy(env, ty) && v.VArr? && HasElems(env, ty, v, 0) && LawfulHost(h)
    requires StorableElems(h, env, ty, v, 0) && |EncFields(ElemsDoc(env, ty, v, 0))| < TWO31
    ensures var d := ElemsDoc(env, ty, v, 0);
            && WfFields(d) && FitsElems(env, ty, d)
            && TopOf(h, env, ty, d) == Ok(Elements(NormalElems(env, ty, v, 0)))
  {
    hide StorableElems, HasElems, ElemsDoc, EncFields, TopOf, ElemsOf, NormalElems;
    ElemsFit(env, ty, v, 0);
    ElemsReadBack(h, env, ty, v, 0);
    WrittenElemsStay(env, ty, v, 0);
    TopIff(h, env, ty, ElemsDoc(env, ty, v, 0));
  }

  function RootOf(job: Job): Any
    requires job.ArrayJob? || job.ObjectJob?
  {
    if job.ArrayJob? then AArr(job.items) else AObj(job.props)
  }

  /** Untyped serialization succeeds exactly on documents of representable size without an invalid date. */
  lemma {:induction false} UntypedVerdict(env: Env, e: Engine, job: Job)
    requires IsJob(env, job) && (job.ArrayJob? || job.ObjectJob?)
    ensures Verdict(ScriptOf(env, e, job)) == NoFailure <==>
            Writable(RootOf(job)) && |EncVal(AnyWire(e, RootOf(job)))| <= 0x7fff_ffff
    ensures !Writable(RootOf(job)) ==> Verdict(ScriptOf(env, e, job)) == Overflow
  {
    BodyExact(e, RootOf(job));
  }

  /** Untyped: serialize an object or an array, then parse at offset 0 of the buffer handed out. */
  method EchoAny(pool: BufferPool, job: Job) returns (failure: Failure, res: Result<Any>)
    requires pool.Valid() && IsJob(pool.env, job) && (job.ArrayJob? || job.ObjectJob?)
    requires LawfulEngine(pool.e) && StorableAny(pool.e, RootOf(job))
    modifies pool`shared, pool.shared, pool.guard
    ensures pool.Valid()
    ensures failure == NoFailure <==> |EncVal(AnyWire(pool.e, RootOf(job)))| <= 0x7fff_ffff
    ensures failure == NoFailure ==> res == Ok(NormalAny(RootOf(job)))
  {
    var e := pool.e;
    var buffer, size;
    UntypedVerdict(pool.env, e, job);
    StorableWritable(e, RootOf(job));
    failure, buffer, size := pool.SerializeWithGrowth(job);
    if failure != NoFailure { return failure, Err(HostError); }
    var bytes := buffer[..];
    assert bytes[0..size] == buffer[..size];
    ParsesBack(e, RootOf(job), bytes, 0);
    res := ParseValueAny(e, bytes, 0, Tag(AnyWire(e, RootOf(job))));
  }
}
