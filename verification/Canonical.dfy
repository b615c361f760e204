/**
 * Which typed values survive a round trip unchanged: a value is read back as itself exactly when it is canonical.
 * Canonical values are also in the domain on which learned shapes agree with the slow path.
 */
module Canonical {
  import opened Bytes
  import opened Utf8
  import opened Types
  import opened Meaning
  import opened BinaryBigInt
  import opened Serializer
  import opened RoundTrip

  predicate IsLowerHex(c: int) { 48 <= c < 58 || 97 <= c < 103 }

  predicate LowerMongoId(s: Str) { |s| == 24 && forall i :: 0 <= i < 24 ==> IsLowerHex(s[i]) }

  predicate IsDash(i: int) { i == 8 || i == 13 || i == 18 || i == 23 }

  predicate LowerUuid(s: Str) {
    |s| == 36 && forall i :: 0 <= i < 36 ==> if IsDash(i) then s[i] == 45 else IsLowerHex(s[i])
  }

  /** int64 range of bigints and dates; no NaN and no -0; lower-case identifiers. */
  predicate CanonicalScalar(ty: Ty, v: Value) {
    match v
    case VNum(n) => ty.TLiteral? || (!n.NaN? && n != Dbl(NEG_ZERO))
    case VStr(s) => if ty.TMongoId? then LowerMongoId(s) else if ty.TUuid? then LowerUuid(s) else true
    case VBig(i) =>
      if ty.TBigInt? && ty.form != Long then ty.form.Signed? || i >= 0 else -TWO63 <= i < TWO63
    case VDate(ms) => -TWO63 <= ms < TWO63
    case VInvalidDate => false
    case _ => true
  }

  function Keys(f: seq<Field>): set<seq<byte>> { set k | 0 <= k < |f| :: f[k].name }

  /** No unknown properties, no undefined where null is meant, and canonical parts. */
  ghost predicate IsCanonical(env: Env, ty: Ty, v: Value)
    requires GoodEnv(env) && GoodTy(env, ty) && HasType(env, ty, v)
    decreases v, 2, TySize(ty)
  {
    match ty
    case TObject(id) => v.props.Keys <= Keys(env[id]) && CanonicalFields(env, env[id], v, 0)
    case TArray(t) => CanonicalElems(env, t, v, 0)
    case TNullable(t) => v.VNull? || (!v.VUndef? && IsCanonical(env, t, v))
    case _ => CanonicalScalar(ty, v)
  }

  ghost predicate CanonicalField(env: Env, f: seq<Field>, v: Value, k: nat)
    requires GoodEnv(env) && GoodFields(env, f) && v.VObj? && k < |f| && HasFields(env, f, v, k)
    decreases v, 0, 0
  {
    if f[k].name !in v.props then f[k].optional
    else if Given(f[k], v) then IsCanonical(env, f[k].ty, v.props[f[k].name])
    else v.props[f[k].name] == if f[k].ty.TNullable? then VNull else VUndef
  }

  ghost predicate CanonicalFields(env: Env, f: seq<Field>, v: Value, k: nat)
    requires GoodEnv(env) && GoodFields(env, f) && v.VObj? && k <= |f| && HasFields(env, f, v, k)
    decreases v, 1, |f| - k
  {
    k < |f| ==> CanonicalField(env, f, v, k) && CanonicalFields(env, f, v, k + 1)
  }

  ghost predicate CanonicalElems(env: Env, ty: Ty, v: Value, i: nat)
    requires GoodEnv(env) && GoodTy(env, ty) && v.VArr? && i <= |v.elems| && HasElems(env, ty, v, i)
    decreases v, 1, |v.elems| - i
  {
    i < |v.elems| ==> IsCanonical(env, ty, v.elems[i]) && CanonicalElems(env, ty, v, i + 1)
  }

  // ---------------------------------------------------------------------------
  // Identifiers
  // ---------------------------------------------------------------------------

  lemma {:induction false} HexAtIndex(b: seq<byte>, i: nat)
    requires i < |b|
    ensures Hex(b)[2 * i] == HexDigit(b[i] / 16) && Hex(b)[2 * i + 1] == HexDigit(b[i] % 16)
  {
    if i > 0 {
      HexAtIndex(b[1..], i - 1);
    }
  }

  /** A byte is rendered as two lower-case digits, the high one first. */
  lemma {:induction false} HexSpelled(b: seq<byte>, i: nat)
    requires i < |b|
    ensures Hex(b)[2 * i] == Spell("0123456789abcdef")[b[i] / 16]
    ensures Hex(b)[2 * i + 1] == Spell("0123456789abcdef")[b[i] % 16]
  {
    HexAtIndex(b, i);
    DigitSpelled(b[i] / 16);
    DigitSpelled(b[i] % 16);
  }

  lemma {:induction false} DigitSpelled(n: int)
    requires 0 <= n < 16
    ensures HexDigit(n) == Spell("0123456789abcdef")[n]
  {
  }

  /** What becomes of a character of an identifier: digits in lower case, 0 for anything that is no digit. */
  function Lowered(c: u16): u16 {
    if 48 <= c < 58 || 97 <= c < 103 then c else if 65 <= c < 71 then c + 32 else 48
  }

  lemma {:induction false} LoweredPair(c: u16, d: u16)
    ensures HexDigit(Octet(HexVal(c), HexVal(d)) / 16) == Lowered(c)
    ensures HexDigit(Octet(HexVal(c), HexVal(d)) % 16) == Lowered(d)
  {
  }

  /** A MongoId read back is the text written, in lower case. */
  lemma {:induction false} MongoIdLowered(s: Str, i: nat)
    requires |s| == 24 && i < 24
    ensures Hex(OidBytes(s))[i] == Lowered(s[i])
  {
    hide Hex;
    var k := i / 2;
    HexAtIndex(OidBytes(s), k);
    LoweredPair(s[2 * k], s[2 * k + 1]);
  }

  /** Writing a digit pair and rendering the byte gives lower-case digits. */
  lemma {:induction false} DigitPair(c: u16, d: u16)
    ensures HexDigit(Octet(HexVal(c), HexVal(d)) / 16) == c <==> IsLowerHex(c)
    ensures HexDigit(Octet(HexVal(c), HexVal(d)) % 16) == d <==> IsLowerHex(d)
  {
  }

  /** Digit `i` of a MongoId is read back as written exactly when it is a lower-case digit. */
  lemma {:induction false} MongoDigits(s: Str, k: nat)
    requires |s| == 24 && k < 12
    ensures Hex(OidBytes(s))[2 * k] == s[2 * k] <==> IsLowerHex(s[2 * k])
    ensures Hex(OidBytes(s))[2 * k + 1] == s[2 * k + 1] <==> IsLowerHex(s[2 * k + 1])
  {
    hide Hex;
    HexAtIndex(OidBytes(s), k);
    DigitPair(s[2 * k], s[2 * k + 1]);
  }

  lemma {:induction false} MongoIdExact(s: Str)
    requires |s| == 24
    ensures Hex(OidBytes(s)) == s <==> LowerMongoId(s)
  {
    hide Hex, OidBytes;
    var t := Hex(OidBytes(s));
    forall i | 0 <= i < 24 ensures t[i] == s[i] <==> IsLowerHex(s[i]) {
      MongoDigits(s, i / 2);
      assert i == 2 * (i / 2) || i == 2 * (i / 2) + 1;
    }
  }

  /** The byte a UUID character belongs to. */
  function ByteOf(i: nat): nat {
    if i < 8 then i / 2 else if i < 13 then (i - 1) / 2 else if i < 18 then (i - 2) / 2
    else if i < 23 then (i - 3) / 2 else (i - 4) / 2
  }

  /** The digit groups of a UUID, and where they start in the text and in the bytes. */
  lemma {:induction false} UuidTextAt(b: seq<byte>, k: nat)
    requires |b| == 16 && k < 16
    ensures UuidText(b)[UUID_POSITIONS[k]] == HexDigit(b[k] / 16)
    ensures UuidText(b)[UUID_POSITIONS[k] + 1] == HexDigit(b[k] % 16)
  {
    if k < 4 { HexAtIndex(b[0..4], k); }
    else if k < 6 { HexAtIndex(b[4..6], k - 4); }
    else if k < 8 { HexAtIndex(b[6..8], k - 6); }
    else if k < 10 { HexAtIndex(b[8..10], k - 8); }
    else { HexAtIndex(b[10..16], k - 10); }
  }

  /** A UUID is rendered as its bytes in order, in groups of 4, 2, 2, 2 and 6. */
  lemma {:induction false} UuidSpelled(b: seq<byte>)
    requires |b| == 16
    ensures UuidText(b) == Hex(b[..4]) + Spell("-") + Hex(b[4..6]) + Spell("-") + Hex(b[6..8]) + Spell("-")
                           + Hex(b[8..10]) + Spell("-") + Hex(b[10..])
  {
    assert Spell("-") == [45] && b[0..4] == b[..4] && b[10..16] == b[10..];
  }

  /** A UUID read back is the text written, in lower case and with dashes. */
  lemma {:induction false} UuidLowered(s: Str, i: nat)
    requires |s| == 36 && i < 36
    ensures UuidText(UuidBytes(s))[i] == if i in {8, 13, 18, 23} then 45 else Lowered(s[i])
  {
    hide Hex;
    if !IsDash(i) {
      var k := ByteOf(i);
      assert i == UUID_POSITIONS[k] || i == UUID_POSITIONS[k] + 1;
      UuidTextAt(UuidBytes(s), k);
      LoweredPair(s[UUID_POSITIONS[k]], s[UUID_POSITIONS[k] + 1]);
    }
  }

  lemma {:induction false} UuidExact(s: Str)
    requires |s| == 36
    ensures UuidText(UuidBytes(s)) == s <==> LowerUuid(s)
  {
    var b := UuidBytes(s);
    var t := UuidText(b);
    forall i | 0 <= i < 36 ensures t[i] == s[i] <==> if IsDash(i) then s[i] == 45 else IsLowerHex(s[i]) {
      if !IsDash(i) {
        var k := ByteOf(i);
        assert i == UUID_POSITIONS[k] || i == UUID_POSITIONS[k] + 1;
        UuidTextAt(b, k);
        DigitPair(s[UUID_POSITIONS[k]], s[UUID_POSITIONS[k] + 1]);
      }
    }
  }

  // ---------------------------------------------------------------------------
  // The characterisation
  // ---------------------------------------------------------------------------

  lemma {:induction false} WrapsItself(v: int)
    ensures Wrap64(v) == v <==> -TWO63 <= v < TWO63
  {
  }

  lemma {:induction false} ScalarIff(env: Env, ty: Ty, v: Value)
    requires GoodEnv(env) && GoodTy(env, ty) && IsFlat(ty) && HasType(env, ty, v)
    requires (ty.TMongoId? ==> |v.s| == 24) && (ty.TUuid? ==> |v.s| == 36)
    ensures NormalScalar(ty, v) == v <==> CanonicalScalar(ty, v)
  {
    match v
    case VStr(s) =>
      if ty.TMongoId? { MongoIdExact(s); }
      if ty.TUuid? { UuidExact(s); }
    case VBig(i) => WrapsItself(i);
    case VDate(ms) => WrapsItself(ms);
    case _ =>
  }

  /** A value is read back unchanged exactly when it is canonical. */
  lemma {:induction false} CanonicalIff(h: Host, env: Env, ty: Ty, v: Value)
    requires GoodEnv(env) && GoodTy(env, ty) && HasType(env, ty, v) && Storable(h, env, ty, v)
    ensures Normal(env, ty, v) == v <==> IsCanonical(env, ty, v)
    decreases v, 2, TySize(ty)
  {
    match ty
    case TObject(id) => ObjectIff(h, env, id, v);
    case TArray(t) => ElemsIff(h, env, t, v, 0);
    case TNullable(t) => if !Nullish(v) { CanonicalIff(h, env, t, v); }
    case _ => ScalarIff(env, ty, v);
  }

  lemma {:induction false} ElemsIff(h: Host, env: Env, ty: Ty, v: Value, i: nat)
    requires GoodEnv(env) && GoodTy(env, ty) && v.VArr? && i <= |v.elems| && HasElems(env, ty, v, i)
    requires StorableElems(h, env, ty, v, i)
    ensures NormalElems(env, ty, v, i) == v.elems[i..] <==> CanonicalElems(env, ty, v, i)
    ensures i == 0 ==> v.elems[i..] == v.elems
    decreases v, 1, |v.elems| - i
  {
    if i < |v.elems| {
      CanonicalIff(h, env, ty, v.elems[i]);
      ElemsIff(h, env, ty, v, i + 1);
      var n := NormalElems(env, ty, v, i);
      assert v.elems[i..] == [v.elems[i]] + v.elems[i + 1..];
      assert n[1..] == NormalElems(env, ty, v, i + 1);
    }
  }

  /** What a property of the object holds, as a slot. */
  function SlotOf(v: Value, name: seq<byte>): Slot
    requires v.VObj?
  {
    if name in v.props then Set(v.props[name]) else Unset
  }

  lemma {:induction false} SlotIff(h: Host, env: Env, f: seq<Field>, v: Value, k: nat)
    requires GoodEnv(env) && GoodFields(env, f) && v.VObj? && k < |f| && HasFields(env, f, v, k)
    requires StorableFields(h, env, f, v, k)
    ensures NormalSlot(env, f, v, k) == SlotOf(v, f[k].name) <==> CanonicalField(env, f, v, k)
    decreases v, 0, 0
  {
    if Given(f[k], v) { CanonicalIff(h, env, f[k].ty, v.props[f[k].name]); }
  }

  /** The k-th property of the normalised object. */
  lemma {:induction false} NormalFieldsAt(env: Env, f: seq<Field>, v: Value, n: nat, k: nat)
    requires GoodEnv(env) && GoodFields(env, f) && v.VObj? && HasFields(env, f, v, 0) && k < n <= |f|
    ensures HasFields(env, f, v, k)
    ensures SlotOf(VObj(NormalFields(env, f, v, n)), f[k].name) == NormalSlot(env, f, v, k)
  {
    HasFieldsAt(env, f, v, 0, k);
    HasFieldsAt(env, f, v, 0, n - 1);
    if k < n - 1 {
      NormalFieldsAt(env, f, v, n - 1, k);
    } else {
      NotYet(env, f, v, n - 1, f[k].name);
    }
  }

  lemma {:induction false} NotYet(env: Env, f: seq<Field>, v: Value, n: nat, name: seq<byte>)
    requires GoodEnv(env) && GoodFields(env, f) && v.VObj? && HasFields(env, f, v, 0) && n <= |f|
    requires forall j :: 0 <= j < n ==> f[j].name != name
    ensures name !in NormalFields(env, f, v, n)
  {
    if n > 0 {
      HasFieldsAt(env, f, v, 0, n - 1);
      NotYet(env, f, v, n - 1, name);
    }
  }

  /** All properties from the k-th on agree with the normalised object exactly when they are canonical. */
  lemma {:induction false} FieldsIff(h: Host, env: Env, f: seq<Field>, v: Value, k: nat)
    requires GoodEnv(env) && GoodFields(env, f) && v.VObj? && k <= |f| && HasFields(env, f, v, 0)
             && HasFields(env, f, v, k)
    requires StorableFields(h, env, f, v, k)
    ensures CanonicalFields(env, f, v, k) <==>
            forall j :: k <= j < |f| ==>
              SlotOf(VObj(NormalFields(env, f, v, |f|)), f[j].name) == SlotOf(v, f[j].name)
    decreases v, 1, |f| - k
  {
    if k < |f| {
      SlotIff(h, env, f, v, k);
      NormalFieldsAt(env, f, v, |f|, k);
      FieldsIff(h, env, f, v, k + 1);
    }
  }

  lemma {:induction false} ObjectIff(h: Host, env: Env, id: nat, v: Value)
    requires GoodEnv(env) && id < |env| && HasType(env, TObject(id), v) && StorableFields(h, env, env[id], v, 0)
    ensures Normal(env, TObject(id), v) == v <==> IsCanonical(env, TObject(id), v)
    decreases v, 1, |env[id]| + 1
  {
    var f := env[id];
    var m := NormalFields(env, f, v, |f|);
    FieldsIff(h, env, f, v, 0);
    forall name | name in m ensures name in Keys(f) {
      if name !in Keys(f) {
        assert forall j :: 0 <= j < |f| ==> f[j].name in Keys(f);
        NotYet(env, f, v, |f|, name);
      }
    }
    if IsCanonical(env, TObject(id), v) {
      forall name | name in m || name in v.props ensures SlotOf(VObj(m), name) == SlotOf(v, name) {
        assert name in Keys(f);
      }
      assert m.Keys == v.props.Keys by {
        forall name ensures name in m.Keys <==> name in v.props.Keys {
          assert name in m || name in v.props ==> SlotOf(VObj(m), name) == SlotOf(v, name);
        }
      }
      assert m == v.props;
    }
  }
}
