/**
 * Snapshot entries and queue messages as types of the typed codec: their documents are those of the typed serializer,
 * and the typed deserializer gives every entry and every message back.
 */
module SnapshotTypes {
  import opened Bytes
  import opened Wire
  import opened Utf8
  import opened Types
  import opened Meaning
  import opened Serializer
  import opened RoundTrip
  import opened Canonical
  import opened Snapshot
  import EndToEnd
  import Shapes
  import UntypedRoundTrip

  // ---------------------------------------------------------------------------
  // Objects of flat properties
  // ---------------------------------------------------------------------------

  /** The properties of an object, given the values of its fields; None for an absent property. */
  function Props(f: seq<Field>, vals: seq<Option<Value>>): map<seq<byte>, Value>
    requires |vals| == |f|
  {
    if f == [] then map[]
    else
      var n := |f| - 1;
      var m := Props(f[..n], vals[..n]);
      match vals[n] case None => m case Some(v) => m[f[n].name := v]
  }

  lemma {:induction false} PropsNamed(f: seq<Field>, vals: seq<Option<Value>>, name: seq<byte>)
    requires |vals| == |f| && name in Props(f, vals)
    ensures exists k :: 0 <= k < |f| && f[k].name == name
  {
    var n := |f| - 1;
    if name in Props(f[..n], vals[..n]) {
      PropsNamed(f[..n], vals[..n], name);
      var k :| 0 <= k < n && f[..n][k].name == name;
      assert f[k].name == name;
    } else {
      assert f[n].name == name;
    }
  }

  ghost predicate Distinct(f: seq<Field>) { forall i, j :: 0 <= i < j < |f| ==> f[i].name != f[j].name }

  lemma {:induction false} PropsAt(f: seq<Field>, vals: seq<Option<Value>>, k: nat)
    requires |vals| == |f| && k < |f| && Distinct(f)
    ensures f[k].name in Props(f, vals) <==> vals[k].Some?
    ensures vals[k].Some? ==> Props(f, vals)[f[k].name] == vals[k].value
  {
    var n := |f| - 1;
    if k == n {
      if f[n].name in Props(f[..n], vals[..n]) {
        PropsNamed(f[..n], vals[..n], f[n].name);
        assert false;
      }
    } else {
      PropsAt(f[..n], vals[..n], k);
    }
  }

  function ItemWire(f: Field, val: Option<Value>): Option<Wire> {
    match val
    case None => None
    case Some(v) => Some(if f.optional && Nullish(v) then WNull else ScalarWire(f.ty, v))
  }

  /** The document of the fields from the k-th on. */
  function ValsDoc(f: seq<Field>, vals: seq<Option<Value>>, k: nat): Doc
    requires |vals| == |f| && k <= |f|
    decreases |f| - k
  {
    if k == |f| then Nil
    else
      match ItemWire(f[k], vals[k])
      case None => ValsDoc(f, vals, k + 1)
      case Some(w) => Cons(f[k].name, w, ValsDoc(f, vals, k + 1))
  }

  /** A value that is read back unchanged at its field. */
  ghost predicate GoodVal(h: Host, env: Env, f: Field, val: Option<Value>) {
    && GoodEnv(env) && IsFlat(f.ty) && GoodTy(env, f.ty)
    && match val
       case None => f.optional
       case Some(v) =>
         if Nullish(v) then f.optional && v == VUndef
         else HasType(env, f.ty, v) && StorableScalar(h, f.ty, v) && CanonicalScalar(f.ty, v)
  }

  ghost predicate GoodVals(h: Host, env: Env, f: seq<Field>, vals: seq<Option<Value>>) {
    |vals| == |f| && forall k :: 0 <= k < |f| ==> GoodVal(h, env, f[k], vals[k])
  }

  lemma {:induction false} FieldsFrom(h: Host, env: Env, f: seq<Field>, vals: seq<Option<Value>>, k: nat)
    requires GoodEnv(env) && GoodFields(env, f) && GoodVals(h, env, f, vals) && k <= |f|
    ensures var v := VObj(Props(f, vals));
            && HasFields(env, f, v, k) && StorableFields(h, env, f, v, k) && CanonicalFields(env, f, v, k)
            && EndToEnd.NanFreeFields(env, f, v, k) && FieldsDoc(env, f, v, k) == ValsDoc(f, vals, k)
    decreases |f| - k
  {
    hide GoodEnv, GoodTy, StorableScalar, CanonicalScalar, ScalarWire, Props;
    if k < |f| {
      FieldsFrom(h, env, f, vals, k + 1);
      PropsAt(f, vals, k);
      assert GoodVal(h, env, f[k], vals[k]);
      if vals[k].Some? && !Nullish(vals[k].value) { FlatIs(h, env, f[k].ty, vals[k].value); }
    }
  }

  lemma {:induction false} FlatIs(h: Host, env: Env, ty: Ty, v: Value)
    requires GoodEnv(env) && GoodTy(env, ty) && IsFlat(ty) && HasType(env, ty, v)
    ensures ToWire(env, ty, v) == ScalarWire(ty, v) && EndToEnd.NanFree(env, ty, v)
    ensures Storable(h, env, ty, v) == StorableScalar(h, ty, v)
    ensures IsCanonical(env, ty, v) == CanonicalScalar(ty, v)
  {
  }

  /** What a decoder, with any learned shapes, needs to know of a document to give back this value. */
  ghost predicate Restorable(h: Host, env: Env, id: nat, d: Doc, v: Value) {
    && GoodEnv(env) && id < |env| && WfDoc(d) && FitsDoc(env, id, d) && Shapes.AgreesDoc(h, env, id, d)
    && DocOf(h, env, id, d) == Ok(v)
  }

  /** The document is that of the typed serializer, and reads back as the object. */
  lemma {:induction false} ObjectReadsBack(h: Host, env: Env, id: nat, vals: seq<Option<Value>>)
    requires LawfulHost(h) && GoodEnv(env) && id < |env| && GoodVals(h, env, env[id], vals)
    requires |EncDoc(ValsDoc(env[id], vals, 0))| < TWO31
    ensures var v, d := VObj(Props(env[id], vals)), ValsDoc(env[id], vals, 0);
            HasType(env, TObject(id), v) && ToDoc(env, id, v) == d && Restorable(h, env, id, d, v)
  {
    hide GoodVal, Props, ValsDoc, StorableFields, CanonicalFields, EndToEnd.NanFreeFields, HasFields, EncDoc;
    var f := env[id];
    var v := VObj(Props(f, vals));
    FieldsFrom(h, env, f, vals, 0);
    forall name | name in Props(f, vals) ensures name in Keys(f) {
      PropsNamed(f, vals, name);
      var k :| 0 <= k < |f| && f[k].name == name;
    }
    ObjectIs(h, env, id, v);
    WireFits(env, TObject(id), v);
    DocReadsBack(h, env, id, v);
    CanonicalIff(h, env, TObject(id), v);
    EndToEnd.DocAgrees(h, env, id, v);
  }

  lemma {:induction false} ObjectIs(h: Host, env: Env, id: nat, v: Value)
    requires GoodEnv(env) && id < |env| && v.VObj? && HasFields(env, env[id], v, 0)
    requires StorableFields(h, env, env[id], v, 0) && CanonicalFields(env, env[id], v, 0)
    requires EndToEnd.NanFreeFields(env, env[id], v, 0) && v.props.Keys <= Keys(env[id])
    ensures HasType(env, TObject(id), v) && Storable(h, env, TObject(id), v) && IsCanonical(env, TObject(id), v)
    ensures EndToEnd.NanFree(env, TObject(id), v) && ToWire(env, TObject(id), v) == WObject(ToDoc(env, id, v))
  {
  }

  // ---------------------------------------------------------------------------
  // SnapshotEntry and QueueMessage
  // ---------------------------------------------------------------------------

  function EntryFields(): seq<Field> {
    [Field(TYPE, TLiteral(VNum(Int(0))), false), Field(CURRENT_ID, TNumber, false), Field(NAME, TString, false),
     Field(AMOUNT, TNumber, false)]
  }

  function MessageFields(): seq<Field> {
    [Field(ID, TNumber, false), Field(STATE, TEnum, false), Field(HASH, TTextOrNumber, true),
     Field(PROCESS, TEnum, false), Field(TTL, TNumber, true), Field(DELAY, TNumber, false),
     Field(PRIORITY, TNumber, true), Field(LAST_ERROR, TString, true), Field(TRIES, TNumber, false),
     Field(V, TBinary, false)]
  }

  const ENTRY: nat := 0
  const MESSAGE: nat := 1

  function SnapshotEnv(): Env { [EntryFields(), MessageFields()] }

  lemma {:induction false} EnvSize()
    ensures |SnapshotEnv()| == 2
  {
  }

  function OptVal<T>(o: Opt<T>, value: T -> Value): Option<Value> {
    match o case Absent => None case Undefined => Some(VUndef) case Given(x) => Some(value(x))
  }

  function HashValue(x: Hash): Value { match x case Text(s) => VStr(s) case Number(n) => VNum(n) }

  function NumValue(n: Num): Value { VNum(n) }

  function TextValue(s: Str): Value { VStr(s) }

  function EntryVals(x: Entry): seq<Option<Value>> {
    [Some(VNum(Int(0))), Some(VNum(x.currentId)), Some(VStr(x.name)), Some(VNum(Int(x.amount)))]
  }

  function MessageVals(m: Message): seq<Option<Value>> {
    [Some(VNum(m.id)), Some(VNum(Int(m.state))), OptVal(m.hash, HashValue),
     Some(VNum(Int(if m.process.ExactlyOnce? then 0 else 1))), OptVal(m.ttl, NumValue), Some(VNum(m.delay)),
     OptVal(m.priority, NumValue), OptVal(m.lastError, TextValue), Some(VNum(m.tries)), Some(VBytes(m.v))]
  }

  function EntryValue(x: Entry): Value { VObj(Props(EntryFields(), EntryVals(x))) }

  function MessageValue(m: Message): Value { VObj(Props(MessageFields(), MessageVals(m))) }

  // --- their documents

  lemma {:induction false} ValsStep(f: seq<Field>, vals: seq<Option<Value>>, k: nat, w: Wire)
    requires |vals| == |f| && k < |f| && ItemWire(f[k], vals[k]) == Some(w)
    ensures ValsDoc(f, vals, k) == Cons(f[k].name, w, ValsDoc(f, vals, k + 1))
  {
  }

  lemma {:induction false} ValsEnd(f: seq<Field>, vals: seq<Option<Value>>)
    requires |vals| == |f|
    ensures ValsDoc(f, vals, |f|) == Nil
  {
  }

  lemma {:induction false} OptStep<T>(f: seq<Field>, vals: seq<Option<Value>>, k: nat, o: Opt<T>, value: T -> Value,
                                      wire: T -> Wire)
    requires |vals| == |f| && k < |f| && f[k].optional && vals[k] == OptVal(o, value)
    requires o.Given? ==> !Nullish(value(o.x)) && ScalarWire(f[k].ty, value(o.x)) == wire(o.x)
    ensures ValsDoc(f, vals, k) == OptWire(f[k].name, o, wire, ValsDoc(f, vals, k + 1))
  {
    hide ScalarWire;
  }

  lemma {:induction false} EntryDocIs(x: Entry)
    ensures ValsDoc(EntryFields(), EntryVals(x), 0) == EntryDoc(x)
  {
    hide ValsDoc, NumWire, Encode;
    var f, vals := EntryFields(), EntryVals(x);
    ValsEnd(f, vals);
    ValsStep(f, vals, 3, NumWire(Int(x.amount)));
    ValsStep(f, vals, 2, WString(Encode(x.name)));
    ValsStep(f, vals, 1, NumWire(x.currentId));
    IntWire(0);
    ValsStep(f, vals, 0, WInt(0));
  }

  lemma {:induction false} IntWire(i: int)
    ensures NumWire(Int(i)) == WInt(i)
  {
  }

  lemma {:induction false} MessageTail(m: Message)
    ensures ValsDoc(MessageFields(), MessageVals(m), 6) ==
            OptWire(PRIORITY, m.priority, NumWire,
            OptWire(LAST_ERROR, m.lastError, TextWire,
            Cons(TRIES, NumWire(m.tries),
            Cons(V, WBinary(0, m.v), Nil))))
  {
    hide ValsDoc, NumWire, Encode, OptWire, OptVal;
    var f, vals := MessageFields(), MessageVals(m);
    ValsEnd(f, vals);
    ValsStep(f, vals, 9, WBinary(0, m.v));
    ValsStep(f, vals, 8, NumWire(m.tries));
    OptStep(f, vals, 7, m.lastError, TextValue, TextWire);
    OptStep(f, vals, 6, m.priority, NumValue, NumWire);
  }

  lemma {:induction false} MessageDocIs(m: Message)
    ensures ValsDoc(MessageFields(), MessageVals(m), 0) == MessageDoc(m)
  {
    hide ValsDoc, NumWire, Encode, OptWire, OptVal;
    var f, vals := MessageFields(), MessageVals(m);
    MessageTail(m);
    ValsStep(f, vals, 5, NumWire(m.delay));
    OptStep(f, vals, 4, m.ttl, NumValue, NumWire);
    IntWire(if m.process.ExactlyOnce? then 0 else 1);
    ValsStep(f, vals, 3, WInt(if m.process.ExactlyOnce? then 0 else 1));
    OptStep(f, vals, 2, m.hash, HashValue, HashWire);
    IntWire(m.state);
    ValsStep(f, vals, 1, WInt(m.state));
    ValsStep(f, vals, 0, NumWire(m.id));
  }

  // --- entries and messages that read back

  /** A number the format carries: neither NaN nor -0. */
  ghost predicate GoodNum(h: Host, n: Num) {
    IsNum(n) && !n.NaN? && n != Dbl(NEG_ZERO) && (n.Dbl? ==> h.float64(n.bits) == n)
  }

  ghost predicate GoodHash(h: Host, x: Hash) {
    match x case Text(s) => IsText(s) case Number(n) => GoodNum(h, n)
  }

  ghost predicate GoodEntry(h: Host, x: Entry) {
    IsEntry(x) && GoodNum(h, x.currentId) && IsText(x.name) && x.amount < TWO31
  }

  ghost predicate GoodMessage(h: Host, m: Message) {
    && IsMessage(m) && -TWO31 <= m.state < TWO31
    && GoodNum(h, m.id) && GoodNum(h, m.delay) && GoodNum(h, m.tries)
    && (m.ttl.Given? ==> GoodNum(h, m.ttl.x)) && (m.priority.Given? ==> GoodNum(h, m.priority.x))
    && (m.hash.Given? ==> GoodHash(h, m.hash.x)) && (m.lastError.Given? ==> IsText(m.lastError.x))
  }

  /** A non-empty name without NUL. */
  ghost predicate IsName(name: seq<byte>) { name != [] && NulFree(name) }

  lemma {:induction false} NameGood(name: seq<byte>)
    requires name != [] && 0 !in name
    ensures IsName(name)
  {
    UntypedRoundTrip.NulFreeOf(name);
  }

  lemma {:induction false} EntryNamesGood()
    ensures IsName(TYPE) && IsName(CURRENT_ID) && IsName(NAME) && IsName(AMOUNT)
  {
    hide IsName;
    NameGood(TYPE);
    NameGood(CURRENT_ID);
    NameGood(NAME);
    NameGood(AMOUNT);
  }

  lemma {:induction false} MessageNamesGood()
    ensures IsName(ID) && IsName(STATE) && IsName(HASH) && IsName(PROCESS) && IsName(TTL) && IsName(DELAY)
    ensures IsName(PRIORITY) && IsName(LAST_ERROR) && IsName(TRIES) && IsName(V)
  {
    hide IsName;
    NameGood(ID);
    NameGood(STATE);
    NameGood(HASH);
    NameGood(PROCESS);
    NameGood(TTL);
    NameGood(DELAY);
    NameGood(PRIORITY);
    NameGood(LAST_ERROR);
    NameGood(TRIES);
    NameGood(V);
  }

  lemma {:induction false} AllNamed(f: seq<Field>)
    requires f == EntryFields() || f == MessageFields()
    ensures forall k :: 0 <= k < |f| ==> IsName(f[k].name)
  {
    hide IsName;
    EntryNamesGood();
    MessageNamesGood();
  }

  lemma {:induction false} FieldsGood(env: Env, f: seq<Field>)
    requires f == EntryFields() || f == MessageFields()
    ensures GoodFields(env, f)
  {
    hide IsName, GoodFields, GoodTy, EntryFields, MessageFields;
    AllNamed(f);
    NamesDistinct();
    FlatTypes(env, f);
    Assemble(env, f);
  }

  lemma {:induction false} FlatTypes(env: Env, f: seq<Field>)
    requires f == EntryFields() || f == MessageFields()
    ensures forall k :: 0 <= k < |f| ==> GoodTy(env, f[k].ty) && IsFlat(f[k].ty)
  {
  }

  lemma {:induction false} Assemble(env: Env, f: seq<Field>)
    requires forall k :: 0 <= k < |f| ==> IsName(f[k].name) && GoodTy(env, f[k].ty)
    requires Distinct(f)
    ensures GoodFields(env, f)
  {
  }

  lemma {:induction false} NamesGood()
    ensures GoodEnv(SnapshotEnv())
  {
    hide GoodFields, EntryFields, MessageFields;
    FieldsGood(SnapshotEnv(), EntryFields());
    FieldsGood(SnapshotEnv(), MessageFields());
  }

  lemma {:induction false} NamesDistinct()
    ensures Distinct(EntryFields()) && Distinct(MessageFields())
  {
    assert |TYPE| == 4 && |CURRENT_ID| == 9 && |NAME| == 4 && |AMOUNT| == 6 && TYPE[0] != NAME[0];
    NameLengths();
  }

  /** An entry written by the typed serializer is read back unchanged by the typed deserializer. */
  lemma {:induction false} EntryReadsBack(h: Host, x: Entry)
    requires LawfulHost(h) && GoodEntry(h, x)
    ensures var env := SnapshotEnv();
            && GoodEnv(env) && HasType(env, TObject(ENTRY), EntryValue(x))
            && ToDoc(env, ENTRY, EntryValue(x)) == EntryDoc(x) && Restorable(h, env, ENTRY, EntryDoc(x), EntryValue(x))
  {
    hide EncDoc, EntryDoc, Props, IsText, Restorable;
    NamesGood();
    EntryDocIs(x);
    EntryValsGood(h, x);
    ObjectReadsBack(h, SnapshotEnv(), ENTRY, EntryVals(x));
  }

  lemma {:induction false} EntryValsGood(h: Host, x: Entry)
    requires GoodEnv(SnapshotEnv()) && GoodEntry(h, x)
    ensures GoodVals(h, SnapshotEnv(), EntryFields(), EntryVals(x))
  {
    hide GoodEnv, IsText, EncDoc;
  }

  lemma {:induction false} OptGood<T>(h: Host, env: Env, f: Field, o: Opt<T>, value: T -> Value)
    requires GoodEnv(env) && IsFlat(f.ty) && GoodTy(env, f.ty) && f.optional
    requires o.Given? ==> var v := value(o.x);
               !Nullish(v) && HasType(env, f.ty, v) && StorableScalar(h, f.ty, v) && CanonicalScalar(f.ty, v)
    ensures GoodVal(h, env, f, OptVal(o, value))
  {
  }

  lemma {:induction false} NumGood(h: Host, env: Env, f: Field, n: Num)
    requires GoodEnv(env) && GoodNum(h, n) && (f.ty.TNumber? || (f.ty.TEnum? && n.Int?))
    ensures GoodVal(h, env, f, Some(VNum(n)))
  {
  }

  lemma {:induction false} OptNumGood(h: Host, env: Env, f: Field, o: Opt<Num>)
    requires GoodEnv(env) && f.ty.TNumber? && f.optional && (o.Given? ==> GoodNum(h, o.x))
    ensures GoodVal(h, env, f, OptVal(o, NumValue))
  {
    OptGood(h, env, f, o, NumValue);
  }

  lemma {:induction false} OptHashGood(h: Host, env: Env, f: Field, o: Opt<Hash>)
    requires GoodEnv(env) && f.ty.TTextOrNumber? && f.optional && (o.Given? ==> GoodHash(h, o.x))
    ensures GoodVal(h, env, f, OptVal(o, HashValue))
  {
    hide IsText;
    OptGood(h, env, f, o, HashValue);
  }

  lemma {:induction false} OptTextGood(h: Host, env: Env, f: Field, o: Opt<Str>)
    requires GoodEnv(env) && f.ty.TString? && f.optional && (o.Given? ==> IsText(o.x))
    ensures GoodVal(h, env, f, OptVal(o, TextValue))
  {
    hide IsText;
    OptGood(h, env, f, o, TextValue);
  }

  lemma {:induction false} BytesGood(h: Host, env: Env, f: Field, b: seq<byte>)
    requires GoodEnv(env) && f.ty.TBinary?
    ensures GoodVal(h, env, f, Some(VBytes(b)))
  {
  }

  lemma {:induction false} SmallNum(h: Host, i: int)
    requires -TWO31 <= i < TWO31
    ensures GoodNum(h, Int(i))
  {
  }

  lemma {:induction false} MessageValsGood(h: Host, m: Message)
    requires GoodEnv(SnapshotEnv()) && GoodMessage(h, m)
    ensures GoodVals(h, SnapshotEnv(), MessageFields(), MessageVals(m))
  {
    hide GoodEnv, GoodNum, GoodHash, IsText, EncDoc, IsMessage, OptVal, GoodVal;
    var env, f := SnapshotEnv(), MessageFields();
    NumGood(h, env, f[0], m.id);
    SmallNum(h, m.state);
    NumGood(h, env, f[1], Int(m.state));
    OptHashGood(h, env, f[2], m.hash);
    SmallNum(h, if m.process.ExactlyOnce? then 0 else 1);
    NumGood(h, env, f[3], Int(if m.process.ExactlyOnce? then 0 else 1));
    OptNumGood(h, env, f[4], m.ttl);
    NumGood(h, env, f[5], m.delay);
    OptNumGood(h, env, f[6], m.priority);
    OptTextGood(h, env, f[7], m.lastError);
    NumGood(h, env, f[8], m.tries);
    BytesGood(h, env, f[9], m.v);
  }

  /** A message likewise: its union, its enums and its bytes included. */
  lemma {:induction false} MessageReadsBack(h: Host, m: Message)
    requires LawfulHost(h) && GoodMessage(h, m)
    ensures var env := SnapshotEnv();
            && GoodEnv(env) && HasType(env, TObject(MESSAGE), MessageValue(m))
            && ToDoc(env, MESSAGE, MessageValue(m)) == MessageDoc(m)
            && Restorable(h, env, MESSAGE, MessageDoc(m), MessageValue(m))
  {
    hide EncDoc, MessageDoc, Props, IsText, Restorable, MessageVals;
    NamesGood();
    MessageDocIs(m);
    MessageValsGood(h, m);
    ObjectReadsBack(h, SnapshotEnv(), MESSAGE, MessageVals(m));
  }

  // --- the objects the restorer works on

  function NumProp(props: map<seq<byte>, Value>, name: seq<byte>): Num {
    if name in props && props[name].VNum? then props[name].n else Int(0)
  }

  /** An int32 property, 0 for anything else. */
  function IntProp(props: map<seq<byte>, Value>, name: seq<byte>): int {
    var n := NumProp(props, name);
    if n.Int? then n.i else 0
  }

  function TextProp(props: map<seq<byte>, Value>, name: seq<byte>): Str {
    if name in props && props[name].VStr? then props[name].s else []
  }

  function BytesProp(props: map<seq<byte>, Value>, name: seq<byte>): seq<byte> {
    if name in props && props[name].VBytes? then props[name].bytes else []
  }

  function OptNumProp(props: map<seq<byte>, Value>, name: seq<byte>): Opt<Num> {
    if name !in props then Absent else if props[name].VNum? then Given(props[name].n) else Undefined
  }

  function OptTextProp(props: map<seq<byte>, Value>, name: seq<byte>): Opt<Str> {
    if name !in props then Absent else if props[name].VStr? then Given(props[name].s) else Undefined
  }

  function OptHashProp(props: map<seq<byte>, Value>, name: seq<byte>): Opt<Hash> {
    if name !in props then Absent
    else match props[name]
      case VStr(s) => Given(Text(s))
      case VNum(n) => Given(Number(n))
      case _ => Undefined
  }

  function EntryFrom(props: map<seq<byte>, Value>): Entry {
    var amount := IntProp(props, AMOUNT);
    Entry(NumProp(props, CURRENT_ID), TextProp(props, NAME), if amount >= 0 then amount else 0)
  }

  function MessageFrom(props: map<seq<byte>, Value>): Message {
    Message(NumProp(props, ID), IntProp(props, STATE), OptHashProp(props, HASH),
            if IntProp(props, PROCESS) == 0 then ExactlyOnce else AtLeastOnce, OptNumProp(props, TTL),
            NumProp(props, DELAY), OptNumProp(props, PRIORITY), OptTextProp(props, LAST_ERROR), NumProp(props, TRIES),
            BytesProp(props, V))
  }

  lemma {:induction false} EntryIs(x: Entry)
    ensures EntryFrom(EntryValue(x).props) == x
  {
    hide Props;
    NamesDistinct();
    var f, vals := EntryFields(), EntryVals(x);
    PropsAt(f, vals, 1);
    PropsAt(f, vals, 2);
    PropsAt(f, vals, 3);
  }

  lemma {:induction false} MessageIs(m: Message)
    ensures MessageFrom(MessageValue(m).props) == m
  {
    hide Props;
    NamesDistinct();
    var f, vals := MessageFields(), MessageVals(m);
    var props := Props(f, vals);
    forall k | 0 <= k < 10
      ensures f[k].name in props <==> vals[k].Some?
      ensures vals[k].Some? ==> props[f[k].name] == vals[k].value {
      PropsAt(f, vals, k);
    }
    assert f[0].name == ID && f[1].name == STATE && f[2].name == HASH && f[3].name == PROCESS && f[4].name == TTL;
    assert f[5].name == DELAY && f[6].name == PRIORITY && f[7].name == LAST_ERROR && f[8].name == TRIES
      && f[9].name == V;
  }
}
