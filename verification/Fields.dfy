/**
 * A decoded object field by field: what a property holds is a matter of the elements of its name alone, and where there
 * are none, of its type alone. The defaults, the treatment of null and the coercions are written out.
 */
module Fields {
  import opened Bytes
  import opened Wire
  import opened Utf8
  import opened Types
  import opened Meaning
  import opened Serializer
  import opened SlowPath

  // ---------------------------------------------------------------------------
  // The last element of a name counts
  // ---------------------------------------------------------------------------

  /** What the last element named like the field assigns, elements that are skipped not counting. */
  ghost function LastOf(h: Host, env: Env, f: seq<Field>, k: nat, d: Doc): Slot
    requires GoodEnv(env) && GoodFields(env, f) && k < |f| && WfFields(d) && FitsFields(env, f, d)
    decreases d
  {
    match d
    case Nil => Unset
    case Cons(name, w, rest) =>
      var later := LastOf(h, env, f, k, rest);
      if later.Set? || name != f[k].name then later
      else
        FindHere(env, f, k);
        match FieldOf(h, env, f[k], w)
        case Err(_) => Unset
        case Ok(s) => s
  }

  /** Some element cannot be read at its field. */
  ghost predicate Fails(h: Host, env: Env, f: seq<Field>, d: Doc)
    requires GoodEnv(env) && GoodFields(env, f) && WfFields(d) && FitsFields(env, f, d)
    decreases d
  {
    && d.Cons?
    && (|| (Find(f, d.name) < |f| && FieldOf(h, env, f[Find(f, d.name)], d.val).Err?)
        || Fails(h, env, f, d.rest))
  }

  lemma {:induction false} FoldIs(h: Host, env: Env, f: seq<Field>, slots: seq<Slot>, d: Doc)
    requires GoodEnv(env) && GoodFields(env, f) && |slots| == |f| && WfFields(d) && FitsFields(env, f, d)
    ensures Fold(h, env, f, slots, d).Err? <==> Fails(h, env, f, d)
    ensures var r := Fold(h, env, f, slots, d);
            r.Ok? ==> forall k :: 0 <= k < |f| ==>
                        var s := LastOf(h, env, f, k, d); r.v[k] == if s.Set? then s else slots[k]
    decreases d
  {
    hide FieldOf, WfVal, Fits;
    if d.Cons? {
      var j := Find(f, d.name);
      var next := StepOf(h, env, f, slots, d.name, d.val);
      if next.Ok? {
        FoldIs(h, env, f, next.v, d.rest);
        forall k | 0 <= k < |f| ensures f[k].name == d.name <==> j == k { FindHere(env, f, k); }
      }
    }
  }

  // ---------------------------------------------------------------------------
  // Missing properties
  // ---------------------------------------------------------------------------

  /** Types whose properties must be in the document. */
  predicate MustBeThere(ty: Ty) { ty.TObject? || ty.TDate? || ty.TBinary? || ty.TTextOrNumber? }

  /** What a required property holds that is not in the document; enums, arrays and nullable ones are left out. */
  function WhenMissing(ty: Ty): Option<Value> {
    match ty
    case TString => Some(VStr([]))
    case TMongoId => Some(VStr([]))
    case TUuid => Some(VStr([]))
    case TNumber => Some(VNum(Int(0)))
    case TBoolean => Some(VBool(false))
    case TBigInt(_) => Some(VBig(0))
    case TLiteral(lit) => Some(lit)
    case _ => None
  }

  function Property(m: map<seq<byte>, Value>, name: seq<byte>): Option<Value> {
    if name in m then Some(m[name]) else None
  }

  /** The property as it follows from the elements of its name. */
  function Expected(f: Field, last: Slot): Option<Value> {
    match last
    case Set(v) => Some(v)
    case Unset => if f.optional then None else WhenMissing(f.ty)
  }

  lemma {:induction false} InitialIs(f: Field)
    ensures var value := if f.optional then None else WhenMissing(f.ty);
            Initial(f) == match value case None => Unset case Some(v) => Set(v)
    ensures Needed(f.ty) <==> MustBeThere(f.ty)
    ensures MustBeThere(f.ty) ==> WhenMissing(f.ty) == None
  {
  }

  /** The field is left without a value it must have. */
  predicate Lacks(f: Field, s: Slot) { s.Unset? && !f.optional && MustBeThere(f.ty) }

  predicate SomeLacks(f: seq<Field>, slots: seq<Slot>)
    requires |slots| == |f|
  {
    exists k :: 0 <= k < |f| && Lacks(f[k], slots[k])
  }

  lemma {:induction false} LacksNext(f: seq<Field>, slots: seq<Slot>)
    requires |slots| == |f| > 0
    ensures var n := |f| - 1; SomeLacks(f, slots) <==> SomeLacks(f[..n], slots[..n]) || Lacks(f[n], slots[n])
  {
    var n := |f| - 1;
    if SomeLacks(f[..n], slots[..n]) {
      var k :| 0 <= k < n && Lacks(f[..n][k], slots[..n][k]);
      assert Lacks(f[k], slots[k]);
    }
    if SomeLacks(f, slots) && !Lacks(f[n], slots[n]) {
      var k :| 0 <= k < |f| && Lacks(f[k], slots[k]);
      assert Lacks(f[..n][k], slots[..n][k]);
    }
  }

  lemma {:induction false} BuildFails(f: seq<Field>, slots: seq<Slot>)
    requires |slots| == |f|
    ensures Build(f, slots).Err? <==> SomeLacks(f, slots)
    decreases |f|
  {
    if f != [] {
      var n := |f| - 1;
      BuildFails(f[..n], slots[..n]);
      InitialIs(f[n]);
      LacksNext(f, slots);
    }
  }

  lemma {:induction false} BuildNamed(f: seq<Field>, slots: seq<Slot>, name: seq<byte>)
    requires |slots| == |f| && Build(f, slots).Ok? && name in Build(f, slots).v
    ensures exists k :: 0 <= k < |f| && f[k].name == name
    decreases |f|
  {
    var n := |f| - 1;
    if name == f[n].name {
    } else {
      BuildNamed(f[..n], slots[..n], name);
      var k :| 0 <= k < n && f[..n][k].name == name;
      assert f[k].name == name;
    }
  }

  lemma {:induction false} BuildHolds(f: seq<Field>, slots: seq<Slot>, k: nat)
    requires |slots| == |f| && Build(f, slots).Ok? && k < |f|
    requires forall i, j :: 0 <= i < j < |f| ==> f[i].name != f[j].name
    ensures Property(Build(f, slots).v, f[k].name) == match slots[k] case Unset => None case Set(v) => Some(v)
    decreases |f|
  {
    var n := |f| - 1;
    if k < n {
      BuildHolds(f[..n], slots[..n], k);
    } else if f[n].name in Build(f[..n], slots[..n]).v {
      BuildNamed(f[..n], slots[..n], f[n].name);
      assert false;
    }
  }

  // ---------------------------------------------------------------------------
  // Whole objects
  // ---------------------------------------------------------------------------

  /** Some field is not in the document, or never assigned, that must have a value. */
  ghost predicate Incomplete(h: Host, env: Env, f: seq<Field>, d: Doc)
    requires GoodEnv(env) && GoodFields(env, f) && WfFields(d) && FitsFields(env, f, d)
  {
    exists k :: 0 <= k < |f| && Lacks(f[k], LastOf(h, env, f, k, d))
  }

  /** An object cannot be decoded exactly if an element cannot be read at its field, or a value is missing. */
  lemma {:induction false} DocFailsIff(h: Host, env: Env, id: nat, d: Doc)
    requires GoodEnv(env) && id < |env| && WfFields(d) && FitsDoc(env, id, d)
    ensures DocOf(h, env, id, d).Err? <==> Fails(h, env, env[id], d) || Incomplete(h, env, env[id], d)
  {
    hide Fails, LastOf, Fold, Build, MustBeThere, Initial;
    var f := env[id];
    FoldIs(h, env, f, Initials(f), d);
    var r := Fold(h, env, f, Initials(f), d);
    if r.Ok? {
      BuildFails(f, r.v);
      forall k | 0 <= k < |f| ensures Lacks(f[k], r.v[k]) <==> Lacks(f[k], LastOf(h, env, f, k, d)) {
        InitialIs(f[k]);
      }
    }
  }

  /** Each property of a decoded object is what its name and type say, and there are no others. */
  lemma {:induction false} DocIsFields(h: Host, env: Env, id: nat, d: Doc)
    requires GoodEnv(env) && id < |env| && WfFields(d) && FitsDoc(env, id, d) && DocOf(h, env, id, d).Ok?
    ensures DocOf(h, env, id, d).v.VObj?
    ensures var f, m := env[id], DocOf(h, env, id, d).v.props;
            && (forall k :: 0 <= k < |f| ==> Property(m, f[k].name) == Expected(f[k], LastOf(h, env, f, k, d)))
            && forall name :: name in m ==> exists k :: 0 <= k < |f| && f[k].name == name
  {
    hide LastOf, Fold, Build, MustBeThere, Initial, WhenMissing;
    var f := env[id];
    FoldIs(h, env, f, Initials(f), d);
    var slots := Fold(h, env, f, Initials(f), d).v;
    var m := DocOf(h, env, id, d).v.props;
    forall k | 0 <= k < |f| ensures Property(m, f[k].name) == Expected(f[k], LastOf(h, env, f, k, d)) {
      BuildHolds(f, slots, k);
      InitialIs(f[k]);
    }
    forall name | name in m ensures exists k :: 0 <= k < |f| && f[k].name == name { BuildNamed(f, slots, name); }
  }

  lemma {:induction false} NeverNamed(h: Host, env: Env, f: seq<Field>, k: nat, d: Doc)
    requires GoodEnv(env) && GoodFields(env, f) && k < |f| && WfFields(d) && FitsFields(env, f, d)
    requires f[k].name !in ElementNames(d)
    ensures LastOf(h, env, f, k, d) == Unset
    decreases d
  {
    hide FieldOf, Fits, WfVal;
    if d.Cons? {
      assert ElementNames(d)[0] == d.name && ElementNames(d)[1..] == ElementNames(d.rest);
      NeverNamed(h, env, f, k, d.rest);
    }
  }

  /**
   * A property whose name does not occur in the document. Required text and identifiers are "", numbers 0, booleans
   * false, bigints 0n, literals themselves; objects, dates, bytes and unions are an error; optional and nullable ones,
   * enums and arrays are absent.
   */
  lemma {:induction false} MissingField(h: Host, env: Env, id: nat, d: Doc, k: nat)
    requires GoodEnv(env) && id < |env| && WfFields(d) && FitsDoc(env, id, d) && k < |env[id]|
    requires env[id][k].name !in ElementNames(d)
    ensures var f := env[id][k];
            !f.optional && (f.ty.TObject? || f.ty.TDate? || f.ty.TBinary? || f.ty.TTextOrNumber?) ==>
              DocOf(h, env, id, d).Err?
    ensures var f, r := env[id][k], DocOf(h, env, id, d);
            r.Ok? ==>
              && r.v.VObj?
              && (f.optional || f.ty.TNullable? || f.ty.TEnum? || f.ty.TArray? ==> f.name !in r.v.props)
              && (!f.optional ==>
                    var p := Property(r.v.props, f.name);
                    && (f.ty.TString? || f.ty.TMongoId? || f.ty.TUuid? ==> p == Some(VStr([])))
                    && (f.ty.TNumber? ==> p == Some(VNum(Int(0))))
                    && (f.ty.TBoolean? ==> p == Some(VBool(false)))
                    && (f.ty.TBigInt? ==> p == Some(VBig(0)))
                    && (f.ty.TLiteral? ==> p == Some(f.ty.lit)))
  {
    hide DocOf, Fails, LastOf, ElementNames;
    var f := env[id];
    NeverNamed(h, env, f, k, d);
    DocFailsIff(h, env, id, d);
    assert Lacks(f[k], LastOf(h, env, f, k, d)) ==> Incomplete(h, env, f, d);
    if DocOf(h, env, id, d).Ok? { DocIsFields(h, env, id, d); }
  }

  // ---------------------------------------------------------------------------
  // Null and coercions
  // ---------------------------------------------------------------------------

  /** A property that is null or undefined in the document. */
  lemma {:induction false} NullField(h: Host, env: Env, f: Field, w: Wire)
    requires GoodEnv(env) && GoodTy(env, f.ty) && (w == WNull || w == WUndefined) && Fits(env, f.ty, w)
    ensures var r := FieldOf(h, env, f, w);
            && (f.ty.TNullable? ==> r == Ok(Set(VNull)))
            && (f.optional && !f.ty.TNullable? ==> r == Ok(Set(VUndef)))
            && (!f.optional ==>
                  && (f.ty.TString? ==> r == Ok(Set(VStr([]))))
                  && (f.ty.TNumber? ==> r == Ok(Set(VNum(Int(0)))))
                  && (f.ty.TBoolean? ==> r == Ok(Set(VBool(false))))
                  && (f.ty.TBigInt? ==> r == Ok(Set(VBig(0))))
                  && (f.ty.TLiteral? ==> r == Ok(Set(f.ty.lit)))
                  && (f.ty.TEnum? ==> r == Ok(Unset))
                  && (MustBeThere(f.ty) || f.ty.TUuid? || f.ty.TMongoId? || f.ty.TArray? ==> r.Err?))
  {
  }

  /** To text: booleans by name, null as "", identifiers in hexadecimal, numbers by the engine, nothing else. */
  lemma {:induction false} ToText(h: Host, w: Wire)
    ensures StringOf(h, WBool(true)) == Ok(VStr(Spell("true")))
    ensures StringOf(h, WBool(false)) == Ok(VStr(Spell("false")))
    ensures w.WNull? || w.WUndefined? ==> StringOf(h, w) == Ok(VStr([]))
    ensures w.WInt? ==> StringOf(h, w) == Ok(VStr(h.numToStr(Int(w.i))))
    ensures w.WLong? ==> StringOf(h, w) == Ok(VStr(h.bigToStr(w.long)))
    ensures StringOf(h, w).Err? <==>
            !(w.WString? || w.WBool? || w.WNull? || w.WUndefined? || w.WInt? || w.WDouble? || w.WLong? || w.WOid?)
  {
    assert TRUE_TEXT == Spell("true") && FALSE_TEXT == Spell("false");
  }

  /** To a number: never an error, NaN and everything that is not a number, a boolean or a text as 0. */
  lemma {:induction false} ToNumber(h: Host, w: Wire)
    ensures w.WInt? ==> NumberOf(h, w) == VNum(Int(w.i))
    ensures w.WDouble? ==>
              NumberOf(h, w) == if h.float64(w.bits).NaN? then VNum(Int(0)) else VNum(h.float64(w.bits))
    ensures w.WLong? ==> NumberOf(h, w) == VNum(h.bigToNum(w.long))
    ensures NumberOf(h, WBool(true)) == VNum(Int(1)) && NumberOf(h, WBool(false)) == VNum(Int(0))
    ensures w.WString? ==> NumberOf(h, w) == VNum(h.strToNum(Text(h.dec, w.utf8)))
    ensures !(w.WInt? || w.WDouble? || w.WLong? || w.WBool? || w.WString?) ==> NumberOf(h, w) == VNum(Int(0))
  {
  }

  /** To a boolean: false exactly of false, 0, -0, "" and everything without a truth value; NaN is true. */
  lemma {:induction false} ToBoolean(h: Host, w: Wire)
    ensures BooleanOf(h, w) == VBool(match w
                                     case WBool(b) => b
                                     case WInt(i) => !(i == 0)
                                     case WLong(i) => !(i == 0)
                                     case WDouble(bits) =>
                                       h.float64(bits) !in [Int(0), Dbl([0, 0, 0, 0, 0, 0, 0, 128])]
                                     case WString(utf8) => |Text(h.dec, utf8)| > 0
                                     case _ => false)
  {
  }

  /** To a bigint: what the engine cannot convert is an error; unsigned ones are not negative. */
  lemma {:induction false} ToBigInt(h: Host, form: BigForm, w: Wire)
    requires !w.WBinary? || form == Long
    ensures w.WLong? ==> BigOf(h, form, w) == Ok(VBig(if form.Unsigned? && w.long < 0 then 0 else w.long))
    ensures w.WInt? ==> BigOf(h, form, w) == Ok(VBig(if form.Unsigned? && w.i < 0 then 0 else w.i))
    ensures BigOf(h, form, WBool(true)) == Ok(VBig(1)) && BigOf(h, form, WBool(false)) == Ok(VBig(0))
    ensures w.WDouble? ==> (BigOf(h, form, w).Err? <==> h.truncToBig(h.float64(w.bits)).None?)
    ensures w.WString? ==> (BigOf(h, form, w).Err? <==> h.strToBig(Text(h.dec, w.utf8)).None?)
    ensures w.WString? && h.strToBig(Text(h.dec, w.utf8)).Some? ==>
              var i := h.strToBig(Text(h.dec, w.utf8)).value;
              BigOf(h, form, w) == Ok(VBig(if form.Unsigned? && i < 0 then 0 else i))
    ensures w.WDouble? && h.truncToBig(h.float64(w.bits)).Some? ==>
              var i := h.truncToBig(h.float64(w.bits)).value;
              BigOf(h, form, w) == Ok(VBig(if form.Unsigned? && i < 0 then 0 else i))
    ensures !(w.WLong? || w.WInt? || w.WBool? || w.WDouble? || w.WString?) ==> BigOf(h, form, w) == Ok(VBig(0))
  {
  }

  /** Bigints stored as bytes: at most 16777216 of them; the first one of a signed form is 255 for negative numbers. */
  lemma {:induction false} StoredBigInt(h: Host, form: BigForm, subtype: byte, data: seq<byte>)
    requires form != Long
    ensures var r := BigOf(h, form, WBinary(subtype, data));
            && (r.Err? <==> |data| > 16777216)
            && (data == [] ==> r == Ok(VBig(0)))
            && (r.Ok? && data != [] && form.Unsigned? ==> r == Ok(VBig(BigEndian(data))))
            && (r.Ok? && data != [] && form.Signed? ==>
                  r == Ok(VBig(if data[0] == 255 then -(BigEndian(data[1..]) as int) else BigEndian(data[1..]))))
  {
  }

  /** The first byte counts most. */
  lemma {:induction false} BigEndianFirst(x: byte, b: seq<byte>)
    ensures BigEndian([x] + b) == x * Pow256(|b|) + BigEndian(b)
  {
    var s := [x] + b;
    if b == [] {
      assert s[..0] == [] && BigEndian([]) == 0 && BigEndian(s) == BigEndian(s[..0]) * 256 + x;
    } else {
      var t := b[..|b| - 1];
      BigEndianFirst(x, t);
      assert s[..|s| - 1] == [x] + t;
      assert x * Pow256(|t|) * 256 == x * Pow256(|b|);
    }
  }

  /** To a date: whole numbers are milliseconds, everything that is no date, number or text is the epoch. */
  lemma {:induction false} ToDate(h: Host, w: Wire)
    ensures w.WDate? ==> DateOf(h, w) == VDate(w.ms)
    ensures w.WLong? ==> DateOf(h, w) == VDate(w.long)
    ensures w.WInt? ==> DateOf(h, w) == VDate(w.i)
    ensures w.WDouble? ==> DateOf(h, w) == h.numToDate(h.float64(w.bits))
    ensures w.WString? ==> DateOf(h, w) == h.strToDate(Text(h.dec, w.utf8))
    ensures !(w.WDate? || w.WLong? || w.WInt? || w.WDouble? || w.WString?) ==> DateOf(h, w) == VDate(0)
  {
  }

  predicate HexChar(c: u16) { c in Spell("0123456789abcdefABCDEF") }

  /** Identifiers given as text: 24 hexadecimal digits, or 32 in five groups with dashes between them. */
  lemma {:induction false} ToIdentifier(h: Host, w: Wire)
    requires w.WString?
    ensures var s := Text(h.dec, w.utf8);
            MongoIdOf(h, w) ==
            if |s| == 24 && (forall i :: 0 <= i < 24 ==> HexChar(s[i])) then Ok(VStr(s)) else Err(Conversion)
    ensures var s := Text(h.dec, w.utf8);
            UuidOf(h, w) ==
            if |s| == 36 && (forall i :: 0 <= i < 36 ==> if i in {8, 13, 18, 23} then s[i] == 45 else HexChar(s[i]))
            then Ok(VStr(s)) else Err(Conversion)
  {
    forall c: u16 ensures HexChar(c) <==> IsHexChar(c) { HexCharIs(c); }
  }

  lemma {:induction false} HexCharIs(c: u16)
    ensures HexChar(c) <==> IsHexChar(c)
  {
    var all := Spell("0123456789abcdefABCDEF");
    if IsHexChar(c) {
      assert all[if c < 58 then c - 48 else if c < 71 then c - 49 else c - 87] == c;
    }
  }
}
