/**
 * What the untyped parser makes of a document tree, that it does so on the bytes, and that parsing what the untyped
 * serializer wrote gives the value back up to an explicit normalisation.
 */
module UntypedRoundTrip {
  import opened Bytes
  import opened Wire
  import opened Utf8
  import opened Types
  import opened Readers
  import opened Names
  import opened Serializer
  import opened Untyped
  import opened Parser
  import opened RoundTrip

  // ---------------------------------------------------------------------------
  // The parser on trees
  // ---------------------------------------------------------------------------

  function KeyText(e: Engine, name: seq<byte>): Str { Text(e.h.dec, name) }

  function KeyTexts(e: Engine, d: Doc): seq<Str> {
    if d.Nil? then [] else [KeyText(e, d.name)] + KeyTexts(e, d.rest)
  }

  /** The value of the last element of that name. */
  function LastVal(e: Engine, d: Doc, key: Str): (w: Wire)
    requires key in KeyTexts(e, d)
    ensures WeightVal(w) < Weight(d)
  {
    if key in KeyTexts(e, d.rest) then LastVal(e, d.rest, key) else d.val
  }

  /** UUID binaries become text, other binaries stay bytes. */
  function BinaryAny(subtype: byte, data: seq<byte>): Any {
    if subtype == 4 && |data| == 16 then AStr(UuidText(data)) else ABinary(data)
  }

  function AnyLeaf(e: Engine, w: Wire): Result<Any> {
    match w
    case WDouble(bits) => Ok(ANum(NanToZero(e.h.float64(bits))))
    case WString(utf8) => Ok(AStr(Text(e.h.dec, utf8)))
    case WBinary(st, data) => Ok(BinaryAny(st, data))
    case WUndefined => Ok(AUndef)
    case WOid(oid) => Ok(AStr(Hex(oid)))
    case WBool(b) => Ok(ABool(b))
    case WDate(ms) => Ok(ADate(ms))
    case WNull => Ok(ANull)
    case WRegex(p, f) => e.regexp(Text(e.h.dec, p), GlobalFlags(Text(e.h.dec, f)))
    case WInt(i) => Ok(ANum(Int(i)))
    case WTimestamp(t) => Ok(ABig(t))
    case WLong(i) => Ok(ABig(i))
    case _ => Err(UnknownType)
  }

  function AnyVal(e: Engine, w: Wire): Result<Any>
    decreases WeightVal(w), 2, 0
  {
    match w
    case WObject(d) => AnyKeys(e, d, 0, PNil)
    case WArray(d) => AnyElems(e, d, INil)
    case _ => AnyLeaf(e, w)
  }

  /** One assignment for each name in order, with the value of its last element; `__proto__` is skipped. */
  function AnyKeys(e: Engine, d: Doc, i: nat, acc: Props): Result<Any>
    requires i <= |KeyTexts(e, d)|
    decreases Weight(d), 1, |KeyTexts(e, d)| - i
  {
    if i == |KeyTexts(e, d)| then Ok(AObj(acc))
    else
      var key := KeyTexts(e, d)[i];
      if key == PROTO then AnyKeys(e, d, i + 1, acc)
      else
        match AnyVal(e, LastVal(e, d, key))
        case Err(x) => Err(x)
        case Ok(v) => AnyKeys(e, d, i + 1, Put(acc, key, v))
  }

  function AnyElems(e: Engine, d: Doc, acc: Items): Result<Any>
    decreases Weight(d), 1, 0
  {
    match d
    case Nil => Ok(AArr(acc))
    case Cons(_, w, rest) =>
      match AnyVal(e, w)
      case Err(x) => Err(x)
      case Ok(v) => AnyElems(e, rest, Push(acc, v))
  }

  // ---------------------------------------------------------------------------
  // The parser on bytes computes it
  // ---------------------------------------------------------------------------

  /** The fields the scan records for a document whose first element is at `o`. */
  function ScanOf(e: Engine, o: nat, d: Doc, fs: Fields): Fields
    decreases d
  {
    match d
    case Nil => fs
    case Cons(name, w, rest) =>
      var p := o + 2 + |name|;
      var key := KeyText(e, name);
      ScanOf(e, p + |EncVal(w)|, rest, Fields(fs.entries[key := Entry(Tag(w), p)], fs.keys + [key]))
  }

  lemma {:induction false} CStringExact(e: Engine, buf: seq<byte>, o: nat, name: seq<byte>)
    requires NulFree(name) && Placed(buf, o, name + [0])
    ensures CString(e, buf, o) == Ok((KeyText(e, name), o + |name| + 1))
  {
    NulFromPlaced(buf, o, name);
    PlacedAppend(buf, o, name, [0]);
  }

  lemma {:induction false} ScanStep(e: Engine, buf: seq<byte>, o: nat, end: int, fs: Fields, name: seq<byte>, w: Wire)
    requires o < end < |buf| && buf[o] == Tag(w) && NulFree(name) && WfVal(w)
    requires Placed(buf, o + 1, name + [0]) && Placed(buf, o + 2 + |name|, EncVal(w))
    ensures var p := o + 2 + |name|;
            Scan(e, buf, o, end, fs) ==
            Scan(e, buf, p + |EncVal(w)|, end,
                 Fields(fs.entries[KeyText(e, name) := Entry(Tag(w), p)], fs.keys + [KeyText(e, name)]))
  {
    var p, key := o + 2 + |name|, KeyText(e, name);
    var next := Fields(fs.entries[key := Entry(Tag(w), p)], fs.keys + [key]);
    hide SkipValue, CString, EncVal, WfVal, Placed, NulFree;
    CStringExact(e, buf, o + 1, name);
    SkipValueExact(buf, p, w);
    assert ScanPast(e, buf, p, Tag(w), end, next) == Scan(e, buf, p + |EncVal(w)|, end, next);
  }

  lemma {:induction false} ScanExact(e: Engine, buf: seq<byte>, o: nat, end: int, d: Doc, fs: Fields)
    requires AtFields(buf, o, end, d)
    ensures end < |buf| && Scan(e, buf, o, end, fs) == Ok(ScanOf(e, o, d, fs))
    decreases d
  {
    hide SkipValue, CString, EncVal, WfVal, EncFields, WfFields, NulFree, Tag, Weight;
    Ended(buf, o, end, d);
    if d.Cons? {
      Element(buf, o, end, d);
      var p := o + 2 + |d.name|;
      var key := KeyText(e, d.name);
      ScanStep(e, buf, o, end, fs, d.name, d.val);
      ScanExact(e, buf, p + |EncVal(d.val)|, end, d.rest,
                Fields(fs.entries[key := Entry(Tag(d.val), p)], fs.keys + [key]));
    }
  }

  lemma {:induction false} ScanKeys(e: Engine, o: nat, d: Doc, fs: Fields)
    ensures ScanOf(e, o, d, fs).keys == fs.keys + KeyTexts(e, d)
    decreases d
  {
    if d.Cons? {
      var p := o + 2 + |d.name|;
      var key := KeyText(e, d.name);
      ScanKeys(e, p + |EncVal(d.val)|, d.rest, Fields(fs.entries[key := Entry(Tag(d.val), p)], fs.keys + [key]));
      assert fs.keys + [key] + KeyTexts(e, d.rest) == fs.keys + ([key] + KeyTexts(e, d.rest));
    }
  }

  ghost predicate ValueAt(buf: seq<byte>, x: Entry, w: Wire) {
    WfVal(w) && x.tag == Tag(w) && Placed(buf, x.offset, EncVal(w))
  }

  /** The recorded field of a name is its last element; names that do not occur keep what was recorded before. */
  lemma {:induction false} ScanEntry(e: Engine, buf: seq<byte>, o: nat, end: int, d: Doc, fs: Fields, key: Str)
    requires AtFields(buf, o, end, d)
    ensures var r := ScanOf(e, o, d, fs);
            if key in KeyTexts(e, d) then key in r.entries && ValueAt(buf, r.entries[key], LastVal(e, d, key))
            else (key in r.entries <==> key in fs.entries) && (key in r.entries ==> r.entries[key] == fs.entries[key])
    decreases d
  {
    hide LeBytes, ReadLe, NulFrom;
    if d.Cons? {
      FieldPlaced(buf, o, d);
      var p := o + 2 + |d.name|;
      var k := KeyText(e, d.name);
      ScanEntry(e, buf, p + |EncVal(d.val)|, end, d.rest,
                Fields(fs.entries[k := Entry(Tag(d.val), p)], fs.keys + [k]), key);
    }
  }

  lemma {:induction false} FramingExact(buf: seq<byte>, o: nat, d: Doc)
    requires WfDoc(d) && Placed(buf, o, EncDoc(d))
    ensures Framing(buf, o) == Ok(o + |EncDoc(d)| - 1)
    ensures AtFields(buf, o + 4, o + |EncDoc(d)| - 1, d)
  {
    OpenDoc(buf, o, d);
  }

  lemma {:induction false} LeafExactly(e: Engine, buf: seq<byte>, o: nat, w: Wire)
    requires !w.WObject? && !w.WArray? && WfVal(w) && Placed(buf, o, EncVal(w))
    ensures ParseLeaf(e, buf, o, Tag(w)) == AnyLeaf(e, w)
  {
    if w.WBinary? {
      BinaryExactly(buf, o, w);
    } else if w.WRegex? {
      RegExpExactly(e, buf, o, w.pattern, w.options);
    } else {
      See(e.h, buf, o, w);
      SeeInt(buf, o, w);
    }
  }

  lemma {:induction false} BinaryExactly(buf: seq<byte>, o: nat, w: Wire)
    requires w.WBinary? && WfVal(w) && Placed(buf, o, EncVal(w))
    ensures ParseBinary(buf, o) == Ok(BinaryAny(w.subtype, w.data))
  {
    SeeBinary(buf, o, w);
    assert EncVal(w) == Le32(|w.data|) + [w.subtype] + w.data;
    PlacedAppend(buf, o, Le32(|w.data|) + [w.subtype], w.data);
  }

  lemma {:induction false} RegExpExactly(e: Engine, buf: seq<byte>, o: nat, p: seq<byte>, f: seq<byte>)
    requires NulFree(p) && NulFree(f) && Placed(buf, o, p + [0] + f + [0])
    ensures ParseRegExp(e, buf, o) == e.regexp(KeyText(e, p), GlobalFlags(KeyText(e, f)))
  {
    assert p + [0] + f + [0] == (p + [0]) + (f + [0]);
    PlacedAppend(buf, o, p + [0], f + [0]);
    CStringExact(e, buf, o, p);
    CStringExact(e, buf, o + |p| + 1, f);
  }

  /** On well-formed bytes the untyped parser computes AnyVal of the tree, errors included. */
  lemma {:induction false} ParseExact(e: Engine, buf: seq<byte>, o: nat, w: Wire)
    requires WfVal(w) && Placed(buf, o, EncVal(w))
    ensures ParseValue(e, buf, o, Tag(w)) == AnyVal(e, w)
    decreases WeightVal(w), 2, 0
  {
    match w
    case WObject(d) => ParseObjectExact(e, buf, o, d);
    case WArray(d) => ParseArrayExact(e, buf, o, d);
    case _ => LeafExactly(e, buf, o, w);
  }

  lemma {:induction false} FieldsExact(e: Engine, buf: seq<byte>, o: nat, d: Doc)
    requires WfDoc(d) && Placed(buf, o, EncDoc(d))
    ensures ParseFields(e, buf, o) == Ok(ScanOf(e, o + 4, d, Fields(map[], [])))
  {
    hide SkipValue, NulFrom, CString, LeBytes, ReadLe, Framing;
    FramingExact(buf, o, d);
    ScanExact(e, buf, o + 4, o + |EncDoc(d)| - 1, d, Fields(map[], []));
  }

  lemma {:induction false} ParseObjectExact(e: Engine, buf: seq<byte>, o: nat, d: Doc)
    requires WfDoc(d) && Placed(buf, o, EncDoc(d))
    ensures ParseObject(e, buf, o) == AnyKeys(e, d, 0, PNil)
    decreases Weight(d), 3, 0
  {
    var fs := ScanOf(e, o + 4, d, Fields(map[], []));
    FieldsExact(e, buf, o, d);
    OpenDoc(buf, o, d);
    ScanKeys(e, o + 4, d, Fields(map[], []));
    assert [] + KeyTexts(e, d) == KeyTexts(e, d);
    ParseKeysExact(e, buf, o, d, fs, 0, PNil);
  }

  lemma {:induction false} ParseKeysExact(e: Engine, buf: seq<byte>, o: nat, d: Doc, fs: Fields, i: nat, acc: Props)
    requires WfDoc(d) && Placed(buf, o, EncDoc(d)) && AtFields(buf, o + 4, o + |EncDoc(d)| - 1, d)
    requires Beyond(fs, o, |buf|) && o < |buf| && fs == ScanOf(e, o + 4, d, Fields(map[], []))
    requires fs.keys == KeyTexts(e, d) && i <= |fs.keys|
    ensures ParseKeys(e, buf, o, fs, i, acc) == AnyKeys(e, d, i, acc)
    decreases Weight(d), 1, |fs.keys| - i
  {
    if i < |fs.keys| {
      var key := fs.keys[i];
      if key == PROTO {
        ParseKeysExact(e, buf, o, d, fs, i + 1, acc);
      } else {
        ScanEntry(e, buf, o + 4, o + |EncDoc(d)| - 1, d, Fields(map[], []), key);
        ParseExact(e, buf, fs.entries[key].offset, LastVal(e, d, key));
        var x := AnyVal(e, LastVal(e, d, key));
        if x.Ok? { ParseKeysExact(e, buf, o, d, fs, i + 1, Put(acc, key, x.v)); }
      }
    }
  }

  /** The element entries of an array. */
  function ElemEntries(o: nat, d: Doc): seq<Entry>
    decreases d
  {
    match d
    case Nil => []
    case Cons(name, w, rest) =>
      var p := o + 2 + |name|;
      [Entry(Tag(w), p)] + ElemEntries(p + |EncVal(w)|, rest)
  }

  lemma {:induction false} ScanElemsStep(buf: seq<byte>, o: nat, end: int, acc: seq<Entry>, name: seq<byte>, w: Wire)
    requires o < end < |buf| && buf[o] == Tag(w) && NulFree(name) && WfVal(w)
    requires Placed(buf, o + 1, name + [0]) && Placed(buf, o + 2 + |name|, EncVal(w))
    ensures var p := o + 2 + |name|;
            ScanElems(buf, o, end, acc) == ScanElems(buf, p + |EncVal(w)|, end, acc + [Entry(Tag(w), p)])
  {
    var p := o + 2 + |name|;
    var next := acc + [Entry(Tag(w), p)];
    hide SkipValue, NulFrom, PastNul, EncVal, WfVal, Placed, NulFree, Tag, Weight, WeightVal, ReadLe, ElemEntries,
      EncFields;
    NulFromPlaced(buf, o + 1, name);
    SkipValueExact(buf, p, w);
    assert ScanElems(buf, o, end, acc) == ScanElemsPast(buf, p, Tag(w), end, next);
    assert ScanElemsPast(buf, p, Tag(w), end, next) == ScanElems(buf, p + |EncVal(w)|, end, next);
  }

  lemma {:induction false} ScanElemsExact(buf: seq<byte>, o: nat, end: int, d: Doc, acc: seq<Entry>)
    requires AtFields(buf, o, end, d)
    ensures end < |buf| && ScanElems(buf, o, end, acc) == Ok(acc + ElemEntries(o, d))
    decreases d
  {
    hide SkipValue, NulFrom, EncVal, WfVal, EncFields, WfFields, NulFree, Tag, Weight;
    Ended(buf, o, end, d);
    if d.Cons? {
      Element(buf, o, end, d);
      var p := o + 2 + |d.name|;
      var x := Entry(Tag(d.val), p);
      ScanElemsStep(buf, o, end, acc, d.name, d.val);
      ScanElemsExact(buf, p + |EncVal(d.val)|, end, d.rest, acc + [x]);
      assert acc + [x] + ElemEntries(p + |EncVal(d.val)|, d.rest) ==
             acc + ([x] + ElemEntries(p + |EncVal(d.val)|, d.rest));
    } else {
      assert acc + [] == acc;
    }
  }

  lemma {:induction false} ElemsExactly(buf: seq<byte>, o: nat, d: Doc)
    requires WfDoc(d) && Placed(buf, o, EncDoc(d))
    ensures ParseElems(buf, o) == Ok(ElemEntries(o + 4, d))
  {
    hide SkipValue, NulFrom, CString, LeBytes, ReadLe, Framing;
    FramingExact(buf, o, d);
    ScanElemsExact(buf, o + 4, o + |EncDoc(d)| - 1, d, []);
    assert [] + ElemEntries(o + 4, d) == ElemEntries(o + 4, d);
  }

  lemma {:induction false} ParseArrayExact(e: Engine, buf: seq<byte>, o: nat, d: Doc)
    requires WfDoc(d) && Placed(buf, o, EncDoc(d))
    ensures ParseArray(e, buf, o) == AnyElems(e, d, INil)
    decreases Weight(d), 3, 0
  {
    var es := ElemEntries(o + 4, d);
    ElemsExactly(buf, o, d);
    OpenDoc(buf, o, d);
    assert es[0..] == es;
    ParseItemsExact(e, buf, o, es, 0, INil, o + 4, o + |EncDoc(d)| - 1, d);
  }

  lemma {:induction false} ParseItemsExact(e: Engine, buf: seq<byte>, o: nat, es: seq<Entry>, i: nat, acc: Items,
                                           at: nat, end: int, rest: Doc)
    requires AllBeyond(es, o, |buf|) && o < |buf| && i <= |es|
    requires AtFields(buf, at, end, rest) && es[i..] == ElemEntries(at, rest)
    ensures ParseItems(e, buf, o, es, i, acc) == AnyElems(e, rest, acc)
    decreases Weight(rest), 1, 0
  {
    hide SkipValue, NulFrom, LeBytes, ReadLe, ParseLeaf;
    if rest.Cons? {
      FieldPlaced(buf, at, rest);
      var p := at + 2 + |rest.name|;
      assert es[i] == es[i..][0] == Entry(Tag(rest.val), p);
      assert es[i + 1..] == es[i..][1..] == ElemEntries(p + |EncVal(rest.val)|, rest.rest);
      ParseExact(e, buf, p, rest.val);
      var x := AnyVal(e, rest.val);
      if x.Ok? { ParseItemsExact(e, buf, o, es, i + 1, Push(acc, x.v), p + |EncVal(rest.val)|, end, rest.rest); }
    }
  }

  // ---------------------------------------------------------------------------
  // Values that survive, and their normal form
  // ---------------------------------------------------------------------------

  ghost predicate LawfulEngine(e: Engine) { LawfulHost(e.h) && LawfulEncoder(e.encode) }

  function FlagText(ignoreCase: bool, global: bool, multiline: bool): Str {
    (if ignoreCase then [105] else []) + (if global then [103] else []) + (if multiline then [109] else [])
  }

  function PropKeys(ps: Props): set<Str> { if ps.PNil? then {} else {ps.key} + PropKeys(ps.rest) }

  /** Well-formed text without a byte order mark, NUL-free keys, no key twice, valid dates and expressions. */
  ghost predicate StorableAny(e: Engine, v: Any) {
    match v
    case AInvalidDate => false
    case ANum(n) => IsNum(n) && (n.Dbl? ==> e.h.float64(n.bits) == n)
    case AStr(s) => IsText(s)
    case ARegExp(source, i, g, m) => IsText(source) && 0 !in source && e.regexp(source, FlagText(i, g, m)) == Ok(v)
    case AArr(items) => StorableItems(e, items)
    case AObj(props) => StorableProps(e, props)
    case _ => true
  }

  ghost predicate StorableItems(e: Engine, xs: Items) {
    xs.ICons? ==> StorableAny(e, xs.head) && StorableItems(e, xs.tail)
  }

  ghost predicate StorableProps(e: Engine, ps: Props) {
    ps.PCons? ==>
      && IsText(ps.key) && 0 !in ps.key && ps.key !in PropKeys(ps.rest)
      && StorableAny(e, ps.val) && StorableProps(e, ps.rest)
  }

  /** Undefined is dropped, NaN and -0 become 0, `__proto__` disappears. */
  function NormalAny(v: Any): Any {
    match v
    case ANum(n) => ANum(NormalNum(n))
    case ABig(i) => ABig(Wrap64(i))
    case ADate(ms) => ADate(Wrap64(ms))
    case AArr(items) => AArr(NormalItems(items))
    case AObj(props) => AObj(NormalProps(props))
    case _ => v
  }

  function NormalItems(xs: Items): Items {
    match xs
    case INil => INil
    case ICons(x, rest) => if x.AUndef? then NormalItems(rest) else ICons(NormalAny(x), NormalItems(rest))
  }

  function NormalProps(ps: Props): Props {
    match ps
    case PNil => PNil
    case PCons(key, x, rest) =>
      if x.AUndef? || key == PROTO then NormalProps(rest) else PCons(key, NormalAny(x), NormalProps(rest))
  }

  // --- the document is well formed

  lemma {:induction false} NulFreeOf(b: seq<byte>)
    requires 0 !in b
    ensures NulFree(b)
  {
    if b != [] { NulFreeOf(b[1..]); }
  }

  lemma {:induction false} TextNulFree(s: Str)
    requires WellFormed(s) && 0 !in s
    ensures NulFree(Encode(s))
  {
    EncodeNul(s);
    NulFreeOf(Encode(s));
  }

  lemma {:induction false} AnyWf(e: Engine, v: Any)
    requires StorableAny(e, v) && |EncVal(AnyWire(e, v))| < TWO31
    ensures WfVal(AnyWire(e, v))
  {
    match v
    case ARegExp(source, i, g, m) =>
      TextNulFree(source);
      NulFreeOf(RegExpOptions(i, g, m));
    case AArr(items) => ItemsWf(e, items, 0);
    case AObj(props) => PropsWf(e, props);
    case _ =>
  }

  lemma {:induction false} ItemsWf(e: Engine, xs: Items, i: nat)
    requires StorableItems(e, xs) && |EncFields(ItemsDoc(e, xs, i))| < TWO31
    ensures WfFields(ItemsDoc(e, xs, i))
  {
    if xs.ICons? {
      ItemsWf(e, xs.tail, i + 1);
      DigitsNulFree(i);
      if !xs.head.AUndef? { AnyWf(e, xs.head); }
    }
  }

  lemma {:induction false} PropsWf(e: Engine, ps: Props)
    requires StorableProps(e, ps) && |EncFields(PropsDoc(e, ps))| < TWO31
    ensures WfFields(PropsDoc(e, ps))
  {
    if ps.PCons? {
      PropsWf(e, ps.rest);
      TextNulFree(ps.key);
      if !ps.val.AUndef? { AnyWf(e, ps.val); }
    }
  }

  // --- reading back

  lemma {:induction false} OptionsReadBack(e: Engine, i: bool, g: bool, m: bool)
    ensures GlobalFlags(Text(e.h.dec, RegExpOptions(i, g, m))) == FlagText(i, g, m)
  {
    var a: Str := if i then [FLAG_I] else [];
    var b: Str := if g then [FLAG_S] else [];
    var c: Str := if m then [FLAG_M] else [];
    assert RegExpOptions(i, g, m) == a + b + c && Text(e.h.dec, a + b + c) == a + b + c;
    GlobalJoin(a + b, c);
    GlobalJoin(a, b);
    assert GlobalFlags([FLAG_I]) == [105] && GlobalFlags([FLAG_S]) == [103] && GlobalFlags([FLAG_M]) == [109];
  }

  lemma {:induction false} GlobalJoin(s: Str, t: Str)
    ensures GlobalFlags(s + t) == GlobalFlags(s) + GlobalFlags(t)
  {
    if s == [] {
      assert s + t == t;
    } else {
      GlobalJoin(s[1..], t);
      assert (s + t)[1..] == s[1..] + t;
    }
  }

  lemma {:induction false} LeafReadsBack(e: Engine, v: Any)
    requires LawfulEngine(e) && StorableAny(e, v) && !v.AArr? && !v.AObj?
    ensures AnyLeaf(e, AnyWire(e, v)) == Ok(NormalAny(v))
  {
    hide Encode, Text, RfcEncode, Scalars, RfcDecode;
    match v
    case AStr(s) =>
      EncodeIsRfc(s);
      TextOfEncoded(e.h.dec, s);
    case ARegExp(source, i, g, m) =>
      TextOfEncoded(e.h.dec, source);
      OptionsReadBack(e, i, g, m);
    case _ =>
  }

  /** Parsing the document of a value gives its normal form. */
  lemma {:induction false} AnyReadsBack(e: Engine, v: Any)
    requires LawfulEngine(e) && StorableAny(e, v)
    ensures AnyVal(e, AnyWire(e, v)) == Ok(NormalAny(v))
    decreases v, 1
  {
    match v
    case AArr(items) => ItemsReadBack(e, items, 0, INil);
    case AObj(props) =>
      AllFound(e, props);
      KeyTextsAre(e, props);
      PropsReadBack(e, PropsDoc(e, props), props, 0, PNil);
    case _ => LeafReadsBack(e, v);
  }

  function Follow(xs: Items, ys: Items): Items {
    match xs case INil => ys case ICons(x, rest) => ICons(x, Follow(rest, ys))
  }

  lemma {:induction false} PushFollow(xs: Items, v: Any, ys: Items)
    ensures Follow(Push(xs, v), ys) == Follow(xs, ICons(v, ys))
    ensures Follow(xs, INil) == xs
  {
    if xs.ICons? { PushFollow(xs.tail, v, ys); }
  }

  lemma {:induction false} ItemsReadBack(e: Engine, xs: Items, i: nat, acc: Items)
    requires LawfulEngine(e) && StorableItems(e, xs)
    ensures AnyElems(e, ItemsDoc(e, xs, i), acc) == Ok(AArr(Follow(acc, NormalItems(xs))))
    decreases xs, 1
  {
    match xs
    case INil => PushFollow(acc, AUndef, INil);
    case ICons(x, rest) =>
      if x.AUndef? {
        ItemsReadBack(e, rest, i + 1, acc);
      } else {
        AnyReadsBack(e, x);
        ItemsReadBack(e, rest, i + 1, Push(acc, NormalAny(x)));
        PushFollow(acc, NormalAny(x), NormalItems(rest));
      }
  }

  function Joined(ps: Props, qs: Props): Props {
    match ps case PNil => qs case PCons(k, x, rest) => PCons(k, x, Joined(rest, qs))
  }

  lemma {:induction false} PutJoined(ps: Props, key: Str, v: Any, qs: Props)
    requires key !in PropKeys(ps)
    ensures Joined(Put(ps, key, v), qs) == Joined(ps, PCons(key, v, qs))
    ensures PropKeys(Put(ps, key, v)) == PropKeys(ps) + {key}
  {
    if ps.PCons? { PutJoined(ps.rest, key, v, qs); }
  }

  lemma {:induction false} JoinedNil(ps: Props)
    ensures Joined(ps, PNil) == ps
  {
    if ps.PCons? { JoinedNil(ps.rest); }
  }

  function WrittenKeys(ps: Props): seq<Str> {
    match ps
    case PNil => []
    case PCons(key, x, rest) => if x.AUndef? then WrittenKeys(rest) else [key] + WrittenKeys(rest)
  }

  lemma {:induction false} KeyTextsAre(e: Engine, ps: Props)
    requires LawfulEngine(e) && StorableProps(e, ps)
    ensures KeyTexts(e, PropsDoc(e, ps)) == WrittenKeys(ps)
    ensures forall key :: key in WrittenKeys(ps) ==> key in PropKeys(ps)
  {
    if ps.PCons? {
      KeyTextsAre(e, ps.rest);
      TextOfEncoded(e.h.dec, ps.key);
    }
  }

  /** Every written property of `ps` is found in the document under its key. */
  ghost predicate Found(e: Engine, d: Doc, ps: Props) {
    ps.PCons? ==>
      && (ps.val.AUndef? || (ps.key in KeyTexts(e, d) && LastVal(e, d, ps.key) == AnyWire(e, ps.val)))
      && Found(e, d, ps.rest)
  }

  lemma {:induction false} FoundBehind(e: Engine, d: Doc, ps: Props)
    requires d.Cons? && Found(e, d.rest, ps)
    ensures Found(e, d, ps)
  {
    if ps.PCons? { FoundBehind(e, d, ps.rest); }
  }

  lemma {:induction false} AllFound(e: Engine, ps: Props)
    requires LawfulEngine(e) && StorableProps(e, ps)
    ensures Found(e, PropsDoc(e, ps), ps)
  {
    if ps.PCons? {
      var d := PropsDoc(e, ps);
      AllFound(e, ps.rest);
      if !ps.val.AUndef? {
        TextOfEncoded(e.h.dec, ps.key);
        KeyTextsAre(e, ps.rest);
        FoundBehind(e, d, ps.rest);
      }
    }
  }

  lemma {:induction false} PropsReadBack(e: Engine, d: Doc, ps: Props, i: nat, acc: Props)
    requires LawfulEngine(e) && StorableProps(e, ps) && Found(e, d, ps)
    requires i <= |KeyTexts(e, d)| && KeyTexts(e, d)[i..] == WrittenKeys(ps)
    requires PropKeys(acc) !! PropKeys(ps)
    ensures AnyKeys(e, d, i, acc) == Ok(AObj(Joined(acc, NormalProps(ps))))
    decreases ps, 1
  {
    match ps
    case PNil => JoinedNil(acc);
    case PCons(key, x, rest) =>
      if x.AUndef? {
        PropsReadBack(e, d, rest, i, acc);
      } else {
        assert KeyTexts(e, d)[i] == KeyTexts(e, d)[i..][0] == key;
        assert KeyTexts(e, d)[i + 1..] == KeyTexts(e, d)[i..][1..] == WrittenKeys(rest);
        if key == PROTO {
          PropsReadBack(e, d, rest, i + 1, acc);
        } else {
          AnyReadsBack(e, x);
          PutJoined(acc, key, NormalAny(x), NormalProps(rest));
          PropsReadBack(e, d, rest, i + 1, Put(acc, key, NormalAny(x)));
        }
      }
  }

  /** Parsing the bytes written for an object, or for an array, gives its normal form. */
  lemma {:induction false} ParsesBack(e: Engine, v: Any, buf: seq<byte>, o: nat)
    requires LawfulEngine(e) && StorableAny(e, v) && (v.AObj? || v.AArr?)
    requires |AnyBody(e, v).bytes| < TWO31 && Placed(buf, o, AnyBody(e, v).bytes)
    ensures ParseValue(e, buf, o, Tag(AnyWire(e, v))) == Ok(NormalAny(v))
  {
    StorableWritable(e, v);
    BodyExact(e, v);
    AnyWf(e, v);
    ParseExact(e, buf, o, AnyWire(e, v));
    AnyReadsBack(e, v);
  }

  lemma {:induction false} StorableWritable(e: Engine, v: Any)
    requires StorableAny(e, v)
    ensures Writable(v)
  {
    match v
    case AArr(items) => ItemsWritable(e, items);
    case AObj(props) => PropsWritable(e, props);
    case _ =>
  }

  lemma {:induction false} ItemsWritable(e: Engine, xs: Items)
    requires StorableItems(e, xs)
    ensures WritableItems(xs)
  {
    if xs.ICons? { StorableWritable(e, xs.head); ItemsWritable(e, xs.tail); }
  }

  lemma {:induction false} PropsWritable(e: Engine, ps: Props)
    requires StorableProps(e, ps)
    ensures WritableProps(ps)
  {
    if ps.PCons? { StorableWritable(e, ps.val); PropsWritable(e, ps.rest); }
  }

  // ---------------------------------------------------------------------------
  // The keys and values of a parsed object
  // ---------------------------------------------------------------------------

  function ValueOfKey(ps: Props, key: Str): Option<Any> {
    match ps
    case PNil => None
    case PCons(k, x, rest) => if k == key then Some(x) else ValueOfKey(rest, key)
  }

  lemma {:induction false} PutHolds(ps: Props, key: Str, v: Any, other: Str)
    ensures ValueOfKey(Put(ps, key, v), other) == if other == key then Some(v) else ValueOfKey(ps, other)
    ensures PropKeys(Put(ps, key, v)) == PropKeys(ps) + {key}
  {
    if ps.PCons? && ps.key != key { PutHolds(ps.rest, key, v, other); }
  }

  lemma {:induction false} KeyHasValue(ps: Props, key: Str)
    ensures key in PropKeys(ps) <==> ValueOfKey(ps, key).Some?
  {
    if ps.PCons? { KeyHasValue(ps.rest, key); }
  }

  lemma {:induction false} AnyKeysHold(e: Engine, d: Doc, i: nat, acc: Props, key: Str)
    requires i <= |KeyTexts(e, d)| && AnyKeys(e, d, i, acc).Ok?
    ensures AnyKeys(e, d, i, acc).v.AObj?
    ensures ValueOfKey(AnyKeys(e, d, i, acc).v.props, key) ==
            if key in KeyTexts(e, d)[i..] && key != Spell("__proto__")
            then match AnyVal(e, LastVal(e, d, key)) { case Ok(v) => Some(v) case Err(_) => None }
            else ValueOfKey(acc, key)
    decreases |KeyTexts(e, d)| - i
  {
    hide AnyVal, LastVal;
    assert PROTO == Spell("__proto__");
    if i < |KeyTexts(e, d)| {
      var k := KeyTexts(e, d)[i];
      assert KeyTexts(e, d)[i..] == [k] + KeyTexts(e, d)[i + 1..];
      if k == PROTO {
        AnyKeysHold(e, d, i + 1, acc, key);
      } else {
        var v := AnyVal(e, LastVal(e, d, k)).v;
        AnyKeysHold(e, d, i + 1, Put(acc, k, v), key);
        PutHolds(acc, k, v, key);
      }
    }
  }

  /**
   * The object parsed from a well-formed document has the names of its elements as keys, `__proto__` excepted, and
   * under each key the value of the last element of that name.
   */
  lemma {:induction false} ParsedKeys(e: Engine, buf: seq<byte>, o: nat, d: Doc, key: Str)
    requires WfDoc(d) && Placed(buf, o, EncDoc(d)) && ParseObject(e, buf, o).Ok?
    ensures ParseObject(e, buf, o).v.AObj?
    ensures var ps := ParseObject(e, buf, o).v.props;
            && (key in PropKeys(ps) <==> key in KeyTexts(e, d) && key != Spell("__proto__"))
            && (key in PropKeys(ps) ==>
                  AnyVal(e, LastVal(e, d, key)).Ok? && ValueOfKey(ps, key) == Some(AnyVal(e, LastVal(e, d, key)).v))
  {
    hide AnyVal, LastVal, ParseObject, Placed, EncDoc, WfDoc, Text;
    ParseObjectExact(e, buf, o, d);
    assert KeyTexts(e, d)[0..] == KeyTexts(e, d);
    AnyKeysHold(e, d, 0, PNil, key);
    KeyHasValue(AnyKeys(e, d, 0, PNil).v.props, key);
    if key in KeyTexts(e, d) && key != Spell("__proto__") { AllParse(e, d, 0, PNil, key); }
  }

  /** An object that parses has parsed the value of each key. */
  lemma {:induction false} AllParse(e: Engine, d: Doc, i: nat, acc: Props, key: Str)
    requires i <= |KeyTexts(e, d)| && AnyKeys(e, d, i, acc).Ok?
    requires key in KeyTexts(e, d)[i..] && key != Spell("__proto__")
    ensures AnyVal(e, LastVal(e, d, key)).Ok?
    decreases |KeyTexts(e, d)| - i
  {
    hide AnyVal, LastVal;
    assert PROTO == Spell("__proto__");
    var k := KeyTexts(e, d)[i];
    assert KeyTexts(e, d)[i..] == [k] + KeyTexts(e, d)[i + 1..];
    if k != key {
      AllParse(e, d, i + 1, if k == PROTO then acc else Put(acc, k, AnyVal(e, LastVal(e, d, k)).v), key);
    }
  }

  /** The normal form of an object keeps exactly the keys whose values are not undefined, `__proto__` excepted. */
  lemma {:induction false} NormalKeys(ps: Props, key: Str)
    ensures key in PropKeys(NormalProps(ps)) <==> key in WrittenKeys(ps) && key != Spell("__proto__")
  {
    assert PROTO == Spell("__proto__");
    if ps.PCons? { NormalKeys(ps.rest, key); }
  }

  // ---------------------------------------------------------------------------
  // Values that come back unchanged
  // ---------------------------------------------------------------------------

  predicate CanonicalAny(v: Any) {
    match v
    case ANum(n) => !n.NaN? && n != Dbl([0, 0, 0, 0, 0, 0, 0, 128])
    case ABig(i) => -0x8000_0000_0000_0000 <= i < 0x8000_0000_0000_0000
    case ADate(ms) => -0x8000_0000_0000_0000 <= ms < 0x8000_0000_0000_0000
    case AArr(items) => CanonicalItems(items)
    case AObj(props) => CanonicalProps(props)
    case _ => true
  }

  predicate CanonicalItems(xs: Items) {
    xs.ICons? ==> !xs.head.AUndef? && CanonicalAny(xs.head) && CanonicalItems(xs.tail)
  }

  predicate CanonicalProps(ps: Props) {
    ps.PCons? ==>
      !ps.val.AUndef? && ps.key != Spell("__proto__") && CanonicalAny(ps.val) && CanonicalProps(ps.rest)
  }

  function ItemCount(xs: Items): nat { if xs.INil? then 0 else 1 + ItemCount(xs.tail) }

  function PropCount(ps: Props): nat { if ps.PNil? then 0 else 1 + PropCount(ps.rest) }

  lemma {:induction false} FewerItems(xs: Items)
    ensures ItemCount(NormalItems(xs)) <= ItemCount(xs)
  {
    if xs.ICons? { FewerItems(xs.tail); }
  }

  lemma {:induction false} FewerProps(ps: Props)
    ensures PropCount(NormalProps(ps)) <= PropCount(ps)
  {
    if ps.PCons? { FewerProps(ps.rest); }
  }

  /**
   * A value is its own normal form, and so comes back unchanged, exactly if it holds no NaN or -0, no bigint or date
   * outside 64 bits, no undefined and no key `__proto__`, at any depth.
   */
  lemma {:induction false} CanonicalAnyIff(v: Any)
    ensures NormalAny(v) == v <==> CanonicalAny(v)
  {
    match v
    case AArr(items) => CanonicalItemsIff(items);
    case AObj(props) => CanonicalPropsIff(props);
    case _ =>
  }

  lemma {:induction false} CanonicalItemsIff(xs: Items)
    ensures NormalItems(xs) == xs <==> CanonicalItems(xs)
  {
    if xs.ICons? {
      CanonicalAnyIff(xs.head);
      CanonicalItemsIff(xs.tail);
      FewerItems(xs.tail);
    }
  }

  lemma {:induction false} CanonicalPropsIff(ps: Props)
    ensures NormalProps(ps) == ps <==> CanonicalProps(ps)
  {
    assert PROTO == Spell("__proto__");
    if ps.PCons? {
      CanonicalAnyIff(ps.val);
      CanonicalPropsIff(ps.rest);
      FewerProps(ps.rest);
    }
  }

  // ---------------------------------------------------------------------------
  // Expressions, and what only other programs write
  // ---------------------------------------------------------------------------

  /** The options of an expression are written in the order i, s, m, the global flag as s. */
  lemma {:induction false} OptionsSpelled(e: Engine, source: Str, i: bool, g: bool, m: bool)
    ensures AnyWire(e, ARegExp(source, i, g, m)).WRegex?
    ensures AnyWire(e, ARegExp(source, i, g, m)).options ==
            (if i then Spell("i") else []) + (if g then Spell("s") else []) + (if m then Spell("m") else [])
  {
    assert Spell("i") == [FLAG_I] && Spell("s") == [FLAG_S] && Spell("m") == [FLAG_M];
  }

  /** The parser turns every s among the options into g and leaves the others alone. */
  lemma {:induction false} GlobalFlagsAt(s: Str, k: nat)
    requires k < |s|
    ensures |GlobalFlags(s)| == |s| && GlobalFlags(s)[k] == if s[k] == Spell("s")[0] then Spell("g")[0] else s[k]
  {
    if k > 0 {
      GlobalFlagsAt(s[1..], k - 1);
    } else if |s| > 1 {
      GlobalFlagsAt(s[1..], 0);
    }
  }

  /** What the parser makes of values that the untyped serializer does not write. */
  lemma {:induction false} ForeignValues(e: Engine, buf: seq<byte>, o: nat, w: Wire)
    requires WfVal(w) && Placed(buf, o, EncVal(w))
    ensures var r := ParseValue(e, buf, o, Tag(w));
            && (w.WTimestamp? ==> r == Ok(ABig(w.stamp)))
            && (w.WUndefined? ==> r == Ok(AUndef))
            && (w.WOid? ==> r == Ok(AStr(Hex(w.oid))))
            && (w.WBinary? && w.subtype == 4 && |w.data| == 16 ==> r == Ok(AStr(UuidText(w.data))))
            && (w.WBinary? && (w.subtype != 4 || |w.data| != 16) ==> r == Ok(ABinary(w.data)))
            && (w.WDecimal? || w.WMinKey? || w.WMaxKey? ==> r.Err?)
  {
    hide Hex, UuidText;
    ParseExact(e, buf, o, w);
  }
}
