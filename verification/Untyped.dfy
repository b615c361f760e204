/** The run-time serializer of values whose type is `any`: it dispatches on what the value is. */
module Untyped {
  import opened Bytes
  import opened Wire
  import opened Utf8
  import opened Types
  import opened Target
  import opened Names
  import opened Serializer

  datatype Any =
    | AUndef
    | ANull
    | ANum(n: Num)
    | AStr(s: Str)
    | ABool(b: bool)
    | ABig(i: int)
    | ADate(ms: int)
    | AInvalidDate
    | ARegExp(source: Str, ignoreCase: bool, global: bool, multiline: bool)
    | ABinary(data: seq<byte>)
    | AArr(items: Items)
    | AObj(props: Props)

  datatype Items = INil | ICons(head: Any, tail: Items)

  /** Own enumerable properties in the order of Object.keys. */
  datatype Props = PNil | PCons(key: Str, val: Any, rest: Props)

  /** Engine functions of the untyped codec. */
  datatype Engine = Engine(h: Host, encode: Str -> seq<byte>, regexp: (Str, Str) -> Result<Any>)

  /** `new TextEncoder().encode` on well-formed strings. */
  ghost predicate LawfulEncoder(encode: Str -> seq<byte>) {
    forall s :: WellFormed(s) ==> encode(s) == RfcEncode(Scalars(s))
  }

  datatype AnyName = Key(key: Str) | Indexed(i: nat)

  function AnyNameBytes(an: AnyName): seq<byte> {
    match an
    case Key(key) => Encode(key)
    case Indexed(i) => Digits(i)
  }

  ghost predicate IsAny(v: Any) {
    match v
    case ANum(n) => IsNum(n)
    case AArr(items) => AreItems(items)
    case AObj(props) => AreProps(props)
    case _ => true
  }

  ghost predicate AreItems(xs: Items) { xs.ICons? ==> IsAny(xs.head) && AreItems(xs.tail) }

  ghost predicate AreProps(ps: Props) { ps.PCons? ==> IsAny(ps.val) && AreProps(ps.rest) }

  // ---------------------------------------------------------------------------
  // The document of an untyped value
  // ---------------------------------------------------------------------------

  const FLAG_I := 105
  const FLAG_S := 115
  const FLAG_M := 109

  /** Options in the order of bson-js; the global flag is stored as `s`. */
  function RegExpOptions(ignoreCase: bool, global: bool, multiline: bool): seq<byte> {
    (if ignoreCase then [FLAG_I] else []) + (if global then [FLAG_S] else []) + (if multiline then [FLAG_M] else [])
  }

  function AnyWire(e: Engine, v: Any): Wire
  {
    match v
    case AUndef => WUndefined
    case ANull => WNull
    case ANum(n) => NumWire(n)
    case AStr(s) => WString(e.encode(s))
    case ABool(b) => WBool(b)
    case ABig(i) => WLong(Wrap64(i))
    case ADate(ms) => WDate(Wrap64(ms))
    case AInvalidDate => WDate(0)
    case ARegExp(source, i, g, m) => WRegex(Encode(source), RegExpOptions(i, g, m))
    case ABinary(data) => WBinary(0, data)
    case AArr(items) => WArray(ItemsDoc(e, items, 0))
    case AObj(props) => WObject(PropsDoc(e, props))
  }

  /** Undefined elements are dropped; the others keep their index. */
  function ItemsDoc(e: Engine, xs: Items, i: nat): Doc {
    match xs
    case INil => Nil
    case ICons(x, rest) =>
      if x.AUndef? then ItemsDoc(e, rest, i + 1) else Cons(Digits(i), AnyWire(e, x), ItemsDoc(e, rest, i + 1))
  }

  function PropsDoc(e: Engine, ps: Props): Doc {
    match ps
    case PNil => Nil
    case PCons(key, x, rest) =>
      if x.AUndef? then PropsDoc(e, rest) else Cons(Encode(key), AnyWire(e, x), PropsDoc(e, rest))
  }

  /** The positions of the elements that are not undefined. */
  function Kept(xs: Items, i: nat): seq<int> {
    if xs.INil? then [] else (if xs.head.AUndef? then [] else [i as int]) + Kept(xs.tail, i + 1)
  }

  /** The elements of an untyped array are named by their positions, of which those of undefined ones are missing. */
  lemma {:induction false} ItemsIndexed(e: Engine, xs: Items, i: nat)
    ensures Indices(ItemsDoc(e, xs, i)) == Kept(xs, i) && Rising(Kept(xs, i))
    ensures forall k :: 0 <= k < |Kept(xs, i)| ==> Kept(xs, i)[k] >= i
  {
    hide AnyWire;
    if xs.ICons? {
      ItemsIndexed(e, xs.tail, i + 1);
      DigitsDecimal(i);
    }
  }

  // ---------------------------------------------------------------------------
  // Scripts
  // ---------------------------------------------------------------------------

  /** `BigInt(NaN)` throws a RangeError, which the growing loop takes for an overflow of any buffer. */
  const NEVER_FITS := Script([], TWO31, false)

  /** Length, `buffer.set` of the text, terminator. */
  function AnyStringBody(text: seq<byte>): Script {
    Then(Whole(Le32(|text| + 1)), Then(Whole(text), Plain([0])))
  }

  /** Length, subtype 0, `buffer.set` of the data. */
  function AnyBinaryBody(data: seq<byte>): Script {
    Then(Whole(Le32(|data|)), Then(Plain([0]), Whole(data)))
  }

  function AnyBody(e: Engine, v: Any): Script
    decreases v, 0
  {
    match v
    case AUndef => SKIP
    case ANull => SKIP
    case ANum(n) => Whole(EncVal(NumWire(n)))
    case AStr(s) =>
      AnyStringBody(e.encode(s))
    case ABool(b) => Plain([if b then 1 else 0])
    case ABig(i) => Whole(Le64(i))
    case ADate(ms) => Whole(Le64(ms))
    case AInvalidDate => NEVER_FITS
    case ARegExp(source, i, g, m) => Plain(Encode(source) + [0] + RegExpOptions(i, g, m) + [0])
    case ABinary(data) => AnyBinaryBody(data)
    case AArr(items) => Framed(ItemsScript(e, items, 0))
    case AObj(props) => Framed(PropsScript(e, props))
  }

  /** serializeAnyPropertyRuntime: nothing for undefined, else type, name and value. */
  function AnyScript(e: Engine, an: AnyName, v: Any): Script
    decreases v, 1
  {
    if v.AUndef? then SKIP else Then(Plain(Header(Tag(AnyWire(e, v)), AnyNameBytes(an))), AnyBody(e, v))
  }

  function ItemsScript(e: Engine, xs: Items, i: nat): Script
    decreases xs, 1
  {
    match xs
    case INil => SKIP
    case ICons(x, rest) => Then(AnyScript(e, Indexed(i), x), ItemsScript(e, rest, i + 1))
  }

  function PropsScript(e: Engine, ps: Props): Script
    decreases ps, 1
  {
    match ps
    case PNil => SKIP
    case PCons(key, x, rest) => Then(AnyScript(e, Key(key), x), PropsScript(e, rest))
  }

  /** No invalid date anywhere, the one value that cannot be written. */
  predicate Writable(v: Any) {
    match v
    case AInvalidDate => false
    case AArr(items) => WritableItems(items)
    case AObj(props) => WritableProps(props)
    case _ => true
  }

  predicate WritableItems(xs: Items) { xs.ICons? ==> Writable(xs.head) && WritableItems(xs.tail) }

  predicate WritableProps(ps: Props) { ps.PCons? ==> Writable(ps.val) && WritableProps(ps.rest) }

  /** A document without invalid dates fits some buffer: its stores end within its bytes. */
  ghost predicate Within(s: Script, writable: bool, bytes: seq<byte>) {
    && s.far >= -1 && !s.bad
    && (writable ==> s.bytes == bytes && s.far <= |s.bytes|)
    && (!writable ==> s.far >= TWO31)
  }

  lemma {:induction false} StringBodyExact(text: seq<byte>)
    ensures Within(AnyStringBody(text), true, Le32(|text| + 1) + text + [0])
  {
    assert Le32(|text| + 1) + (text + [0]) == Le32(|text| + 1) + text + [0];
  }

  lemma {:induction false} BinaryBodyExact(data: seq<byte>)
    ensures Within(AnyBinaryBody(data), true, Le32(|data|) + [0] + data)
  {
    assert Le32(|data|) + ([0] + data) == Le32(|data|) + [0] + data;
  }

  lemma {:induction false} FramedWithin(body: Script, writable: bool, d: Doc)
    requires Within(body, writable, EncFields(d))
    ensures Within(Framed(body), writable, EncDoc(d))
  {
  }

  lemma {:induction false} WordExact(v: int)
    ensures Within(Whole(Le64(v)), true, Le64(Wrap64(v)))
  {
    Wrap64Bytes(v);
  }

  lemma {:induction false} LeafExact(e: Engine, v: Any)
    requires !v.AArr? && !v.AObj?
    ensures Within(AnyBody(e, v), Writable(v), EncVal(AnyWire(e, v)))
  {
    hide LeBytes, Encode, NumWire, RegExpOptions;
    match v
    case AStr(s) => StringBodyExact(e.encode(s));
    case ABig(i) => WordExact(i);
    case ADate(ms) => WordExact(ms);
    case ABinary(data) => BinaryBodyExact(data);
    case _ =>
  }

  lemma {:induction false} BodyExact(e: Engine, v: Any)
    ensures Within(AnyBody(e, v), Writable(v), EncVal(AnyWire(e, v)))
    decreases v, 0
  {
    match v
    case AArr(items) =>
      ItemsExact(e, items, 0);
      FramedWithin(ItemsScript(e, items, 0), WritableItems(items), ItemsDoc(e, items, 0));
    case AObj(props) =>
      PropsExact(e, props);
      FramedWithin(PropsScript(e, props), WritableProps(props), PropsDoc(e, props));
    case _ => LeafExact(e, v);
  }

  lemma {:induction false} ItemsExact(e: Engine, xs: Items, i: nat)
    ensures Within(ItemsScript(e, xs, i), WritableItems(xs), EncFields(ItemsDoc(e, xs, i)))
    decreases xs, 1
  {
    if xs.ICons? {
      BodyExact(e, xs.head);
      ItemsExact(e, xs.tail, i + 1);
      SkipFirst(ItemsScript(e, xs.tail, i + 1));
    }
  }

  lemma {:induction false} PropsExact(e: Engine, ps: Props)
    ensures Within(PropsScript(e, ps), WritableProps(ps), EncFields(PropsDoc(e, ps)))
    decreases ps, 1
  {
    if ps.PCons? {
      BodyExact(e, ps.val);
      PropsExact(e, ps.rest);
      SkipFirst(PropsScript(e, ps.rest));
    }
  }

  lemma {:induction false} SkipFirst(s: Script)
    requires s.far >= -1
    ensures Then(SKIP, s) == s
  {
    ThenSkip(s);
  }

  // ---------------------------------------------------------------------------
  // The run-time writers
  // ---------------------------------------------------------------------------

  /** The type byte and writeName. */
  method WriteAnyHead(buffer: array<byte>, o: int, tag: byte, an: AnyName, ghost done: seq<byte>) returns (p: int)
    requires Pending(buffer[..], o, done)
    modifies buffer
    ensures Pending(buffer[..], p, done + Header(tag, AnyNameBytes(an)))
  {
    match an
    case Indexed(i) => p := WriteIndexHeader(buffer, o, tag, i, done);
    case Key(key) =>
      StoreByte(buffer, o, tag, done);
      p := WriteUtf8(buffer, o + 1, key, done + [tag]);
      StoreByte(buffer, p, 0, done + [tag] + Encode(key));
      p := p + 1;
      assert done + [tag] + Encode(key) + [0] == done + Header(tag, Encode(key));
  }

  method WriteAnyString(buffer: array<byte>, o: int, text: seq<byte>, ghost done: seq<byte>)
    returns (st: Status, p: int)
    requires Pending(buffer[..], o, done)
    modifies buffer
    ensures Wrote(done, buffer[..], AnyStringBody(text), st, p)
  {
    ghost var a, b, c := Whole(Le32(|text| + 1)), Whole(text), Plain([0]);
    st, p := StoreWhole(buffer, o, Le32(|text| + 1), done);
    if st != Fine { Stopped(done, a, Then(b, c), buffer[..], st, p); return; }
    st, p := StoreWhole(buffer, p, text, done + a.bytes);
    if st != Fine {
      Stopped(done + a.bytes, b, c, buffer[..], st, p);
    } else {
      StoreByte(buffer, p, 0, done + a.bytes + text);
      p := p + 1;
      Sequence(done + a.bytes, b, c, buffer[..], st, p);
    }
    Sequence(done, a, Then(b, c), buffer[..], st, p);
  }

  method WriteAnyBinary(buffer: array<byte>, o: int, data: seq<byte>, ghost done: seq<byte>)
    returns (st: Status, p: int)
    requires Pending(buffer[..], o, done)
    modifies buffer
    ensures Wrote(done, buffer[..], AnyBinaryBody(data), st, p)
  {
    ghost var a, b, c := Whole(Le32(|data|)), Plain([0]), Whole(data);
    st, p := StoreWhole(buffer, o, Le32(|data|), done);
    if st != Fine { Stopped(done, a, Then(b, c), buffer[..], st, p); return; }
    StoreByte(buffer, p, 0, done + a.bytes);
    st, p := StoreWhole(buffer, p + 1, data, done + a.bytes + [0]);
    Sequence(done + a.bytes, b, c, buffer[..], st, p);
    Sequence(done, a, Then(b, c), buffer[..], st, p);
  }

  /** writeRegExpData. */
  method WriteRegExp(buffer: array<byte>, o: int, source: Str, i: bool, g: bool, m: bool, ghost done: seq<byte>)
    returns (p: int)
    requires Pending(buffer[..], o, done)
    modifies buffer
    ensures Pending(buffer[..], p, done + (Encode(source) + [0] + RegExpOptions(i, g, m) + [0]))
  {
    p := WriteUtf8(buffer, o, source, done);
    p := StoreBytes(buffer, p, [0] + RegExpOptions(i, g, m) + [0], done + Encode(source));
    assert done + Encode(source) + ([0] + RegExpOptions(i, g, m) + [0])
        == done + (Encode(source) + [0] + RegExpOptions(i, g, m) + [0]);
  }

  /** serializeAnyPropertyRuntime. */
  method SerializeAny(e: Engine, buffer: array<byte>, o: int, an: AnyName, v: Any, ghost done: seq<byte>)
    returns (st: Status, p: int)
    requires Pending(buffer[..], o, done) && buffer.Length < TWO31
    modifies buffer
    ensures Wrote(done, buffer[..], AnyScript(e, an, v), st, p)
    decreases v, 2, 0
  {
    if v.AUndef? {
      assert done + [] == done;
      return Fine, o;
    }
    var tag := Tag(AnyWire(e, v));
    ghost var head := Plain(Header(tag, AnyNameBytes(an)));
    p := WriteAnyHead(buffer, o, tag, an, done);
    st, p := SerializeAnyBody(e, buffer, p, v, done + head.bytes);
    Sequence(done, head, AnyBody(e, v), buffer[..], st, p);
  }

  method SerializeAnyBody(e: Engine, buffer: array<byte>, o: int, v: Any, ghost done: seq<byte>)
    returns (st: Status, p: int)
    requires Pending(buffer[..], o, done) && buffer.Length < TWO31
    modifies buffer
    ensures Wrote(done, buffer[..], AnyBody(e, v), st, p)
    decreases v, 1, 0
  {
    match v
    case ANum(n) => st, p := StoreWhole(buffer, o, EncVal(NumWire(n)), done);
    case AStr(s) => st, p := WriteAnyString(buffer, o, e.encode(s), done);
    case ABool(b) =>
      StoreByte(buffer, o, if b then 1 else 0, done);
      st, p := Fine, o + 1;
    case ABig(i) => st, p := StoreWhole(buffer, o, Le64(i), done);
    case ADate(ms) => st, p := StoreWhole(buffer, o, Le64(ms), done);
    case AInvalidDate => st, p := RangeError, o;
    case ARegExp(source, i, g, m) =>
      p := WriteRegExp(buffer, o, source, i, g, m, done);
      st := Fine;
    case ABinary(data) => st, p := WriteAnyBinary(buffer, o, data, done);
    case AArr(items) => st, p := SerializeAnyArray(e, buffer, o, items, done);
    case AObj(props) => st, p := SerializeAnyObject(e, buffer, o, props, done);
    case _ =>
      assert done + [] == done;
      st, p := Fine, o;
  }

  /** The terminator and the late size of a document, which may not fit after all. */
  method CloseLate(buffer: array<byte>, start: int, o: int, ghost done: seq<byte>, ghost hole: seq<byte>,
                   ghost body: Script)
    returns (st: Status, p: int)
    requires start == |done| && |hole| == 4 && body.far >= -1
    requires Wrote(done + hole, buffer[..], body, Fine, o)
    modifies buffer
    ensures Wrote(done, buffer[..], Framed(body), st, p)
  {
    ghost var elements := body.bytes + [0];
    StoreByte(buffer, o, 0, done + hole + body.bytes);
    assert done + hole + body.bytes + [0] == done + hole + elements;
    p := o + 1;
    st := Backfill(buffer, start, p - start, done, hole, elements);
    assert done + Le32(|body.bytes| + 5) + elements == done + (Le32(|body.bytes| + 5) + body.bytes + [0]);
  }

  /** serializeAnyArrayRuntime. */
  method SerializeAnyArray(e: Engine, buffer: array<byte>, o: int, items: Items, ghost done: seq<byte>)
    returns (st: Status, p: int)
    requires Pending(buffer[..], o, done) && buffer.Length < TWO31
    modifies buffer
    ensures Wrote(done, buffer[..], Framed(ItemsScript(e, items, 0)), st, p)
    decreases items, 4, 0
  {
    ghost var hole, body := Window(buffer[..], o, 4), ItemsScript(e, items, 0);
    Reserve(buffer[..], o, 4, done);
    ItemsExact(e, items, 0);
    st, p := SerializeItems(e, buffer, o + 4, items, done + hole);
    if st != Fine { return; }
    st, p := CloseLate(buffer, o, p, done, hole, body);
  }

  method SerializeItems(e: Engine, buffer: array<byte>, o: int, items: Items, ghost done: seq<byte>)
    returns (st: Status, p: int)
    requires Pending(buffer[..], o, done) && buffer.Length < TWO31
    modifies buffer
    ensures Wrote(done, buffer[..], ItemsScript(e, items, 0), st, p)
    decreases items, 3, 0
  {
    st, p := Fine, o;
    var i, left := 0, items;
    ghost var pre := SKIP;
    ItemsExact(e, items, 0);
    ThenSkip(ItemsScript(e, items, 0));
    assert done + [] == done;
    while left.ICons?
      invariant st == Fine && pre.far >= -1 && (left < items || left == items)
      invariant Wrote(done, buffer[..], pre, st, p)
      invariant Then(pre, ItemsScript(e, left, i)) == ItemsScript(e, items, 0)
      decreases left
    {
      ghost var one, rest := AnyScript(e, Indexed(i), left.head), ItemsScript(e, left.tail, i + 1);
      AnyFar(e, Indexed(i), left.head);
      ItemsExact(e, left.tail, i + 1);
      st, p := SerializeAny(e, buffer, p, Indexed(i), left.head, done + pre.bytes);
      if st != Fine {
        Stopped(done + pre.bytes, one, rest, buffer[..], st, p);
        Sequence(done, pre, Then(one, rest), buffer[..], st, p);
        return;
      }
      Sequence(done, pre, one, buffer[..], st, p);
      ThenAssoc(pre, one, rest);
      pre := Then(pre, one);
      i, left := i + 1, left.tail;
    }
    ThenSkip(pre);
  }

  lemma {:induction false} AnyFar(e: Engine, an: AnyName, v: Any)
    ensures AnyScript(e, an, v).far >= -1 && !AnyScript(e, an, v).bad
  {
    BodyExact(e, v);
  }

  /** serializeAnyObjectRuntime. */
  method SerializeAnyObject(e: Engine, buffer: array<byte>, o: int, props: Props, ghost done: seq<byte>)
    returns (st: Status, p: int)
    requires Pending(buffer[..], o, done) && buffer.Length < TWO31
    modifies buffer
    ensures Wrote(done, buffer[..], Framed(PropsScript(e, props)), st, p)
    decreases props, 4, 0
  {
    ghost var hole, body := Window(buffer[..], o, 4), PropsScript(e, props);
    Reserve(buffer[..], o, 4, done);
    PropsExact(e, props);
    st, p := SerializeProps(e, buffer, o + 4, props, done + hole);
    if st != Fine { return; }
    st, p := CloseLate(buffer, o, p, done, hole, body);
  }

  method SerializeProps(e: Engine, buffer: array<byte>, o: int, props: Props, ghost done: seq<byte>)
    returns (st: Status, p: int)
    requires Pending(buffer[..], o, done) && buffer.Length < TWO31
    modifies buffer
    ensures Wrote(done, buffer[..], PropsScript(e, props), st, p)
    decreases props, 3, 0
  {
    st, p := Fine, o;
    var left := props;
    ghost var pre := SKIP;
    PropsExact(e, props);
    ThenSkip(PropsScript(e, props));
    assert done + [] == done;
    while left.PCons?
      invariant st == Fine && pre.far >= -1 && (left < props || left == props)
      invariant Wrote(done, buffer[..], pre, st, p)
      invariant Then(pre, PropsScript(e, left)) == PropsScript(e, props)
      decreases left
    {
      ghost var one, rest := AnyScript(e, Key(left.key), left.val), PropsScript(e, left.rest);
      AnyFar(e, Key(left.key), left.val);
      PropsExact(e, left.rest);
      st, p := SerializeAny(e, buffer, p, Key(left.key), left.val, done + pre.bytes);
      if st != Fine {
        Stopped(done + pre.bytes, one, rest, buffer[..], st, p);
        Sequence(done, pre, Then(one, rest), buffer[..], st, p);
        return;
      }
      Sequence(done, pre, one, buffer[..], st, p);
      ThenAssoc(pre, one, rest);
      pre := Then(pre, one);
      left := left.rest;
    }
    ThenSkip(pre);
  }
}
