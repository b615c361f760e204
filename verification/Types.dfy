/** Run-time values, reflected types and the host functions the codec calls into. */
module Types {
  import opened Bytes
  import opened Wire
  import opened Utf8

  /** A JavaScript number: an int32, NaN, or any other double (-0 among them) by its eight IEEE 754 bytes. */
  datatype Num = Int(i: int) | NaN | Dbl(bits: seq<byte>)

  datatype Value =
    | VUndef
    | VNull
    | VNum(n: Num)
    | VStr(s: Str)
    | VBool(b: bool)
    | VBig(i: int)
    | VDate(ms: int)
    | VInvalidDate
    | VBytes(bytes: seq<byte>)
    | VObj(props: map<seq<byte>, Value>)
    | VArr(elems: seq<Value>)

  /** Storage of a bigint type: LONG, or BINARY when annotated BinaryBigInt / SignedBinaryBigInt. */
  datatype BigForm = Long | Unsigned | Signed

  datatype Ty =
    | TNumber
    | TString
    | TBoolean
    | TBigInt(form: BigForm)
    | TLiteral(lit: Value)
    | TDate
    | TMongoId
    | TUuid
    | TEnum           // an enum of int32 numbers
    | TTextOrNumber   // string | number
    | TBinary         // Uint8Array
    | TObject(id: nat)
    | TArray(elem: Ty)
    | TNullable(inner: Ty)

  datatype Field = Field(name: seq<byte>, ty: Ty, optional: bool)

  /** Object-literal types by number; a field refers to its object type by number, so types may be recursive. */
  type Env = seq<seq<Field>>

  /** Conversions done by the JavaScript engine; `float64` is the number stored in eight bytes. */
  datatype Host = Host(
    dec: Utf8.Decoder,
    float64: seq<byte> -> Num,
    numToStr: Num -> Str,
    bigToStr: int -> Str,
    strToNum: Str -> Num,
    strToBig: Str -> Option<int>,
    truncToBig: Num -> Option<int>,
    bigToNum: int -> Num,
    numToDate: Num -> Value,
    strToDate: Str -> Value)

  function TySize(ty: Ty): nat {
    match ty
    case TArray(t) => 1 + TySize(t)
    case TNullable(t) => 1 + TySize(t)
    case _ => 0
  }

  ghost predicate GoodTy(env: Env, ty: Ty) {
    match ty
    case TObject(id) => id < |env|
    case TArray(t) => GoodTy(env, t)
    case TNullable(t) => !t.TNullable? && GoodTy(env, t)
    case TLiteral(v) => v.VStr? || v.VNum? || v.VBool?
    case _ => true
  }

  ghost predicate GoodFields(env: Env, f: seq<Field>) {
    && (forall k :: 0 <= k < |f| ==> f[k].name != [] && NulFree(f[k].name) && GoodTy(env, f[k].ty))
    && (forall j, k :: 0 <= j < k < |f| ==> f[j].name != f[k].name)
  }

  ghost predicate GoodEnv(env: Env) {
    forall id :: 0 <= id < |env| ==> GoodFields(env, env[id])
  }

  /** Index of the first field of that name at or after `k`, or |f|. */
  function FindFrom(f: seq<Field>, name: seq<byte>, k: nat): (r: nat)
    requires k <= |f|
    ensures k <= r <= |f|
    ensures r < |f| ==> f[r].name == name
    decreases |f| - k
  {
    if k == |f| || f[k].name == name then k else FindFrom(f, name, k + 1)
  }

  function Find(f: seq<Field>, name: seq<byte>): (r: nat)
    ensures r <= |f|
    ensures r < |f| ==> f[r].name == name
  {
    FindFrom(f, name, 0)
  }

  lemma {:induction false} FindIs(f: seq<Field>, name: seq<byte>, from: nat, k: nat)
    requires from <= k < |f| && f[k].name == name
    requires forall j :: from <= j < k ==> f[j].name != name
    ensures FindFrom(f, name, from) == k
    decreases k - from
  {
    if from < k { FindIs(f, name, from + 1, k); }
  }

  // ---------------------------------------------------------------------------
  // Doubles
  // ---------------------------------------------------------------------------

  const NEG_ZERO: seq<byte> := [0, 0, 0, 0, 0, 0, 0, 0x80]

  function NanToZero(n: Num): Num { if n.NaN? then Int(0) else n }

  // ---------------------------------------------------------------------------
  // Hexadecimal renderings of binary identifiers
  // ---------------------------------------------------------------------------

  function HexDigit(n: int): u16
    requires 0 <= n < 16
  {
    if n < 10 then 48 + n else 87 + n
  }

  function Hex(b: seq<byte>): (s: Str)
    ensures |s| == 2 * |b|
  {
    if b == [] then [] else [HexDigit(b[0] / 16), HexDigit(b[0] % 16)] + Hex(b[1..])
  }

  /** xxxxxxxx-xxxx-xxxx-xxxx-xxxxxxxxxxxx */
  function UuidText(b: seq<byte>): (s: Str)
    requires |b| == 16
    ensures |s| == 36
  {
    Hex(b[0..4]) + [45] + Hex(b[4..6]) + [45] + Hex(b[6..8]) + [45] + Hex(b[8..10]) + [45] + Hex(b[10..16])
  }

  predicate IsHexChar(c: u16) { 48 <= c < 58 || 65 <= c < 71 || 97 <= c < 103 }

  /** /^[0-9a-fA-F]{24}$/ */
  predicate IsMongoIdText(s: Str) {
    |s| == 24 && forall i :: 0 <= i < 24 ==> IsHexChar(s[i])
  }

  /** The dashed pattern of validateUUID. */
  predicate IsUuidText(s: Str) {
    |s| == 36
      && forall i :: 0 <= i < 36 ==> if i == 8 || i == 13 || i == 18 || i == 23 then s[i] == 45 else IsHexChar(s[i])
  }

  /** Big-endian natural number. */
  function BigEndian(b: seq<byte>): (v: nat) {
    if b == [] then 0 else BigEndian(b[..|b| - 1]) * 256 + b[|b| - 1]
  }
}
