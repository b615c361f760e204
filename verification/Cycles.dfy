/**
 * Cutting cycles: object graphs with shared and cyclic references are serialized as trees. A set of the objects
 * being serialized, kept only for types that can refer to themselves, decides what to leave out.
 */
module Cycles {
  import opened Bytes
  import opened Wire
  import opened Types
  import opened Target
  import opened Names
  import opened Serializer

  /** A property value: a scalar, a reference, or an array of such. */
  datatype Ref = Leaf(v: Value) | Obj(o: nat) | List(items: Refs)
  datatype Refs = RNil | RCons(head: Ref, tail: Refs)

  /** Objects with their types and properties, and the types marked by hasCircularReference. */
  datatype Graph = Graph(env: Env, ty: map<nat, nat>, props: map<nat, map<seq<byte>, Ref>>, circular: set<nat>)

  // --- types that refer to themselves

  function RefsOf(ty: Ty): set<nat> {
    match ty
    case TObject(id) => {id}
    case TArray(t) => RefsOf(t)
    case TNullable(t) => RefsOf(t)
    case _ => {}
  }

  /** The object types a property of type `id` refers to, through arrays and nullables. */
  function Targets(env: Env, id: nat): set<nat>
    requires id < |env|
  {
    set k, t | 0 <= k < |env[id]| && t in RefsOf(env[id][k].ty) :: t
  }

  ghost predicate TypePath(env: Env, p: seq<nat>) {
    && (forall i :: 0 <= i < |p| ==> p[i] < |env|)
    && (forall i :: 0 <= i < |p| - 1 ==> p[i + 1] in Targets(env, p[i]))
  }

  /** hasCircularReference marks every type that reaches itself. */
  ghost predicate CyclesMarked(env: Env, circular: set<nat>) {
    forall p :: TypePath(env, p) && |p| >= 2 && p[0] == p[|p| - 1] ==> p[0] in circular
  }

  // --- well-typed graphs

  ghost predicate RefHas(g: Graph, ty: Ty, r: Ref)
    requires GoodEnv(g.env) && GoodTy(g.env, ty)
    decreases TySize(ty), r
  {
    match ty
    case TObject(id) => r.Obj? && r.o in g.ty && g.ty[r.o] == id
    case TArray(t) => r.List? && RefsHave(g, t, r.items)
    case TNullable(t) => (r.Leaf? && Nullish(r.v)) || RefHas(g, t, r)
    case _ => r.Leaf? && HasType(g.env, ty, r.v)
  }

  ghost predicate RefsHave(g: Graph, ty: Ty, rs: Refs)
    requires GoodEnv(g.env) && GoodTy(g.env, ty)
    decreases TySize(ty), rs
  {
    rs.RCons? ==> RefHas(g, ty, rs.head) && RefsHave(g, ty, rs.tail)
  }

  predicate NullRef(r: Ref) { r.Leaf? && Nullish(r.v) }

  ghost predicate PropHas(g: Graph, o: nat, k: nat)
    requires GoodEnv(g.env) && o in g.ty && o in g.props && g.ty[o] < |g.env| && k < |g.env[g.ty[o]]|
  {
    var f := g.env[g.ty[o]][k];
    if f.name in g.props[o] then (f.optional && NullRef(g.props[o][f.name])) || RefHas(g, f.ty, g.props[o][f.name])
    else f.optional || f.ty.TNullable?
  }

  ghost predicate ValidGraph(g: Graph) {
    && GoodEnv(g.env) && CyclesMarked(g.env, g.circular)
    && (forall o :: o in g.ty ==> o in g.props && g.ty[o] < |g.env|)
    && (forall o, k :: o in g.ty && 0 <= k < |g.env[g.ty[o]]| ==> PropHas(g, o, k))
  }

  // --- ancestor paths

  function Elems(path: seq<nat>): set<nat> { set o | o in path }

  /** How many objects can still be entered: paths never repeat an object. */
  function Measure(g: Graph, path: seq<nat>): nat { |g.ty.Keys - Elems(path)| }

  /** The objects from the root to the one being serialized, each referring to the next. */
  ghost predicate Path(g: Graph, path: seq<nat>) {
    && |path| >= 1
    && (forall i :: 0 <= i < |path| ==> path[i] in g.ty && g.ty[path[i]] < |g.env|)
    && (forall i :: 0 <= i < |path| - 1 ==> g.ty[path[i + 1]] in Targets(g.env, g.ty[path[i]]))
  }

  function Last(path: seq<nat>): nat
    requires path != []
  {
    path[|path| - 1]
  }

  /** What the seen set should be: the objects of marked types on the path. */
  function Tracked(g: Graph, path: seq<nat>): set<nat> {
    set o | o in path && o in g.ty && g.ty[o] in g.circular
  }

  function TypesOf(g: Graph, path: seq<nat>): (p: seq<nat>)
    requires forall i :: 0 <= i < |path| ==> path[i] in g.ty
    ensures |p| == |path|
  {
    seq(|path|, i requires 0 <= i < |path| => g.ty[path[i]])
  }

  lemma {:induction false} PathTypes(g: Graph, path: seq<nat>, o: nat)
    requires Path(g, path) && o in g.ty && g.ty[o] < |g.env| && g.ty[o] in Targets(g.env, g.ty[Last(path)])
    ensures TypePath(g.env, TypesOf(g, path) + [g.ty[o]])
  {
    hide Targets;
    var p := TypesOf(g, path) + [g.ty[o]];
    forall i | 0 <= i < |p| - 1 ensures p[i + 1] in Targets(g.env, p[i]) {
      if i + 1 < |path| { assert p[i + 1] == g.ty[path[i + 1]]; }
    }
  }

  lemma {:induction false} PathFrom(g: Graph, path: seq<nat>, j: nat)
    requires Path(g, path) && j < |path|
    ensures Path(g, path[j..]) && Last(path[j..]) == Last(path)
  {
    hide Targets;
    var q := path[j..];
    forall i | 0 <= i < |q| - 1 ensures g.ty[q[i + 1]] in Targets(g.env, g.ty[q[i]]) {
      assert q[i + 1] == path[j + i + 1] && q[i] == path[j + i];
    }
  }

  /** Only objects of marked types can be their own ancestors. */
  lemma {:induction false} OwnAncestor(g: Graph, path: seq<nat>, o: nat)
    requires ValidGraph(g) && Path(g, path) && o in g.ty && g.ty[o] in Targets(g.env, g.ty[Last(path)])
    requires o in path
    ensures g.ty[o] in g.circular
  {
    hide Targets, PropHas, GoodEnv;
    var j :| 0 <= j < |path| && path[j] == o;
    PathFrom(g, path, j);
    PathTypes(g, path[j..], o);
    var p := TypesOf(g, path[j..]) + [g.ty[o]];
    assert TypePath(g.env, p) && p[0] == g.ty[path[j..][0]] == p[|p| - 1];
  }

  /** The test on the seen set is the test for an own ancestor. */
  lemma {:induction false} SeenIsAncestor(g: Graph, path: seq<nat>, o: nat)
    requires ValidGraph(g) && Path(g, path) && o in g.ty && g.ty[o] in Targets(g.env, g.ty[Last(path)])
    ensures g.ty[o] in g.circular && o in Tracked(g, path) <==> o in path
  {
    if o in path { OwnAncestor(g, path, o); }
  }

  lemma {:induction false} Descend(g: Graph, path: seq<nat>, o: nat)
    requires ValidGraph(g) && Path(g, path) && o in g.ty && g.ty[o] in Targets(g.env, g.ty[Last(path)]) && o !in path
    ensures Path(g, path + [o]) && Last(path + [o]) == o
    ensures Tracked(g, path + [o]) == Tracked(g, path) + (if g.ty[o] in g.circular then {o} else {})
    ensures Measure(g, path + [o]) < Measure(g, path)
  {
    hide Targets, PropHas, GoodEnv, CyclesMarked, Elems;
    var q := path + [o];
    forall i | 0 <= i < |q| - 1 ensures g.ty[q[i + 1]] in Targets(g.env, g.ty[q[i]]) {
      if i + 1 < |path| { assert q[i + 1] == path[i + 1] && q[i] == path[i]; }
    }
    DescendMeasure(g, path, o);
  }

  lemma {:induction false} DescendMeasure(g: Graph, path: seq<nat>, o: nat)
    requires o in g.ty && o !in path
    ensures Measure(g, path + [o]) < Measure(g, path)
  {
    var a, b := g.ty.Keys - Elems(path), g.ty.Keys - Elems(path + [o]);
    assert b == a - {o};
  }

  // ---------------------------------------------------------------------------
  // The tree a graph is cut to
  // ---------------------------------------------------------------------------

  /** The value of a property, or None for an object that is its own ancestor. */
  ghost function CutWire(g: Graph, path: seq<nat>, ty: Ty, r: Ref): Option<Wire>
    requires ValidGraph(g) && Path(g, path) && GoodTy(g.env, ty) && RefHas(g, ty, r)
    requires RefsOf(ty) <= Targets(g.env, g.ty[Last(path)])
    decreases Measure(g, path), 1, TySize(ty), r
  {
    match ty
    case TObject(id) =>
      if r.o in path then None
      else
        Descend(g, path, r.o);
        Some(WObject(CutDoc(g, path + [r.o], 0)))
    case TArray(t) => Some(WArray(CutElems(g, path, t, r.items, 0)))
    case TNullable(t) => if NullRef(r) then Some(WNull) else CutWire(g, path, t, r)
    case _ => Some(ScalarWire(ty, r.v))
  }

  ghost function CutElems(g: Graph, path: seq<nat>, ty: Ty, rs: Refs, i: nat): Doc
    requires ValidGraph(g) && Path(g, path) && GoodTy(g.env, ty) && RefsHave(g, ty, rs)
    requires RefsOf(ty) <= Targets(g.env, g.ty[Last(path)])
    decreases Measure(g, path), 1, TySize(ty), rs
  {
    match rs
    case RNil => Nil
    case RCons(r, rest) =>
      match CutWire(g, path, ty, r)
      case None => CutElems(g, path, ty, rest, i + 1)
      case Some(w) => Cons(Digits(i), w, CutElems(g, path, ty, rest, i + 1))
  }

  /** The positions of the elements that are not cut. */
  ghost function Uncut(g: Graph, path: seq<nat>, ty: Ty, rs: Refs, i: nat): seq<int>
    requires ValidGraph(g) && Path(g, path) && GoodTy(g.env, ty) && RefsHave(g, ty, rs)
    requires RefsOf(ty) <= Targets(g.env, g.ty[Last(path)])
    decreases rs
  {
    match rs
    case RNil => []
    case RCons(r, rest) =>
      (if CutWire(g, path, ty, r).Some? then [i as int] else []) + Uncut(g, path, ty, rest, i + 1)
  }

  /** The elements of an array in a graph are named by their positions, of which those of cut ones are missing. */
  lemma {:induction false} CutIndexed(g: Graph, path: seq<nat>, ty: Ty, rs: Refs, i: nat)
    requires ValidGraph(g) && Path(g, path) && GoodTy(g.env, ty) && RefsHave(g, ty, rs)
    requires RefsOf(ty) <= Targets(g.env, g.ty[Last(path)])
    ensures Indices(CutElems(g, path, ty, rs, i)) == Uncut(g, path, ty, rs, i) && Rising(Uncut(g, path, ty, rs, i))
    ensures forall k :: 0 <= k < |Uncut(g, path, ty, rs, i)| ==> Uncut(g, path, ty, rs, i)[k] >= i
    decreases rs
  {
    hide CutWire, ValidGraph, Path, Targets, Digits, Decimal;
    if rs.RCons? {
      CutIndexed(g, path, ty, rs.tail, i + 1);
      DigitsDecimal(i);
    }
  }

  lemma {:induction false} FieldTargets(g: Graph, o: nat, k: nat)
    requires ValidGraph(g) && o in g.ty && k < |g.env[g.ty[o]]|
    ensures RefsOf(g.env[g.ty[o]][k].ty) <= Targets(g.env, g.ty[o]) && PropHas(g, o, k)
    ensures GoodTy(g.env, g.env[g.ty[o]][k].ty)
  {
  }

  /** The properties of the last object of the path, from the k-th on. */
  ghost function CutDoc(g: Graph, path: seq<nat>, k: nat): Doc
    requires ValidGraph(g) && Path(g, path) && k <= |g.env[g.ty[Last(path)]]|
    decreases Measure(g, path), 2, |g.env[g.ty[Last(path)]]| - k
  {
    var o := Last(path);
    var f := g.env[g.ty[o]];
    if k == |f| then Nil
    else
      var rest := CutDoc(g, path, k + 1);
      match CutProp(g, path, k)
      case None => rest
      case Some(w) => Cons(f[k].name, w, rest)
  }

  ghost function CutProp(g: Graph, path: seq<nat>, k: nat): Option<Wire>
    requires ValidGraph(g) && Path(g, path) && k < |g.env[g.ty[Last(path)]]|
    decreases Measure(g, path), 2, 0
  {
    var o := Last(path);
    var f := g.env[g.ty[o]][k];
    FieldTargets(g, o, k);
    if f.name !in g.props[o] then if f.optional then None else Some(WNull)
    else if f.optional && NullRef(g.props[o][f.name]) then Some(WNull)
    else CutWire(g, path, f.ty, g.props[o][f.name])
  }

  // ---------------------------------------------------------------------------
  // What is written for it
  // ---------------------------------------------------------------------------

  /** A property or element; nothing for an object that is its own ancestor. */
  ghost function CutEmit(g: Graph, path: seq<nat>, pn: PropertyName, ty: Ty, r: Ref): Script
    requires ValidGraph(g) && Path(g, path) && GoodTy(g.env, ty) && RefHas(g, ty, r)
    requires RefsOf(ty) <= Targets(g.env, g.ty[Last(path)])
    decreases Measure(g, path), 1, TySize(ty), r
  {
    match ty
    case TObject(id) =>
      if r.o in path then SKIP
      else
        Descend(g, path, r.o);
        Then(HeaderOf(OBJECT, pn, true), Framed(CutEmitFields(g, path + [r.o], 0)))
    case TArray(t) => Then(HeaderOf(ARRAY, pn, true), Framed(CutEmitElems(g, path, t, r.items, 0)))
    case TNullable(t) => if NullRef(r) then HeaderOf(NULL, pn, false) else CutEmit(g, path, pn, t, r)
    case _ => ScalarScript(pn, ty, r.v)
  }

  ghost function CutEmitElems(g: Graph, path: seq<nat>, ty: Ty, rs: Refs, i: nat): Script
    requires ValidGraph(g) && Path(g, path) && GoodTy(g.env, ty) && RefsHave(g, ty, rs)
    requires RefsOf(ty) <= Targets(g.env, g.ty[Last(path)])
    decreases Measure(g, path), 1, TySize(ty), rs
  {
    match rs
    case RNil => SKIP
    case RCons(r, rest) => Then(CutEmit(g, path, Index(i), ty, r), CutEmitElems(g, path, ty, rest, i + 1))
  }

  ghost function CutEmitFields(g: Graph, path: seq<nat>, k: nat): Script
    requires ValidGraph(g) && Path(g, path) && k <= |g.env[g.ty[Last(path)]]|
    decreases Measure(g, path), 2, |g.env[g.ty[Last(path)]]| - k
  {
    if k == |g.env[g.ty[Last(path)]]| then SKIP
    else Then(CutEmitField(g, path, k), CutEmitFields(g, path, k + 1))
  }

  ghost function CutEmitField(g: Graph, path: seq<nat>, k: nat): Script
    requires ValidGraph(g) && Path(g, path) && k < |g.env[g.ty[Last(path)]]|
    decreases Measure(g, path), 2, 0
  {
    var o := Last(path);
    var f := g.env[g.ty[o]][k];
    var pn := Static(f.name);
    FieldTargets(g, o, k);
    if f.name !in g.props[o] then if f.optional then SKIP else HeaderOf(NULL, pn, false)
    else if f.optional && NullRef(g.props[o][f.name]) then HeaderOf(NULL, pn, false)
    else CutEmit(g, path, pn, f.ty, g.props[o][f.name])
  }

  ghost function GraphScript(g: Graph, root: nat): Script
    requires ValidGraph(g) && root in g.ty
  {
    Framed(CutEmitFields(g, [root], 0))
  }

  /** The tree of a graph. */
  ghost function GraphTree(g: Graph, root: nat): Doc
    requires ValidGraph(g) && root in g.ty
  {
    CutDoc(g, [root], 0)
  }

  /** Nothing is written for what is cut, and the encoding of the element for anything else. */
  ghost predicate RendersCut(s: Script, pn: PropertyName, out: Option<Wire>) {
    match out
    case None => s == SKIP
    case Some(w) => Renders(s, pn, w)
  }

  ghost predicate RendersFields(s: Script, d: Doc) { s.far >= -1 && (!s.bad ==> s.bytes == EncFields(d)) }

  lemma {:induction false} NothingRenders()
    ensures RendersFields(SKIP, Nil)
  {
  }

  lemma {:induction false} ThenRenders(s: Script, pn: PropertyName, out: Option<Wire>, t: Script, d: Doc)
    requires RendersCut(s, pn, out) && RendersFields(t, d)
    ensures s.far >= -1
    ensures RendersFields(Then(s, t), match out case None => d case Some(w) => Cons(NameBytes(pn), w, d))
  {
    hide EncVal, Header;
    ThenSkip(t);
    if out.Some? && !s.bad && !t.bad {
      assert Then(s, t).bytes == Header(Tag(out.value), NameBytes(pn)) + EncVal(out.value) + t.bytes;
    }
  }

  lemma {:induction false} CutEmitExact(g: Graph, path: seq<nat>, pn: PropertyName, ty: Ty, r: Ref)
    requires ValidGraph(g) && Path(g, path) && GoodTy(g.env, ty) && RefHas(g, ty, r)
    requires RefsOf(ty) <= Targets(g.env, g.ty[Last(path)])
    ensures RendersCut(CutEmit(g, path, pn, ty, r), pn, CutWire(g, path, ty, r))
    decreases Measure(g, path), 1, TySize(ty), r
  {
    hide Targets, PropHas, CyclesMarked, GoodEnv, Measure, Then, Framed, HeaderOf, ScalarScript, ScalarWire, Renders,
      EncFields, HasType, Tracked;
    match ty
    case TObject(id) =>
      if r.o !in path {
        Descend(g, path, r.o);
        CutEmitFieldsExact(g, path + [r.o], 0);
        FramedExact(pn, WObject(CutDoc(g, path + [r.o], 0)), CutEmitFields(g, path + [r.o], 0),
                    CutDoc(g, path + [r.o], 0));
      }
    case TArray(t) =>
      CutEmitElemsExact(g, path, t, r.items, 0);
      FramedExact(pn, WArray(CutElems(g, path, t, r.items, 0)), CutEmitElems(g, path, t, r.items, 0),
                  CutElems(g, path, t, r.items, 0));
    case TNullable(t) =>
      if NullRef(r) { NullExact(pn); } else { CutEmitExact(g, path, pn, t, r); }
    case _ => ScalarExact(pn, ty, r.v);
  }

  lemma {:induction false} CutEmitElemsExact(g: Graph, path: seq<nat>, ty: Ty, rs: Refs, i: nat)
    requires ValidGraph(g) && Path(g, path) && GoodTy(g.env, ty) && RefsHave(g, ty, rs)
    requires RefsOf(ty) <= Targets(g.env, g.ty[Last(path)])
    ensures RendersFields(CutEmitElems(g, path, ty, rs, i), CutElems(g, path, ty, rs, i))
    decreases Measure(g, path), 1, TySize(ty), rs
  {
    hide Targets, PropHas, CyclesMarked, GoodEnv, Measure, Then, RendersFields, RendersCut, CutEmit, CutWire, Tracked;
    match rs
    case RNil => NothingRenders();
    case RCons(r, rest) =>
      CutEmitExact(g, path, Index(i), ty, r);
      CutEmitElemsExact(g, path, ty, rest, i + 1);
      ThenRenders(CutEmit(g, path, Index(i), ty, r), Index(i), CutWire(g, path, ty, r),
                  CutEmitElems(g, path, ty, rest, i + 1), CutElems(g, path, ty, rest, i + 1));
  }

  lemma {:induction false} CutEmitFieldExact(g: Graph, path: seq<nat>, k: nat)
    requires ValidGraph(g) && Path(g, path) && k < |g.env[g.ty[Last(path)]]|
    ensures RendersCut(CutEmitField(g, path, k), Static(g.env[g.ty[Last(path)]][k].name), CutProp(g, path, k))
    decreases Measure(g, path), 2, 0
  {
    hide Targets, CyclesMarked, GoodEnv, Measure, HeaderOf, Renders, CutEmit, CutWire, Tracked;
    var o := Last(path);
    var f := g.env[g.ty[o]][k];
    FieldTargets(g, o, k);
    NullExact(Static(f.name));
    if f.name in g.props[o] && !(f.optional && NullRef(g.props[o][f.name])) {
      CutEmitExact(g, path, Static(f.name), f.ty, g.props[o][f.name]);
    }
  }

  lemma {:induction false} CutEmitFieldsExact(g: Graph, path: seq<nat>, k: nat)
    requires ValidGraph(g) && Path(g, path) && k <= |g.env[g.ty[Last(path)]]|
    ensures RendersFields(CutEmitFields(g, path, k), CutDoc(g, path, k))
    decreases Measure(g, path), 2, |g.env[g.ty[Last(path)]]| - k + 1
  {
    hide Targets, PropHas, CyclesMarked, GoodEnv, Measure, Then, RendersFields, RendersCut, CutEmitField, CutProp,
      Tracked;
    var f := g.env[g.ty[Last(path)]];
    if k == |f| {
      NothingRenders();
    } else {
      CutEmitFieldExact(g, path, k);
      CutEmitFieldsExact(g, path, k + 1);
      ThenRenders(CutEmitField(g, path, k), Static(f[k].name), CutProp(g, path, k),
                  CutEmitFields(g, path, k + 1), CutDoc(g, path, k + 1));
    }
  }

  /** The bytes written are the encoding of the cut tree. */
  lemma {:induction false} GraphExact(g: Graph, root: nat)
    requires ValidGraph(g) && root in g.ty
    ensures GraphScript(g, root).far >= 4
    ensures !GraphScript(g, root).bad ==> GraphScript(g, root).bytes == EncDoc(GraphTree(g, root))
  {
    hide Targets, PropHas, CyclesMarked, GoodEnv, Measure, CutEmitFields, CutDoc, Tracked;
    CutEmitFieldsExact(g, [root], 0);
  }

  lemma {:induction false} CutFar(g: Graph, path: seq<nat>, pn: PropertyName, ty: Ty, r: Ref)
    requires ValidGraph(g) && Path(g, path) && GoodTy(g.env, ty) && RefHas(g, ty, r)
    requires RefsOf(ty) <= Targets(g.env, g.ty[Last(path)])
    ensures CutEmit(g, path, pn, ty, r).far >= -1
  {
    hide Targets, PropHas, CyclesMarked, GoodEnv, Tracked, RefHas, CutEmit, CutWire;
    CutEmitExact(g, path, pn, ty, r);
  }

  lemma {:induction false} CutElemsFar(g: Graph, path: seq<nat>, ty: Ty, rs: Refs, i: nat)
    requires ValidGraph(g) && Path(g, path) && GoodTy(g.env, ty) && RefsHave(g, ty, rs)
    requires RefsOf(ty) <= Targets(g.env, g.ty[Last(path)])
    ensures CutEmitElems(g, path, ty, rs, i).far >= -1
  {
    CutEmitElemsExact(g, path, ty, rs, i);
  }

  lemma {:induction false} CutFieldsFar(g: Graph, path: seq<nat>, k: nat)
    requires ValidGraph(g) && Path(g, path) && k <= |g.env[g.ty[Last(path)]]|
    ensures CutEmitFields(g, path, k).far >= -1
    ensures k < |g.env[g.ty[Last(path)]]| ==> CutEmitField(g, path, k).far >= -1
  {
    CutEmitFieldsExact(g, path, k);
    if k < |g.env[g.ty[Last(path)]]| { CutEmitFieldExact(g, path, k); }
  }

  // ---------------------------------------------------------------------------
  // The serializer with its seen set
  // ---------------------------------------------------------------------------

  class CycleGuard {
    /** globalCircularSet */
    var seen: set<nat>

    constructor ()
      ensures seen == {}
    {
      seen := {};
    }

    /** circularEnter: false for an object that is being serialized. */
    method Enter(o: nat) returns (entered: bool)
      modifies this`seen
      ensures entered <==> o !in old(seen)
      ensures seen == old(seen) + {o}
    {
      if o in seen { return false; }
      seen := seen + {o};
      return true;
    }

    /** circularExit */
    method Exit(o: nat)
      modifies this`seen
      ensures seen == old(seen) - {o}
    {
      seen := seen - {o};
    }

    /** globalCircularSet.clear() */
    method Clear()
      modifies this`seen
      ensures seen == {}
    {
      seen := {};
    }

    /** serializeNestedObject: skip an object that is being serialized, if its type can refer to itself. */
    method NestedObject(g: Graph, buffer: array<byte>, at: int, pn: PropertyName, o: nat,
                        ghost path: seq<nat>, ghost done: seq<byte>)
      returns (st: Status, p: int)
      requires ValidGraph(g) && Path(g, path) && o in g.ty && g.ty[o] in Targets(g.env, g.ty[Last(path)])
      requires seen == Tracked(g, path) && Pending(buffer[..], at, done)
      modifies this, buffer
      ensures st == Fine ==> seen == old(seen)
      ensures RefHas(g, TObject(g.ty[o]), Obj(o)) && GoodTy(g.env, TObject(g.ty[o]))
      ensures Wrote(done, buffer[..], CutEmit(g, path, pn, TObject(g.ty[o]), Obj(o)), st, p)
      decreases Measure(g, path), 0, 1
    {
      hide Targets, PropHas, CyclesMarked, GoodEnv, Then, Framed, HeaderOf, CutEmitFields, Wrote, Pending, Tracked,
        Measure;
      SeenIsAncestor(g, path, o);
      var circular := g.ty[o] in g.circular;
      if circular {
        var entered := Enter(o);
        if !entered {
          WroteNothing(buffer[..], at, done);
          return Fine, at;
        }
      }
      Descend(g, path, o);
      st, p := Entered(g, buffer, at, pn, o, path + [o], done);
      if st == Fine && circular { Exit(o); }
    }

    /** Header and document of an object that has been entered. */
    method Entered(g: Graph, buffer: array<byte>, at: int, pn: PropertyName, o: nat,
                   ghost path: seq<nat>, ghost done: seq<byte>)
      returns (st: Status, p: int)
      requires ValidGraph(g) && Path(g, path) && o == Last(path)
      requires seen == Tracked(g, path) && Pending(buffer[..], at, done)
      modifies this, buffer
      ensures st == Fine ==> seen == old(seen)
      ensures Wrote(done, buffer[..], Then(HeaderOf(OBJECT, pn, true), Framed(CutEmitFields(g, path, 0))), st, p)
      decreases Measure(g, path), 5, 0
    {
      hide Targets, PropHas, CyclesMarked, GoodEnv, Tracked, Then, Framed, HeaderOf, CutEmitFields;
      ghost var head, body := HeaderOf(OBJECT, pn, true), Framed(CutEmitFields(g, path, 0));
      HeaderIs(OBJECT, pn, true);
      FramedFar(g, path);
      st, p := WriteAnyHeader(buffer, at, OBJECT, pn, true, done);
      if st != Fine { Stopped(done, head, body, buffer[..], st, p); return; }
      st, p := Document(g, buffer, p, o, path, done + head.bytes);
      Sequence(done, head, body, buffer[..], st, p);
    }

    /** The extracted serializer: placeholder, properties, terminator, size. */
    method Document(g: Graph, buffer: array<byte>, at: int, o: nat, ghost path: seq<nat>, ghost done: seq<byte>)
      returns (st: Status, p: int)
      requires ValidGraph(g) && Path(g, path) && o == Last(path)
      requires seen == Tracked(g, path) && Pending(buffer[..], at, done)
      modifies this, buffer
      ensures st == Fine ==> seen == old(seen)
      ensures Wrote(done, buffer[..], Framed(CutEmitFields(g, path, 0)), st, p)
      decreases Measure(g, path), 4, 0
    {
      hide Targets, PropHas, CyclesMarked, GoodEnv, Tracked, CutEmitFields;
      ghost var body := CutEmitFields(g, path, 0);
      CutFieldsFar(g, path, 0);
      st, p := StoreWhole(buffer, at, Le32(0), done);
      if st != Fine { return; }
      st, p := Properties(g, buffer, p, o, path, done + Le32(0));
      if st != Fine { return; }
      p := CloseFrame(buffer, at, p, done, body);
    }

    /** serializeObjectProperties. */
    method Properties(g: Graph, buffer: array<byte>, at: int, o: nat, ghost path: seq<nat>, ghost done: seq<byte>)
      returns (st: Status, p: int)
      requires ValidGraph(g) && Path(g, path) && o == Last(path)
      requires seen == Tracked(g, path) && Pending(buffer[..], at, done)
      modifies this, buffer
      ensures st == Fine ==> seen == old(seen)
      ensures Wrote(done, buffer[..], CutEmitFields(g, path, 0), st, p)
      decreases Measure(g, path), 3, 0
    {
      hide Targets, PropHas, CyclesMarked, GoodEnv, Elems, Tracked, CutEmitField, Then;
      var f := g.env[g.ty[o]];
      st, p := Fine, at;
      ghost var all := CutEmitFields(g, path, 0);
      ghost var pre := SKIP;
      CutFieldsFar(g, path, 0);
      ThenSkip(all);
      assert done + [] == done;
      for k := 0 to |f|
        invariant seen == Tracked(g, path) && st == Fine && pre.far >= -1
        invariant Wrote(done, buffer[..], pre, st, p) && Then(pre, CutEmitFields(g, path, k)) == all
      {
        ghost var one, rest := CutEmitField(g, path, k), CutEmitFields(g, path, k + 1);
        CutFieldsFar(g, path, k);
        CutFieldsFar(g, path, k + 1);
        st, p := Property(g, buffer, p, o, k, path, done + pre.bytes);
        if st != Fine {
          Stopped(done + pre.bytes, one, rest, buffer[..], st, p);
          Sequence(done, pre, Then(one, rest), buffer[..], st, p);
          return;
        }
        Sequence(done, pre, one, buffer[..], st, p);
        ThenAssoc(pre, one, rest);
        ThenFar(pre, one);
        pre := Then(pre, one);
      }
      ThenSkip(pre);
    }

    method Property(g: Graph, buffer: array<byte>, at: int, o: nat, k: nat, ghost path: seq<nat>, ghost done: seq<byte>)
      returns (st: Status, p: int)
      requires ValidGraph(g) && Path(g, path) && o == Last(path) && k < |g.env[g.ty[o]]|
      requires seen == Tracked(g, path) && Pending(buffer[..], at, done)
      modifies this, buffer
      ensures st == Fine ==> seen == old(seen)
      ensures Wrote(done, buffer[..], CutEmitField(g, path, k), st, p)
      decreases Measure(g, path), 2, 0
    {
      hide Targets, CyclesMarked, GoodEnv, Tracked, CutEmit, HeaderOf;
      var f := g.env[g.ty[o]][k];
      FieldTargets(g, o, k);
      if f.optional {
        if f.name !in g.props[o] {
          assert done + [] == done;
          return Fine, at;
        }
        if NullRef(g.props[o][f.name]) {
          st, p := WriteAnyHeader(buffer, at, NULL, Static(f.name), false, done);
          return;
        }
      }
      if f.name !in g.props[o] {
        st, p := WriteAnyHeader(buffer, at, NULL, Static(f.name), false, done);
      } else {
        st, p := ValueOf(g, buffer, at, Static(f.name), f.ty, g.props[o][f.name], path, done);
      }
    }

    /** serializeValue. */
    method ValueOf(g: Graph, buffer: array<byte>, at: int, pn: PropertyName, ty: Ty, r: Ref,
                   ghost path: seq<nat>, ghost done: seq<byte>)
      returns (st: Status, p: int)
      requires ValidGraph(g) && Path(g, path) && GoodTy(g.env, ty) && RefHas(g, ty, r)
      requires RefsOf(ty) <= Targets(g.env, g.ty[Last(path)])
      requires seen == Tracked(g, path) && Pending(buffer[..], at, done)
      modifies this, buffer
      ensures st == Fine ==> seen == old(seen)
      ensures Wrote(done, buffer[..], CutEmit(g, path, pn, ty, r), st, p)
      decreases Measure(g, path), 1, TySize(ty), r, 1
    {
      hide Targets, PropHas, CyclesMarked, GoodEnv, Tracked, CutEmitElems, Then, HeaderOf, ScalarScript, HasType;
      match ty
      case TObject(id) =>
        assert r == Obj(r.o);
        st, p := NestedObject(g, buffer, at, pn, r.o, path, done);
      case TArray(t) =>
        st, p := ArrayOf(g, buffer, at, pn, t, r.items, path, done);
      case TNullable(t) =>
        if NullRef(r) {
          st, p := WriteAnyHeader(buffer, at, NULL, pn, false, done);
        } else {
          st, p := ValueOf(g, buffer, at, pn, t, r, path, done);
        }
      case _ => st, p := SerializeScalar(buffer, at, pn, ty, r.v, done);
    }

    /** serializeArray. */
    method ArrayOf(g: Graph, buffer: array<byte>, at: int, pn: PropertyName, ty: Ty, rs: Refs,
                   ghost path: seq<nat>, ghost done: seq<byte>)
      returns (st: Status, p: int)
      requires ValidGraph(g) && Path(g, path) && GoodTy(g.env, ty) && RefsHave(g, ty, rs)
      requires RefsOf(ty) <= Targets(g.env, g.ty[Last(path)])
      requires seen == Tracked(g, path) && Pending(buffer[..], at, done)
      modifies this, buffer
      ensures st == Fine ==> seen == old(seen)
      ensures Wrote(done, buffer[..], Then(HeaderOf(ARRAY, pn, true), Framed(CutEmitElems(g, path, ty, rs, 0))), st, p)
      decreases Measure(g, path), 1, TySize(ty), rs, 2
    {
      hide Targets, PropHas, CyclesMarked, GoodEnv, Tracked, CutEmitElems, Then, HeaderOf;
      ghost var head, body := HeaderOf(ARRAY, pn, true), CutEmitElems(g, path, ty, rs, 0);
      HeaderIs(ARRAY, pn, true);
      CutElemsFar(g, path, ty, rs, 0);
      st, p := WriteAnyHeader(buffer, at, ARRAY, pn, true, done);
      if st != Fine { Stopped(done, head, Framed(body), buffer[..], st, p); return; }
      st, p := Frame(g, buffer, p, ty, rs, path, done + head.bytes);
      Sequence(done, head, Framed(body), buffer[..], st, p);
    }

    method Frame(g: Graph, buffer: array<byte>, at: int, ty: Ty, rs: Refs, ghost path: seq<nat>, ghost done: seq<byte>)
      returns (st: Status, p: int)
      requires ValidGraph(g) && Path(g, path) && GoodTy(g.env, ty) && RefsHave(g, ty, rs)
      requires RefsOf(ty) <= Targets(g.env, g.ty[Last(path)])
      requires seen == Tracked(g, path) && Pending(buffer[..], at, done)
      modifies this, buffer
      ensures st == Fine ==> seen == old(seen)
      ensures Wrote(done, buffer[..], Framed(CutEmitElems(g, path, ty, rs, 0)), st, p)
      decreases Measure(g, path), 1, TySize(ty), rs, 1
    {
      hide Targets, PropHas, CyclesMarked, GoodEnv, Tracked, CutEmitElems, RefsHave;
      ghost var body := CutEmitElems(g, path, ty, rs, 0);
      CutElemsFar(g, path, ty, rs, 0);
      st, p := StoreWhole(buffer, at, Le32(0), done);
      if st != Fine { return; }
      st, p := Elements(g, buffer, p, ty, rs, path, done + Le32(0));
      if st != Fine { return; }
      p := CloseFrame(buffer, at, p, done, body);
    }

    /** The loop of serializeArray. */
    method Elements(g: Graph, buffer: array<byte>, at: int, ty: Ty, rs: Refs, ghost path: seq<nat>,
                    ghost done: seq<byte>)
      returns (st: Status, p: int)
      requires ValidGraph(g) && Path(g, path) && GoodTy(g.env, ty) && RefsHave(g, ty, rs)
      requires RefsOf(ty) <= Targets(g.env, g.ty[Last(path)])
      requires seen == Tracked(g, path) && Pending(buffer[..], at, done)
      modifies this, buffer
      ensures st == Fine ==> seen == old(seen)
      ensures Wrote(done, buffer[..], CutEmitElems(g, path, ty, rs, 0), st, p)
      decreases Measure(g, path), 1, TySize(ty), rs, 0
    {
      hide Targets, PropHas, CyclesMarked, GoodEnv, Tracked, Then, CutEmit;
      st, p := Fine, at;
      var left, i := rs, 0;
      ghost var all := CutEmitElems(g, path, ty, rs, 0);
      ghost var pre := SKIP;
      CutElemsFar(g, path, ty, rs, 0);
      ThenSkip(all);
      assert done + [] == done;
      while left.RCons?
        invariant RefsHave(g, ty, left) && seen == Tracked(g, path) && (left == rs || left < rs)
        invariant st == Fine && pre.far >= -1
        invariant Wrote(done, buffer[..], pre, st, p) && Then(pre, CutEmitElems(g, path, ty, left, i)) == all
        decreases left
      {
        ghost var one, rest := CutEmit(g, path, Index(i), ty, left.head), CutEmitElems(g, path, ty, left.tail, i + 1);
        CutFar(g, path, Index(i), ty, left.head);
        CutElemsFar(g, path, ty, left.tail, i + 1);
        st, p := ValueOf(g, buffer, p, Index(i), ty, left.head, path, done + pre.bytes);
        if st != Fine {
          Stopped(done + pre.bytes, one, rest, buffer[..], st, p);
          Sequence(done, pre, Then(one, rest), buffer[..], st, p);
          return;
        }
        Sequence(done, pre, one, buffer[..], st, p);
        ThenAssoc(pre, one, rest);
        ThenFar(pre, one);
        pre := Then(pre, one);
        left, i := left.tail, i + 1;
      }
      ThenSkip(pre);
    }

    /** buildObjectSerializer: the root enters unconditionally. */
    method Root(g: Graph, buffer: array<byte>, root: nat) returns (st: Status, p: int)
      requires ValidGraph(g) && root in g.ty && seen == {}
      modifies this, buffer
      ensures st == Fine ==> seen == {}
      ensures Wrote([], buffer[..], GraphScript(g, root), st, p)
    {
      hide Targets, PropHas, CyclesMarked, GoodEnv, Framed, CutEmitFields;
      if g.ty[root] in g.circular { var entered := Enter(root); }
      st, p := Document(g, buffer, 0, root, [root], []);
      if st == Fine && g.ty[root] in g.circular { Exit(root); }
    }
  }

  lemma {:induction false} WroteNothing(a: seq<byte>, o: int, done: seq<byte>)
    requires Pending(a, o, done)
    ensures Wrote(done, a, SKIP, Fine, o)
  {
    assert done + [] == done;
  }

  lemma {:induction false} FramedFar(g: Graph, path: seq<nat>)
    requires ValidGraph(g) && Path(g, path)
    ensures Framed(CutEmitFields(g, path, 0)).far >= -1
  {
    CutFieldsFar(g, path, 0);
  }
}
