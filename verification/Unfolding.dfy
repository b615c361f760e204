/**
 * Object graphs without cycles: what is written for one is the document of the typed value that it unfolds to, objects
 * that are referred to several times being written several times.
 */
module Unfolding {
  import opened Bytes
  import opened Types
  import opened Serializer
  import opened Cycles

  // ---------------------------------------------------------------------------
  // Walks
  // ---------------------------------------------------------------------------

  predicate Mentions(r: Ref, o: nat) {
    match r
    case Leaf(_) => false
    case Obj(p) => p == o
    case List(items) => MentionsAny(items, o)
  }

  predicate MentionsAny(rs: Refs, o: nat) { rs.RCons? && (Mentions(rs.head, o) || MentionsAny(rs.tail, o)) }

  /** A declared property of object `a` mentions object `b`. */
  ghost predicate RefersTo(g: Graph, a: nat, b: nat) {
    && a in g.ty && a in g.props && g.ty[a] < |g.env|
    && exists k :: 0 <= k < |g.env[g.ty[a]]| && PropMentions(g, a, k, b)
  }

  predicate PropMentions(g: Graph, a: nat, k: nat, b: nat)
    requires a in g.ty && a in g.props && g.ty[a] < |g.env| && k < |g.env[g.ty[a]]|
  {
    var name := g.env[g.ty[a]][k].name;
    name in g.props[a] && Mentions(g.props[a][name], b)
  }

  ghost predicate Walk(g: Graph, w: seq<nat>) {
    w != [] && forall i :: 0 <= i < |w| - 1 ==> RefersTo(g, w[i], w[i + 1])
  }

  /** Following references from the root one never meets an object twice. */
  ghost predicate Acyclic(g: Graph, root: nat) {
    forall w :: Walk(g, w) && w[0] == root ==> forall i, j :: 0 <= i < j < |w| ==> w[i] != w[j]
  }

  lemma {:induction false} NotBack(g: Graph, root: nat, path: seq<nat>, o: nat)
    requires Acyclic(g, root) && Walk(g, path) && path[0] == root && RefersTo(g, Last(path), o)
    ensures o !in path && Walk(g, path + [o])
  {
    var w := path + [o];
    forall i | 0 <= i < |w| - 1 ensures RefersTo(g, w[i], w[i + 1]) {
      if i + 1 < |path| { assert RefersTo(g, path[i], path[i + 1]); }
    }
    assert w[0] == root && w[|path|] == o;
    forall i | 0 <= i < |path| ensures path[i] != o { assert w[i] == path[i]; }
  }

  // ---------------------------------------------------------------------------
  // The value a graph unfolds to
  // ---------------------------------------------------------------------------

  ghost function Unfold(g: Graph, path: seq<nat>, ty: Ty, r: Ref): Value
    requires ValidGraph(g) && Path(g, path) && GoodTy(g.env, ty) && RefHas(g, ty, r)
    requires RefsOf(ty) <= Targets(g.env, g.ty[Last(path)])
    decreases Measure(g, path), 1, TySize(ty), r
  {
    match ty
    case TObject(id) =>
      if r.o in path then VUndef
      else
        Descend(g, path, r.o);
        VObj(UnfoldProps(g, path + [r.o]))
    case TArray(t) => VArr(UnfoldElems(g, path, t, r.items))
    case TNullable(t) => if NullRef(r) then r.v else Unfold(g, path, t, r)
    case _ => r.v
  }

  ghost function UnfoldElems(g: Graph, path: seq<nat>, ty: Ty, rs: Refs): seq<Value>
    requires ValidGraph(g) && Path(g, path) && GoodTy(g.env, ty) && RefsHave(g, ty, rs)
    requires RefsOf(ty) <= Targets(g.env, g.ty[Last(path)])
    decreases Measure(g, path), 1, TySize(ty), rs
  {
    match rs
    case RNil => []
    case RCons(r, rest) => [Unfold(g, path, ty, r)] + UnfoldElems(g, path, ty, rest)
  }

  /** The declared properties of the last object of the path. */
  ghost function UnfoldProps(g: Graph, path: seq<nat>): map<seq<byte>, Value>
    requires ValidGraph(g) && Path(g, path)
    decreases Measure(g, path), 2, 1
  {
    var o := Last(path);
    var f := g.env[g.ty[o]];
    map k | 0 <= k < |f| && f[k].name in g.props[o] :: f[k].name := UnfoldProp(g, path, k)
  }

  ghost function UnfoldProp(g: Graph, path: seq<nat>, k: nat): Value
    requires ValidGraph(g) && Path(g, path) && k < |g.env[g.ty[Last(path)]]|
    requires g.env[g.ty[Last(path)]][k].name in g.props[Last(path)]
    decreases Measure(g, path), 2, 0
  {
    var o := Last(path);
    var f := g.env[g.ty[o]][k];
    FieldTargets(g, o, k);
    if f.optional && NullRef(g.props[o][f.name]) then g.props[o][f.name].v
    else Unfold(g, path, f.ty, g.props[o][f.name])
  }

  // ---------------------------------------------------------------------------
  // What is written is its document
  // ---------------------------------------------------------------------------

  /** The path is a walk from the root, and every object mentioned here is referred to from its end. */
  ghost predicate Onward(g: Graph, root: nat, path: seq<nat>, r: Ref) {
    && Acyclic(g, root) && Walk(g, path) && path[0] == root
    && forall o :: Mentions(r, o) ==> RefersTo(g, Last(path), o)
  }

  lemma {:induction false} UnfoldExact(g: Graph, root: nat, path: seq<nat>, ty: Ty, r: Ref)
    requires ValidGraph(g) && Path(g, path) && GoodTy(g.env, ty) && RefHas(g, ty, r)
    requires RefsOf(ty) <= Targets(g.env, g.ty[Last(path)]) && Onward(g, root, path, r)
    ensures HasType(g.env, ty, Unfold(g, path, ty, r))
    ensures CutWire(g, path, ty, r) == Some(ToWire(g.env, ty, Unfold(g, path, ty, r)))
    decreases Measure(g, path), 1, TySize(ty), r
  {
    match ty
    case TObject(id) =>
      assert Mentions(r, r.o);
      NotBack(g, root, path, r.o);
      Descend(g, path, r.o);
      UnfoldFieldsExact(g, root, path + [r.o], 0);
    case TArray(t) => UnfoldElemsExact(g, root, path, t, r.items, UnfoldElems(g, path, t, r.items), 0);
    case TNullable(t) => if !NullRef(r) { UnfoldExact(g, root, path, t, r); }
    case _ =>
  }

  lemma {:induction false} UnfoldElemsExact(g: Graph, root: nat, path: seq<nat>, ty: Ty, rs: Refs, vs: seq<Value>,
                                            i: nat)
    requires ValidGraph(g) && Path(g, path) && GoodTy(g.env, ty) && RefsHave(g, ty, rs)
    requires RefsOf(ty) <= Targets(g.env, g.ty[Last(path)]) && Onward(g, root, path, List(rs))
    requires i <= |vs| && vs[i..] == UnfoldElems(g, path, ty, rs)
    ensures HasElems(g.env, ty, VArr(vs), i)
    ensures CutElems(g, path, ty, rs, i) == ElemsDoc(g.env, ty, VArr(vs), i)
    decreases Measure(g, path), 1, TySize(ty), rs
  {
    if rs.RCons? {
      assert vs[i] == vs[i..][0] && vs[i + 1..] == vs[i..][1..];
      forall o | Mentions(rs.head, o) || MentionsAny(rs.tail, o) ensures RefersTo(g, Last(path), o) {
        assert Mentions(List(rs), o);
      }
      UnfoldExact(g, root, path, ty, rs.head);
      UnfoldElemsExact(g, root, path, ty, rs.tail, vs, i + 1);
    }
  }

  lemma {:induction false} PropAt(g: Graph, path: seq<nat>, k: nat)
    requires ValidGraph(g) && Path(g, path) && k < |g.env[g.ty[Last(path)]]|
    ensures var name, m := g.env[g.ty[Last(path)]][k].name, UnfoldProps(g, path);
            && (name in m <==> name in g.props[Last(path)])
            && (name in m ==> m[name] == UnfoldProp(g, path, k))
  {
    hide UnfoldProp, CyclesMarked, Targets, PropHas;
  }

  /** A property that is there and not null, and one that is there and null. */
  lemma {:induction false} UnfoldPropExact(g: Graph, root: nat, path: seq<nat>, k: nat)
    requires ValidGraph(g) && Path(g, path) && k < |g.env[g.ty[Last(path)]]|
    requires Acyclic(g, root) && Walk(g, path) && path[0] == root
    requires g.env[g.ty[Last(path)]][k].name in g.props[Last(path)]
    ensures var f, v := g.env[g.ty[Last(path)]][k], UnfoldProp(g, path, k);
            if f.optional && NullRef(g.props[Last(path)][f.name]) then Nullish(v)
            else HasType(g.env, f.ty, v) && CutProp(g, path, k) == Some(ToWire(g.env, f.ty, v))
                 && (f.optional ==> !Nullish(v))
    decreases Measure(g, path), 2, 0
  {
    hide Acyclic, Walk, Targets, CyclesMarked;
    var o := Last(path);
    var f := g.env[g.ty[o]][k];
    var r := g.props[o][f.name];
    FieldTargets(g, o, k);
    if !(f.optional && NullRef(r)) {
      forall b | Mentions(r, b) ensures RefersTo(g, o, b) { assert PropMentions(g, o, k, b); }
      UnfoldExact(g, root, path, f.ty, r);
      if !NullRef(r) { NotNull(g, path, f.ty, r); }
    }
  }

  lemma {:induction false} NotNull(g: Graph, path: seq<nat>, ty: Ty, r: Ref)
    requires ValidGraph(g) && Path(g, path) && GoodTy(g.env, ty) && RefHas(g, ty, r)
    requires RefsOf(ty) <= Targets(g.env, g.ty[Last(path)]) && !NullRef(r) && CutWire(g, path, ty, r).Some?
    ensures !Nullish(Unfold(g, path, ty, r))
  {
  }

  lemma {:induction false} UnfoldFieldsExact(g: Graph, root: nat, path: seq<nat>, k: nat)
    requires ValidGraph(g) && Path(g, path) && k <= |g.env[g.ty[Last(path)]]|
    requires Acyclic(g, root) && Walk(g, path) && path[0] == root
    ensures var f, v := g.env[g.ty[Last(path)]], VObj(UnfoldProps(g, path));
            HasFields(g.env, f, v, k) && CutDoc(g, path, k) == FieldsDoc(g.env, f, v, k)
    decreases Measure(g, path), 2, |g.env[g.ty[Last(path)]]| - k
  {
    hide Acyclic, Walk, Targets, CyclesMarked, GoodEnv, UnfoldProps, UnfoldProp, HasType, ToWire;
    var o := Last(path);
    if k < |g.env[g.ty[o]]| {
      UnfoldFieldsExact(g, root, path, k + 1);
      FieldTargets(g, o, k);
      PropAt(g, path, k);
      if g.env[g.ty[o]][k].name in g.props[o] { UnfoldPropExact(g, root, path, k); }
    }
  }

  lemma {:induction false} RootWalk(g: Graph, root: nat)
    requires ValidGraph(g) && root in g.ty
    ensures Path(g, [root]) && Walk(g, [root]) && Last([root]) == root
  {
  }

  /**
   * The tree of a graph without cycles is the document of the value it unfolds to, a value of the root's type: nothing
   * is left out, and its serialization is that of the value.
   */
  lemma {:induction false} AcyclicIsTyped(g: Graph, root: nat)
    requires ValidGraph(g) && root in g.ty && Acyclic(g, root)
    ensures Path(g, [root]) && Last([root]) == root
    ensures var id, v := g.ty[root], VObj(UnfoldProps(g, [root]));
            HasType(g.env, TObject(id), v) && GraphTree(g, root) == ToDoc(g.env, id, v)
  {
    hide Acyclic, Walk, Path;
    RootWalk(g, root);
    UnfoldFieldsExact(g, root, [root], 0);
  }
}
