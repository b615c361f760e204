/**
 * The shared serialization buffer and its growth. Serializing into it is as good as writing into an unbounded
 * buffer: the outcome depends on the script of the value alone, not on the buffer found.
 */
module Growth {
  import opened Bytes
  import opened Wire
  import opened Types
  import opened Target
  import opened Serializer
  import opened Untyped
  import opened Cycles

  const INITIAL_SIZE: nat := 1024 * 1024
  const RETAINED_SIZE: nat := 16 * 1024 * 1024
  /** A document's length is an int32. */
  const MAX_SIZE: nat := 0x7fff_ffff

  /** What to serialize: a typed tree, a typed object graph, or an untyped array or object at the root. */
  datatype Job =
    | TypedJob(id: nat, v: Value)
    | GraphJob(g: Graph, root: nat)
    | ArrayJob(items: Items)
    | ObjectJob(props: Props)

  ghost predicate IsJob(env: Env, job: Job) {
    && GoodEnv(env)
    && (job.TypedJob? ==> job.id < |env| && HasType(env, TObject(job.id), job.v))
    && (job.GraphJob? ==> ValidGraph(job.g) && job.root in job.g.ty)
  }

  ghost function ScriptOf(env: Env, e: Engine, job: Job): Script
    requires IsJob(env, job)
  {
    match job
    case TypedJob(id, v) => EmitDoc(env, id, v)
    case GraphJob(g, root) => GraphScript(g, root)
    case ArrayJob(items) => Framed(ItemsScript(e, items, 0))
    case ObjectJob(props) => Framed(PropsScript(e, props))
  }

  lemma {:induction false} ScriptReaches(env: Env, e: Engine, job: Job)
    requires IsJob(env, job)
    ensures ScriptOf(env, e, job).far >= 4
  {
    match job
    case TypedJob(id, v) => EmitDocExact(env, id, v);
    case GraphJob(g, root) => GraphExact(g, root);
    case ArrayJob(items) => ItemsExact(e, items, 0);
    case ObjectJob(props) => PropsExact(e, props);
  }

  datatype Failure = NoFailure | Overflow | BadIdentifier | TooLarge

  /** The outcome an unbounded buffer would give, with the two limits of the format. */
  function Verdict(s: Script): Failure {
    if s.far > MAX_SIZE then Overflow
    else if s.bad then BadIdentifier
    else if |s.bytes| > MAX_SIZE then TooLarge
    else NoFailure
  }

  /** Beyond 2^31-1 bytes the stores of a script overflow, and otherwise a bad identifier or the size may stop it. */
  lemma {:induction false} VerdictIff(s: Script)
    ensures Verdict(s) == Overflow <==> s.far > 2147483647
    ensures Verdict(s) == BadIdentifier <==> s.far <= 2147483647 && s.bad
    ensures Verdict(s) == TooLarge <==> s.far <= 2147483647 && !s.bad && |s.bytes| > 2147483647
  {
  }

  class BufferPool {
    const env: Env
    const e: Engine
    const guard: CycleGuard
    /** sharedBuffer */
    var shared: array<byte>

    ghost predicate Sound()
      reads this
    {
      GoodEnv(env) && INITIAL_SIZE <= shared.Length <= RETAINED_SIZE
    }

    /** Between calls no object is marked as being serialized. */
    ghost predicate Valid()
      reads this, guard
    {
      Sound() && guard.seen == {}
    }

    constructor (env: Env, e: Engine)
      requires GoodEnv(env)
      ensures Valid() && this.env == env && this.e == e && fresh(shared) && fresh(guard)
      ensures shared.Length == 1048576
    {
      this.env, this.e := env, e;
      guard := new CycleGuard();
      shared := new byte[INITIAL_SIZE](_ => 0);
    }

    /** allocateSerializeBuffer: doubled until large enough; kept as the shared buffer up to 16 MB. */
    method Allocate(minSize: nat) returns (ok: bool, buffer: array<byte>)
      requires Sound()
      modifies this`shared
      ensures Sound() && shared.Length >= old(shared.Length)
      ensures ok <==> minSize <= 0x7fff_ffff
      ensures ok ==> fresh(buffer) && minSize <= buffer.Length <= 0x7fff_ffff
      ensures ok ==> buffer.Length == old(shared.Length) || buffer.Length < 2 * minSize
      ensures !ok ==> buffer == shared
      ensures shared == if ok && buffer.Length <= 16777216 then buffer else old(shared)
    {
      if minSize > MAX_SIZE { return false, shared; }
      var next := shared.Length;
      while next < minSize
        invariant shared.Length <= next <= MAX_SIZE && (next == shared.Length || next < 2 * minSize)
        decreases MAX_SIZE - next
      {
        next := if next * 2 < MAX_SIZE then next * 2 else MAX_SIZE;
      }
      ok := true;
      buffer := new byte[next](_ => 0);
      if next <= RETAINED_SIZE { shared := buffer; }
    }

    method Write(job: Job, buffer: array<byte>) returns (st: Status, size: int)
      requires IsJob(env, job) && buffer.Length <= MAX_SIZE && guard.seen == {}
      modifies buffer, guard
      ensures Wrote([], buffer[..], ScriptOf(env, e, job), st, size)
      ensures st == Fine || !job.GraphJob? ==> guard.seen == {}
    {
      hide ValidGraph, Wrote, Framed, ItemsScript, PropsScript, EmitDoc, GraphScript, HasType;
      EmptyPending(buffer[..]);
      match job
      case TypedJob(id, v) => st, size := SerializeDocument(env, buffer, 0, id, v, []);
      case GraphJob(g, root) => st, size := guard.Root(g, buffer, root);
      case ArrayJob(items) => st, size := SerializeAnyArray(e, buffer, 0, items, []);
      case ObjectJob(props) => st, size := SerializeAnyObject(e, buffer, 0, props, []);
    }

    /** serializeWithGrowth: the seen set is cleared before every retry, so every attempt starts with an empty one. */
    method SerializeWithGrowth(job: Job) returns (failure: Failure, buffer: array<byte>, size: int)
      requires Valid() && IsJob(env, job)
      modifies this`shared, shared, guard
      ensures Sound() && shared.Length >= old(shared.Length) && (shared == old(shared) || fresh(shared))
      ensures buffer == shared || fresh(buffer)
      ensures failure == Verdict(ScriptOf(env, e, job))
      ensures failure == NoFailure ==>
              var s := ScriptOf(env, e, job);
              size == |s.bytes| <= buffer.Length && buffer[..size] == s.bytes
      ensures failure == NoFailure || !job.GraphJob? ==> guard.seen == {}
    {
      hide ScriptOf, HasType, ValidGraph, IsJob;
      ghost var s := ScriptOf(env, e, job);
      ScriptReaches(env, e, job);
      buffer := shared;
      while true
        invariant Valid() && shared.Length >= old(shared.Length) && (shared == old(shared) || fresh(shared))
        invariant buffer == shared || fresh(buffer)
        invariant buffer.Length <= MAX_SIZE
        decreases MAX_SIZE - buffer.Length
      {
        var st;
        st, size := Write(job, buffer);
        match st
        case RangeError =>
          if buffer.Length >= MAX_SIZE { return Overflow, buffer, 0; }
          guard.Clear();
          var ok;
          ok, buffer := Allocate(if buffer.Length * 2 < MAX_SIZE then buffer.Length * 2 else MAX_SIZE);
        case BadText => return BadIdentifier, buffer, 0;
        case Fine =>
          assert [] + s.bytes == s.bytes;
          if size <= buffer.Length {
            assert buffer[..size] == s.bytes;
            return NoFailure, buffer, size;
          }
          guard.Clear();
          var ok;
          ok, buffer := Allocate(size);
          if !ok { return TooLarge, buffer, 0; }
      }
    }

    /** runSerialize: after an error the seen set is cleared, so no call leaves marks for the next one. */
    method RunSerialize(job: Job) returns (failure: Failure, buffer: array<byte>, size: int)
      requires Valid() && IsJob(env, job)
      modifies this`shared, shared, guard
      ensures Valid() && shared.Length >= old(shared.Length) && (shared == old(shared) || fresh(shared))
      ensures buffer == shared || fresh(buffer)
      ensures failure == Verdict(ScriptOf(env, e, job))
      ensures failure == NoFailure ==>
              var s := ScriptOf(env, e, job);
              size == |s.bytes| <= buffer.Length && buffer[..size] == s.bytes
    {
      hide ScriptOf, IsJob;
      failure, buffer, size := SerializeWithGrowth(job);
      if failure != NoFailure { guard.Clear(); }
    }

    /**
     * An object graph with shared and cyclic references: whatever buffer was found and whatever was serialized before,
     * the bytes are the encoding of the tree in which exactly the references to own ancestors are left out.
     */
    method SerializeGraph(g: Graph, root: nat) returns (failure: Failure, buffer: array<byte>, size: int)
      requires Valid() && ValidGraph(g) && root in g.ty
      modifies this`shared, shared, guard
      ensures Valid() && (buffer == shared || fresh(buffer))
      ensures failure == Verdict(GraphScript(g, root))
      ensures failure == NoFailure ==>
                0 <= size <= buffer.Length && buffer[..size] == EncDoc(GraphTree(g, root)) && size < TWO31
    {
      hide ValidGraph, GraphScript, GraphTree;
      GraphExact(g, root);
      failure, buffer, size := RunSerialize(GraphJob(g, root));
    }
  }

  lemma {:induction false} EmptyPending(a: seq<byte>)
    ensures Pending(a, 0, [])
  {
  }
}
