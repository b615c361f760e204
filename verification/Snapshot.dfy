/**
 * Broker snapshots: queues and their messages as a sequence of documents, and the restorer that reads them back
 * through a 32-byte probe. The restorer forgets its read-ahead at every queue; nothing is lost because no document
 * is shorter than the probe.
 */
module Snapshot {
  import opened Bytes
  import opened Wire
  import opened Utf8
  import opened Types
  import opened Serializer
  import opened Stream

  /** An optional property: no such key, a key holding undefined, or a value. */
  datatype Opt<+T> = Absent | Undefined | Given(x: T)

  datatype Hash = Text(s: Str) | Number(n: Num)
  datatype Processing = ExactlyOnce | AtLeastOnce

  datatype Message = Message(
    id: Num,
    state: int,
    hash: Opt<Hash>,
    process: Processing,
    ttl: Opt<Num>,
    delay: Num,
    priority: Opt<Num>,
    lastError: Opt<Str>,
    tries: Num,
    v: seq<byte>)

  datatype Queue = Queue(name: Str, currentId: Num, messages: seq<Message>)

  /** A SnapshotEntry: everything of a queue but its messages, of which it holds the number. */
  datatype Entry = Entry(currentId: Num, name: Str, amount: nat)

  // ---------------------------------------------------------------------------
  // Documents
  // ---------------------------------------------------------------------------

  const TYPE: seq<byte> := [116, 121, 112, 101]
  const CURRENT_ID: seq<byte> := [99, 117, 114, 114, 101, 110, 116, 73, 100]
  const NAME: seq<byte> := [110, 97, 109, 101]
  const AMOUNT: seq<byte> := [97, 109, 111, 117, 110, 116]
  const ID: seq<byte> := [105, 100]
  const STATE: seq<byte> := [115, 116, 97, 116, 101]
  const HASH: seq<byte> := [104, 97, 115, 104]
  const PROCESS: seq<byte> := [112, 114, 111, 99, 101, 115, 115]
  const TTL: seq<byte> := [116, 116, 108]
  const DELAY: seq<byte> := [100, 101, 108, 97, 121]
  const PRIORITY: seq<byte> := [112, 114, 105, 111, 114, 105, 116, 121]
  const LAST_ERROR: seq<byte> := [108, 97, 115, 116, 69, 114, 114, 111, 114]
  const TRIES: seq<byte> := [116, 114, 105, 101, 115]
  const V: seq<byte> := [118]

  function EntryDoc(x: Entry): Doc {
    Cons(TYPE, WInt(0),
    Cons(CURRENT_ID, NumWire(x.currentId),
    Cons(NAME, WString(Encode(x.name)),
    Cons(AMOUNT, NumWire(Int(x.amount)), Nil))))
  }

  /** An optional property in front of the rest: omitted, null, or its value. */
  function OptWire<T>(name: seq<byte>, o: Opt<T>, wire: T -> Wire, rest: Doc): Doc {
    match o
    case Absent => rest
    case Undefined => Cons(name, WNull, rest)
    case Given(x) => Cons(name, wire(x), rest)
  }

  function TextWire(s: Str): Wire { WString(Encode(s)) }

  function HashWire(x: Hash): Wire {
    match x case Text(s) => WString(Encode(s)) case Number(n) => NumWire(n)
  }

  function MessageDoc(m: Message): Doc {
    Cons(ID, NumWire(m.id),
    Cons(STATE, WInt(m.state),
    OptWire(HASH, m.hash, HashWire,
    Cons(PROCESS, WInt(if m.process.ExactlyOnce? then 0 else 1),
    OptWire(TTL, m.ttl, NumWire,
    Cons(DELAY, NumWire(m.delay),
    OptWire(PRIORITY, m.priority, NumWire,
    OptWire(LAST_ERROR, m.lastError, TextWire,
    Cons(TRIES, NumWire(m.tries),
    Cons(V, WBinary(0, m.v), Nil))))))))))
  }

  /** The properties of an entry under their names. */
  lemma {:induction false} EntrySpelled(x: Entry)
    ensures EntryDoc(x) ==
            Cons(Spell("type"), WInt(0), Cons(Spell("currentId"), NumWire(x.currentId),
            Cons(Spell("name"), WString(Encode(x.name)), Cons(Spell("amount"), NumWire(Int(x.amount)), Nil))))
  {
    assert TYPE == Spell("type") && CURRENT_ID == Spell("currentId");
    assert NAME == Spell("name") && AMOUNT == Spell("amount");
  }

  /** The value of the first element of that name. */
  function FirstNamed(d: Doc, name: seq<byte>): Option<Wire> {
    match d
    case Nil => None
    case Cons(n, w, rest) => if n == name then Some(w) else FirstNamed(rest, name)
  }

  /** An optional property: none, null, or the value. */
  function Optionally<T>(o: Opt<T>, wire: T -> Wire): Option<Wire> {
    match o case Absent => None case Undefined => Some(WNull) case Given(x) => Some(wire(x))
  }

  lemma {:induction false} NamesSpelled()
    ensures ID == Spell("id") && STATE == Spell("state") && HASH == Spell("hash") && PROCESS == Spell("process")
    ensures TTL == Spell("ttl") && DELAY == Spell("delay") && PRIORITY == Spell("priority")
    ensures LAST_ERROR == Spell("lastError") && TRIES == Spell("tries") && V == Spell("v")
  {
  }

  lemma {:induction false} NameLengths()
    ensures |ID| == 2 && |STATE| == 5 && |HASH| == 4 && |PROCESS| == 7 && |TTL| == 3 && |DELAY| == 5
    ensures |PRIORITY| == 8 && |LAST_ERROR| == 9 && |TRIES| == 5 && |V| == 1
    ensures STATE[0] == 115 && DELAY[0] == 100 && TRIES[0] == 116
  {
  }

  lemma {:induction false} FirstBehind<T>(name: seq<byte>, o: Opt<T>, wire: T -> Wire, rest: Doc, other: seq<byte>)
    ensures FirstNamed(OptWire(name, o, wire, rest), other) ==
            if name == other && !o.Absent? then Optionally(o, wire) else FirstNamed(rest, other)
  {
  }

  /** The properties of a message under their names, and no others. */
  lemma {:induction false} MessageSpelled(m: Message, name: seq<byte>)
    ensures FirstNamed(MessageDoc(m), name) ==
            if name == Spell("id") then Some(NumWire(m.id))
            else if name == Spell("state") then Some(WInt(m.state))
            else if name == Spell("hash") then Optionally(m.hash, HashWire)
            else if name == Spell("process") then Some(WInt(if m.process == ExactlyOnce then 0 else 1))
            else if name == Spell("ttl") then Optionally(m.ttl, NumWire)
            else if name == Spell("delay") then Some(NumWire(m.delay))
            else if name == Spell("priority") then Optionally(m.priority, NumWire)
            else if name == Spell("lastError") then Optionally(m.lastError, TextWire)
            else if name == Spell("tries") then Some(NumWire(m.tries))
            else if name == Spell("v") then Some(WBinary(0, m.v))
            else None
  {
    hide Spell;
    NamesSpelled();
    NameLengths();
    var d7 := Cons(DELAY, NumWire(m.delay), LaterProps(m));
    LaterSpelled(m, name);
    FirstBehind(TTL, m.ttl, NumWire, d7, name);
    var d6 := OptWire(TTL, m.ttl, NumWire, d7);
    assert FirstNamed(d7, name) == if name == DELAY then Some(NumWire(m.delay)) else FirstNamed(LaterProps(m), name);
    var d5 := Cons(PROCESS, WInt(if m.process.ExactlyOnce? then 0 else 1), d6);
    FirstBehind(HASH, m.hash, HashWire, d5, name);
    var d4 := OptWire(HASH, m.hash, HashWire, d5);
    assert FirstNamed(d5, name) ==
           if name == PROCESS then Some(WInt(if m.process.ExactlyOnce? then 0 else 1)) else FirstNamed(d6, name);
    var d3 := Cons(STATE, WInt(m.state), d4);
    assert FirstNamed(d3, name) == if name == STATE then Some(WInt(m.state)) else FirstNamed(d4, name);
    assert MessageDoc(m) == Cons(ID, NumWire(m.id), d3);
  }

  /** The properties behind the delay. */
  function LaterProps(m: Message): Doc {
    OptWire(PRIORITY, m.priority, NumWire,
    OptWire(LAST_ERROR, m.lastError, TextWire,
    Cons(TRIES, NumWire(m.tries), Cons(V, WBinary(0, m.v), Nil))))
  }

  lemma {:induction false} LaterSpelled(m: Message, name: seq<byte>)
    ensures FirstNamed(LaterProps(m), name) ==
            if name == PRIORITY then Optionally(m.priority, NumWire)
            else if name == LAST_ERROR then Optionally(m.lastError, TextWire)
            else if name == TRIES then Some(NumWire(m.tries))
            else if name == V then Some(WBinary(0, m.v))
            else None
  {
    NameLengths();
    var d9 := Cons(V, WBinary(0, m.v), Nil);
    assert FirstNamed(d9, name) == if name == V then Some(WBinary(0, m.v)) else None;
    var d8 := Cons(TRIES, NumWire(m.tries), d9);
    assert FirstNamed(d8, name) == if name == TRIES then Some(NumWire(m.tries)) else FirstNamed(d9, name);
    FirstBehind(LAST_ERROR, m.lastError, TextWire, d8, name);
    FirstBehind(PRIORITY, m.priority, NumWire, OptWire(LAST_ERROR, m.lastError, TextWire, d8), name);
  }

  ghost predicate IsEntry(x: Entry) { IsNum(x.currentId) && |EncDoc(EntryDoc(x))| < TWO31 }

  ghost predicate IsOptNum(o: Opt<Num>) { o.Given? ==> IsNum(o.x) }

  ghost predicate IsMessage(m: Message) {
    && IsNum(m.id) && IsNum(m.delay) && IsNum(m.tries) && IsOptNum(m.ttl) && IsOptNum(m.priority)
    && |EncDoc(MessageDoc(m))| < TWO31
  }

  lemma {:induction false} FieldSize(name: seq<byte>, w: Wire, rest: Doc)
    ensures |EncFields(Cons(name, w, rest))| == 2 + |name| + |EncVal(w)| + |EncFields(rest)|
  {
    EncFieldsSplit(Cons(name, w, rest));
  }

  lemma {:induction false} NumSize(n: Num)
    requires IsNum(n)
    ensures |EncVal(NumWire(n))| >= 4
  {
  }

  lemma {:induction false} OptSize<T>(name: seq<byte>, o: Opt<T>, wire: T -> Wire, rest: Doc)
    ensures |EncFields(OptWire(name, o, wire, rest))| >= |EncFields(rest)|
  {
    if o.Undefined? { FieldSize(name, WNull, rest); }
    if o.Given? { FieldSize(name, wire(o.x), rest); }
  }

  /** From the field layout: an entry takes at least 53 bytes. */
  lemma {:induction false} EntrySize(x: Entry)
    requires IsEntry(x)
    ensures |EncDoc(EntryDoc(x))| >= 53
  {
    hide EncFields, NumWire;
    var d3 := Cons(AMOUNT, NumWire(Int(x.amount)), Nil);
    var d2 := Cons(NAME, WString(Encode(x.name)), d3);
    var d1 := Cons(CURRENT_ID, NumWire(x.currentId), d2);
    AmountSize(x.amount);
    NumSize(x.currentId);
    FieldSize(AMOUNT, NumWire(Int(x.amount)), Nil);
    FieldSize(NAME, WString(Encode(x.name)), d3);
    FieldSize(CURRENT_ID, NumWire(x.currentId), d2);
    FieldSize(TYPE, WInt(0), d1);
  }

  lemma {:induction false} AmountSize(n: nat)
    ensures |EncVal(NumWire(Int(n)))| == 4
  {
  }

  /** A message takes at least 67 bytes. */
  lemma {:induction false} MessageSize(m: Message)
    requires IsMessage(m)
    ensures |EncDoc(MessageDoc(m))| >= 67
  {
    hide EncFields, NumWire, HashWire;
    var d9 := Cons(V, WBinary(0, m.v), Nil);
    var d8 := Cons(TRIES, NumWire(m.tries), d9);
    var d7 := OptWire(LAST_ERROR, m.lastError, TextWire, d8);
    var d6 := OptWire(PRIORITY, m.priority, NumWire, d7);
    var d5 := Cons(DELAY, NumWire(m.delay), d6);
    var d4 := OptWire(TTL, m.ttl, NumWire, d5);
    var p := WInt(if m.process.ExactlyOnce? then 0 else 1);
    var d3 := Cons(PROCESS, p, d4);
    var d2 := OptWire(HASH, m.hash, HashWire, d3);
    var d1 := Cons(STATE, WInt(m.state), d2);
    FieldSize(V, WBinary(0, m.v), Nil);
    NumSize(m.tries);
    FieldSize(TRIES, NumWire(m.tries), d9);
    OptSize(LAST_ERROR, m.lastError, TextWire, d8);
    OptSize(PRIORITY, m.priority, NumWire, d7);
    NumSize(m.delay);
    FieldSize(DELAY, NumWire(m.delay), d6);
    OptSize(TTL, m.ttl, NumWire, d5);
    FieldSize(PROCESS, p, d4);
    OptSize(HASH, m.hash, HashWire, d3);
    FieldSize(STATE, WInt(m.state), d2);
    NumSize(m.id);
    FieldSize(ID, NumWire(m.id), d1);
  }

  // ---------------------------------------------------------------------------
  // Writing
  // ---------------------------------------------------------------------------

  function EntryOf(q: Queue): Entry { Entry(q.currentId, q.name, |q.messages|) }

  function MessageBytes(ms: seq<Message>): seq<byte> {
    if ms == [] then [] else EncDoc(MessageDoc(ms[0])) + MessageBytes(ms[1..])
  }

  function QueueBytes(q: Queue): seq<byte> { EncDoc(EntryDoc(EntryOf(q))) + MessageBytes(q.messages) }

  function SnapshotBytes(qs: seq<Queue>): seq<byte> {
    if qs == [] then [] else QueueBytes(qs[0]) + SnapshotBytes(qs[1..])
  }

  lemma {:induction false} MessageBytesPush(ms: seq<Message>, m: Message)
    ensures MessageBytes(ms + [m]) == MessageBytes(ms) + EncDoc(MessageDoc(m))
  {
    hide EncDoc, MessageDoc;
    if ms == [] {
      assert ms + [m] == [m] && [m][1..] == [];
      assert MessageBytes([m]) == EncDoc(MessageDoc(m)) + [];
    } else {
      MessageBytesPush(ms[1..], m);
      assert (ms + [m])[1..] == ms[1..] + [m];
    }
  }

  lemma {:induction false} SnapshotBytesPush(qs: seq<Queue>, q: Queue)
    ensures SnapshotBytes(qs + [q]) == SnapshotBytes(qs) + QueueBytes(q)
  {
    hide EncDoc, EntryDoc, MessageBytes;
    if qs == [] {
      assert qs + [q] == [q] && [q][1..] == [];
      assert SnapshotBytes([q]) == QueueBytes(q) + [];
    } else {
      SnapshotBytesPush(qs[1..], q);
      assert (qs + [q])[1..] == qs[1..] + [q];
    }
  }

  // ---------------------------------------------------------------------------
  // Reading
  // ---------------------------------------------------------------------------

  const PROBE: nat := 32

  function Min(a: nat, b: nat): nat { if a < b then a else b }

  /** A file read sequentially: at most as many bytes as asked for, fewer only at its end. */
  class Reader {
    const src: seq<byte>
    var pos: nat

    constructor (src: seq<byte>)
      ensures this.src == src && pos == 0
    {
      this.src, pos := src, 0;
    }

    ghost predicate Valid()
      reads this
    {
      pos <= |src|
    }

    ghost function Rest(): seq<byte>
      requires Valid()
      reads this
    {
      src[pos..]
    }

    method Read(size: nat) returns (bytes: seq<byte>)
      requires Valid()
      modifies this`pos
      ensures Valid() && |bytes| == Min(size, |old(Rest())|) && bytes + Rest() == old(Rest())
    {
      var n := Min(size, |src| - pos);
      bytes := src[pos..pos + n];
      assert bytes + src[pos + n..] == src[pos..];
      pos := pos + n;
    }
  }

  function Larger(a: nat, b: nat): nat { if a < b then b else a }

  /** The loop of ensureDocumentIsInBuffer at its head, with what the reader still has; or what it returned. */
  datatype Probe =
    | Looping(buffer: seq<byte>, size: nat, rest: seq<byte>)
    | Returned(buffer: seq<byte>, size: nat, rest: seq<byte>)

  function Start(buffer: seq<byte>, rest: seq<byte>): Probe {
    Looping(buffer, if |buffer| >= 4 then ReadU32(buffer, 0) else 0, rest)
  }

  /** One turn of the loop. */
  function Next(p: Probe): Probe {
    match p
    case Returned(_, _, _) => p
    case Looping(buffer, size, rest) =>
      if size != 0 && |buffer| >= size then Returned(buffer, size, rest)
      else
        var n := Min(if size != 0 then size - |buffer| else PROBE, |rest|);
        var b := buffer + rest[..n];
        if b == [] then Returned([], 0, rest[n..])
        else Looping(b, if size == 0 && |b| >= 4 then ReadU32(b, 0) else size, rest[n..])
  }

  function After(p: Probe, n: nat): Probe { if n == 0 then p else Next(After(p, n - 1)) }

  /** The stream is at its end, or goes on with a size that is not 0 and that it covers. */
  ghost predicate Ends(all: seq<byte>) { all == [] || (|all| >= 4 && 1 <= ReadU32(all, 0) <= |all|) }

  /** The bytes of the stream are in the buffer or still to be read; the size is known as soon as its bytes are. */
  ghost predicate Probing(p: Probe, all: seq<byte>) {
    && p.buffer + p.rest == all
    && (p.Looping? ==> p.size == if |p.buffer| >= 4 then ReadU32(all, 0) else 0)
    && (p.Returned? ==> Ends(all))
  }

  lemma {:induction false} PrefixSize(s: seq<byte>, t: seq<byte>)
    requires |s| >= 4 && s <= t
    ensures ReadU32(t, 0) == ReadU32(s, 0)
  {
    SamePrefix(s, t, 0, 4);
  }

  lemma {:induction false} StartProbing(buffer: seq<byte>, rest: seq<byte>)
    ensures Probing(Start(buffer, rest), buffer + rest)
  {
    if |buffer| >= 4 { PrefixSize(buffer, buffer + rest); }
  }

  /** A turn returns, reads something, or has come to the end of the stream and repeats itself. */
  lemma {:induction false} NextProbing(p: Probe, all: seq<byte>)
    requires Probing(p, all)
    ensures Probing(Next(p), all)
    ensures p.Looping? && Next(p).Looping? ==> |Next(p).rest| < |p.rest| || (p.rest == [] && Next(p) == p)
    ensures p.Looping? && p.rest == [] ==> (Next(p).Returned? <==> Ends(all))
  {
    hide ReadU32;
    if p.Looping? && !(p.size != 0 && |p.buffer| >= p.size) {
      var n := Min(if p.size != 0 then p.size - |p.buffer| else PROBE, |p.rest|);
      var b := p.buffer + p.rest[..n];
      assert b + p.rest[n..] == all;
      if |b| >= 4 { PrefixSize(b, all); }
      if p.rest == [] { assert b == p.buffer == all; }
    }
  }

  lemma {:induction false} AfterProbing(p: Probe, all: seq<byte>, n: nat)
    requires Probing(p, all)
    ensures Probing(After(p, n), all)
    ensures After(p, n).Looping? ==> |After(p, n).rest| <= |p.rest| - n || After(p, n).rest == []
  {
    hide Ends, ReadU32;
    if n > 0 {
      AfterProbing(p, all, n - 1);
      NextProbing(After(p, n - 1), all);
    }
  }

  ghost predicate Terminates(p: Probe) { exists n: nat :: After(p, n).Returned? }

  /** However the stream is divided between buffer and reader, the loop ends exactly on the streams of `Ends`. */
  lemma {:induction false} EndsIff(buffer: seq<byte>, rest: seq<byte>)
    ensures Terminates(Start(buffer, rest)) <==> Ends(buffer + rest)
  {
    hide Ends, Start, Next;
    var p, all, n := Start(buffer, rest), buffer + rest, |rest|;
    StartProbing(buffer, rest);
    if Terminates(p) {
      var k: nat :| After(p, k).Returned?;
      AfterProbing(p, all, k);
    }
    if Ends(all) {
      AfterProbing(p, all, |p.rest|);
      NextProbing(After(p, |p.rest|), all);
      assert After(p, |p.rest| + 1).Returned? || After(p, |p.rest|).Returned?;
    }
  }

  /** On any other stream all bytes are read, and from then on every turn leaves the loop as it was. */
  lemma {:induction false} NeverEnds(buffer: seq<byte>, rest: seq<byte>, n: nat)
    requires !Ends(buffer + rest) && n >= |rest|
    ensures var p := After(Start(buffer, rest), n);
            p.Looping? && p.rest == [] && p.buffer == buffer + rest && Next(p) == p
  {
    hide Ends, Start, Next;
    StartProbing(buffer, rest);
    AfterProbing(Start(buffer, rest), buffer + rest, n);
    NextProbing(After(Start(buffer, rest), n), buffer + rest);
    StartRest(buffer, rest);
  }

  lemma {:induction false} StartRest(buffer: seq<byte>, rest: seq<byte>)
    ensures Start(buffer, rest) == Looping(buffer, Start(buffer, rest).size, rest)
    ensures Start(buffer, rest).size == if |buffer| >= 4 then ReadU32(buffer, 0) else 0
  {
  }

  lemma {:induction false} AfterNext(p: Probe, n: nat)
    ensures After(p, 0) == p && After(p, n + 1) == Next(After(p, n))
  {
  }

  /**
   * How much ensureDocumentIsInBuffer has in its buffer at the end, having started with `had` bytes of `available`:
   * the document, or what was there, or what the probe fetched to learn the size.
   */
  function Fetched(had: nat, size: nat, available: nat): nat {
    Larger(size, Larger(had, if had < 4 then Min(had + PROBE, available) else 0))
  }

  /** The body of the loop; `spins` when the turn changed nothing, so that every further turn would not either. */
  method ProbeTurn(buffer: seq<byte>, size: nat, reader: Reader, ghost all: seq<byte>)
    returns (b: seq<byte>, z: nat, empty: bool, spins: bool)
    requires reader.Valid() && Probing(Looping(buffer, size, reader.Rest()), all) && (size == 0 || |buffer| < size)
    modifies reader`pos
    ensures reader.Valid() && b + reader.Rest() == all
    ensures var q := Next(Looping(buffer, size, old(reader.Rest())));
            && Probing(q, all)
            && q == (if empty then Returned([], 0, reader.Rest()) else Looping(b, z, reader.Rest()))
            && (empty ==> b == [] && z == 0 && all == [])
            && (spins ==> !empty && reader.Rest() == [] && q == Next(q) && !Ends(all))
    ensures !spins && !empty ==>
              |b| == |buffer| + Min(if size != 0 then size - |buffer| else PROBE, |old(reader.Rest())|) > |buffer|
  {
    hide ReadU32, Ends;
    ghost var p := Looping(buffer, size, reader.Rest());
    NextProbing(p, all);
    var bytes := reader.Read(if size != 0 then size - |buffer| else 32);
    spins := bytes == [] && buffer != [];
    b, z, empty := buffer + bytes, size, false;
    if |b| == 0 { return [], 0, true, false; }
    if z == 0 && |b| >= 4 { z := ReadU32(b, 0); }
  }

  /**
   * ensureDocumentIsInBuffer, for any stream. Where the program would go on forever the method reports that it spins,
   * in a state that a further turn does not change.
   */
  method EnsureDocument(buffer0: seq<byte>, reader: Reader)
    returns (buffer: seq<byte>, size: nat, spins: bool, ghost turns: nat)
    requires reader.Valid()
    modifies reader`pos
    ensures reader.Valid() && buffer + reader.Rest() == buffer0 + old(reader.Rest())
    ensures spins <==> !Ends(buffer0 + old(reader.Rest()))
    ensures var p := After(Start(buffer0, old(reader.Rest())), turns);
            if spins then p == Looping(buffer, size, []) == Next(p) else p == Returned(buffer, size, reader.Rest())
    ensures !spins ==>
              var all := buffer0 + old(reader.Rest());
              if all == [] then size == 0 && buffer == []
              else size == ReadU32(all, 0) && |buffer| == Fetched(|buffer0|, size, |all|)
  {
    hide ReadU32, Start, After, Next, Ends;
    ghost var all, rest0 := buffer0 + reader.Rest(), reader.Rest();
    ghost var start := Start(buffer0, rest0);
    ghost var probed := Larger(|buffer0|, if |buffer0| < 4 then Min(|buffer0| + PROBE, |all|) else 0);
    StartProbing(buffer0, rest0);
    buffer, size := buffer0, if |buffer0| >= 4 then ReadU32(buffer0, 0) else 0;
    turns := 0;
    StartRest(buffer0, rest0);
    AfterNext(start, 0);
    while size == 0 || |buffer| < size
      invariant reader.Valid() && After(start, turns) == Looping(buffer, size, reader.Rest())
      invariant Probing(After(start, turns), all)
      invariant size != 0 ==> probed <= |buffer| <= Larger(size, probed)
      invariant size == 0 ==> buffer == buffer0 || |buffer| >= probed
      decreases |reader.Rest()|
    {
      AfterNext(start, turns);
      var empty;
      buffer, size, empty, spins := ProbeTurn(buffer, size, reader, all);
      turns := turns + 1;
      if empty || spins { return; }
    }
    NextProbing(After(start, turns), all);
    AfterNext(start, turns);
    LoopExits(buffer, size, reader.Rest());
    turns := turns + 1;
    spins := false;
  }

  lemma {:induction false} LoopExits(buffer: seq<byte>, size: nat, rest: seq<byte>)
    requires size != 0 && |buffer| >= size
    ensures Next(Looping(buffer, size, rest)) == Returned(buffer, size, rest)
  {
  }

  /** Nothing is read beyond a document exactly when it is at least as long as the probe, or the last one. */
  lemma {:induction false} ReadAheadIff(size: nat, available: nat)
    requires 1 <= size <= available && 4 <= available
    ensures Fetched(0, size, available) == size <==> size >= 32 || size == available
  {
  }

  // --- restoring

  datatype Restored = Restored(name: Str, currentId: Num, messages: seq<Message>, hashes: set<Hash>)

  datatype Problem = NoProblem | MissingHash | MissingTtl | Spins

  predicate TrueNum(n: Num) { n != Int(0) && !n.NaN? && n != Dbl(NEG_ZERO) }

  /** The empty string and 0 count as a missing hash. */
  predicate TrueHash(x: Hash) {
    match x case Text(s) => s != [] case Number(n) => TrueNum(n)
  }

  predicate HasHash(m: Message) { m.hash.Given? && TrueHash(m.hash.x) }

  predicate HasTtl(m: Message) { m.ttl.Given? && TrueNum(m.ttl.x) }

  function ProblemOf(m: Message): Problem {
    if m.process != ExactlyOnce then NoProblem
    else if !HasHash(m) then MissingHash
    else if !HasTtl(m) then MissingTtl
    else NoProblem
  }

  function FirstProblem(ms: seq<Message>): Problem {
    if ms == [] then NoProblem
    else if ProblemOf(ms[0]) != NoProblem then ProblemOf(ms[0]) else FirstProblem(ms[1..])
  }

  function FirstProblemIn(qs: seq<Queue>): Problem {
    if qs == [] then NoProblem
    else if FirstProblem(qs[0].messages) != NoProblem then FirstProblem(qs[0].messages) else FirstProblemIn(qs[1..])
  }

  /** The dedup hashes of the exactly-once messages. */
  function HashesOf(ms: seq<Message>): set<Hash> {
    if ms == [] then {}
    else (if ms[0].process == ExactlyOnce && ms[0].hash.Given? then {ms[0].hash.x} else {}) + HashesOf(ms[1..])
  }

  /** Numbers that are false in a condition. */
  predicate FalseNum(n: Num) { n.NaN? || n == Int(0) || n == Dbl([0, 0, 0, 0, 0, 0, 0, 128]) }

  /** Hashes that are false in a condition. */
  predicate FalseHash(x: Hash) { match x case Text(s) => |s| == 0 case Number(n) => FalseNum(n) }

  /** What is wrong with a message: only exactly-once messages need a hash and a ttl, the hash first. */
  lemma {:induction false} ProblemIff(m: Message)
    ensures ProblemOf(m) == MissingHash <==> m.process == ExactlyOnce && !(m.hash.Given? && !FalseHash(m.hash.x))
    ensures ProblemOf(m) == MissingTtl <==>
            m.process == ExactlyOnce && m.hash.Given? && !FalseHash(m.hash.x) && !(m.ttl.Given? && !FalseNum(m.ttl.x))
    ensures ProblemOf(m) != Spins
  {
  }

  /** Of several problems the first counts. */
  lemma {:induction false} FirstProblemIff(ms: seq<Message>, k: nat)
    requires k < |ms| && ProblemOf(ms[k]) != NoProblem && forall j :: 0 <= j < k ==> ProblemOf(ms[j]) == NoProblem
    ensures FirstProblem(ms) == ProblemOf(ms[k])
  {
    if k > 0 { FirstProblemIff(ms[1..], k - 1); }
  }

  lemma {:induction false} NoProblemIff(ms: seq<Message>)
    ensures FirstProblem(ms) == NoProblem <==> forall k :: 0 <= k < |ms| ==> ProblemOf(ms[k]) == NoProblem
  {
    if ms != [] { NoProblemIff(ms[1..]); }
  }

  /** The hashes to remember are those of the exactly-once messages. */
  lemma {:induction false} HashesIff(ms: seq<Message>, x: Hash)
    ensures x in HashesOf(ms) <==> exists k :: 0 <= k < |ms| && ms[k].process == ExactlyOnce && ms[k].hash == Given(x)
  {
    if ms != [] {
      HashesIff(ms[1..], x);
      if x in HashesOf(ms[1..]) {
        var k :| 0 <= k < |ms[1..]| && ms[1..][k].process == ExactlyOnce && ms[1..][k].hash == Given(x);
        assert ms[k + 1] == ms[1..][k];
      }
    }
  }

  function RestoredOf(q: Queue): Restored { Restored(q.name, q.currentId, q.messages, HashesOf(q.messages)) }

  /** state.queues after restoring, in order; a later queue of the same name replaces an earlier one. */
  function RestoredMap(qs: seq<Queue>): map<Str, Restored> {
    if qs == [] then map[] else RestoredMap(qs[..|qs| - 1])[qs[|qs| - 1].name := RestoredOf(qs[|qs| - 1])]
  }

  lemma {:induction false} DocHead(d: Doc, rest: seq<byte>)
    requires |EncDoc(d)| < TWO31
    ensures |EncDoc(d) + rest| >= 5 && ReadU32(EncDoc(d) + rest, 0) == |EncDoc(d)|
  {
    hide ReadLe, LeBytes, EncFields;
    var f := EncFields(d);
    var s := EncDoc(d) + rest;
    assert s == Le32(|f| + 5) + (f + [0] + rest);
    assert s[0..4] == Le32(|f| + 5);
    ReadLe32(s, 0, |f| + 5);
  }

  /** A document of which only the first bytes are there is waited for forever, unless nothing or all of it is there. */
  lemma {:induction false} CutDocumentIff(s: seq<byte>, d: Doc)
    requires s <= EncDoc(d) && |EncDoc(d)| < TWO31
    ensures Ends(s) <==> s == [] || s == EncDoc(d)
  {
    hide EncDoc, ReadU32;
    DocHead(d, []);
    assert EncDoc(d) + [] == EncDoc(d);
    if |s| >= 4 { PrefixSize(s, EncDoc(d)); }
  }

  /** The reader stands before a document and what follows it, or has only the first bytes of it left. */
  ghost predicate Before(s: seq<byte>, d: Doc, rest: seq<byte>) { s == EncDoc(d) + rest || s < EncDoc(d) }

  /** Reading a document of at least 32 bytes leaves no read-ahead; at the end of the file there is no document. */
  method NextDocument(buffer0: seq<byte>, reader: Reader, ghost d: Doc, ghost rest: seq<byte>)
    returns (buffer: seq<byte>, size: nat, spins: bool)
    requires reader.Valid() && buffer0 == []
    requires reader.Rest() != [] ==> PROBE <= |EncDoc(d)| < TWO31 && Before(reader.Rest(), d, rest)
    modifies reader`pos
    ensures reader.Valid()
    ensures spins <==> old(reader.Rest()) != [] && old(reader.Rest()) < EncDoc(d)
    ensures old(reader.Rest()) == [] ==> size == 0 && reader.Rest() == []
    ensures old(reader.Rest()) == EncDoc(d) + rest ==>
              reader.Rest() == rest && buffer == EncDoc(d) && size == |EncDoc(d)|
  {
    hide EncDoc, ReadU32, Start, Next, After;
    ghost var all := reader.Rest();
    assert buffer0 + all == all;
    if all == EncDoc(d) + rest { DocHead(d, rest); } else if all != [] { CutDocumentIff(all, d); }
    ghost var turns;
    buffer, size, spins, turns := EnsureDocument(buffer0, reader);
    if all == EncDoc(d) + rest {
      assert buffer == all[..size] && reader.Rest() == all[size..];
    }
  }
}
