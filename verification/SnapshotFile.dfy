/**
 * Writing a snapshot with the typed serializer and its growing buffer, and restoring it with the typed deserializer and
 * its learned shapes. The file may be cut off anywhere; what is in it is restored, and the restorer spins exactly if it
 * ends within a document.
 */
module SnapshotFile {
  import opened Bytes
  import opened Wire
  import opened Utf8
  import opened Types
  import opened Serializer
  import opened RoundTrip
  import opened Growth
  import opened Shapes
  import EndToEnd
  import opened Snapshot
  import opened SnapshotTypes

  // ---------------------------------------------------------------------------
  // Writing
  // ---------------------------------------------------------------------------

  /** What serializing an entry or a message comes to. */
  ghost function EntryVerdict(h: Host, x: Entry): Failure
    requires LawfulHost(h) && GoodEntry(h, x)
  {
    EntryReadsBack(h, x);
    Verdict(EmitDoc(SnapshotEnv(), ENTRY, EntryValue(x)))
  }

  ghost function MessageVerdict(h: Host, m: Message): Failure
    requires LawfulHost(h) && GoodMessage(h, m)
  {
    MessageReadsBack(h, m);
    Verdict(EmitDoc(SnapshotEnv(), MESSAGE, MessageValue(m)))
  }

  ghost predicate GoodQueue(h: Host, q: Queue) {
    GoodEntry(h, EntryOf(q)) && forall i :: 0 <= i < |q.messages| ==> GoodMessage(h, q.messages[i])
  }

  /** Every document fits a buffer. */
  ghost predicate Savable(h: Host, q: Queue)
    requires LawfulHost(h) && GoodQueue(h, q)
  {
    && EntryVerdict(h, EntryOf(q)) == NoFailure
    && forall i :: 0 <= i < |q.messages| ==> MessageVerdict(h, q.messages[i]) == NoFailure
  }

  method WriteDocument(pool: BufferPool, id: nat, v: Value, ghost d: Doc) returns (ok: bool, bytes: seq<byte>)
    requires pool.Valid() && pool.env == SnapshotEnv() && id < |pool.env|
    requires HasType(pool.env, TObject(id), v) && ToDoc(pool.env, id, v) == d
    modifies pool`shared, pool.shared, pool.guard
    ensures pool.Valid() && (pool.shared == old(pool.shared) || fresh(pool.shared))
    ensures ok <==> Verdict(EmitDoc(pool.env, id, v)) == NoFailure
    ensures ok ==> bytes == EncDoc(d)
  {
    hide EmitDoc, ToDoc, EncDoc, SnapshotEnv, HasType;
    EndToEnd.EmitIsScript(pool.env, pool.e, id, v);
    EmitDocExact(pool.env, id, v);
    var failure, buffer, size := pool.RunSerialize(TypedJob(id, v));
    ok, bytes := failure == NoFailure, if failure == NoFailure then buffer[..size] else [];
  }

  /** snapshotState: entry by entry, message by message; it throws at a document that fits no buffer. */
  method SnapshotState(pool: BufferPool, ghost h: Host, queues: seq<Queue>) returns (ok: bool, written: seq<byte>)
    requires pool.Valid() && pool.env == SnapshotEnv() && LawfulHost(h)
    requires forall k :: 0 <= k < |queues| ==> GoodQueue(h, queues[k])
    modifies pool`shared, pool.shared, pool.guard
    ensures pool.Valid() && (pool.shared == old(pool.shared) || fresh(pool.shared))
    ensures ok <==> forall k :: 0 <= k < |queues| ==> Savable(h, queues[k])
    ensures ok ==> written == SnapshotBytes(queues)
  {
    hide QueueBytes, SnapshotEnv, GoodQueue, Savable;
    written, ok := [], true;
    assert queues[..0] == [];
    for i := 0 to |queues|
      invariant pool.Valid() && (pool.shared == old(pool.shared) || fresh(pool.shared))
      invariant written == SnapshotBytes(queues[..i]) && forall k :: 0 <= k < i ==> Savable(h, queues[k])
    {
      var bytes;
      ok, bytes := WriteQueue(pool, h, queues[i]);
      if !ok { return; }
      SnapshotBytesPush(queues[..i], queues[i]);
      assert queues[..i] + [queues[i]] == queues[..i + 1];
      written := written + bytes;
    }
    assert queues[..|queues|] == queues;
  }

  method WriteQueue(pool: BufferPool, ghost h: Host, q: Queue) returns (ok: bool, written: seq<byte>)
    requires pool.Valid() && pool.env == SnapshotEnv() && LawfulHost(h) && GoodQueue(h, q)
    modifies pool`shared, pool.shared, pool.guard
    ensures pool.Valid() && (pool.shared == old(pool.shared) || fresh(pool.shared))
    ensures ok <==> Savable(h, q)
    ensures ok ==> written == QueueBytes(q)
  {
    hide EncDoc, EntryDoc, MessageDoc, GoodEntry, GoodMessage, EntryValue, MessageValue, SnapshotEnv, Restorable,
      EmitDoc;
    EnvSize();
    EntryReadsBack(h, EntryOf(q));
    ok, written := WriteDocument(pool, ENTRY, EntryValue(EntryOf(q)), EntryDoc(EntryOf(q)));
    if !ok { return; }
    ghost var head := written;
    assert q.messages[..0] == [] && head + MessageBytes([]) == head;
    for j := 0 to |q.messages|
      invariant pool.Valid() && (pool.shared == old(pool.shared) || fresh(pool.shared))
      invariant written == head + MessageBytes(q.messages[..j]) && ok
      invariant forall i :: 0 <= i < j ==> MessageVerdict(h, q.messages[i]) == NoFailure
    {
      var m := q.messages[j];
      MessageReadsBack(h, m);
      var bytes;
      ok, bytes := WriteDocument(pool, MESSAGE, MessageValue(m), MessageDoc(m));
      if !ok { return; }
      MessageBytesPush(q.messages[..j], m);
      assert q.messages[..j] + [m] == q.messages[..j + 1];
      written := written + bytes;
    }
    assert q.messages[..|q.messages|] == q.messages;
  }

  // ---------------------------------------------------------------------------
  // Reading
  // ---------------------------------------------------------------------------

  /** The deserializers of entries and messages, with whatever shapes they have learned. */
  ghost predicate Ready(decoder: ShapeDecoder)
    reads decoder
  {
    decoder.Valid() && decoder.env == SnapshotEnv() && LawfulHost(decoder.h)
  }

  method ReadEntry(decoder: ShapeDecoder, buffer: seq<byte>, ghost x: Entry) returns (entry: Entry)
    requires Ready(decoder) && GoodEntry(decoder.h, x) && buffer == EncDoc(EntryDoc(x))
    modifies decoder, decoder.slow`r
    ensures Ready(decoder) && entry == x
  {
    hide EncDoc, EntryDoc, EntryFrom, SnapshotEnv;
    EntryReadsBack(decoder.h, x);
    EntryIs(x);
    assert buffer[0..|buffer|] == buffer;
    var res := decoder.DecodeTop(buffer, 0, ENTRY, EntryDoc(x));
    match res
    case Ok(VObj(props)) => entry := EntryFrom(props);
    case _ => entry := EntryFrom(map[]);
  }

  method ReadMessage(decoder: ShapeDecoder, buffer: seq<byte>, ghost m: Message) returns (message: Message)
    requires Ready(decoder) && GoodMessage(decoder.h, m) && buffer == EncDoc(MessageDoc(m))
    modifies decoder, decoder.slow`r
    ensures Ready(decoder) && message == m
  {
    hide EncDoc, MessageDoc, MessageFrom, SnapshotEnv, GoodMessage;
    MessageReadsBack(decoder.h, m);
    MessageIs(m);
    assert buffer[0..|buffer|] == buffer;
    var res := decoder.DecodeTop(buffer, 0, MESSAGE, MessageDoc(m));
    match res
    case Ok(VObj(props)) => message := MessageFrom(props);
    case _ => message := NO_MESSAGE;
  }

  /** What a message loop finds that has `k` of the messages and then only a part of the next one. */
  function ProblemAt(ms: seq<Message>, k: nat, part: seq<byte>): Problem
    requires k <= |ms|
  {
    if FirstProblem(ms[..k]) != NoProblem then FirstProblem(ms[..k])
    else if k < |ms| && part != [] then Spins
    else NoProblem
  }

  lemma {:induction false} MessageNext(ms: seq<Message>, i: nat, k: nat, tail: seq<byte>)
    requires i <= k <= |ms| && i < |ms| && IsMessage(ms[i])
    requires k < |ms| ==> tail < EncDoc(MessageDoc(ms[k]))
    ensures |EncDoc(MessageDoc(ms[i]))| < TWO31
    ensures i < k ==> ms[i..k][0] == ms[i] && ms[i..k][1..] == ms[i + 1..k]
    ensures i < k ==> MessageBytes(ms[i..k]) + tail == EncDoc(MessageDoc(ms[i])) + (MessageBytes(ms[i + 1..k]) + tail)
    ensures i == k ==> MessageBytes(ms[i..k]) + tail == tail < EncDoc(MessageDoc(ms[i]))
  {
    hide EncDoc, MessageDoc;
  }

  /** Reads the next message, if the file holds it. */
  method NextMessage(decoder: ShapeDecoder, buffer0: seq<byte>, reader: Reader, ghost ms: seq<Message>, ghost i: nat,
                     ghost k: nat,
                     ghost tail: seq<byte>)
    returns (found: bool, spins: bool, message: Message, buffer: seq<byte>)
    requires i <= k <= |ms| && i < |ms| && GoodMessage(decoder.h, ms[i]) && buffer0 == []
    requires reader.Valid() && Ready(decoder) && reader.Rest() == MessageBytes(ms[i..k]) + tail
    requires k < |ms| ==> tail < EncDoc(MessageDoc(ms[k]))
    modifies reader`pos, decoder, decoder.slow`r
    ensures reader.Valid() && Ready(decoder) && buffer == [] && (spins <==> i == k && tail != [])
    ensures !spins ==> (found <==> i < k)
    ensures found && !spins ==> message == ms[i] && reader.Rest() == MessageBytes(ms[i + 1..k]) + tail
    ensures !found && !spins ==> reader.Rest() == tail
  {
    hide EncDoc, MessageDoc, IsMessage, MessageBytes;
    MessageSize(ms[i]);
    MessageNext(ms, i, k, tail);
    var size;
    found, message := false, NO_MESSAGE;
    buffer, size, spins := NextDocument(buffer0, reader, MessageDoc(ms[i]),
                                        if i < k then MessageBytes(ms[i + 1..k]) + tail else []);
    if spins || size == 0 { return false, spins, message, []; }
    message := ReadMessage(decoder, buffer, ms[i]);
    found := true;
    buffer := buffer[size..];
  }

  const NO_MESSAGE := Message(Int(0), 0, Absent, AtLeastOnce, Absent, Int(0), Absent, Absent, Int(0), [])

  /** The checks of restoreState on a message, and what they leave to find behind it. */
  lemma {:induction false} ProblemNext(ms: seq<Message>, i: nat, k: nat)
    requires i < k <= |ms|
    ensures FirstProblem(ms[i..k]) ==
              if ProblemOf(ms[i]) != NoProblem then ProblemOf(ms[i]) else FirstProblem(ms[i + 1..k])
    ensures HashesOf(ms[i..k]) == HashesOf(ms[i..i + 1]) + HashesOf(ms[i + 1..k])
    ensures HashesOf(ms[i..i + 1]) == if ms[i].process == ExactlyOnce && ms[i].hash.Given? then {ms[i].hash.x} else {}
  {
    assert ms[i..k][1..] == ms[i + 1..k] && ms[i..i + 1][1..] == [];
  }

  lemma {:induction false} NoMessages()
    ensures FirstProblem([]) == NoProblem && HashesOf([]) == {}
  {
  }

  /**
   * The message loop of restoreState; a hash met before is not added again. The file may end within the messages:
   * behind a whole message it is taken for complete, and within one the loop spins.
   */
  method RestoreMessages(decoder: ShapeDecoder, reader: Reader, amount: nat, ghost ms: seq<Message>, ghost k: nat,
                         ghost tail: seq<byte>)
    returns (problem: Problem, messages: seq<Message>, hashes: set<Hash>, ended: bool)
    requires amount == |ms| && k <= |ms| && forall i :: 0 <= i < |ms| ==> GoodMessage(decoder.h, ms[i])
    requires reader.Valid() && Ready(decoder) && reader.Rest() == MessageBytes(ms[..k]) + tail
    requires k < |ms| ==> tail < EncDoc(MessageDoc(ms[k]))
    modifies reader`pos, decoder, decoder.slow`r
    ensures problem == ProblemAt(ms, k, tail) && reader.Valid() && Ready(decoder)
    ensures problem == NoProblem ==> messages == ms[..k] && hashes == HashesOf(ms[..k]) && (ended <==> k < |ms|)
    ensures problem == NoProblem ==> reader.Rest() == tail
  {
    hide EncDoc, MessageDoc, HasTtl, HasHash, GoodMessage, SnapshotEnv, FirstProblem, HashesOf, MessageBytes;
    messages, hashes, problem, ended := [], {}, NoProblem, false;
    var buffer: seq<byte> := [];
    NoMessages();
    assert ms[0..k] == ms[..k];
    for i := 0 to amount
      invariant reader.Valid() && Ready(decoder) && buffer == [] && i <= k
               && reader.Rest() == MessageBytes(ms[i..k]) + tail
      invariant messages == ms[..i] && problem == NoProblem
      invariant hashes + HashesOf(ms[i..k]) == HashesOf(ms[..k]) && FirstProblem(ms[i..k]) == FirstProblem(ms[..k])
    {
      var found, spins, message;
      found, spins, message, buffer := NextMessage(decoder, buffer, reader, ms, i, k, tail);
      if i == k { assert ms[i..k] == []; } else { ProblemNext(ms, i, k); }
      if spins { return Spins, messages, hashes, ended; }
      if !found {
        ended := true;
        return;
      }
      messages := messages + [message];
      if message.process == ExactlyOnce {
        if !HasHash(message) { problem := MissingHash; return; }
        if !HasTtl(message) { problem := MissingTtl; return; }
        HashGiven(message);
        hashes := hashes + {message.hash.x};
      }
    }
    RestDone(ms, k, tail);
  }

  lemma {:induction false} HashGiven(m: Message)
    requires HasHash(m)
    ensures m.hash.Given?
  {
  }

  lemma {:induction false} RestDone(ms: seq<Message>, k: nat, tail: seq<byte>)
    requires k <= |ms|
    ensures MessageBytes(ms[k..k]) + tail == tail
    ensures k == |ms| ==> ms[..k] == ms && ms[k..k] == []
  {
  }

  // --- whole and truncated snapshots

  /** What may follow the complete queues of a file: nothing, a part of an entry, or an entry and some messages. */
  datatype Cut =
    | AtQueue
    | InEntry(q: Queue, part: seq<byte>)
    | InMessages(q: Queue, k: nat, part: seq<byte>)

  ghost predicate IsCut(cut: Cut) {
    match cut
    case AtQueue => true
    case InEntry(q, part) => part != [] && part < EncDoc(EntryDoc(EntryOf(q)))
    case InMessages(q, k, part) => k < |q.messages| && part < EncDoc(MessageDoc(q.messages[k]))
  }

  ghost predicate GoodCut(h: Host, cut: Cut) { !cut.AtQueue? ==> GoodQueue(h, cut.q) }

  function CutBytes(cut: Cut): seq<byte>
    requires IsCut(cut)
  {
    match cut
    case AtQueue => []
    case InEntry(_, part) => part
    case InMessages(q, k, part) => EncDoc(EntryDoc(EntryOf(q))) + (MessageBytes(q.messages[..k]) + part)
  }

  function CutProblem(cut: Cut): Problem
    requires IsCut(cut)
  {
    match cut
    case AtQueue => NoProblem
    case InEntry(_, _) => Spins
    case InMessages(q, k, part) => ProblemAt(q.messages, k, part)
  }

  /** The queue as far as its messages are in the file. */
  function Shortened(q: Queue, k: nat): Queue
    requires k <= |q.messages|
  {
    q.(messages := q.messages[..k])
  }

  function CutMap(qs: seq<Queue>, cut: Cut): map<Str, Restored>
    requires IsCut(cut)
  {
    if cut.InMessages? then RestoredMap(qs)[cut.q.name := RestoredOf(Shortened(cut.q, cut.k))] else RestoredMap(qs)
  }

  /** Wherever a snapshot is cut off, the rest of it has this form. */
  lemma {:induction false} PrefixIsCut(qs: seq<Queue>, s: seq<byte>) returns (i: nat, cut: Cut)
    requires s <= SnapshotBytes(qs)
    ensures i <= |qs| && IsCut(cut) && s == SnapshotBytes(qs[..i]) + CutBytes(cut)
    ensures !cut.AtQueue? ==> i < |qs| && cut.q == qs[i]
    ensures s == SnapshotBytes(qs) ==> i == |qs| && cut.AtQueue?
  {
    hide QueueBytes, IsCut, CutBytes;
    if s == [] {
      i, cut := 0, AtQueue;
      if qs != [] { QueueNotEmpty(qs[0]); }
      AtQueueIs();
    } else {
      var first := QueueBytes(qs[0]);
      if |s| < |first| {
        cut := QueueCut(qs[0], s);
        i := 0;
        assert qs[..0] == [] && [] + CutBytes(cut) == CutBytes(cut);
      } else {
        var j;
        j, cut := PrefixIsCut(qs[1..], s[|first|..]);
        i := j + 1;
        assert qs[..i][1..] == qs[1..][..j] && s == first + s[|first|..];
        var whole := SnapshotBytes(qs[1..][..j]);
        assert first + (whole + CutBytes(cut)) == first + whole + CutBytes(cut);
      }
    }
  }

  lemma {:induction false} AtQueueIs()
    ensures IsCut(AtQueue) && CutBytes(AtQueue) == []
  {
  }

  lemma {:induction false} QueueNotEmpty(q: Queue)
    ensures QueueBytes(q) != []
  {
    hide EncDoc, EntryDoc, MessageBytes;
  }

  lemma {:induction false} QueueCut(q: Queue, s: seq<byte>) returns (cut: Cut)
    requires s != [] && s < QueueBytes(q)
    ensures IsCut(cut) && !cut.AtQueue? && cut.q == q && CutBytes(cut) == s
  {
    hide EncDoc, EntryDoc, MessageDoc, MessageBytes;
    var head := EncDoc(EntryDoc(EntryOf(q)));
    if |s| < |head| {
      cut := InEntry(q, s);
    } else {
      var k, part := MessagesCut(q.messages, s[|head|..]);
      cut := InMessages(q, k, part);
    }
  }

  lemma {:induction false} MessagesCut(ms: seq<Message>, s: seq<byte>) returns (k: nat, part: seq<byte>)
    requires s < MessageBytes(ms)
    ensures k < |ms| && part < EncDoc(MessageDoc(ms[k])) && s == MessageBytes(ms[..k]) + part
  {
    hide EncDoc, MessageDoc;
    var head := EncDoc(MessageDoc(ms[0]));
    if |s| < |head| {
      k, part := 0, s;
    } else {
      var j;
      j, part := MessagesCut(ms[1..], s[|head|..]);
      k := j + 1;
      assert ms[..k][1..] == ms[1..][..j];
    }
  }

  datatype Stage = NoQueue | CutQueue | WholeQueue

  /** The file goes on with the entry of `q` and `k` of its messages, then `tail`; or with less than the entry. */
  ghost predicate AtSection(all: seq<byte>, q: Queue, k: nat, tail: seq<byte>) {
    && k <= |q.messages| && (k < |q.messages| ==> tail < EncDoc(MessageDoc(q.messages[k])))
    && Before(all, EntryDoc(EntryOf(q)), MessageBytes(q.messages[..k]) + tail)
  }

  /** An entry and its messages, or the end of the file. */
  method RestoreSection(decoder: ShapeDecoder, reader: Reader, ghost q: Queue, ghost k: nat, ghost tail: seq<byte>)
    returns (stage: Stage, problem: Problem, queue: Restored)
    requires reader.Valid() && Ready(decoder)
    requires reader.Rest() != [] ==> GoodQueue(decoder.h, q) && AtSection(reader.Rest(), q, k, tail)
    modifies reader`pos, decoder, decoder.slow`r
    ensures reader.Valid() && Ready(decoder)
    ensures old(reader.Rest()) == [] ==> problem == NoProblem && stage == NoQueue
    ensures old(reader.Rest()) != [] && old(reader.Rest()) < EncDoc(EntryDoc(EntryOf(q))) ==> problem == Spins
    ensures old(reader.Rest()) != [] && !(old(reader.Rest()) < EncDoc(EntryDoc(EntryOf(q)))) ==>
              && problem == ProblemAt(q.messages, k, tail)
              && (problem == NoProblem ==>
                    && stage == (if k < |q.messages| then CutQueue else WholeQueue)
                    && queue == RestoredOf(Shortened(q, k)) && reader.Rest() == tail)
  {
    hide EncDoc, EntryDoc, MessageDoc, MessageBytes, HashesOf, GoodMessage, Ready, ProblemAt;
    stage, problem, queue := NoQueue, NoProblem, Restored([], Int(0), [], {});
    ghost var all, d := reader.Rest(), EntryDoc(EntryOf(q));
    ghost var rest := if all != [] then MessageBytes(q.messages[..k]) + tail else [];
    if all != [] { EntrySize(EntryOf(q)); }
    var buffer, size, spins := NextDocument([], reader, d, rest);
    if spins { problem := Spins; return; }
    if size == 0 { return; }
    assert buffer[..size] == EncDoc(d);
    var entry := ReadEntry(decoder, buffer[..size], EntryOf(q));
    var messages, hashes, ended;
    problem, messages, hashes, ended := RestoreMessages(decoder, reader, entry.amount, q.messages, k, tail);
    stage, queue := if ended then CutQueue else WholeQueue, Restored(entry.name, entry.currentId, messages, hashes);
  }

  /** One turn of restoreState. */
  method RestoreQueue(decoder: ShapeDecoder, reader: Reader, ghost left: seq<Queue>, ghost cut: Cut)
    returns (stage: Stage, problem: Problem, queue: Restored)
    requires left != [] ==> GoodQueue(decoder.h, left[0])
    requires IsCut(cut) && GoodCut(decoder.h, cut)
    requires reader.Valid() && Ready(decoder) && reader.Rest() == SnapshotBytes(left) + CutBytes(cut)
    modifies reader`pos, decoder, decoder.slow`r
    ensures reader.Valid() && Ready(decoder)
    ensures problem == if left != [] then FirstProblem(left[0].messages) else CutProblem(cut)
    ensures problem == NoProblem && left != [] ==>
              stage == WholeQueue && queue == RestoredOf(left[0])
              && reader.Rest() == SnapshotBytes(left[1..]) + CutBytes(cut)
    ensures problem == NoProblem && left == [] ==>
              if cut.AtQueue? then stage == NoQueue
              else stage == CutQueue && queue == RestoredOf(Shortened(cut.q, cut.k))
  {
    hide EncDoc, EntryDoc, MessageDoc, MessageBytes, HashesOf, GoodMessage, Ready, GoodEntry, RestoredOf;
    ghost var q := if left != [] then left[0] else if cut.AtQueue? then Queue([], Int(0), []) else cut.q;
    ghost var k := if left == [] && cut.InMessages? then cut.k else |q.messages|;
    ghost var tail :=
      if left != [] then SnapshotBytes(left[1..]) + CutBytes(cut) else if cut.InMessages? then cut.part else [];
    SectionStarts(q, k, tail);
    assert left != [] ==> reader.Rest() == QueueBytes(q) + tail;
    assert left == [] ==> reader.Rest() == CutBytes(cut);
    stage, problem, queue := RestoreSection(decoder, reader, q, k, tail);
  }

  /** With its messages as far as they are there, a section is not less than its entry. */
  lemma {:induction false} SectionStarts(q: Queue, k: nat, tail: seq<byte>)
    requires k <= |q.messages|
    ensures var all := EncDoc(EntryDoc(EntryOf(q))) + (MessageBytes(q.messages[..k]) + tail);
            && all != [] && !(all < EncDoc(EntryDoc(EntryOf(q))))
            && (k == |q.messages| ==> all == QueueBytes(q) + tail && Shortened(q, k) == q)
            && (k == |q.messages| ==> ProblemAt(q.messages, k, tail) == FirstProblem(q.messages))
  {
    hide EncDoc, EntryDoc, MessageBytes, FirstProblem;
    assert k == |q.messages| ==> q.messages[..k] == q.messages;
  }

  /**
   * restoreState on a snapshot, whole or cut off anywhere: it recovers every queue, its name, counter, messages and
   * dedup hashes, up to the end of the file; and it spins exactly when the file ends within a document.
   */
  method RestoreState(decoder: ShapeDecoder, reader: Reader, ghost queues: seq<Queue>, ghost cut: Cut)
    returns (problem: Problem, state: map<Str, Restored>)
    requires forall i :: 0 <= i < |queues| ==> GoodQueue(decoder.h, queues[i])
    requires IsCut(cut) && GoodCut(decoder.h, cut)
    requires reader.Valid() && Ready(decoder) && reader.Rest() == SnapshotBytes(queues) + CutBytes(cut)
    modifies reader`pos, decoder, decoder.slow`r
    ensures reader.Valid() && Ready(decoder)
    ensures problem == if FirstProblemIn(queues) != NoProblem then FirstProblemIn(queues) else CutProblem(cut)
    ensures problem == NoProblem ==> state == CutMap(queues, cut)
  {
    hide EncDoc, GoodQueue, FirstProblem, RestoredOf, QueueBytes, GoodCut, IsCut, CutBytes, CutProblem;
    state := map[];
    ghost var i, left := 0, queues;
    while true
      invariant reader.Valid() && Ready(decoder) && i <= |queues| && left == queues[i..]
      invariant reader.Rest() == SnapshotBytes(left) + CutBytes(cut)
      invariant state == RestoredMap(queues[..i]) && FirstProblemIn(left) == FirstProblemIn(queues)
      decreases |left|
    {
      var stage, queue;
      stage, problem, queue := RestoreQueue(decoder, reader, left, cut);
      if problem != NoProblem { return; }
      if left == [] { assert queues[..i] == queues; CutHasMessages(cut); }
      if stage == NoQueue { return; }
      if stage == WholeQueue { RestoredNext(queues, i, queue); }
      state := state[queue.name := queue];
      if stage == CutQueue { return; }
      i, left := i + 1, left[1..];
    }
  }

  lemma {:induction false} CutHasMessages(cut: Cut)
    requires IsCut(cut) && CutProblem(cut) == NoProblem
    ensures cut.AtQueue? || (cut.InMessages? && RestoredOf(Shortened(cut.q, cut.k)).name == cut.q.name)
  {
  }

  lemma {:induction false} RestoredNext(queues: seq<Queue>, i: nat, queue: Restored)
    requires i < |queues| && queue == RestoredOf(queues[i])
    ensures RestoredMap(queues[..i + 1]) == RestoredMap(queues[..i])[queue.name := queue]
  {
    assert queues[..i + 1][..i] == queues[..i];
  }

  ghost predicate DistinctNames(qs: seq<Queue>) {
    forall i, j :: 0 <= i < j < |qs| ==> qs[i].name != qs[j].name
  }

  lemma {:induction false} RestoredAt(qs: seq<Queue>, k: nat)
    requires DistinctNames(qs) && k < |qs|
    ensures qs[k].name in RestoredMap(qs) && RestoredMap(qs)[qs[k].name] == RestoredOf(qs[k])
  {
    var n := |qs| - 1;
    if k < n {
      assert qs[..n][k] == qs[k];
      RestoredAt(qs[..n], k);
    }
  }

  /** A restored queue has name, counter and messages of the one saved, and the hashes of its exactly-once messages. */
  ghost predicate Revives(r: Restored, q: Queue) {
    && r.name == q.name && r.currentId == q.currentId && r.messages == q.messages
    && forall x :: x in r.hashes <==>
         exists k :: 0 <= k < |q.messages| && q.messages[k].process == ExactlyOnce && q.messages[k].hash == Given(x)
  }

  lemma {:induction false} RestoredRevives(q: Queue)
    ensures Revives(RestoredOf(q), q)
  {
    forall x ensures x in RestoredOf(q).hashes <==>
      exists k :: 0 <= k < |q.messages| && q.messages[k].process == ExactlyOnce && q.messages[k].hash == Given(x) {
      HashesIff(q.messages, x);
    }
  }

  /** With distinct names every queue is found under its name. */
  lemma {:induction false} RestoredQueue(qs: seq<Queue>, k: nat)
    requires DistinctNames(qs) && k < |qs|
    ensures qs[k].name in RestoredMap(qs) && Revives(RestoredMap(qs)[qs[k].name], qs[k])
  {
    RestoredAt(qs, k);
    RestoredRevives(qs[k]);
  }

  /** Of the queue whose messages are cut off, those that are in the file. */
  lemma {:induction false} RestoredPart(qs: seq<Queue>, cut: Cut, k: nat)
    requires IsCut(cut) && DistinctNames(qs) && k < |qs|
    ensures cut.InMessages? ==>
              && cut.q.name in CutMap(qs, cut)
              && Revives(CutMap(qs, cut)[cut.q.name], cut.q.(messages := cut.q.messages[..cut.k]))
    ensures qs[k].name in CutMap(qs, cut)
    ensures !(cut.InMessages? && cut.q.name == qs[k].name) ==> Revives(CutMap(qs, cut)[qs[k].name], qs[k])
  {
    hide Revives, IsCut;
    CutInside(cut);
    RestoredQueue(qs, k);
    if cut.InMessages? { RestoredRevives(Shortened(cut.q, cut.k)); }
  }

  lemma {:induction false} CutInside(cut: Cut)
    requires IsCut(cut)
    ensures cut.InMessages? ==> cut.k <= |cut.q.messages|
  {
  }

  /**
   * snapshotState, the file cut off after `n` bytes, restoreState, with any buffer and any learned shapes: every queue
   * that is in the file as a whole is recovered, and of the next one the messages that are there, unless an
   * exactly-once message lacks its hash or ttl, or the file ends within a document.
   */
  method SaveAndRestore(pool: BufferPool, decoder: ShapeDecoder, queues: seq<Queue>, n: nat)
    returns (ok: bool, problem: Problem, state: map<Str, Restored>, ghost i: nat, ghost cut: Cut)
    requires pool.Valid() && pool.env == SnapshotEnv() && Ready(decoder)
    requires forall k :: 0 <= k < |queues| ==> GoodQueue(decoder.h, queues[k])
    requires n <= |SnapshotBytes(queues)|
    modifies pool`shared, pool.shared, pool.guard, decoder, decoder.slow`r
    ensures pool.Valid() && Ready(decoder)
    ensures ok <==> forall k :: 0 <= k < |queues| ==> Savable(decoder.h, queues[k])
    ensures i <= |queues| && IsCut(cut) && (!cut.AtQueue? ==> i < |queues| && cut.q == queues[i])
    ensures SnapshotBytes(queues)[..n] == SnapshotBytes(queues[..i]) + CutBytes(cut)
    ensures n == |SnapshotBytes(queues)| ==> i == |queues| && cut.AtQueue?
    ensures ok ==>
              var first := FirstProblemIn(queues[..i]); problem == if first != NoProblem then first else CutProblem(cut)
    ensures ok && problem == NoProblem ==> state == CutMap(queues[..i], cut)
  {
    hide GoodQueue, Savable, SnapshotBytes, CutBytes, IsCut, RestoredMap, SnapshotEnv, FirstProblemIn, CutMap,
      CutProblem;
    problem, state := NoProblem, map[];
    i, cut := PrefixIsCut(queues, SnapshotBytes(queues)[..n]);
    if n == |SnapshotBytes(queues)| { assert SnapshotBytes(queues)[..n] == SnapshotBytes(queues); }
    var written;
    ok, written := SnapshotState(pool, decoder.h, queues);
    if !ok { return; }
    var reader := new Reader(written[..n]);
    problem, state := RestoreState(decoder, reader, queues[..i], cut);
  }
}
