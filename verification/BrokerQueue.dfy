/**
 * The queues of the broker: publishing with a deduplication window, consumers with a cap on messages in flight, and
 * acknowledgements, over every interleaving of calls and timers.
 */
module BrokerQueue {
  import opened Bytes
  import opened Utf8
  import opened Snapshot

  datatype MessageState = Pending | InFlight | Done | Errored

  /** The fields of a queue message that change while it is handled. */
  datatype Record = Record(state: MessageState, tries: nat, delay: int, ttl: Opt<int>)

  /** A consumer and the messages it is handling; ids stand for the shared message objects in `records`. */
  datatype Consumer = Consumer(con: nat, handling: set<int>, maxMessagesInParallel: nat)

  /** A pending setTimeout that forgets a hash; it fires at `due` or later. */
  datatype Timer = Timer(hash: Hash, due: int)

  /** History: an exactly-once message that was accepted, when, and its deduplication interval. */
  datatype Acceptance = Acceptance(hash: Hash, at: int, interval: int)

  datatype QueueState = QueueState(
    currentId: int,
    hashes: set<Hash>,
    timers: seq<Timer>,
    consumers: seq<Consumer>,
    records: map<int, Record>,
    issued: seq<int>,
    accepted: seq<Acceptance>)

  const NEW_QUEUE := QueueState(0, {}, [], [], map[], [], [])

  datatype Publication = Publication(process: Processing, hash: Option<Hash>, interval: int, delay: int)

  datatype PublishError = MissingInterval | NoHash

  datatype Published = Failed(e: PublishError) | Duplicate | Delayed | Delivered(to: seq<nat>)

  datatype Answer = Answer(error: bool, success: bool, delay: Option<int>)

  /** setTimeout of the host: a delay outside 1..2^31-1 becomes 1. */
  function TimerDelay(delay: int): (kept: int)
    ensures kept >= 1
  {
    if 1 <= delay < TWO31 then delay else 1
  }

  /** When the timer of an accepted message is due. */
  function Expiry(a: Acceptance): int { a.at + TimerDelay(a.interval) }

  // ---------------------------------------------------------------------------
  // QueueState operations
  // ---------------------------------------------------------------------------

  predicate Free(c: Consumer) { |c.handling| < c.maxMessagesInParallel }

  function Take(c: Consumer, id: int): Consumer { if Free(c) then c.(handling := c.handling + {id}) else c }

  function TakeAll(cs: seq<Consumer>, id: int): (r: seq<Consumer>)
    ensures |r| == |cs|
  {
    seq(|cs|, k requires 0 <= k < |cs| => Take(cs[k], id))
  }

  function CountFree(cs: seq<Consumer>): nat {
    if cs == [] then 0 else CountFree(cs[..|cs| - 1]) + (if Free(cs[|cs| - 1]) then 1 else 0)
  }

  /** Connections of the free consumers, in order. */
  function FreeOnes(cs: seq<Consumer>): seq<nat> {
    if cs == [] then []
    else FreeOnes(cs[..|cs| - 1]) + (if Free(cs[|cs| - 1]) then [cs[|cs| - 1].con] else [])
  }

  /** The id is used up before anything is checked. */
  function Numbered(q: QueueState, delay: int): QueueState {
    q.(currentId := q.currentId + 1, issued := q.issued + [q.currentId],
       records := q.records[q.currentId := Record(Pending, 0, delay, Absent)])
  }

  /** handleMessageDeduplication of a hash not remembered. */
  function Remembered(q: QueueState, hash: Hash, interval: int, now: int): QueueState {
    q.(hashes := q.hashes + {hash}, timers := q.timers + [Timer(hash, now + TimerDelay(interval))],
       accepted := q.accepted + [Acceptance(hash, now, interval)])
  }

  /** The message object after being handed to `n` consumers. */
  function Served(r: Record, n: nat): Record {
    r.(tries := r.tries + n, state := if n > 0 then InFlight else r.state)
  }

  lemma {:induction false} CountNone()
    ensures CountFree([]) == 0 && FreeOnes([]) == []
  {
  }

  lemma {:induction false} CountNext(cs: seq<Consumer>, k: nat)
    requires k < |cs|
    ensures CountFree(cs[..k + 1]) == CountFree(cs[..k]) + (if Free(cs[k]) then 1 else 0)
    ensures FreeOnes(cs[..k + 1]) == FreeOnes(cs[..k]) + (if Free(cs[k]) then [cs[k].con] else [])
  {
    assert cs[..k + 1][..k] == cs[..k];
  }

  function Deliver(q: QueueState, id: int): QueueState
    requires id in q.records
  {
    q.(consumers := TakeAll(q.consumers, id),
       records := q.records[id := Served(q.records[id], CountFree(q.consumers))])
  }

  /** The end of queuePublish: a delayed message is dropped, any other goes to every free consumer. */
  function Dispatch(q: QueueState, id: int, delay: int, now: int): (QueueState, Published)
    requires id in q.records
  {
    if delay > now then (q, Delayed) else (Deliver(q, id), Delivered(FreeOnes(q.consumers)))
  }

  /** queuePublish */
  function Publish(q: QueueState, b: Publication, now: int): (QueueState, Published) {
    var id := q.currentId;
    var t := Numbered(q, b.delay);
    if b.process != ExactlyOnce then Dispatch(t, id, b.delay, now)
    else if b.interval == 0 then (t, Failed(MissingInterval))
    else if b.hash.None? || !TrueHash(b.hash.value) then (t, Failed(NoHash))
    else if b.hash.value in t.hashes then (t, Duplicate)
    else
      var u := Remembered(t, b.hash.value, b.interval, now);
      Dispatch(u.(records := u.records[id := u.records[id].(ttl := Given(now + b.interval))]), id, b.delay, now)
  }

  /** queueSubscribe: the cap asked for is not used. */
  function Subscribe(q: QueueState, con: nat, maxParallel: nat): QueueState {
    q.(consumers := q.consumers + [Consumer(con, {}, 1)])
  }

  /** findIndex: the first consumer of a connection, or |cs|. */
  function IndexOf(cs: seq<Consumer>, con: nat, k: nat): (r: nat)
    requires k <= |cs|
    ensures k <= r <= |cs|
    ensures r < |cs| ==> cs[r].con == con
    ensures forall j :: k <= j < r ==> cs[j].con != con
    decreases |cs| - k
  {
    if k == |cs| || cs[k].con == con then k else IndexOf(cs, con, k + 1)
  }

  function Unsubscribe(q: QueueState, con: nat): QueueState {
    var k := IndexOf(q.consumers, con, 0);
    if k == |q.consumers| then q else q.(consumers := q.consumers[..k] + q.consumers[k + 1..])
  }

  function Answered(r: Record, a: Answer, now: int): Record {
    if a.error then r.(state := Errored)
    else if a.success then r.(state := Done)
    else if a.delay.Some? && a.delay.value != 0 then r.(delay := now + a.delay.value)
    else r
  }

  /** queueMessageHandled: ignored unless the connection's first consumer is handling that message. */
  function Handled(q: QueueState, con: nat, id: int, a: Answer, now: int): QueueState {
    var k := IndexOf(q.consumers, con, 0);
    if k == |q.consumers| || id !in q.consumers[k].handling || id !in q.records then q
    else
      q.(consumers := q.consumers[k := q.consumers[k].(handling := q.consumers[k].handling - {id})],
         records := q.records[id := Answered(q.records[id], a, now)])
  }

  function Without(ts: seq<Timer>, k: nat): seq<Timer>
    requires k < |ts|
  {
    ts[..k] + ts[k + 1..]
  }

  /** The timer runs: the hash is forgotten. */
  function Fire(q: QueueState, k: nat): QueueState
    requires k < |q.timers|
  {
    q.(hashes := q.hashes - {q.timers[k].hash}, timers := Without(q.timers, k))
  }

  // ---------------------------------------------------------------------------
  // Runs
  // ---------------------------------------------------------------------------

  datatype Event =
    | DoPublish(b: Publication)
    | DoSubscribe(con: nat, maxParallel: nat)
    | DoUnsubscribe(con: nat)
    | DoHandled(con: nat, id: int, a: Answer)
    | TimerFires(k: nat)

  datatype World = World(q: QueueState, now: int)

  /** Time does not go back, and a timer fires when it is due or later. */
  predicate Enabled(w: World, e: Event, now: int) {
    w.now <= now && (e.TimerFires? ==> e.k < |w.q.timers| && w.q.timers[e.k].due <= now)
  }

  function Step(w: World, e: Event, now: int): World
    requires Enabled(w, e, now)
  {
    match e
    case DoPublish(b) => World(Publish(w.q, b, now).0, now)
    case DoSubscribe(con, maxParallel) => World(Subscribe(w.q, con, maxParallel), now)
    case DoUnsubscribe(con) => World(Unsubscribe(w.q, con), now)
    case DoHandled(con, id, a) => World(Handled(w.q, con, id, a, now), now)
    case TimerFires(k) => World(Fire(w.q, k), now)
  }

  ghost predicate Run(w: World, es: seq<(Event, int)>, v: World)
    decreases |es|
  {
    if es == [] then w == v
    else Enabled(w, es[0].0, es[0].1) && Run(Step(w, es[0].0, es[0].1), es[1..], v)
  }

  /** No consumer handles more messages than its cap, which is 1 whatever the subscriber asked for. */
  ghost predicate Capped(q: QueueState) {
    forall k :: 0 <= k < |q.consumers| ==> |q.consumers[k].handling| <= q.consumers[k].maxMessagesInParallel == 1
  }

  /** Ids are handed out once, in increasing order; messages in flight have been issued. */
  ghost predicate Unique(q: QueueState) {
    && (forall i, j :: 0 <= i < j < |q.issued| ==> q.issued[i] < q.issued[j])
    && (forall i :: 0 <= i < |q.issued| ==> q.issued[i] < q.currentId)
    && (forall k, id :: 0 <= k < |q.consumers| && id in q.consumers[k].handling ==> id in q.issued && id in q.records)
    && (forall id :: id in q.records ==> id in q.issued)
  }

  /** Each remembered hash has exactly one pending expiry, and every pending expiry is of a remembered hash. */
  ghost predicate Expiring(q: QueueState) {
    && (forall k :: 0 <= k < |q.timers| ==> q.timers[k].hash in q.hashes)
    && (forall h :: h in q.hashes ==> exists k :: 0 <= k < |q.timers| && q.timers[k].hash == h)
    && (forall j, k :: 0 <= j < k < |q.timers| ==> q.timers[j].hash != q.timers[k].hash)
  }

  /** An accepted hash stays remembered until its time is over. */
  ghost predicate Windowed(q: QueueState, now: int) {
    && (forall i :: 0 <= i < |q.accepted| ==>
          now >= Expiry(q.accepted[i]) || StillKept(q, q.accepted[i]))
    && (forall i, j :: 0 <= i < j < |q.accepted| && q.accepted[i].hash == q.accepted[j].hash ==>
          q.accepted[j].at >= Expiry(q.accepted[i]))
  }

  ghost predicate StillKept(q: QueueState, a: Acceptance) {
    exists k :: 0 <= k < |q.timers| && q.timers[k].hash == a.hash && q.timers[k].due >= Expiry(a)
  }

  ghost predicate Good(q: QueueState, now: int) { Capped(q) && Unique(q) && Expiring(q) && Windowed(q, now) }

  ghost predicate Inv(w: World) { Good(w.q, w.now) }

  // --- publishing keeps the invariants

  lemma {:induction false} NumberedKeeps(q: QueueState, delay: int, now: int)
    requires Good(q, now)
    ensures var t := Numbered(q, delay);
            Good(t, now) && q.currentId in t.records && q.currentId in t.issued
    ensures forall k :: 0 <= k < |q.consumers| ==> q.currentId !in q.consumers[k].handling
  {
    var t := Numbered(q, delay);
    assert t.issued[|q.issued|] == q.currentId;
    forall id | id in q.issued ensures id in t.issued && id < q.currentId {
      var i :| 0 <= i < |q.issued| && q.issued[i] == id;
      assert t.issued[i] == id;
    }
    KeptSame(q, t);
  }

  lemma {:induction false} KeptSame(q: QueueState, t: QueueState)
    requires q.timers == t.timers
    ensures forall a :: StillKept(q, a) ==> StillKept(t, a)
  {
    forall a | StillKept(q, a) ensures StillKept(t, a) {
      var k :| 0 <= k < |q.timers| && q.timers[k].hash == a.hash && q.timers[k].due >= Expiry(a);
      assert t.timers[k].hash == a.hash;
    }
  }

  lemma {:induction false} RememberedExpires(q: QueueState, hash: Hash, interval: int, now: int)
    requires Expiring(q) && hash !in q.hashes
    ensures Expiring(Remembered(q, hash, interval, now))
  {
    hide TimerDelay;
    var t := Remembered(q, hash, interval, now);
    assert t.timers[|q.timers|].hash == hash;
    forall h | h in t.hashes ensures exists k :: 0 <= k < |t.timers| && t.timers[k].hash == h {
      if h != hash {
        var k :| 0 <= k < |q.timers| && q.timers[k].hash == h;
        assert t.timers[k].hash == h;
      }
    }
  }

  lemma {:induction false} RememberedWindow(q: QueueState, hash: Hash, interval: int, now: int)
    requires Expiring(q) && Windowed(q, now) && hash !in q.hashes
    ensures Windowed(Remembered(q, hash, interval, now), now)
  {
    var t := Remembered(q, hash, interval, now);
    var n := |q.accepted|;
    forall i | 0 <= i < n ensures now >= Expiry(q.accepted[i]) || StillKept(t, q.accepted[i])
      ensures q.accepted[i].hash == hash ==> now >= Expiry(q.accepted[i]) {
      var a := q.accepted[i];
      if StillKept(q, a) {
        var k :| 0 <= k < |q.timers| && q.timers[k].hash == a.hash && q.timers[k].due >= Expiry(a);
        assert t.timers[k] == q.timers[k];
      }
    }
    assert t.timers[|q.timers|] == Timer(hash, now + TimerDelay(interval));
    assert StillKept(t, t.accepted[n]);
  }

  lemma {:induction false} TakeKeeps(q: QueueState, id: int)
    requires id in q.records && id in q.issued && Capped(q) && Unique(q)
    ensures Capped(Deliver(q, id)) && Unique(Deliver(q, id))
  {
    var t := Deliver(q, id);
    forall k | 0 <= k < |t.consumers| ensures |t.consumers[k].handling| <= t.consumers[k].maxMessagesInParallel == 1 {
      assert t.consumers[k] == Take(q.consumers[k], id);
      if id in q.consumers[k].handling { assert q.consumers[k].handling + {id} == q.consumers[k].handling; }
    }
  }

  lemma {:induction false} DispatchKeeps(q: QueueState, id: int, delay: int, now: int)
    requires id in q.records && id in q.issued && Good(q, now)
    ensures Good(Dispatch(q, id, delay, now).0, now)
  {
    TakeKeeps(q, id);
    KeptSame(q, Dispatch(q, id, delay, now).0);
  }

  lemma {:induction false} RememberedKeeps(q: QueueState, hash: Hash, interval: int, now: int)
    requires Good(q, now) && hash !in q.hashes
    ensures Good(Remembered(q, hash, interval, now), now)
  {
    RememberedExpires(q, hash, interval, now);
    RememberedWindow(q, hash, interval, now);
  }

  lemma {:induction false} RecordKeeps(q: QueueState, id: int, r: Record, now: int)
    requires Good(q, now) && id in q.records
    ensures Good(q.(records := q.records[id := r]), now)
  {
    KeptSame(q, q.(records := q.records[id := r]));
  }

  lemma {:induction false} PublishKeeps(q: QueueState, b: Publication, now: int)
    requires Good(q, now)
    ensures Good(Publish(q, b, now).0, now)
  {
    hide Good, Dispatch;
    var id := q.currentId;
    var t := Numbered(q, b.delay);
    NumberedKeeps(q, b.delay, now);
    if b.process != ExactlyOnce {
      DispatchKeeps(t, id, b.delay, now);
    } else if b.interval != 0 && b.hash.Some? && TrueHash(b.hash.value) && b.hash.value !in t.hashes {
      var u := Remembered(t, b.hash.value, b.interval, now);
      RememberedKeeps(t, b.hash.value, b.interval, now);
      var r := u.records[id].(ttl := Given(now + b.interval));
      RecordKeeps(u, id, r, now);
      DispatchKeeps(u.(records := u.records[id := r]), id, b.delay, now);
    }
  }

  // --- the other events

  lemma {:induction false} LaterWindow(q: QueueState, now: int, later: int)
    requires Windowed(q, now) && now <= later
    ensures Windowed(q, later)
  {
  }

  lemma {:induction false} WithoutAt(ts: seq<Timer>, k: nat)
    requires k < |ts|
    ensures |Without(ts, k)| == |ts| - 1
    ensures forall j :: 0 <= j < |ts| - 1 ==> Without(ts, k)[j] == ts[if j < k then j else j + 1]
  {
  }

  lemma {:induction false} FireExpires(q: QueueState, k: nat)
    requires Expiring(q) && k < |q.timers|
    ensures Expiring(Fire(q, k))
  {
    hide Without;
    WithoutAt(q.timers, k);
    var t := Fire(q, k);
    forall h | h in t.hashes ensures exists j :: 0 <= j < |t.timers| && t.timers[j].hash == h {
      var j :| 0 <= j < |q.timers| && q.timers[j].hash == h;
      assert t.timers[if j < k then j else j - 1].hash == h;
    }
  }

  lemma {:induction false} FireWindow(q: QueueState, k: nat, now: int)
    requires Windowed(q, now) && k < |q.timers| && q.timers[k].due <= now
    ensures Windowed(Fire(q, k), now)
  {
    var t := Fire(q, k);
    forall i | 0 <= i < |q.accepted|
      ensures now >= Expiry(q.accepted[i]) || StillKept(t, q.accepted[i]) {
      var a := q.accepted[i];
      if now < Expiry(a) {
        var j :| 0 <= j < |q.timers| && q.timers[j].hash == a.hash && q.timers[j].due >= Expiry(a);
        assert t.timers[if j < k then j else j - 1] == q.timers[j];
      }
    }
  }

  lemma {:induction false} FireKeeps(q: QueueState, k: nat, now: int)
    requires Inv(World(q, now)) && k < |q.timers| && q.timers[k].due <= now
    ensures Inv(World(Fire(q, k), now))
  {
    FireExpires(q, k);
    FireWindow(q, k, now);
  }

  /** The consumer handles no more than the other, under the same cap. */
  predicate NoBusier(c: Consumer, d: Consumer) {
    c.handling <= d.handling && c.maxMessagesInParallel == d.maxMessagesInParallel
  }

  predicate Covered(c: Consumer, cs: seq<Consumer>) { exists j :: 0 <= j < |cs| && NoBusier(c, cs[j]) }

  lemma {:induction false} ConsumersKeep(q: QueueState, t: QueueState, now: int)
    requires Inv(World(q, now))
    requires t == q.(consumers := t.consumers, records := t.records) && t.records.Keys == q.records.Keys
    requires forall k :: 0 <= k < |t.consumers| ==> Covered(t.consumers[k], q.consumers)
    ensures Inv(World(t, now))
  {
    KeptSame(q, t);
    forall k | 0 <= k < |t.consumers|
      ensures |t.consumers[k].handling| <= t.consumers[k].maxMessagesInParallel == 1
      ensures forall id :: id in t.consumers[k].handling ==> id in t.issued && id in t.records {
      assert Covered(t.consumers[k], q.consumers);
      var j :| 0 <= j < |q.consumers| && NoBusier(t.consumers[k], q.consumers[j]);
      SubsetSize(t.consumers[k].handling, q.consumers[j].handling);
    }
  }

  lemma {:induction false} SubsetSize(a: set<int>, b: set<int>)
    requires a <= b
    ensures |a| <= |b|
  {
    assert b == a + (b - a) && a * (b - a) == {};
  }

  lemma {:induction false} SubscribeKeeps(q: QueueState, con: nat, maxParallel: nat, now: int)
    requires Inv(World(q, now))
    ensures Inv(World(Subscribe(q, con, maxParallel), now))
  {
    KeptSame(q, Subscribe(q, con, maxParallel));
  }

  lemma {:induction false} UnsubscribeKeeps(q: QueueState, con: nat, now: int)
    requires Inv(World(q, now))
    ensures Inv(World(Unsubscribe(q, con), now))
  {
    var t := Unsubscribe(q, con);
    var i := IndexOf(q.consumers, con, 0);
    forall k | 0 <= k < |t.consumers| ensures Covered(t.consumers[k], q.consumers) {
      assert NoBusier(t.consumers[k], q.consumers[if k < i then k else k + 1]);
    }
    ConsumersKeep(q, t, now);
  }

  lemma {:induction false} HandledKeeps(q: QueueState, con: nat, id: int, a: Answer, now: int)
    requires Inv(World(q, now))
    ensures Inv(World(Handled(q, con, id, a, now), now))
  {
    var t := Handled(q, con, id, a, now);
    forall k | 0 <= k < |t.consumers| ensures Covered(t.consumers[k], q.consumers) {
      assert NoBusier(t.consumers[k], q.consumers[k]);
    }
    ConsumersKeep(q, t, now);
  }

  lemma {:induction false} StepKeepsInv(w: World, e: Event, now: int)
    requires Inv(w) && Enabled(w, e, now)
    ensures Inv(Step(w, e, now))
  {
    LaterWindow(w.q, w.now, now);
    match e
    case DoPublish(b) => PublishKeeps(w.q, b, now);
    case DoSubscribe(con, maxParallel) => SubscribeKeeps(w.q, con, maxParallel, now);
    case DoUnsubscribe(con) => UnsubscribeKeeps(w.q, con, now);
    case DoHandled(con, id, a) => HandledKeeps(w.q, con, id, a, now);
    case TimerFires(k) => FireKeeps(w.q, k, now);
  }

  /** Every reachable queue is within its caps, has unique ids, and forgets every remembered hash exactly once. */
  lemma {:induction false} RunKeepsInv(w: World, es: seq<(Event, int)>, v: World)
    requires Inv(w) && Run(w, es, v)
    ensures Inv(v)
    decreases |es|
  {
    if es != [] {
      StepKeepsInv(w, es[0].0, es[0].1);
      RunKeepsInv(Step(w, es[0].0, es[0].1), es[1..], v);
    }
  }

  /**
   * Two accepted exactly-once messages of the same hash are at least the first one's interval apart, provided that the
   * host's timer can keep that interval.
   */
  lemma {:induction false} DedupWindow(now: int, es: seq<(Event, int)>, v: World, i: nat, j: nat)
    requires Run(World(NEW_QUEUE, now), es, v) && i < j < |v.q.accepted|
    requires v.q.accepted[i].hash == v.q.accepted[j].hash
    ensures v.q.accepted[j].at >= v.q.accepted[i].at + TimerDelay(v.q.accepted[i].interval)
    ensures v.q.accepted[i].interval < TWO31 ==> v.q.accepted[j].at >= v.q.accepted[i].at + v.q.accepted[i].interval
  {
    RunKeepsInv(World(NEW_QUEUE, now), es, v);
  }

  /** In this history two acceptances of one hash, the first with this interval, are closer than the interval. */
  ghost predicate TooSoon(q: QueueState, interval: int) {
    exists i, j :: 0 <= i < j < |q.accepted| && q.accepted[i].hash == q.accepted[j].hash
                   && q.accepted[i].interval == interval && q.accepted[j].at < q.accepted[i].at + interval
  }

  ghost predicate CanBeTooSoon(interval: int) {
    exists now, es, v :: Run(World(NEW_QUEUE, now), es, v) && TooSoon(v.q, interval)
  }

  /** Published, forgotten a millisecond later, and published again. */
  function Overlong(hash: Hash, interval: int): seq<(Event, int)> {
    var b := Publication(ExactlyOnce, Some(hash), interval, 0);
    [(DoPublish(b), 0), (TimerFires(0), 1), (DoPublish(b), 1)]
  }

  /** From 2^31 on the timer fires after 1 ms, and the same hash is accepted again at once. */
  lemma {:induction false} OverlongBreaks(hash: Hash, interval: int) returns (v: World)
    requires TrueHash(hash) && interval >= TWO31
    ensures Run(World(NEW_QUEUE, 0), Overlong(hash, interval), v)
    ensures v.q.accepted == [Acceptance(hash, 0, interval), Acceptance(hash, 1, interval)] && TooSoon(v.q, interval)
  {
    var es := Overlong(hash, interval);
    var a := Step(World(NEW_QUEUE, 0), es[0].0, 0);
    assert a.q.timers == [Timer(hash, 1)] && a.q.hashes == {hash} && a.q.accepted == [Acceptance(hash, 0, interval)];
    var b := Step(a, es[1].0, 1);
    assert b.q.hashes == {} && b.q.accepted == a.q.accepted;
    v := Step(b, es[2].0, 1);
    assert v.q.accepted == b.q.accepted + [Acceptance(hash, 1, interval)];
    assert v.q.accepted[0].at + interval > v.q.accepted[1].at;
    assert es[1..][1..] == [es[2]] && es[1..][1..][1..] == [] && Run(v, [], v);
    assert Run(b, [es[2]], v) && Run(a, es[1..], v);
  }

  /** The deduplication window holds in every run exactly for the intervals that setTimeout keeps, or keeps longer. */
  lemma {:induction false} DedupWindowIff(interval: int)
    ensures !CanBeTooSoon(interval) <==> interval < TWO31
  {
    if interval >= TWO31 {
      var v := OverlongBreaks(Text([65]), interval);
      assert Run(World(NEW_QUEUE, 0), Overlong(Text([65]), interval), v);
    } else if CanBeTooSoon(interval) {
      var now, es, v :| Run(World(NEW_QUEUE, now), es, v) && TooSoon(v.q, interval);
      var i, j :| 0 <= i < j < |v.q.accepted| && v.q.accepted[i].hash == v.q.accepted[j].hash
                  && v.q.accepted[i].interval == interval && v.q.accepted[j].at < v.q.accepted[i].at + interval;
      DedupWindow(now, es, v, i, j);
    }
  }

  /** In a reachable queue a hash is a duplicate exactly while its timer is pending. */
  lemma {:induction false} DuplicateIff(q: QueueState, b: Publication, now: int)
    requires Expiring(q) && b.process == ExactlyOnce && b.interval != 0 && b.hash.Some? && TrueHash(b.hash.value)
    ensures Publish(q, b, now).1.Duplicate? <==>
            exists k :: 0 <= k < |q.timers| && q.timers[k].hash == b.hash.value
  {
    if exists k :: 0 <= k < |q.timers| && q.timers[k].hash == b.hash.value {
      var k :| 0 <= k < |q.timers| && q.timers[k].hash == b.hash.value;
      assert q.timers[k].hash in q.hashes;
    }
  }

  /** A message that is neither refused nor delayed is in flight at exactly the consumers that were free. */
  lemma {:induction false} DeliveredIff(w: World, b: Publication, now: int, k: nat)
    requires Inv(w) && k < |w.q.consumers|
    ensures var (t, r) := Publish(w.q, b, now);
            && |t.consumers| == |w.q.consumers|
            && (r.Delivered? ==>
                  var c := w.q.consumers[k];
                  t.consumers[k] == if |c.handling| < c.maxMessagesInParallel
                                    then c.(handling := c.handling + {w.q.currentId}) else c)
            && (!r.Delivered? ==> t.consumers == w.q.consumers)
  {
    NumberedKeeps(w.q, b.delay, w.now);
    assert TakeAll(w.q.consumers, w.q.currentId)[k] == Take(w.q.consumers[k], w.q.currentId);
  }

  // --- what the operations do

  /** Consumer `k` is the first of the connection. */
  ghost predicate FirstOf(q: QueueState, con: nat, k: nat) {
    k < |q.consumers| && q.consumers[k].con == con && forall j :: 0 <= j < k ==> q.consumers[j].con != con
  }

  ghost predicate Connected(q: QueueState, con: nat) {
    exists k :: 0 <= k < |q.consumers| && q.consumers[k].con == con
  }

  /** The first consumer of the connection is removed, and nothing else changes; without one, nothing at all. */
  lemma {:induction false} UnsubscribeIff(q: QueueState, con: nat)
    ensures forall k: nat :: FirstOf(q, con, k) ==>
              Unsubscribe(q, con) == q.(consumers := q.consumers[..k] + q.consumers[k + 1..])
    ensures |Unsubscribe(q, con).consumers| == |q.consumers| - 1 <==> Connected(q, con)
    ensures Unsubscribe(q, con) == q <==> !Connected(q, con)
  {
    var r := IndexOf(q.consumers, con, 0);
    forall k: nat | FirstOf(q, con, k) ensures k == r { }
  }

  /** The first consumer of the connection is handling the message. */
  ghost predicate Handles(q: QueueState, con: nat, id: int) {
    exists k: nat :: FirstOf(q, con, k) && id in q.consumers[k].handling
  }

  /** The message leaves the first consumer of the connection if that is handling it; otherwise nothing changes. */
  lemma {:induction false} HandledIff(w: World, con: nat, id: int, a: Answer, now: int)
    requires Inv(w)
    ensures !Handles(w.q, con, id) ==> Handled(w.q, con, id, a, now) == w.q
    ensures var q, t := w.q, Handled(w.q, con, id, a, now);
            Handles(q, con, id) ==>
              && id in q.records && t == q.(consumers := t.consumers, records := q.records[id := t.records[id]])
              && |t.consumers| == |q.consumers|
              && forall k :: 0 <= k < |q.consumers| ==>
                   var c := q.consumers[k];
                   t.consumers[k] == if FirstOf(q, con, k) then c.(handling := c.handling - {id}) else c
  {
    var r := IndexOf(w.q.consumers, con, 0);
    forall k: nat | FirstOf(w.q, con, k) ensures k == r { }
  }

  /** An error counts before success, success before a delay; a delay leaves the state alone. */
  lemma {:induction false} AnswerIs(w: World, con: nat, id: int, a: Answer, now: int)
    requires Inv(w) && Handles(w.q, con, id)
    ensures id in w.q.records && id in Handled(w.q, con, id, a, now).records
    ensures var before, after := w.q.records[id], Handled(w.q, con, id, a, now).records[id];
            && (a.error ==> after == before.(state := Errored))
            && (!a.error && a.success ==> after == before.(state := Done))
            && (!a.error && !a.success && a.delay.Some? && a.delay.value != 0 ==>
                  after == before.(delay := now + a.delay.value))
            && (!a.error && !a.success && (a.delay.None? || a.delay.value == 0) ==> after == before)
  {
    HandledIff(w, con, id, a, now);
    var r := IndexOf(w.q.consumers, con, 0);
    forall k: nat | FirstOf(w.q, con, k) ensures k == r { }
  }

  /** The hash is one that `!hash` is false of. */
  predicate Usable(hash: Option<Hash>) { hash.Some? && !FalseHash(hash.value) }

  ghost predicate Remembers(q: QueueState, hash: Hash) {
    exists k :: 0 <= k < |q.timers| && q.timers[k].hash == hash
  }

  /** The publication is refused, or delivered or delayed. */
  ghost predicate Accepts(q: QueueState, b: Publication) {
    b.process == ExactlyOnce ==> b.interval != 0 && Usable(b.hash) && !Remembers(q, b.hash.value)
  }

  /** What a publication comes to. */
  lemma {:induction false} PublishedIff(w: World, b: Publication, now: int)
    requires Inv(w)
    ensures var q, r := w.q, Publish(w.q, b, now).1;
            && (r == Failed(MissingInterval) <==> b.process == ExactlyOnce && b.interval == 0)
            && (r == Failed(NoHash) <==> b.process == ExactlyOnce && b.interval != 0 && !Usable(b.hash))
            && (r.Duplicate? <==>
                  b.process == ExactlyOnce && b.interval != 0 && Usable(b.hash) && Remembers(q, b.hash.value))
            && (r.Delayed? <==> Accepts(q, b) && b.delay > now)
            && (r.Delivered? <==> Accepts(q, b) && b.delay <= now)
  {
    hide Deliver, Numbered;
    SameHashes(w.q, b.delay);
    if b.hash.Some? { HashRemembered(w.q, b.hash.value); }
  }

  lemma {:induction false} SameHashes(q: QueueState, delay: int)
    ensures Numbered(q, delay).hashes == q.hashes
  {
  }

  lemma {:induction false} HashRemembered(q: QueueState, hash: Hash)
    requires Expiring(q)
    ensures hash in q.hashes <==> Remembers(q, hash)
  {
  }

  /** How many consumers handle fewer messages than their cap. */
  function Idle(cs: seq<Consumer>): nat {
    if cs == [] then 0
    else Idle(cs[1..]) + (if |cs[0].handling| < cs[0].maxMessagesInParallel then 1 else 0)
  }

  lemma {:induction false} IdlePush(cs: seq<Consumer>, c: Consumer)
    ensures Idle(cs + [c]) == Idle(cs) + Idle([c])
  {
    if cs != [] {
      IdlePush(cs[1..], c);
      assert (cs + [c])[1..] == cs[1..] + [c];
    } else {
      assert [] + [c] == [c];
    }
  }

  lemma {:induction false} CountIdle(cs: seq<Consumer>)
    ensures CountFree(cs) == Idle(cs) == |FreeOnes(cs)|
  {
    if cs != [] {
      var n := |cs| - 1;
      CountIdle(cs[..n]);
      IdlePush(cs[..n], cs[n]);
      assert cs[..n] + [cs[n]] == cs;
    }
  }

  /** The new message, its id used up in any case; the other messages are left alone. */
  lemma {:induction false} PublishedRecord(w: World, b: Publication, now: int)
    requires Inv(w)
    ensures var q, (t, r) := w.q, Publish(w.q, b, now);
            && t.currentId == q.currentId + 1
            && t.records == q.records[q.currentId :=
                 Record(if r.Delivered? && Idle(q.consumers) > 0 then InFlight else Pending,
                        if r.Delivered? then Idle(q.consumers) else 0, b.delay,
                        if b.process == ExactlyOnce && Accepts(q, b) then Given(now + b.interval) else Absent)]
            && (r.Delivered? ==> |r.to| == Idle(q.consumers))
  {
    PublishedIff(w, b, now);
    CountIdle(w.q.consumers);
  }

  /** The message is sent to the free consumers in their order. */
  lemma {:induction false} SentInOrder(cs: seq<Consumer>, k: nat)
    requires k < |cs| && |cs[k].handling| < cs[k].maxMessagesInParallel
    ensures Idle(cs[..k]) < |FreeOnes(cs)| && FreeOnes(cs)[Idle(cs[..k])] == cs[k].con
  {
    var n := |cs| - 1;
    CountIdle(cs[..n]);
    if k < n {
      SentInOrder(cs[..n], k);
      assert cs[..n][..k] == cs[..k];
    }
  }

  /** An accepted exactly-once message is remembered with its interval; nothing else is. */
  lemma {:induction false} AcceptedIff(w: World, b: Publication, now: int)
    requires Inv(w)
    ensures var q, t := w.q, Publish(w.q, b, now).0;
            if b.process == ExactlyOnce && Accepts(q, b) then
              && t.accepted == q.accepted + [Acceptance(b.hash.value, now, b.interval)]
              && t.timers == q.timers + [Timer(b.hash.value, now + TimerDelay(b.interval))]
            else t.accepted == q.accepted && t.timers == q.timers
  {
    PublishedIff(w, b, now);
  }

  /** The new consumer's cap is what the subscriber asked for exactly if that is 1. */
  lemma {:induction false} SubscribeCapIff(q: QueueState, con: nat, maxParallel: nat)
    ensures var cs := Subscribe(q, con, maxParallel).consumers;
            && |cs| == |q.consumers| + 1 && cs[..|q.consumers|] == q.consumers
            && cs[|q.consumers|].con == con && cs[|q.consumers|].handling == {}
            && (cs[|q.consumers|].maxMessagesInParallel == maxParallel <==> maxParallel == 1)
  {
  }

  // ---------------------------------------------------------------------------
  // The broker
  // ---------------------------------------------------------------------------

  class BrokerState {
    var queues: map<Str, QueueState>

    constructor ()
      ensures queues == map[]
    {
      queues := map[];
    }

    function QueueOf(name: Str): QueueState
      reads this
    {
      if name in queues then queues[name] else NEW_QUEUE
    }

    /** getQueue: created on first use. */
    method GetQueue(name: Str) returns (q: QueueState)
      modifies this
      ensures q == old(QueueOf(name)) && queues == old(queues)[name := q]
    {
      if name !in queues { queues := queues[name := NEW_QUEUE]; }
      q := queues[name];
    }

    /** The delivery loop of queuePublish. */
    method DeliverToFree(q: QueueState, id: int) returns (t: QueueState, to: seq<nat>)
      requires id in q.records
      ensures t == Deliver(q, id) && to == FreeOnes(q.consumers)
    {
      hide CountFree, FreeOnes;
      var all := q.consumers;
      var cs := all;
      var r := q.records[id];
      to := [];
      ghost var n := 0;
      CountNone();
      assert all[..0] == [];
      for k := 0 to |all|
        invariant |cs| == |all|
        invariant forall j :: 0 <= j < |cs| ==> cs[j] == if j < k then Take(all[j], id) else all[j]
        invariant n == CountFree(all[..k]) && to == FreeOnes(all[..k])
        invariant r == Served(q.records[id], n)
      {
        CountNext(all, k);
        var c := cs[k];
        if |c.handling| >= c.maxMessagesInParallel { continue; }
        cs := cs[k := c.(handling := c.handling + {id})];
        r := r.(tries := r.tries + 1, state := InFlight);
        to := to + [c.con];
        n := n + 1;
      }
      assert all[..|all|] == all;
      assert cs == TakeAll(all, id);
      t := q.(consumers := cs, records := q.records[id := r]);
    }

    /** queuePublish; other queues are left alone. */
    method QueuePublish(name: Str, b: Publication, now: int) returns (r: Published)
      modifies this
      ensures (QueueOf(name), r) == Publish(old(QueueOf(name)), b, now)
      ensures queues == old(queues)[name := QueueOf(name)]
    {
      hide Deliver, FreeOnes, TimerDelay;
      var q := GetQueue(name);
      var id := q.currentId;
      q := Numbered(q, b.delay);
      queues := queues[name := q];
      if b.process == ExactlyOnce {
        if b.interval == 0 { return Failed(MissingInterval); }
        if b.hash.None? || !TrueHash(b.hash.value) { return Failed(NoHash); }
        if b.hash.value in q.hashes { return Duplicate; }
        q := Remembered(q, b.hash.value, b.interval, now);
        q := q.(records := q.records[id := q.records[id].(ttl := Given(now + b.interval))]);
        queues := queues[name := q];
      }
      if b.delay > now { return Delayed; }
      var to;
      q, to := DeliverToFree(q, id);
      queues := queues[name := q];
      return Delivered(to);
    }

    method QueueSubscribe(name: Str, con: nat, maxParallel: nat)
      modifies this
      ensures queues == old(queues)[name := Subscribe(old(QueueOf(name)), con, maxParallel)]
    {
      var q := GetQueue(name);
      queues := queues[name := q.(consumers := q.consumers + [Consumer(con, {}, 1)])];
    }

    method QueueUnsubscribe(name: Str, con: nat)
      modifies this
      ensures queues == old(queues)[name := Unsubscribe(old(QueueOf(name)), con)]
    {
      var q := GetQueue(name);
      var index := IndexOf(q.consumers, con, 0);
      if index == |q.consumers| { return; }
      queues := queues[name := q.(consumers := q.consumers[..index] + q.consumers[index + 1..])];
    }

    /** queueMessageHandled: an unknown queue is not created. */
    method QueueMessageHandled(name: Str, con: nat, id: int, a: Answer, now: int)
      modifies this
      ensures queues == if name in old(queues) then old(queues)[name := Handled(old(QueueOf(name)), con, id, a, now)]
                        else old(queues)
    {
      if name !in queues { return; }
      var q := queues[name];
      var k := IndexOf(q.consumers, con, 0);
      if k == |q.consumers| { return; }
      var consumer := q.consumers[k];
      if id !in consumer.handling || id !in q.records { return; }
      consumer := consumer.(handling := consumer.handling - {id});
      q := q.(consumers := q.consumers[k := consumer], records := q.records[id := Answered(q.records[id], a, now)]);
      queues := queues[name := q];
    }
  }
}
