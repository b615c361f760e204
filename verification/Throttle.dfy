/**
 * throttleMessages: messages of an observable handed to an asynchronous handler in batches. The callbacks may
 * interleave in any order; `Run` ranges over all of them.
 */
module Throttle {
  datatype Settlement<R> = Resolved(results: seq<R>) | Rejected

  /** A handler call that has not settled: the variables its callbacks captured. */
  datatype Call<T> = Call(andFinish: bool, batch: seq<T>)

  /**
   * The variables of the closure, the handler calls still running, and what an outside observer has seen: the messages
   * delivered, the batches passed to the handler, what it answered to which batch, and the calls of resolve and reject.
   */
  datatype State<T, R> = State(
    messages: seq<T>,
    results: seq<R>,
    lastFlush: int,
    handlerDone: bool,
    finished: bool,
    running: seq<Call<T>>,
    observed: seq<T>,
    batches: seq<seq<T>>,
    answers: seq<(seq<T>, R)>,
    completed: bool,
    settled: seq<Settlement<R>>,
    failed: bool)

  datatype Options = Options(maxWait: int, batchSize: int)

  datatype Event<T, R> =
    | Message(m: T, now: int)
    | Complete(now: int)
    | HandlerReturns(k: nat, result: R, now: int)
    | HandlerThrows(k: nat)
    | SourceError

  function Init<T, R>(now: int): State<T, R> {
    State([], [], now, true, false, [], [], [], [], false, [], false)
  }

  function Flush<T, R>(s: State<T, R>, andFinish: bool, now: int): State<T, R> {
    var t := s.(finished := andFinish);
    if !t.handlerDone then t
    else if t.messages == [] then
      if andFinish then t.(settled := t.settled + [Resolved(t.results)]) else t
    else
      t.(lastFlush := now, handlerDone := false, messages := [],
         running := t.running + [Call(andFinish, t.messages)], batches := t.batches + [t.messages])
  }

  /** An observable delivers nothing after it completed, failed or was unsubscribed from. */
  predicate Enabled<T, R>(s: State<T, R>, e: Event<T, R>) {
    match e
    case Message(_, _) => !s.completed && !s.failed
    case Complete(_) => !s.completed && !s.failed
    case SourceError => !s.completed && !s.failed
    case HandlerReturns(k, _, _) => k < |s.running|
    case HandlerThrows(k) => k < |s.running|
  }

  function Remove<A>(running: seq<A>, k: nat): seq<A>
    requires k < |running|
  {
    running[..k] + running[k + 1..]
  }

  function OnMessage<T, R>(o: Options, s: State<T, R>, m: T, now: int): State<T, R> {
    var t := s.(messages := s.messages + [m], observed := s.observed + [m]);
    if now - t.lastFlush > o.maxWait || |t.messages| >= o.batchSize then Flush(t, false, now) else t
  }

  /** The handler's answer is recorded. */
  function Answered<T, R>(s: State<T, R>, k: nat, result: R): State<T, R>
    requires k < |s.running|
  {
    s.(results := s.results + [result], handlerDone := true, running := Remove(s.running, k),
       answers := s.answers + [(s.running[k].batch, result)])
  }

  function OnReturn<T, R>(s: State<T, R>, k: nat, result: R, now: int): State<T, R>
    requires k < |s.running|
  {
    var t := Answered(s, k, result);
    if s.running[k].andFinish then t.(settled := t.settled + [Resolved(t.results)])
    else if t.finished then Flush(t, true, now)
    else t
  }

  function Step<T, R>(o: Options, s: State<T, R>, e: Event<T, R>): State<T, R>
    requires Enabled(s, e)
  {
    match e
    case Message(m, now) => OnMessage(o, s, m, now)
    case Complete(now) => Flush(s.(completed := true), true, now)
    case HandlerReturns(k, result, now) => OnReturn(s, k, result, now)
    case HandlerThrows(k) => s.(running := Remove(s.running, k), settled := s.settled + [Rejected], failed := true)
    case SourceError => s.(settled := s.settled + [Rejected], failed := true)
  }

  ghost predicate Run<T, R>(o: Options, s: State<T, R>, es: seq<Event<T, R>>, t: State<T, R>)
    decreases |es|
  {
    if es == [] then s == t else Enabled(s, es[0]) && Run(o, Step(o, s, es[0]), es[1..], t)
  }

  function Concat<T>(xs: seq<seq<T>>): seq<T> { if xs == [] then [] else Concat(xs[..|xs| - 1]) + xs[|xs| - 1] }

  /** Conservation: every message is in exactly one batch or still waiting, in order, and no batch is empty. */
  ghost predicate Conserved<T, R>(s: State<T, R>) {
    && Concat(s.batches) + s.messages == s.observed
    && (forall i :: 0 <= i < |s.batches| ==> s.batches[i] != [])
  }

  /** At most one handler runs; every other batch has its result. */
  ghost predicate OneAtATime<T, R>(s: State<T, R>) {
    && |s.running| <= 1
    && (s.handlerDone ==> s.running == [])
    && (!s.failed ==> (s.handlerDone <==> s.running == []))
    && (!s.failed ==> |s.results| + |s.running| == |s.batches|)
  }

  /** Results are the handler's answers to the batches, in the order of the batches. */
  ghost predicate Answering<T, R>(s: State<T, R>) {
    && |s.answers| == |s.results| && |s.answers| + |s.running| == |s.batches|
    && (forall i :: 0 <= i < |s.answers| ==> s.answers[i] == (s.batches[i], s.results[i]))
    && (forall i :: 0 <= i < |s.running| ==> s.running[i].batch == s.batches[|s.answers| + i])
  }

  /** Without errors the promise is resolved once, exactly when the source has completed and no handler runs. */
  ghost predicate Settling<T, R>(s: State<T, R>) {
    && (s.finished ==> s.completed)
    && (s.running != [] && s.running[0].andFinish ==> s.messages == [] && s.completed)
    && (!s.failed && s.completed && s.running != [] ==> s.finished)
    && (!s.failed ==> s.settled == if s.completed && s.running == [] then [Resolved(s.results)] else [])
    && (!s.failed && s.completed && s.running == [] ==> s.messages == [])
  }

  ghost predicate Inv<T, R>(s: State<T, R>) {
    Conserved(s) && OneAtATime(s) && (!s.failed ==> Settling(s) && Answering(s))
  }

  lemma {:induction false} ConcatPush<T>(xs: seq<seq<T>>, x: seq<T>)
    ensures Concat(xs + [x]) == Concat(xs) + x
  {
    assert (xs + [x])[..|xs|] == xs;
  }

  lemma {:induction false} FlushConserves<T, R>(s: State<T, R>, andFinish: bool, now: int)
    requires Conserved(s)
    ensures Conserved(Flush(s, andFinish, now))
  {
    if s.handlerDone && s.messages != [] {
      ConcatPush(s.batches, s.messages);
      var b := Concat(s.batches) + s.messages;
      assert b + [] == b;
    }
  }

  lemma {:induction false} FlushOne<T, R>(s: State<T, R>, andFinish: bool, now: int)
    requires OneAtATime(s)
    ensures OneAtATime(Flush(s, andFinish, now))
  {
  }

  lemma {:induction false} StepConserves<T, R>(o: Options, s: State<T, R>, e: Event<T, R>)
    requires Conserved(s) && Enabled(s, e)
    ensures Conserved(Step(o, s, e))
  {
    match e
    case Message(m, now) =>
      var t := s.(messages := s.messages + [m], observed := s.observed + [m]);
      assert Concat(s.batches) + (s.messages + [m]) == Concat(s.batches) + s.messages + [m];
      FlushConserves(t, false, now);
    case Complete(now) => FlushConserves(s.(completed := true), true, now);
    case HandlerReturns(k, result, now) =>
      FlushConserves(Answered(s, k, result), true, now);
    case HandlerThrows(_) =>
    case SourceError =>
  }

  lemma {:induction false} MessageKeepsInv<T, R>(o: Options, s: State<T, R>, m: T, now: int)
    requires Inv(s) && Enabled(s, Message(m, now))
    ensures var t := Step(o, s, Message(m, now)); OneAtATime(t) && (!t.failed ==> Settling(t) && Answering(t))
  {
    hide Conserved;
    FlushOne(s.(messages := s.messages + [m], observed := s.observed + [m]), false, now);
  }

  lemma {:induction false} CompleteKeepsInv<T, R>(o: Options, s: State<T, R>, now: int)
    requires Inv(s) && Enabled(s, Complete(now))
    ensures var t: State<T, R> := Step(o, s, Complete(now)); OneAtATime(t)
    ensures var t: State<T, R> := Step(o, s, Complete(now)); !t.failed ==> Settling(t) && Answering(t)
  {
    hide Conserved;
    FlushOne(s.(completed := true), true, now);
  }

  lemma {:induction false} ReturnKeepsInv<T, R>(o: Options, s: State<T, R>, k: nat, result: R, now: int)
    requires Inv(s) && k < |s.running|
    ensures var t := OnReturn(s, k, result, now); OneAtATime(t) && (!t.failed ==> Settling(t) && Answering(t))
  {
    hide Conserved;
    assert k == 0 && Remove(s.running, 0) == [];
  }

  lemma {:induction false} StepKeepsInv<T, R>(o: Options, s: State<T, R>, e: Event<T, R>)
    requires Inv(s) && Enabled(s, e)
    ensures Inv(Step(o, s, e))
  {
    hide Conserved, Settling, Answering, OnMessage, OnReturn, Flush;
    StepConserves(o, s, e);
    match e
    case Message(m, now) => MessageKeepsInv(o, s, m, now);
    case Complete(now) => CompleteKeepsInv(o, s, now);
    case HandlerReturns(k, result, now) => ReturnKeepsInv(o, s, k, result, now);
    case HandlerThrows(_) =>
    case SourceError =>
  }

  /** Over every interleaving from the start. */
  lemma {:induction false} RunKeepsInv<T, R>(o: Options, s: State<T, R>, es: seq<Event<T, R>>, t: State<T, R>)
    requires Inv(s) && Run(o, s, es, t)
    ensures Inv(t)
    decreases |es|
  {
    if es != [] {
      StepKeepsInv(o, s, es[0]);
      RunKeepsInv(o, Step(o, s, es[0]), es[1..], t);
    }
  }

  /**
   * Without errors: at most one handler at a time; the batches are the messages in order; and once the source has
   * completed and the last handler returned, the promise is resolved, once, with one result for each batch, the i-th
   * being the handler's answer to the i-th batch.
   */
  lemma {:induction false} ThrottleCorrect<T, R>(o: Options, now: int, es: seq<Event<T, R>>, t: State<T, R>)
    requires Run(o, Init(now), es, t) && !t.failed
    ensures |t.running| <= 1
    ensures Concat(t.batches) + t.messages == t.observed
    ensures t.completed && t.running == [] ==>
              Concat(t.batches) == t.observed && t.settled == [Resolved(t.results)] && |t.results| == |t.batches|
    ensures |t.answers| == |t.results| <= |t.batches|
    ensures forall i :: 0 <= i < |t.results| ==> t.answers[i] == (t.batches[i], t.results[i])
    ensures !(t.completed && t.running == []) ==> t.settled == []
  {
    InitInv<T, R>(now);
    RunKeepsInv(o, Init(now), es, t);
    if t.messages == [] { assert Concat(t.batches) + [] == Concat(t.batches); }
  }

  lemma {:induction false} InitInv<T, R>(now: int)
    ensures Inv<T, R>(Init(now))
  {
    assert Concat<T>([]) + [] == [];
  }

  // --- errors

  predicate IsError<T, R>(e: Event<T, R>) { e.HandlerThrows? || e.SourceError? }

  predicate HasError<T, R>(es: seq<Event<T, R>>) { exists i :: 0 <= i < |es| && IsError(es[i]) }

  /** A promise keeps the settlement it gets first. */
  predicate FirstRejected<T, R>(s: State<T, R>) { s.settled != [] && s.settled[0].Rejected? }

  lemma {:induction false} StepRejects<T, R>(o: Options, s: State<T, R>, e: Event<T, R>)
    requires Inv(s) && Enabled(s, e) && (s.failed ==> FirstRejected(s))
    ensures Step(o, s, e).failed <==> s.failed || IsError(e)
    ensures Step(o, s, e).failed ==> FirstRejected(Step(o, s, e))
  {
    hide Conserved, Answering;
  }

  lemma {:induction false} RejectedFrom<T, R>(o: Options, s: State<T, R>, es: seq<Event<T, R>>, t: State<T, R>)
    requires Inv(s) && Run(o, s, es, t) && (s.failed ==> FirstRejected(s))
    ensures t.failed <==> s.failed || HasError(es)
    ensures Inv(t) && (t.failed ==> FirstRejected(t))
    decreases |es|
  {
    if es != [] {
      StepRejects(o, s, es[0]);
      StepKeepsInv(o, s, es[0]);
      RejectedFrom(o, Step(o, s, es[0]), es[1..], t);
      ErrorSplit(es);
    }
  }

  lemma {:induction false} ErrorSplit<T, R>(es: seq<Event<T, R>>)
    requires es != []
    ensures HasError(es) <==> IsError(es[0]) || HasError(es[1..])
  {
    if HasError(es[1..]) {
      var i :| 0 <= i < |es[1..]| && IsError(es[1..][i]);
      assert es[i + 1] == es[1..][i];
    }
    if HasError(es) && !IsError(es[0]) {
      var i :| 0 <= i < |es| && IsError(es[i]);
      assert es[1..][i - 1] == es[i];
    }
  }

  /** The promise is rejected exactly if the source or a handler fails; otherwise it is never rejected. */
  lemma {:induction false} RejectedIff<T, R>(o: Options, now: int, es: seq<Event<T, R>>, t: State<T, R>)
    requires Run(o, Init(now), es, t)
    ensures FirstRejected(t) <==> HasError(es)
    ensures t.failed <==> HasError(es)
  {
    InitInv<T, R>(now);
    RejectedFrom(o, Init(now), es, t);
  }

  /** After completion every return of the handler brings the promise closer: the wait is at most two handler runs. */
  function Remaining<T, R>(s: State<T, R>): nat { |s.running| + (if s.messages == [] then 0 else 1) }

  lemma {:induction false} CompletionProgress<T, R>(o: Options, s: State<T, R>, result: R, now: int)
    requires Inv(s) && !s.failed && s.completed && s.running != []
    ensures Remaining(Step(o, s, HandlerReturns(0, result, now))) < Remaining(s) <= 2
  {
    assert Remove(s.running, 0) == [];
  }

  // --- when a batch is started

  /** The guard of each event that calls flush: whether it starts a batch. */
  predicate Starts<T, R>(o: Options, s: State<T, R>, e: Event<T, R>)
    requires Enabled(s, e)
  {
    match e
    case Message(_, now) =>
      s.handlerDone && (now - s.lastFlush > o.maxWait || |s.messages| + 1 >= o.batchSize)
    case Complete(_) => s.handlerDone && s.messages != []
    case HandlerReturns(k, _, _) => !s.running[k].andFinish && s.finished && s.messages != []
    case HandlerThrows(_) => false
    case SourceError => false
  }

  /** The messages waiting when the event calls flush. */
  function Waiting<T, R>(s: State<T, R>, e: Event<T, R>): seq<T> {
    if e.Message? then s.messages + [e.m] else s.messages
  }

  /** Every event starts a batch exactly under its guard, and the batch is all messages waiting, however many. */
  lemma {:induction false} BatchIff<T, R>(o: Options, s: State<T, R>, e: Event<T, R>)
    requires Enabled(s, e)
    ensures Step(o, s, e).batches == if Starts(o, s, e) then s.batches + [Waiting(s, e)] else s.batches
    ensures Step(o, s, e).messages == if Starts(o, s, e) then [] else Waiting(s, e)
  {
  }

  // --- when the last batch was started

  function TimeOf<T, R>(e: Event<T, R>, since: int): int {
    match e
    case Message(_, now) => now
    case Complete(now) => now
    case HandlerReturns(_, _, now) => now
    case HandlerThrows(_) => since
    case SourceError => since
  }

  /** The time of the last event of a run that adds a batch, or `since` if none does. */
  ghost function LastStart<T, R>(o: Options, s: State<T, R>, es: seq<Event<T, R>>, since: int): int
    decreases |es|
  {
    if es == [] || !Enabled(s, es[0]) then since
    else
      var u := Step(o, s, es[0]);
      LastStart(o, u, es[1..], if |u.batches| > |s.batches| then TimeOf(es[0], since) else since)
  }

  /** The variable of that name holds the time of the last start. */
  lemma {:induction false} LastFlushIs<T, R>(o: Options, s: State<T, R>, es: seq<Event<T, R>>, t: State<T, R>)
    requires Run(o, s, es, t)
    ensures t.lastFlush == LastStart(o, s, es, s.lastFlush)
    decreases |es|
  {
    if es != [] { LastFlushIs(o, Step(o, s, es[0]), es[1..], t); }
  }

  // --- the maximum wait

  /** Messages wait for longer than maxWait although no handler runs. */
  predicate Overdue<T, R>(o: Options, s: State<T, R>, now: int) {
    s.handlerDone && s.messages != [] && now - s.lastFlush > o.maxWait
  }

  /**
   * In every run, an arriving message keeps waiting for an idle handler exactly if it arrives within maxWait of the
   * last start of a batch, or of the beginning, and does not fill the batch.
   */
  lemma {:induction false} WaitsIff<T, R>(o: Options, start: int, es: seq<Event<T, R>>, s: State<T, R>, m: T, now: int)
    requires Run(o, Init(start), es, s) && Enabled(s, Message(m, now)) && s.handlerDone
    ensures var t := Step(o, s, Message(m, now));
            t.handlerDone && t.batches == s.batches && t.messages == s.messages + [m] <==>
            now - LastStart(o, Init(start), es, start) <= o.maxWait && |s.messages| + 1 < o.batchSize
  {
    LastFlushIs(o, Init(start), es, s);
    BatchIff(o, s, Message(m, now));
  }

  function Arrivals<T, R>(es: seq<Event<T, R>>): nat {
    if es == [] then 0 else (if es[0].Message? then 1 else 0) + Arrivals(es[1..])
  }

  /** The source goes on, and its messages come within maxWait of `since`. */
  ghost predicate InTime<T, R>(o: Options, since: int, es: seq<Event<T, R>>) {
    es != [] ==>
      && !es[0].Complete?
      && (es[0].Message? ==> es[0].now - since <= o.maxWait)
      && InTime(o, since, es[1..])
  }

  lemma {:induction false} BatchesGrow<T, R>(o: Options, s: State<T, R>, es: seq<Event<T, R>>, t: State<T, R>)
    requires Run(o, s, es, t)
    ensures |t.batches| >= |s.batches|
    decreases |es|
  {
    if es != [] {
      BatchIff(o, s, es[0]);
      BatchesGrow(o, Step(o, s, es[0]), es[1..], t);
    }
  }

  lemma {:induction false} StaysFrom<T, R>(o: Options, s: State<T, R>, es: seq<Event<T, R>>, t: State<T, R>)
    requires Inv(s) && s.handlerDone && s.messages != [] && Run(o, s, es, t)
    ensures t.batches == s.batches <==>
            InTime(o, s.lastFlush, es) && (Arrivals(es) == 0 || |s.messages| + Arrivals(es) < o.batchSize)
    decreases |es|
  {
    if es != [] {
      var u := Step(o, s, es[0]);
      BatchIff(o, s, es[0]);
      StepKeepsInv(o, s, es[0]);
      if Starts(o, s, es[0]) {
        BatchesGrow(o, u, es[1..], t);
      } else {
        StaysFrom(o, u, es[1..], t);
      }
    }
  }

  /**
   * What maxWait means, in every run: messages waiting for an idle handler stay there, for however long, exactly as
   * long as the source does not complete, every further message comes within maxWait of the last start of a batch, and
   * together they do not fill a batch. No clock starts a batch.
   */
  lemma {:induction false} StaysIff<T, R>(o: Options, start: int, before: seq<Event<T, R>>, s: State<T, R>,
                                          es: seq<Event<T, R>>, t: State<T, R>)
    requires Run(o, Init(start), before, s) && s.handlerDone && s.messages != [] && Run(o, s, es, t)
    ensures t.batches == s.batches <==>
            && InTime(o, LastStart(o, Init(start), before, start), es)
            && (Arrivals(es) == 0 || |s.messages| + Arrivals(es) < o.batchSize)
  {
    InitInv<T, R>(start);
    RunKeepsInv(o, Init(start), before, s);
    LastFlushIs(o, Init(start), before, s);
    StaysFrom(o, s, es, t);
  }

  /** A first message is overdue as soon as maxWait has passed, and nothing has been handed to the handler. */
  lemma {:induction false} MaxWaitMayPass<T, R>(o: Options, start: int, m: T, now: int)
    requires o.batchSize >= 2 && o.maxWait >= 0 && now - start > o.maxWait
    ensures var s: State<T, R> := Step(o, Init(start), Message(m, start));
            Run(o, Init(start), [Message(m, start)], s) && Overdue(o, s, now) && s.batches == []
  {
    var s: State<T, R> := Step(o, Init(start), Message(m, start));
    var es: seq<Event<T, R>> := [Message(m, start)];
    assert es[1..] == [] && Run(o, s, es[1..], s);
  }

  // --- the batch size

  /** At most batchSize messages are waiting whenever a batch is started. */
  ghost predicate InBounds<T, R>(o: Options, s: State<T, R>, es: seq<Event<T, R>>)
    decreases |es|
  {
    es != [] ==>
      && Enabled(s, es[0])
      && (Starts(o, s, es[0]) ==> |Waiting(s, es[0])| <= o.batchSize)
      && InBounds(o, Step(o, s, es[0]), es[1..])
  }

  ghost predicate Small<T>(o: Options, batches: seq<seq<T>>) {
    forall i :: 0 <= i < |batches| ==> |batches[i]| <= o.batchSize
  }

  /**
   * The batches of a run are within batchSize exactly if at most batchSize messages are waiting whenever one is
   * started, be it by a message, by the completion of the source or by a handler that returns after it.
   */
  lemma {:induction false} BatchSizeIff<T, R>(o: Options, s: State<T, R>, es: seq<Event<T, R>>, t: State<T, R>)
    requires Run(o, s, es, t)
    ensures Small(o, t.batches) <==> Small(o, s.batches) && InBounds(o, s, es)
    decreases |es|
  {
    if es != [] {
      var u := Step(o, s, es[0]);
      BatchIff(o, s, es[0]);
      SmallPush(o, s.batches, Waiting(s, es[0]));
      BatchSizeIff(o, u, es[1..], t);
    }
  }

  lemma {:induction false} SmallPush<T>(o: Options, batches: seq<seq<T>>, b: seq<T>)
    ensures Small(o, batches + [b]) <==> Small(o, batches) && |b| <= o.batchSize
  {
    var all := batches + [b];
    assert all[|batches|] == b && forall i :: 0 <= i < |batches| ==> all[i] == batches[i];
  }

  /** Fewer than batchSize messages are waiting whenever a handler returns. */
  ghost predicate Prompt<T, R>(o: Options, s: State<T, R>, es: seq<Event<T, R>>)
    decreases |es|
  {
    es != [] ==>
      && Enabled(s, es[0])
      && (es[0].HandlerReturns? ==> |s.messages| < o.batchSize)
      && Prompt(o, Step(o, s, es[0]), es[1..])
  }

  /** Only messages that pile up behind a handler make a batch too large. */
  lemma {:induction false} PromptInBounds<T, R>(o: Options, s: State<T, R>, es: seq<Event<T, R>>)
    requires o.batchSize >= 1 && Prompt(o, s, es) && (s.handlerDone ==> |s.messages| < o.batchSize)
    ensures InBounds(o, s, es)
    decreases |es|
  {
    if es != [] {
      BatchIff(o, s, es[0]);
      PromptInBounds(o, Step(o, s, es[0]), es[1..]);
    }
  }

  /** The documented maximum is exceeded when messages pile up behind a slow handler: here two with batchSize 1. */
  lemma {:induction false} BatchMayExceedSize(s: State<int, int>)
    requires s == Step(Options(100, 1), Init(0), Message(1, 0))
    ensures Enabled(s, Message(2, 0))
    ensures var t := Step(Options(100, 1), s, Message(2, 0));
            && Enabled(t, Complete(0)) && t.messages == [2]
            && var u := OnMessage(Options(100, 1), t, 3, 0);
               && u.running == [Call(false, [1])] && u.messages == [2, 3]
               && OnReturn(Flush(u.(completed := true), true, 0), 0, 0, 0).batches == [[1], [2, 3]]
  {
    var none: seq<seq<int>>, empty: seq<int>, idle: seq<Call<int>> := [], [], [];
    assert empty + [1] == [1] && none + [[1]] == [[1]] && idle + [Call(false, [1])] == [Call(false, [1])];
    assert [2] + [3] == [2, 3];
  }

  // ---------------------------------------------------------------------------
  // The closure
  // ---------------------------------------------------------------------------

  class Throttler<T, R> {
    const o: Options
    var messages: seq<T>
    var results: seq<R>
    var lastFlush: int
    var handlerDone: bool
    var finished: bool
    var running: seq<Call<T>>
    var settled: seq<Settlement<R>>
    var failed: bool
    ghost var observed: seq<T>
    ghost var batches: seq<seq<T>>
    ghost var answers: seq<(seq<T>, R)>
    ghost var completed: bool

    ghost function View(): State<T, R>
      reads this
    {
      State(messages, results, lastFlush, handlerDone, finished, running, observed, batches, answers, completed,
            settled, failed)
    }

    constructor (o: Options, now: int)
      ensures View() == Init(now) && this.o == o
    {
      this.o := o;
      messages, results, lastFlush, handlerDone, finished := [], [], now, true, false;
      running, settled, failed, observed, batches, answers, completed := [], [], false, [], [], [], false;
    }

    /** flush */
    method FlushNow(andFinish: bool, now: int)
      modifies this
      ensures View() == Flush(old(View()), andFinish, now)
    {
      finished := andFinish;
      if !handlerDone { return; }
      if messages == [] {
        if andFinish { settled := settled + [Resolved(results)]; }
        return;
      }
      lastFlush := now;
      handlerDone := false;
      batches := batches + [messages];
      running := running + [Call(andFinish, messages)];
      messages := [];
    }

    /** The subscriber's next. */
    method Next(m: T, now: int)
      modifies this
      ensures View() == OnMessage(o, old(View()), m, now)
    {
      observed := observed + [m];
      messages := messages + [m];
      if now - lastFlush > o.maxWait || |messages| >= o.batchSize { FlushNow(false, now); }
    }

    /** The subscriber's complete. */
    method Completed(now: int)
      requires Enabled(View(), Complete(now))
      modifies this
      ensures View() == Step(o, old(View()), Complete(now))
    {
      completed := true;
      FlushNow(true, now);
    }

    /** The fulfilment callback of a running handler. */
    method Returned(k: nat, result: R, now: int)
      requires k < |running|
      modifies this
      ensures View() == OnReturn(old(View()), k, result, now)
    {
      var andFinish := running[k].andFinish;
      answers := answers + [(running[k].batch, result)];
      running := Remove(running, k);
      results := results + [result];
      handlerDone := true;
      if andFinish {
        settled := settled + [Resolved(results)];
      } else if finished {
        FlushNow(true, now);
      }
    }

    /** The rejection callback of a running handler: unsubscribe and reject. */
    method Threw(k: nat)
      requires k < |running|
      modifies this
      ensures View() == Step(o, old(View()), HandlerThrows(k))
    {
      running := Remove(running, k);
      failed := true;
      settled := settled + [Rejected];
    }
  }
}
