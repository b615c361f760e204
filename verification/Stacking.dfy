/**
 * The decorators stack and singleStack: calls of an async method on one instance. A run of the method first has a
 * synchronous part, during which the method may be called again; only when that part has returned its promise is the
 * slot assigned. Continuations run when no synchronous part does, in any order after their promises have settled.
 */
module Stacking {
  import opened Bytes

  datatype Outcome = Fulfilled(v: int) | Rejected(e: int)
  datatype Promise = Pending | Settled(o: Outcome)

  /**
   * Where a call stands: awaiting a predecessor's promise, in the synchronous part of its run, awaiting the promise of
   * its run, ended with the outcome of its run, or ended with the outcome of a predecessor's run without having run.
   */
  datatype Call =
    | Waiting(p: nat)
    | Starting
    | Holding(p: nat)
    | Finished(p: nat, o: Outcome)
    | Dropped(p: nat, o: Outcome)

  /**
   * The slot field of the instance, the promises of the runs that have returned one, the calls whose synchronous parts
   * are on the stack, the innermost last, all calls so far, and, as history, which call made each promise.
   */
  datatype State = State(
    slot: Option<nat>,
    promises: seq<Promise>,
    active: seq<nat>,
    calls: seq<Call>,
    makers: seq<nat>)

  const INIT := State(None, [], [], [], [])

  datatype Event =
    | Invoke                        // a new call, up to its first await or into the method
    | Return                        // the innermost synchronous part returns its promise
    | Settle(p: nat, o: Outcome)    // a run of the method ends
    | Resume(c: nat)                // the continuation of a call whose promise has settled

  predicate SettledAt(s: State, p: nat) { p < |s.promises| && s.promises[p].Settled? }

  predicate PendingAt(s: State, p: nat) { p < |s.promises| && s.promises[p].Pending? }

  function Top(active: seq<nat>): nat
    requires active != []
  {
    active[|active| - 1]
  }

  predicate Enabled(s: State, e: Event) {
    match e
    case Invoke => true
    case Return => s.active != [] && Top(s.active) < |s.calls|
    case Settle(p, _) => PendingAt(s, p)
    case Resume(c) =>
      && s.active == []
      && c < |s.calls| && (s.calls[c].Waiting? || s.calls[c].Holding?) && SettledAt(s, s.calls[c].p)
  }

  /** `while (slot) await slot; slot = orig(...)` from the loop head, for call `c`: it awaits, or enters the method. */
  function LoopHead(s: State, c: nat): (State, Call) {
    if s.slot.Some? then (s, Waiting(s.slot.value)) else (s.(active := s.active + [c]), Starting)
  }

  /** `slot = orig(...)`, once the method has returned its promise. */
  function Assign(s: State): State
    requires s.active != [] && Top(s.active) < |s.calls|
  {
    var c, p := Top(s.active), |s.promises|;
    s.(slot := Some(p), promises := s.promises + [Pending], active := s.active[..|s.active| - 1],
       calls := s.calls[c := Holding(p)], makers := s.makers + [c])
  }

  /** How a waiting call goes on: stack() tries again or rejects, singleStack() takes the predecessor's outcome. */
  function Continue(single: bool, s: State, c: nat): State
    requires c < |s.calls| && s.calls[c].Waiting? && SettledAt(s, s.calls[c].p)
  {
    var p := s.calls[c].p;
    var o := s.promises[p].o;
    if single || o.Rejected? then s.(calls := s.calls[c := Dropped(p, o)])
    else
      var (t, next) := LoopHead(s, c);
      t.(calls := t.calls[c := next])
  }

  /** `finally slot = null`, and the call ends with the outcome of its run. */
  function Release(s: State, c: nat): State
    requires c < |s.calls| && s.calls[c].Holding? && SettledAt(s, s.calls[c].p)
  {
    s.(slot := None, calls := s.calls[c := Finished(s.calls[c].p, s.promises[s.calls[c].p].o)])
  }

  function Step(single: bool, s: State, e: Event): State
    requires Enabled(s, e)
  {
    match e
    case Invoke =>
      var (t, next) := LoopHead(s, |s.calls|);
      t.(calls := t.calls + [next])
    case Return => Assign(s)
    case Settle(p, o) => s.(promises := s.promises[p := Settled(o)])
    case Resume(c) => if s.calls[c].Waiting? then Continue(single, s, c) else Release(s, c)
  }

  ghost predicate Run(single: bool, s: State, es: seq<Event>, t: State)
    decreases |es|
  {
    if es == [] then s == t else Enabled(s, es[0]) && Run(single, Step(single, s, es[0]), es[1..], t)
  }

  // ---------------------------------------------------------------------------
  // What holds in every run
  // ---------------------------------------------------------------------------

  predicate Owns(c: Call, p: nat) { (c.Holding? || c.Finished?) && c.p == p }

  /** Each promise was made by the call that owns it, and by no other. */
  ghost predicate Made(s: State) {
    && |s.makers| == |s.promises|
    && (forall p :: 0 <= p < |s.makers| ==> s.makers[p] < |s.calls| && Owns(s.calls[s.makers[p]], p))
    && (forall c :: 0 <= c < |s.calls| && !s.calls[c].Starting? ==> s.calls[c].p < |s.makers|)
    && (forall c :: 0 <= c < |s.calls| && (s.calls[c].Holding? || s.calls[c].Finished?) ==>
          s.makers[s.calls[c].p] == c)
  }

  /** The synchronous parts on the stack are those of the starting calls. */
  ghost predicate Stacked(s: State) {
    && (forall i :: 0 <= i < |s.active| ==> s.active[i] < |s.calls| && s.calls[s.active[i]].Starting?)
    && (forall i, j :: 0 <= i < j < |s.active| ==> s.active[i] != s.active[j])
    && (forall c :: 0 <= c < |s.calls| && s.calls[c].Starting? ==> c in s.active)
  }

  /** Ended calls have the outcome of a settled promise. */
  ghost predicate Outcomes(single: bool, s: State) {
    && (forall c :: 0 <= c < |s.calls| && (s.calls[c].Finished? || s.calls[c].Dropped?) ==>
          s.calls[c].p < |s.promises| && s.promises[s.calls[c].p] == Settled(s.calls[c].o))
    && (!single ==> forall c :: 0 <= c < |s.calls| && s.calls[c].Dropped? ==> s.calls[c].o.Rejected?)
  }

  /** The promise in the slot is one whose call has not released it. */
  ghost predicate SlotHeld(s: State) {
    s.slot.Some? ==>
      && s.slot.value < |s.makers| && s.makers[s.slot.value] < |s.calls|
      && s.calls[s.makers[s.slot.value]] == Holding(s.slot.value)
  }

  ghost predicate Sound(single: bool, s: State) { Made(s) && Stacked(s) && Outcomes(single, s) && SlotHeld(s) }

  lemma {:induction false} InvokeWaits(single: bool, s: State)
    requires Sound(single, s) && s.slot.Some?
    ensures Sound(single, Step(single, s, Invoke))
  {
    var t, n := Step(single, s, Invoke), |s.calls|;
    assert forall c :: 0 <= c < n ==> t.calls[c] == s.calls[c];
  }

  lemma {:induction false} InvokeStarts(single: bool, s: State)
    requires Sound(single, s) && s.slot.None?
    ensures Sound(single, Step(single, s, Invoke))
  {
    var t, n := Step(single, s, Invoke), |s.calls|;
    assert forall c :: 0 <= c < n ==> t.calls[c] == s.calls[c];
    assert t.active[|s.active|] == n;
  }

  lemma {:induction false} ReturnSound(single: bool, s: State)
    requires Sound(single, s) && Enabled(s, Return)
    ensures Sound(single, Assign(s))
  {
    var t, c := Assign(s), Top(s.active);
    var n := |s.active| - 1;
    assert s.active[n] == c && s.active == s.active[..n] + [c];
    forall d | 0 <= d < |t.calls| && t.calls[d].Starting? ensures d in t.active {
      assert d != c && d in s.active;
    }
    assert t.makers[|s.makers|] == c;
    forall p | 0 <= p < |s.makers| ensures t.makers[p] == s.makers[p] != c { }
  }

  lemma {:induction false} SettleSound(single: bool, s: State, p: nat, o: Outcome)
    requires Sound(single, s) && PendingAt(s, p)
    ensures Sound(single, Step(single, s, Settle(p, o)))
  {
  }

  lemma {:induction false} ReleaseSound(single: bool, s: State, c: nat)
    requires Sound(single, s) && Enabled(s, Resume(c)) && s.calls[c].Holding?
    ensures Sound(single, Release(s, c))
  {
  }

  lemma {:induction false} ContinueSound(single: bool, s: State, c: nat)
    requires Sound(single, s) && Enabled(s, Resume(c)) && s.calls[c].Waiting?
    ensures Sound(single, Continue(single, s, c))
  {
    var t := Continue(single, s, c);
    forall d | 0 <= d < |t.calls| && t.calls[d].Starting? ensures d in t.active {
      assert d == c ==> t.active == [c];
    }
  }

  lemma {:induction false} StepSound(single: bool, s: State, e: Event)
    requires Sound(single, s) && Enabled(s, e)
    ensures Sound(single, Step(single, s, e))
  {
    hide Sound;
    match e
    case Invoke => if s.slot.Some? { InvokeWaits(single, s); } else { InvokeStarts(single, s); }
    case Return => ReturnSound(single, s);
    case Settle(p, o) => SettleSound(single, s, p, o);
    case Resume(c) => if s.calls[c].Waiting? { ContinueSound(single, s, c); } else { ReleaseSound(single, s, c); }
  }

  lemma {:induction false} RunSound(single: bool, s: State, es: seq<Event>, t: State)
    requires Sound(single, s) && Run(single, s, es, t)
    ensures Sound(single, t)
    decreases |es|
  {
    if es != [] {
      StepSound(single, s, es[0]);
      RunSound(single, Step(single, s, es[0]), es[1..], t);
    }
  }

  lemma {:induction false} InitSound(single: bool)
    ensures Sound(single, INIT) && Orderly(INIT)
  {
  }

  // --- every call is accounted for

  function CountIn(makers: seq<nat>, c: nat): nat {
    if makers == [] then 0 else CountIn(makers[..|makers| - 1], c) + (if makers[|makers| - 1] == c then 1 else 0)
  }

  lemma {:induction false} CountNone(makers: seq<nat>, c: nat)
    requires forall p :: 0 <= p < |makers| ==> makers[p] != c
    ensures CountIn(makers, c) == 0
  {
    if makers != [] { CountNone(makers[..|makers| - 1], c); }
  }

  lemma {:induction false} CountOnce(makers: seq<nat>, c: nat, q: nat)
    requires q < |makers| && forall p :: 0 <= p < |makers| ==> (makers[p] == c <==> p == q)
    ensures CountIn(makers, c) == 1
  {
    var n := |makers| - 1;
    if q == n { CountNone(makers[..n], c); } else { CountOnce(makers[..n], c, q); }
  }

  /** How often call `c` has run the method: runs that have returned a promise, and synchronous parts on the stack. */
  function RunsOf(s: State, c: nat): nat { CountIn(s.makers, c) + CountIn(s.active, c) }

  lemma {:induction false} MadeCount(s: State, c: nat)
    requires Made(s) && Stacked(s) && c < |s.calls|
    ensures CountIn(s.makers, c) == if s.calls[c].Holding? || s.calls[c].Finished? then 1 else 0
    ensures CountIn(s.active, c) == if s.calls[c].Starting? then 1 else 0
  {
    if s.calls[c].Holding? || s.calls[c].Finished? {
      CountOnce(s.makers, c, s.calls[c].p);
    } else {
      CountNone(s.makers, c);
    }
    if s.calls[c].Starting? {
      var i :| 0 <= i < |s.active| && s.active[i] == c;
      CountOnce(s.active, c, i);
    } else {
      CountNone(s.active, c);
    }
  }

  /**
   * Every ended call of stack() has run the method exactly once and returns the outcome of that run; or it has not run
   * it and rejects with the error of a run made by another call. A call of singleStack() that did not run returns
   * whatever that other run returned. A call that has not ended has not run, or is in its only run. Nested calls
   * included.
   */
  lemma {:induction false} EveryCallAccounted(single: bool, es: seq<Event>, t: State, c: nat)
    requires Run(single, INIT, es, t) && c < |t.calls|
    ensures |t.makers| == |t.promises| && (!t.calls[c].Starting? ==> t.calls[c].p < |t.makers|)
    ensures t.calls[c].Finished? || t.calls[c].Dropped? ==> t.promises[t.calls[c].p] == Settled(t.calls[c].o)
    ensures t.calls[c].Finished? || t.calls[c].Holding? ==> RunsOf(t, c) == 1 && t.makers[t.calls[c].p] == c
    ensures t.calls[c].Starting? ==> RunsOf(t, c) == 1
    ensures t.calls[c].Dropped? || t.calls[c].Waiting? ==> RunsOf(t, c) == 0 && t.makers[t.calls[c].p] != c
    ensures t.calls[c].Dropped? && !single ==> t.calls[c].o.Rejected?
  {
    InitSound(single);
    RunSound(single, INIT, es, t);
    MadeCount(t, c);
    if !t.calls[c].Starting? { assert Owns(t.calls[t.makers[t.calls[c].p]], t.calls[c].p); }
  }

  predicate Ran(c: Call) { c.Starting? || c.Holding? || c.Finished? }

  function Runners(calls: seq<Call>): nat {
    if calls == [] then 0 else Runners(calls[..|calls| - 1]) + (if Ran(calls[|calls| - 1]) then 1 else 0)
  }

  lemma {:induction false} RunnersPush(calls: seq<Call>, x: Call)
    ensures Runners(calls + [x]) == Runners(calls) + (if Ran(x) then 1 else 0)
  {
    assert (calls + [x])[..|calls|] == calls;
  }

  lemma {:induction false} RunnersUpdate(calls: seq<Call>, c: nat, x: Call)
    requires c < |calls|
    ensures Runners(calls[c := x]) + (if Ran(calls[c]) then 1 else 0) == Runners(calls) + (if Ran(x) then 1 else 0)
  {
    var n := |calls| - 1;
    if c == n {
      assert calls[c := x][..n] == calls[..n];
    } else {
      assert calls[c := x][..n] == calls[..n][c := x];
      RunnersUpdate(calls[..n], c, x);
    }
  }

  /** The method has been run as often as there are calls that are or were in a run: no run is lost or repeated. */
  lemma {:induction false} RunsAreOwners(single: bool, s: State, es: seq<Event>, t: State)
    requires Sound(single, s) && |s.promises| + |s.active| == Runners(s.calls) && Run(single, s, es, t)
    ensures |t.promises| + |t.active| == Runners(t.calls)
    decreases |es|
  {
    hide Sound;
    if es != [] {
      StepSound(single, s, es[0]);
      StepCounts(single, s, es[0]);
      RunsAreOwners(single, Step(single, s, es[0]), es[1..], t);
    }
  }

  lemma {:induction false} StepCounts(single: bool, s: State, e: Event)
    requires Sound(single, s) && |s.promises| + |s.active| == Runners(s.calls) && Enabled(s, e)
    ensures var t := Step(single, s, e); |t.promises| + |t.active| == Runners(t.calls)
  {
    hide Runners;
    match e
    case Invoke => RunnersPush(s.calls, LoopHead(s, |s.calls|).1);
    case Return =>
      assert s.calls[Top(s.active)].Starting?;
      RunnersUpdate(s.calls, Top(s.active), Holding(|s.promises|));
    case Settle(_, _) =>
    case Resume(c) => RunnersUpdate(s.calls, c, Step(single, s, e).calls[c]);
  }

  // ---------------------------------------------------------------------------
  // Mutual exclusion
  // ---------------------------------------------------------------------------

  /** At most one run is in flight: in its synchronous part, or with a promise that has not settled. */
  ghost predicate Exclusive(s: State) {
    && |s.active| <= 1
    && (s.active != [] ==> forall p :: 0 <= p < |s.promises| ==> !PendingAt(s, p))
    && (forall p, q :: 0 <= p < |s.promises| && 0 <= q < |s.promises| && PendingAt(s, p) && PendingAt(s, q) ==> p == q)
  }

  /** The slot is left alone, or cleared by the call whose promise it holds after that has settled. */
  predicate ClearsOwn(single: bool, s: State, e: Event)
    requires Enabled(s, e)
  {
    s.slot.Some? && Step(single, s, e).slot != s.slot ==>
      e.Resume? && s.calls[e.c] == Holding(s.slot.value) && Step(single, s, e).slot == None
  }

  ghost predicate AlwaysExclusive(single: bool, s: State, es: seq<Event>)
    decreases |es|
  {
    Exclusive(s) && (es != [] ==> Enabled(s, es[0]) && AlwaysExclusive(single, Step(single, s, es[0]), es[1..]))
  }

  ghost predicate AlwaysOwn(single: bool, s: State, es: seq<Event>)
    decreases |es|
  {
    es != [] ==>
      Enabled(s, es[0]) && ClearsOwn(single, s, es[0]) && AlwaysOwn(single, Step(single, s, es[0]), es[1..])
  }

  /** No call is made during the synchronous part of a run. */
  ghost predicate Calm(single: bool, s: State, es: seq<Event>)
    decreases |es|
  {
    es != [] ==>
      && Enabled(s, es[0])
      && (es[0].Invoke? ==> s.active == [])
      && Calm(single, Step(single, s, es[0]), es[1..])
  }

  /** A run in its synchronous part has found the slot empty; one with a promise is the one in the slot. */
  ghost predicate Orderly(s: State) {
    && |s.active| <= 1
    && (s.active != [] ==> s.slot == None)
    && (forall p :: 0 <= p < |s.promises| && PendingAt(s, p) ==> s.slot == Some(p))
    && (forall c :: 0 <= c < |s.calls| && s.calls[c].Holding? ==> s.slot == Some(s.calls[c].p))
  }

  lemma {:induction false} OrderlyExclusive(s: State)
    requires Orderly(s)
    ensures Exclusive(s)
  {
  }

  lemma {:induction false} StepOrderly(single: bool, s: State, e: Event)
    requires Sound(single, s) && Orderly(s) && Enabled(s, e) && (e.Invoke? ==> s.active == [])
    ensures Orderly(Step(single, s, e)) && ClearsOwn(single, s, e)
  {
    if e.Resume? && s.calls[e.c].Holding? {
      forall d | 0 <= d < |s.calls| && s.calls[d].Holding? ensures d == e.c { OneHolder(single, s, d, e.c); }
    }
  }

  lemma {:induction false} OneHolder(single: bool, s: State, c: nat, d: nat)
    requires Sound(single, s) && c < |s.calls| && d < |s.calls| && s.calls[c].Holding? && s.calls[d].Holding?
    requires s.calls[c].p == s.calls[d].p
    ensures c == d
  {
    assert s.makers[s.calls[c].p] == c;
  }

  lemma {:induction false} ExclusionFrom(single: bool, s: State, es: seq<Event>, t: State)
    requires Sound(single, s) && Orderly(s) && Run(single, s, es, t)
    ensures AlwaysExclusive(single, s, es) <==> Calm(single, s, es)
    ensures Calm(single, s, es) ==> AlwaysOwn(single, s, es) && Orderly(t)
    decreases |es|
  {
    hide Sound, Orderly, Exclusive;
    OrderlyExclusive(s);
    if es != [] {
      var u := Step(single, s, es[0]);
      if es[0].Invoke? && s.active != [] {
        NestedStarts(single, s);
        assert !AlwaysExclusive(single, u, es[1..]);
      } else {
        StepSound(single, s, es[0]);
        StepOrderly(single, s, es[0]);
        ExclusionFrom(single, u, es[1..], t);
      }
    }
  }

  lemma {:induction false} NestedStarts(single: bool, s: State)
    requires Orderly(s) && s.active != []
    ensures !Exclusive(Step(single, s, Invoke)) && s.slot == None
  {
  }

  /**
   * Mutual exclusion, for any number of calls and any order of resumptions: at most one run is in flight throughout,
   * exactly if no call is made during the synchronous part of a run.
   */
  lemma {:induction false} ExclusionIff(single: bool, es: seq<Event>, t: State)
    requires Run(single, INIT, es, t)
    ensures AlwaysExclusive(single, INIT, es) <==> Calm(single, INIT, es)
  {
    InitSound(single);
    ExclusionFrom(single, INIT, es, t);
  }

  /** In such runs the slot is only ever cleared by the call whose promise it holds, after that has settled. */
  lemma {:induction false} OnlyHolderClears(single: bool, es: seq<Event>, t: State)
    requires Run(single, INIT, es, t) && Calm(single, INIT, es)
    ensures AlwaysOwn(single, INIT, es)
  {
    InitSound(single);
    ExclusionFrom(single, INIT, es, t);
  }

  /** Whatever happens from here on without further nested calls, the slot is only cleared by its holder. */
  ghost predicate Safe(single: bool, s: State) {
    forall es, t :: Run(single, s, es, t) && Calm(single, s, es) ==> AlwaysOwn(single, s, es)
  }

  /** One more call leaves the slot to its holders exactly if it is not made during the synchronous part of a run. */
  lemma {:induction false} HolderIff(single: bool, es: seq<Event>, s: State)
    requires Run(single, INIT, es, s) && Calm(single, INIT, es)
    ensures Safe(single, Step(single, s, Invoke)) <==> s.active == []
  {
    hide Sound, Orderly;
    InitSound(single);
    RunSound(single, INIT, es, s);
    ExclusionFrom(single, INIT, es, s);
    var u := Step(single, s, Invoke);
    StepSound(single, s, Invoke);
    if s.active == [] {
      StepOrderly(single, s, Invoke);
      forall more, t | Run(single, u, more, t) && Calm(single, u, more) ensures AlwaysOwn(single, u, more) {
        ExclusionFrom(single, u, more, t);
      }
    } else {
      NestedStarts(single, s);
      var t := Overwrites(single, s);
      assert Run(single, u, [Return, Return], t);
    }
  }

  /** The outer run's promise takes the place of the inner run's, which has not settled. */
  lemma {:induction false} Overwrites(single: bool, s: State) returns (t: State)
    requires Sound(single, s) && s.active != [] && s.slot == None
    ensures var u := Step(single, s, Invoke);
            Run(single, u, [Return, Return], t) && Calm(single, u, [Return, Return])
            && !AlwaysOwn(single, u, [Return, Return])
    ensures var p := |s.promises|;
            PendingAt(t, p) && PendingAt(t, p + 1) && t.slot == Some(p + 1) && t.active == s.active[..|s.active| - 1]
  {
    hide Made, Outcomes, SlotHeld;
    var u, es := Step(single, s, Invoke), [Return, Return];
    assert Enabled(u, Return) && es[1..] == [Return] && [Return][1..] == [];
    var v := Step(single, u, Return);
    assert v.active == s.active && Top(v.active) < |v.calls| && Enabled(v, Return);
    t := Step(single, v, Return);
    assert Run(single, t, [], t) && Run(single, v, [Return], t) && Run(single, u, es, t);
    assert Calm(single, t, []) && Calm(single, v, [Return]) && Calm(single, u, es);
    assert !ClearsOwn(single, v, Return);
    assert !AlwaysOwn(single, v, [Return]) && es[0] == Return;
  }

  // --- a method that calls itself once before its first await

  const NESTED: State := State(None, [], [0, 1], [Starting, Starting], [])
  const BOTH: State := State(Some(1), [Pending, Pending], [], [Holding(1), Holding(0)], [1, 0])
  const CLEARED: State :=
    State(None, [Settled(Fulfilled(0)), Pending], [], [Holding(1), Finished(0, Fulfilled(0))], [1, 0])
  const THIRD: State :=
    State(None, [Settled(Fulfilled(0)), Pending], [2], [Holding(1), Finished(0, Fulfilled(0)), Starting], [1, 0])

  lemma {:induction false} NestedSteps(single: bool)
    ensures Step(single, Step(single, INIT, Invoke), Invoke) == NESTED
  {
  }

  lemma {:induction false} ReturnSteps(single: bool)
    ensures Enabled(NESTED, Return) && Enabled(Step(single, NESTED, Return), Return)
    ensures Step(single, Step(single, NESTED, Return), Return) == BOTH
  {
    var c := Assign(NESTED);
    assert c == State(Some(0), [Pending], [0], [Starting, Holding(0)], [1]);
    assert Assign(c) == BOTH;
  }

  lemma {:induction false} ClearSteps(single: bool)
    ensures Enabled(BOTH, Settle(0, Fulfilled(0)))
    ensures var e := Step(single, BOTH, Settle(0, Fulfilled(0)));
            Enabled(e, Resume(1)) && e.calls[1].Holding? && Step(single, e, Resume(1)) == CLEARED
    ensures Step(single, CLEARED, Invoke) == THIRD
  {
  }

  lemma {:induction false} TwoSteps(single: bool, s: State, e: Event, f: Event)
    requires Enabled(s, e) && Enabled(Step(single, s, e), f)
    ensures Run(single, s, [e, f], Step(single, Step(single, s, e), f))
  {
    assert [e, f][1..] == [f] && [f][1..] == [];
    assert Run(single, Step(single, s, e), [f], Step(single, Step(single, s, e), f));
  }

  lemma {:induction false} RunRun(single: bool, s: State, es: seq<Event>, t: State, fs: seq<Event>, u: State)
    requires Run(single, s, es, t) && Run(single, t, fs, u)
    ensures Run(single, s, es + fs, u)
    decreases |es|
  {
    if es == [] {
      assert [] + fs == fs;
    } else {
      RunRun(single, Step(single, s, es[0]), es[1..], t, fs, u);
      assert (es + fs)[1..] == es[1..] + fs;
    }
  }

  /**
   * Two runs in flight; the inner call clears the slot, which holds the outer run's promise; and a third call enters
   * the method while the outer run is in flight.
   */
  lemma {:induction false} ReentrantTrace(single: bool)
    ensures Run(single, INIT, [Invoke, Invoke] + [Return, Return], BOTH)
    ensures Run(single, INIT, [Invoke, Invoke] + [Return, Return] + [Settle(0, Fulfilled(0)), Resume(1)], CLEARED)
    ensures Enabled(CLEARED, Invoke) && Step(single, CLEARED, Invoke) == THIRD && !Exclusive(THIRD)
  {
    hide Run, Step, Enabled;
    NestedSteps(single);
    ReturnSteps(single);
    ClearSteps(single);
    AlwaysInvoke(INIT);
    AlwaysInvoke(Step(single, INIT, Invoke));
    AlwaysInvoke(CLEARED);
    TwoSteps(single, INIT, Invoke, Invoke);
    TwoSteps(single, NESTED, Return, Return);
    TwoSteps(single, BOTH, Settle(0, Fulfilled(0)), Resume(1));
    RunRun(single, INIT, [Invoke, Invoke], NESTED, [Return, Return], BOTH);
    RunRun(single, INIT, [Invoke, Invoke] + [Return, Return], BOTH, [Settle(0, Fulfilled(0)), Resume(1)], CLEARED);
    assert PendingAt(THIRD, 1);
  }

  lemma {:induction false} AlwaysInvoke(s: State)
    ensures Enabled(s, Invoke)
  {
  }

  // ---------------------------------------------------------------------------
  // Progress
  // ---------------------------------------------------------------------------

  predicate Ended(c: Call) { c.Finished? || c.Dropped? }

  predicate AllEnded(s: State) { forall c :: 0 <= c < |s.calls| ==> Ended(s.calls[c]) }

  /** How many steps a call is away from its end at most, if it can take them. */
  function Distance(s: State, c: Call): nat {
    match c
    case Waiting(_) => 4
    case Starting => 3
    case Holding(p) => if PendingAt(s, p) then 2 else 1
    case Finished(_, _) => 0
    case Dropped(_, _) => 0
  }

  function Distances(s: State): (r: seq<nat>)
    ensures |r| == |s.calls|
  {
    seq(|s.calls|, c requires 0 <= c < |s.calls| => Distance(s, s.calls[c]))
  }

  function Sum(ns: seq<nat>): nat { if ns == [] then 0 else Sum(ns[..|ns| - 1]) + ns[|ns| - 1] }

  lemma {:induction false} SumLess(a: seq<nat>, b: seq<nat>, k: nat)
    requires |a| == |b| && (forall i :: 0 <= i < |a| ==> a[i] <= b[i])
    ensures Sum(a) <= Sum(b)
    ensures k < |a| && a[k] < b[k] ==> Sum(a) < Sum(b)
  {
    if a != [] { SumLess(a[..|a| - 1], b[..|b| - 1], k); }
  }

  /** All calls keep their distance, but for one that comes closer. */
  ghost predicate Closer(s: State, t: State, c: nat) {
    && |t.calls| == |s.calls| && c < |s.calls|
    && Distance(t, t.calls[c]) < Distance(s, s.calls[c])
    && (forall d :: 0 <= d < |s.calls| && d != c ==> Distance(t, t.calls[d]) == Distance(s, s.calls[d]))
  }

  lemma {:induction false} CloserSum(s: State, t: State, c: nat)
    requires Closer(s, t, c)
    ensures Sum(Distances(t)) < Sum(Distances(s))
  {
    hide Distance, Sum;
    var a, b := Distances(t), Distances(s);
    assert a[c] < b[c];
    forall i | 0 <= i < |a| ensures a[i] <= b[i] { }
    SumLess(a, b, c);
  }

  lemma {:induction false} ReturnCloser(single: bool, s: State)
    requires Sound(single, s) && s.active != []
    ensures Enabled(s, Return) && Closer(s, Assign(s), Top(s.active))
  {
    assert s.calls[Top(s.active)].Starting?;
  }

  lemma {:induction false} SettleCloser(single: bool, s: State, p: nat, o: Outcome)
    requires Sound(single, s) && PendingAt(s, p)
    ensures Closer(s, Step(single, s, Settle(p, o)), s.makers[p])
  {
    assert Owns(s.calls[s.makers[p]], p);
  }

  /** A call of stack() that tries again and finds the slot taken. */
  predicate Rewaits(single: bool, s: State, e: Event)
    requires Enabled(s, e)
  {
    && e.Resume? && s.calls[e.c].Waiting? && s.slot.Some?
    && !single && s.promises[s.calls[e.c].p].o.Fulfilled?
  }

  lemma {:induction false} ResumeCloser(single: bool, s: State, c: nat)
    requires Sound(single, s) && Enabled(s, Resume(c)) && !Rewaits(single, s, Resume(c))
    ensures Closer(s, Step(single, s, Resume(c)), c)
  {
  }

  lemma {:induction false} RewaitSame(single: bool, s: State, e: Event)
    requires Enabled(s, e) && Rewaits(single, s, e)
    ensures Distances(Step(single, s, e)) == Distances(s)
  {
  }

  /**
   * In every run each step but a new call brings the calls closer to their end, unless a call tries again and finds the
   * slot taken; that leaves the distances as they are.
   */
  lemma {:induction false} CloserIff(single: bool, before: seq<Event>, s: State, e: Event)
    requires Run(single, INIT, before, s) && Enabled(s, e) && !e.Invoke?
    ensures Sum(Distances(Step(single, s, e))) <= Sum(Distances(s))
    ensures Sum(Distances(Step(single, s, e))) < Sum(Distances(s)) <==> !Rewaits(single, s, e)
  {
    hide Closer, Distance, Distances, Sum, Run;
    InitSound(single);
    RunSound(single, INIT, before, s);
    var t := Step(single, s, e);
    match e
    case Return =>
      ReturnCloser(single, s);
      CloserSum(s, t, Top(s.active));
    case Settle(p, o) =>
      SettleCloser(single, s, p, o);
      CloserSum(s, t, s.makers[p]);
    case Resume(c) =>
      if Rewaits(single, s, e) {
        RewaitSame(single, s, e);
      } else {
        ResumeCloser(single, s, c);
        CloserSum(s, t, c);
      }
  }

  /** A next step on the way to the end of all calls. */
  lemma {:induction false} NextStep(single: bool, s: State) returns (e: Event)
    requires Sound(single, s) && !AllEnded(s)
    ensures Enabled(s, e) && !e.Invoke? && Sum(Distances(Step(single, s, e))) < Sum(Distances(s))
  {
    hide Closer, Distance, Step, Outcomes, Sum;
    if s.active != [] {
      ReturnCloser(single, s);
      e := Return;
      StepIsAssign(single, s);
      CloserSum(s, Assign(s), Top(s.active));
    } else if exists p :: 0 <= p < |s.promises| && PendingAt(s, p) {
      var p :| 0 <= p < |s.promises| && PendingAt(s, p);
      SettleCloser(single, s, p, Fulfilled(0));
      e := Settle(p, Fulfilled(0));
      CloserSum(s, Step(single, s, e), s.makers[p]);
    } else {
      var c := Resumable(single, s);
      e := Resume(c);
      ResumeCloser(single, s, c);
      CloserSum(s, Step(single, s, e), c);
    }
  }

  lemma {:induction false} StepIsAssign(single: bool, s: State)
    requires Enabled(s, Return)
    ensures Step(single, s, Return) == Assign(s)
  {
  }

  /** With all promises settled, a call that holds the slot can go on, or else, the slot being empty, any other. */
  lemma {:induction false} Resumable(single: bool, s: State) returns (c: nat)
    requires Sound(single, s) && !AllEnded(s) && s.active == []
    requires forall p :: 0 <= p < |s.promises| ==> !PendingAt(s, p)
    ensures Enabled(s, Resume(c)) && (s.calls[c].Waiting? ==> s.slot == None)
  {
    if s.slot.Some? {
      c := s.makers[s.slot.value];
      assert !PendingAt(s, s.slot.value);
    } else {
      c :| 0 <= c < |s.calls| && !Ended(s.calls[c]);
      assert !PendingAt(s, s.calls[c].p);
    }
  }

  predicate NoInvoke(es: seq<Event>) { forall i :: 0 <= i < |es| ==> !es[i].Invoke? }

  lemma {:induction false} Progress(single: bool, s: State) returns (es: seq<Event>, t: State)
    requires Sound(single, s)
    ensures Run(single, s, es, t) && NoInvoke(es) && AllEnded(t) && t.active == []
    ensures |es| <= Sum(Distances(s)) && |t.calls| == |s.calls|
    decreases Sum(Distances(s))
  {
    hide Made, Outcomes, SlotHeld, Enabled;
    if AllEnded(s) {
      es, t := [], s;
      NoneActive(s);
    } else {
      var e := NextStep(single, s);
      StepSound(single, s, e);
      KeepsCalls(single, s, e);
      var rest;
      rest, t := Progress(single, Step(single, s, e));
      es := [e] + rest;
      assert es[1..] == rest && es[0] == e;
    }
  }

  lemma {:induction false} NoneActive(s: State)
    requires Stacked(s)
    ensures AllEnded(s) ==> s.active == []
  {
    if s.active != [] { assert !Ended(s.calls[s.active[0]]); }
  }

  lemma {:induction false} KeepsCalls(single: bool, s: State, e: Event)
    requires Enabled(s, e) && !e.Invoke?
    ensures |Step(single, s, e).calls| == |s.calls|
  {
  }

  /**
   * Progress: from every reachable state, nested calls or not, the calls made so far can all come to their end, if only
   * runs can. The number of steps is bounded by the sum of their distances.
   */
  lemma {:induction false} AllCanEnd(single: bool, before: seq<Event>, s: State) returns (es: seq<Event>, t: State)
    requires Run(single, INIT, before, s)
    ensures Run(single, s, es, t) && NoInvoke(es) && AllEnded(t) && |t.calls| == |s.calls|
    ensures |es| <= Sum(Distances(s)) && t.active == []
  {
    InitSound(single);
    RunSound(single, INIT, before, s);
    es, t := Progress(single, s);
  }

  // --- a run that awaits a call of its own instance

  /** Run `p` ends only after call `d` has. */
  ghost predicate Respects(single: bool, s: State, es: seq<Event>, p: nat, d: nat)
    decreases |es|
  {
    es != [] ==>
      && Enabled(s, es[0])
      && (es[0].Settle? && es[0].p == p ==> d < |s.calls| && Ended(s.calls[d]))
      && Respects(single, Step(single, s, es[0]), es[1..], p, d)
  }

  ghost predicate CanEnd(single: bool, s: State, p: nat, d: nat) {
    exists es, t :: Run(single, s, es, t) && Calm(single, s, es) && Respects(single, s, es, p, d)
                    && d < |t.calls| && Ended(t.calls[d])
  }

  /** The call has ended, or will without another look at the slot. */
  predicate Leaves(single: bool, s: State, d: nat)
    requires d < |s.calls|
  {
    || Ended(s.calls[d])
    || (s.calls[d].Waiting? && SettledAt(s, s.calls[d].p) && (single || s.promises[s.calls[d].p].o.Rejected?))
  }

  lemma {:induction false} StuckStep(single: bool, s: State, e: Event, p: nat, d: nat)
    requires Sound(single, s) && Orderly(s) && PendingAt(s, p) && d < |s.calls| && !Leaves(single, s, d)
    requires Enabled(s, e) && (e.Settle? && e.p == p ==> Ended(s.calls[d]))
    ensures var t := Step(single, s, e); PendingAt(t, p) && d < |t.calls| && !Leaves(single, t, d) && s.active == []
  {
    assert s.slot == Some(p);
  }

  lemma {:induction false} StuckRun(single: bool, s: State, es: seq<Event>, t: State, p: nat, d: nat)
    requires Sound(single, s) && Orderly(s) && PendingAt(s, p) && d < |s.calls| && !Leaves(single, s, d)
    requires Run(single, s, es, t) && Respects(single, s, es, p, d)
    ensures d < |t.calls| && !Ended(t.calls[d])
    decreases |es|
  {
    hide Sound, Orderly;
    if es != [] {
      StuckStep(single, s, es[0], p, d);
      StepSound(single, s, es[0]);
      StepOrderly(single, s, es[0]);
      StuckRun(single, Step(single, s, es[0]), es[1..], t, p, d);
    }
  }

  /**
   * While run `p` awaits call `d` of the same instance, `d` can end exactly if it has, or is about to take the outcome
   * of an earlier run. In particular a call made by the run itself after its first await never ends, nor does the run.
   */
  lemma {:induction false} SelfAwaitIff(single: bool, es: seq<Event>, s: State, p: nat, d: nat)
    requires Run(single, INIT, es, s) && Calm(single, INIT, es) && PendingAt(s, p) && d < |s.calls|
    ensures CanEnd(single, s, p, d) <==> Leaves(single, s, d)
  {
    InitSound(single);
    RunSound(single, INIT, es, s);
    ExclusionFrom(single, INIT, es, s);
    if Leaves(single, s, d) {
      LeavesCanEnd(single, s, p, d);
    } else if CanEnd(single, s, p, d) {
      var more, t :| Run(single, s, more, t) && Calm(single, s, more) && Respects(single, s, more, p, d)
                     && d < |t.calls| && Ended(t.calls[d]);
      StuckRun(single, s, more, t, p, d);
    }
  }

  lemma {:induction false} LeavesCanEnd(single: bool, s: State, p: nat, d: nat)
    requires Sound(single, s) && Orderly(s) && PendingAt(s, p) && d < |s.calls| && Leaves(single, s, d)
    ensures CanEnd(single, s, p, d)
  {
    if Ended(s.calls[d]) {
      assert Run(single, s, [], s) && Calm(single, s, []) && Respects(single, s, [], p, d);
    } else {
      var e := Resume(d);
      var t := Step(single, s, e);
      assert [e][1..] == [];
      assert Run(single, t, [], t) && Calm(single, t, []) && Respects(single, t, [], p, d);
      assert Run(single, s, [e], t) && Calm(single, s, [e]) && Respects(single, s, [e], p, d);
    }
  }

  /** A method that awaits a new call of itself on its own instance never ends. */
  lemma {:induction false} SelfAwaitHangs(single: bool, es: seq<Event>, s: State, p: nat)
    requires Run(single, INIT, es, s) && Calm(single, INIT, es) && PendingAt(s, p)
    ensures !CanEnd(single, Step(single, s, Invoke), p, |s.calls|)
  {
    InitSound(single);
    RunSound(single, INIT, es, s);
    ExclusionFrom(single, INIT, es, s);
    StepSound(single, s, Invoke);
    StepOrderly(single, s, Invoke);
    var u, d := Step(single, s, Invoke), |s.calls|;
    assert u.calls[d] == Waiting(p);
    if CanEnd(single, u, p, d) {
      var more, t :| Run(single, u, more, t) && Calm(single, u, more) && Respects(single, u, more, p, d)
                     && d < |t.calls| && Ended(t.calls[d]);
      StuckRun(single, u, more, t, p, d);
    }
  }

  // ---------------------------------------------------------------------------
  // The decorated instance
  // ---------------------------------------------------------------------------

  class Instance {
    const single: bool
    /** this.__c_method */
    var slot: Option<nat>
    var promises: seq<Promise>
    var active: seq<nat>
    var calls: seq<Call>
    ghost var makers: seq<nat>

    ghost function View(): State
      reads this
    {
      State(slot, promises, active, calls, makers)
    }

    constructor (single: bool)
      ensures View() == INIT && this.single == single
    {
      this.single, slot, promises, active, calls, makers := single, None, [], [], [], [];
    }

    /** The loop head of stack(), and the test of singleStack(); the method is entered, not yet assigned to the slot. */
    method TryStart(c: nat) returns (next: Call)
      modifies this`active
      ensures (View(), next) == LoopHead(old(View()), c)
    {
      match slot
      case Some(p) => return Waiting(p);
      case None =>
        active := active + [c];
        return Starting;
    }

    method Invoked()
      modifies this
      ensures View() == Step(single, old(View()), Invoke)
    {
      var next := TryStart(|calls|);
      calls := calls + [next];
    }

    /** The assignment behind orig.apply. */
    method Returned()
      requires Enabled(View(), Return)
      modifies this
      ensures View() == Step(single, old(View()), Return)
    {
      var c, p := Top(active), |promises|;
      active := active[..|active| - 1];
      promises := promises + [Pending];
      slot := Some(p);
      calls := calls[c := Holding(p)];
      makers := makers + [c];
    }

    method Resumed(c: nat)
      requires Enabled(View(), Resume(c))
      modifies this
      ensures View() == Step(single, old(View()), Resume(c))
    {
      var p := calls[c].p;
      var o := promises[p].o;
      if calls[c].Holding? {
        slot := None;
        calls := calls[c := Finished(p, o)];
      } else if single || o.Rejected? {
        calls := calls[c := Dropped(p, o)];
      } else {
        var next := TryStart(c);
        calls := calls[c := next];
      }
    }
  }
}
