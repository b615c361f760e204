/**
 * Writing into a buffer that may be too small. A byte store past the end is dropped, a DataView or block store past
 * the end throws a RangeError, and length fields are written back after what they measure.
 *
 * A Script is what one writer does to an ideal unbounded buffer: the bytes it appends, the furthest end of its
 * throwing stores, and whether it stops with an error of its own. Every writer is proved to realise its script.
 */
module Target {
  import opened Bytes

  /** `far` is relative to the start of the script; -1 when the script has no throwing store. */
  datatype Script = Script(bytes: seq<byte>, far: int, bad: bool)

  datatype Status = Fine | RangeError | BadText

  function Max(a: int, b: int): int { if a < b then b else a }

  /** One script after another; nothing is written after an error. */
  function Then(s: Script, t: Script): Script {
    if s.bad then s
    else Script(s.bytes + t.bytes, if t.far < 0 then s.far else Max(s.far, |s.bytes| + t.far), t.bad)
  }

  const SKIP := Script([], -1, false)

  function Plain(bytes: seq<byte>): Script { Script(bytes, -1, false) }

  /** One throwing store whose first `keep` bytes are kept by advancing the cursor over them. */
  function Store(bytes: seq<byte>, keep: nat): Script
    requires keep <= |bytes|
  {
    Script(bytes[..keep], |bytes|, false)
  }

  lemma {:induction false} ThenAssoc(s: Script, t: Script, u: Script)
    ensures Then(Then(s, t), u) == Then(s, Then(t, u))
  {
    if !s.bad && !t.bad {
      assert s.bytes + t.bytes + u.bytes == s.bytes + (t.bytes + u.bytes);
    }
  }

  lemma {:induction false} ThenFar(s: Script, t: Script)
    requires s.far >= -1 && t.far >= -1
    ensures Then(s, t).far >= -1
  {
  }

  lemma {:induction false} ThenSkip(s: Script)
    requires s.far >= -1
    ensures Then(s, SKIP) == s && Then(SKIP, s) == s
  {
    assert s.bytes + [] == s.bytes && [] + s.bytes == s.bytes;
  }

  /** The buffer holds what an unbounded buffer would, as far as it goes. */
  ghost predicate Agrees(a: seq<byte>, s: seq<byte>) {
    forall i :: 0 <= i < |s| && i < |a| ==> a[i] == s[i]
  }

  /** The cursor stands behind the output so far. */
  ghost predicate Pending(a: seq<byte>, o: int, done: seq<byte>) { o == |done| && Agrees(a, done) }

  predicate Overruns(s: Script, o: int, n: int) { s.far >= 0 && o + s.far > n }

  /** The effect of running a script on a buffer whose output so far is `done`. */
  ghost predicate Wrote(done: seq<byte>, a: seq<byte>, s: Script, st: Status, p: int) {
    if Overruns(s, |done|, |a|) then st == RangeError
    else if s.bad then st == BadText
    else st == Fine && Pending(a, p, done + s.bytes)
  }

  lemma {:induction false} Sequence(done: seq<byte>, s: Script, t: Script, a: seq<byte>, st: Status, p: int)
    requires !s.bad && !Overruns(s, |done|, |a|) && Wrote(done + s.bytes, a, t, st, p)
    ensures Wrote(done, a, Then(s, t), st, p)
  {
    assert done + s.bytes + t.bytes == done + (s.bytes + t.bytes);
  }

  lemma {:induction false} Stopped(done: seq<byte>, s: Script, t: Script, a: seq<byte>, st: Status, p: int)
    requires Wrote(done, a, s, st, p) && st != Fine && t.far >= -1
    ensures Wrote(done, a, Then(s, t), st, p)
  {
  }

  // ---------------------------------------------------------------------------
  // Stores
  // ---------------------------------------------------------------------------

  /** `buffer[o] = b`: dropped past the end. */
  method StoreByte(buffer: array<byte>, o: int, b: byte, ghost done: seq<byte>)
    requires Pending(buffer[..], o, done)
    modifies buffer
    ensures Pending(buffer[..], o + 1, done + [b])
  {
    if o < buffer.Length { buffer[o] := b; }
  }

  /** A DataView store or `buffer.set`: throws unless all of it fits; the cursor moves over the first `keep` bytes. */
  method StoreBlock(buffer: array<byte>, o: int, bytes: seq<byte>, keep: nat, ghost done: seq<byte>)
    returns (st: Status, p: int)
    requires Pending(buffer[..], o, done) && keep <= |bytes|
    modifies buffer
    ensures Wrote(done, buffer[..], Store(bytes, keep), st, p)
  {
    if o + |bytes| > buffer.Length { return RangeError, o; }
    ghost var a := buffer[..];
    for i := 0 to |bytes|
      invariant forall k :: 0 <= k < o ==> buffer[k] == a[k]
      invariant forall k :: o <= k < o + i ==> buffer[k] == bytes[k - o]
    {
      buffer[o + i] := bytes[i];
    }
    return Fine, o + keep;
  }

  /** A cursor that skips `n` bytes leaves there what the buffer holds. */
  lemma {:induction false} Reserve(a: seq<byte>, o: int, n: nat, done: seq<byte>)
    requires Pending(a, o, done)
    ensures Pending(a, o + n, done + Window(a, o, n))
  {
    forall i | 0 <= i < o + n && i < |a| ensures a[i] == (done + Window(a, o, n))[i] {
      if i >= o {
        var j := i - o;
        assert Window(a, o, n)[j] == Bits(a, o + j);
      }
    }
  }

  /** setInt32 into a reserved place. */
  method Backfill(buffer: array<byte>, at: int, v: int, ghost done: seq<byte>, ghost hole: seq<byte>,
                  ghost rest: seq<byte>)
    returns (st: Status)
    requires at == |done| && |hole| == 4 && Agrees(buffer[..], done + hole + rest)
    modifies buffer
    ensures st == if at + 4 > buffer.Length then RangeError else Fine
    ensures st == Fine ==> Agrees(buffer[..], done + Le32(v) + rest)
  {
    if at + 4 > buffer.Length { return RangeError; }
    var w := Le32(v);
    buffer[at], buffer[at + 1], buffer[at + 2], buffer[at + 3] := w[0], w[1], w[2], w[3];
    forall i | 0 <= i < |done + w + rest| && i < buffer.Length ensures buffer[..][i] == (done + w + rest)[i] {
      assert (done + hole + rest)[i] == (done + w + rest)[i] || at <= i < at + 4;
    }
    return Fine;
  }
}
