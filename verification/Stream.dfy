/**
 * The streaming reader: documents cut out of a byte stream by their size prefix, whatever the chunks they arrive in.
 */
module Stream {
  import opened Bytes

  // ---------------------------------------------------------------------------
  // The reference: splitting the whole stream
  // ---------------------------------------------------------------------------

  /** The messages of a stream, the bytes left over, and whether those start with an invalid size. */
  datatype Parts = Parts(messages: seq<seq<byte>>, rest: seq<byte>, bad: bool)

  function Split(s: seq<byte>): Parts
    decreases |s|
  {
    if |s| < 4 then Parts([], s, false)
    else
      var size := ReadI32(s, 0);
      if size <= 0 then Parts([], s, true)
      else if |s| < size then Parts([], s, false)
      else
        var t := Split(s[size..]);
        Parts([s[..size]] + t.messages, t.rest, t.bad)
  }

  function After(messages: seq<seq<byte>>, p: Parts): Parts { Parts(messages + p.messages, p.rest, p.bad) }

  function Flatten(chunks: seq<seq<byte>>): seq<byte> {
    if chunks == [] then [] else chunks[0] + Flatten(chunks[1..])
  }

  /** No byte is lost or invented. */
  lemma {:induction false} SplitConserves(s: seq<byte>)
    ensures Flatten(Split(s).messages) + Split(s).rest == s
    decreases |s|
  {
    hide ReadI32;
    if |s| >= 4 && 0 < ReadI32(s, 0) <= |s| {
      var size := ReadI32(s, 0);
      SplitConserves(s[size..]);
      var t := Split(s[size..]);
      assert Split(s).messages[1..] == t.messages;
      assert s == s[..size] + s[size..];
    }
  }

  lemma {:induction false} SamePrefix(s: seq<byte>, t: seq<byte>, o: nat, n: nat)
    requires o + n <= |s| && o + n <= |t| && forall i :: o <= i < o + n ==> s[i] == t[i]
    ensures ReadLe(s, o, n) == ReadLe(t, o, n)
    decreases n
  {
    if n > 0 { SamePrefix(s, t, o + 1, n - 1); }
  }

  lemma {:induction false} SizeOfPrefix(s: seq<byte>, t: seq<byte>)
    requires |s| >= 4 && s <= t
    ensures ReadI32(t, 0) == ReadI32(s, 0)
  {
    SamePrefix(s, t, 0, 4);
  }

  lemma {:induction false} SplitFirst(s: seq<byte>)
    requires |s| >= 4 && 0 < ReadI32(s, 0) <= |s|
    ensures Split(s) == After([s[..ReadI32(s, 0)]], Split(s[ReadI32(s, 0)..]))
  {
    hide ReadI32;
  }

  lemma {:induction false} AfterAfter(a: seq<seq<byte>>, b: seq<seq<byte>>, p: Parts)
    ensures After(a, After(b, p)) == After(a + b, p)
  {
    assert a + (b + p.messages) == a + b + p.messages;
  }

  /** Splitting can be resumed: first a prefix, then its left-over bytes with what follows. */
  lemma {:induction false} SplitResumes(s: seq<byte>, more: seq<byte>)
    ensures !Split(s).bad ==> Split(s + more) == After(Split(s).messages, Split(Split(s).rest + more))
    ensures Split(s).bad ==> Split(s + more).bad && Split(s + more).messages == Split(s).messages
    decreases |s|, 1
  {
    hide ReadI32;
    if |s| >= 4 {
      SizeOfPrefix(s, s + more);
      var size := ReadI32(s, 0);
      if 0 < size <= |s| {
        SplitOne(s, more, size);
        return;
      }
    }
    assert [] + Split(s + more).messages == Split(s + more).messages;
  }

  lemma {:induction false} SplitOne(s: seq<byte>, more: seq<byte>, size: int)
    requires |s| >= 4 && size == ReadI32(s, 0) == ReadI32(s + more, 0) && 0 < size <= |s|
    ensures !Split(s).bad ==> Split(s + more) == After(Split(s).messages, Split(Split(s).rest + more))
    ensures Split(s).bad ==> Split(s + more).bad && Split(s + more).messages == Split(s).messages
    decreases |s|, 0
  {
    hide ReadI32, Split;
    var t := s[size..];
    SplitFirst(s);
    SplitFirst(s + more);
    assert (s + more)[..size] == s[..size] && (s + more)[size..] == t + more;
    SplitResumes(t, more);
    if !Split(t).bad { AfterAfter([s[..size]], Split(t).messages, Split(Split(t).rest + more)); }
  }

  /** One message further. */
  lemma {:induction false} Emitted(done: seq<seq<byte>>, s: seq<byte>, size: nat)
    requires |s| >= 4 && ReadI32(s, 0) == size && 0 < size <= |s|
    ensures After(done, Split(s)) == After(done + [s[..size]], Split(s[size..]))
  {
    assert done + ([s[..size]] + Split(s[size..]).messages) == done + [s[..size]] + Split(s[size..]).messages;
  }

  /** What is left over by a split that found no error is settled: it splits into nothing. */
  lemma {:induction false} RestSettles(s: seq<byte>)
    requires !Split(s).bad
    ensures Split(Split(s).rest) == Parts([], Split(s).rest, false)
    decreases |s|
  {
    if |s| >= 4 && ReadI32(s, 0) <= |s| { RestSettles(s[ReadI32(s, 0)..]); }
  }

  /** Every message has the length its first four bytes say, and the rest is no complete message. */
  lemma {:induction false} SplitFramed(s: seq<byte>)
    ensures forall m :: m in Split(s).messages ==> m != [] && ReadI32(m, 0) == |m|
    ensures var p := Split(s);
            if p.bad then |p.rest| >= 4 && ReadI32(p.rest, 0) <= 0
            else |p.rest| < 4 || ReadI32(p.rest, 0) > |p.rest|
    decreases |s|
  {
    if |s| >= 4 {
      var size := ReadI32(s, 0);
      if 0 < size <= |s| {
        SplitFramed(s[size..]);
        FrameSize(s, size);
      }
    }
  }

  lemma {:induction false} FrameSize(s: seq<byte>, size: nat)
    requires 0 < size <= |s| && |s| >= 4 && ReadI32(s, 0) == size
    ensures ReadI32(s[..size], 0) == size
  {
    WordRead(s, 0);
    WordRead(s[..size], 0);
  }

  // --- errors

  /** One call of feed: what is buffered then, the messages it emits, and whether it throws. */
  datatype Fed = Fed(buffered: seq<byte>, messages: seq<seq<byte>>, failed: bool)

  /** An invalid size in a chunk fed with nothing buffered discards the rest of the chunk; elsewhere it stays. */
  function FeedOf(buffered: seq<byte>, data: seq<byte>): Fed {
    if data == [] then Fed(buffered, [], false)
    else
      var p := Split(buffered + data);
      Fed(if p.bad && buffered == [] then [] else p.rest, p.messages, p.bad)
  }

  /** The buffer begins with an invalid size. */
  predicate Dead(buffered: seq<byte>) { |buffered| >= 4 && ReadI32(buffered, 0) <= 0 }

  lemma {:induction false} BadRest(s: seq<byte>)
    requires Split(s).bad
    ensures Dead(Split(s).rest)
    decreases |s|
  {
    hide ReadI32;
    var size := ReadI32(s, 0);
    if size > 0 { BadRest(s[size..]); }
  }

  /** After an error the reader is as new exactly if nothing was buffered; otherwise it is dead. */
  lemma {:induction false} AfterError(buffered: seq<byte>, data: seq<byte>)
    requires FeedOf(buffered, data).failed
    ensures buffered == [] ==> FeedOf(buffered, data).buffered == []
    ensures buffered != [] ==> Dead(FeedOf(buffered, data).buffered)
  {
    BadRest(buffered + data);
  }

  /** A dead reader throws at every chunk, emits nothing and only grows its buffer. */
  lemma {:induction false} DeadFeed(buffered: seq<byte>, data: seq<byte>)
    requires Dead(buffered) && data != []
    ensures FeedOf(buffered, data) == Fed(buffered + data, [], true) && Dead(buffered + data)
  {
    SizeOfPrefix(buffered, buffered + data);
  }

  lemma {:induction false} SomethingBuffered(chunks: seq<seq<byte>>)
    requires NonEmpty(chunks)
    ensures chunks != [] ==> |Flatten(chunks)| > 0
  {
    if chunks != [] { assert |Flatten(chunks)| >= |chunks[0]|; }
  }

  lemma {:induction false} FlattenPush(chunks: seq<seq<byte>>, c: seq<byte>)
    ensures Flatten(chunks + [c]) == Flatten(chunks) + c
  {
    if chunks == [] {
      assert chunks + [c] == [c] && [c][1..] == [];
      assert Flatten([c]) == c + [] == c;
    } else {
      FlattenPush(chunks[1..], c);
      assert (chunks + [c])[1..] == chunks[1..] + [c];
    }
  }

  // ---------------------------------------------------------------------------
  // The reader
  // ---------------------------------------------------------------------------

  ghost predicate NonEmpty(chunks: seq<seq<byte>>) { forall i :: 0 <= i < |chunks| ==> chunks[i] != [] }

  class BSONStreamReader {
    var chunks: seq<seq<byte>>
    var total: nat
    /** The arguments of onMessage so far. */
    var emitted: seq<seq<byte>>

    /** Buffered chunks are non-empty and `total` is their length. */
    ghost predicate Consistent()
      reads this
    {
      NonEmpty(chunks) && total == |Flatten(chunks)|
    }

    ghost function Buffered(): seq<byte>
      reads this
    {
      Flatten(chunks)
    }

    /** Consistent, and no complete message is waiting. */
    ghost predicate Valid()
      reads this
    {
      Consistent() && Split(Buffered()) == Parts([], Buffered(), false)
    }

    constructor ()
      ensures Valid() && emitted == [] && Buffered() == []
    {
      chunks, total, emitted := [], 0, [];
    }

    method OnMessage(message: seq<byte>)
      modifies this`emitted
      ensures emitted == old(emitted) + [message]
    {
      emitted := emitted + [message];
    }

    /** peekInt32: from the first chunk, or from four bytes gathered over several. */
    method PeekInt32() returns (size: int)
      requires Consistent() && total >= 4
      ensures size == ReadI32(Buffered(), 0)
    {
      hide ReadI32, Split;
      var first := chunks[0];
      if |first| >= 4 {
        SizeOfPrefix(first, Buffered());
        return ReadI32(first, 0);
      }
      var four := FirstFour();
      SizeOfPrefix(four, Buffered());
      size := ReadI32(four, 0);
    }

    method FirstFour() returns (four: seq<byte>)
      requires Consistent() && total >= 4
      ensures four == Buffered()[..4]
    {
      hide Split;
      var tmp := new byte[4](_ => 0);
      var copied := 0;
      ghost var left := Flatten(chunks);
      for k := 0 to |chunks|
        invariant 0 <= copied <= 3 && left == Flatten(chunks[k..])
        invariant tmp[..copied] + left == Buffered()
        invariant k == |chunks| ==> left == []
      {
        var chunk := chunks[k];
        assert chunks[k..][1..] == chunks[k + 1..];
        left := Flatten(chunks[k + 1..]);
        var toCopy := if 4 - copied < |chunk| then 4 - copied else |chunk|;
        ghost var before := tmp[..copied];
        assert before + (chunk + left) == before + chunk + left;
        SetFrom(tmp, copied, chunk, toCopy);
        copied := copied + toCopy;
        if copied == 4 {
          assert tmp[..4] == (before + chunk + left)[..4];
          break;
        }
        assert toCopy == |chunk| && chunk[..toCopy] == chunk;
      }
      four := tmp[..];
      assert four == tmp[..4];
    }

    /** `tmp.set(chunk.subarray(0, n), at)`. */
    static method SetFrom(tmp: array<byte>, at: nat, chunk: seq<byte>, n: nat)
      requires n <= |chunk| && at + n <= tmp.Length
      modifies tmp
      ensures tmp[..at + n] == old(tmp[..at]) + chunk[..n]
    {
      forall i | 0 <= i < n { tmp[at + i] := chunk[i]; }
    }

    /** consume: a view of the first chunk, or a copy over several chunks. */
    method Consume(size: nat) returns (result: seq<byte>)
      requires Consistent() && 0 < size <= total
      modifies this`chunks, this`total
      ensures Consistent() && result == old(Buffered())[..size] && Buffered() == old(Buffered())[size..]
    {
      hide Split;
      ghost var all := Buffered();
      var first := chunks[0];
      if |first| >= size {
        result := TakeFront(size);
        assert |all| == |result| + |Flatten(chunks)|;
        total := total - size;
        assert result == all[..size] && Flatten(chunks) == all[size..];
        return;
      }
      result := [];
      while |result| < size && |chunks| > 0
        invariant NonEmpty(chunks) && |result| <= size && total == |all|
        invariant result + Flatten(chunks) == all
        decreases size - |result|
      {
        var piece := TakeFront(size - |result|);
        result := result + piece;
      }
      assert |all| == |result| + |Flatten(chunks)|;
      total := total - size;
      assert all[..size] == result && all[size..] == Flatten(chunks);
    }

    /** Up to `n` bytes of the first chunk. */
    method TakeFront(n: nat) returns (piece: seq<byte>)
      requires NonEmpty(chunks) && chunks != [] && n > 0
      modifies this`chunks
      ensures NonEmpty(chunks) && piece + Flatten(chunks) == Flatten(old(chunks))
      ensures |piece| == if n < |old(chunks)[0]| then n else |old(chunks)[0]|
    {
      var chunk, tail := chunks[0], chunks[1..];
      var toCopy := if n < |chunk| then n else |chunk|;
      piece := chunk[..toCopy];
      if toCopy == |chunk| {
        chunks := tail;
      } else {
        chunks := [chunk[toCopy..]] + tail;
        assert chunks[1..] == tail;
        assert chunk[..toCopy] + (chunk[toCopy..] + Flatten(tail)) == chunk + Flatten(tail);
      }
    }

    /** processChunks: emits complete messages until too few bytes are left or a size is invalid. */
    method ProcessChunks() returns (failed: bool)
      requires Consistent()
      modifies this
      ensures Consistent()
      ensures var p := Split(old(Buffered()));
              failed == p.bad && Buffered() == p.rest && emitted == old(emitted) + p.messages
    {
      hide ReadI32;
      ghost var all := Split(Buffered());
      ghost var done: seq<seq<byte>> := [];
      while total >= 4
        invariant Consistent() && emitted == old(emitted) + done
        invariant all == After(done, Split(Buffered()))
        decreases total
      {
        var size := PeekInt32();
        if size <= 0 { return true; }
        if total < size { return false; }
        ghost var s := Buffered();
        var message := Consume(size);
        OnMessage(message);
        Emitted(done, s, size);
        done := done + [message];
      }
      failed := false;
    }

    /** feed, before and after errors: messages inside the chunk are views of it; the rest is buffered. */
    method Feed(buffer: seq<byte>, length: nat) returns (failed: bool)
      requires Consistent() && length <= |buffer|
      modifies this
      ensures Consistent() && (old(Valid()) && !failed ==> Valid())
      ensures var r := FeedOf(old(Buffered()), buffer[..length]);
              failed == r.failed && Buffered() == r.buffered && emitted == old(emitted) + r.messages
    {
      var data := buffer[..length];
      ghost var before := Buffered();
      if length == 0 {
        return false;
      }
      if total == 0 {
        SomethingBuffered(chunks);
        assert before + data == data;
        failed := Direct(buffer, length);
      } else {
        FlattenPush(chunks, data);
        chunks := chunks + [data];
        total := total + length;
        failed := ProcessChunks();
      }
      if !failed { RestSettles(before + data); }
    }

    /** The part of feed that runs with nothing buffered. */
    method Direct(buffer: seq<byte>, length: nat) returns (failed: bool)
      requires chunks == [] && total == 0 && 0 < length <= |buffer|
      modifies this
      ensures Consistent()
      ensures var p := Split(buffer[..length]);
              failed == p.bad && emitted == old(emitted) + p.messages && Buffered() == if failed then [] else p.rest
    {
      hide ReadI32;
      var offset := 0;
      ghost var data := buffer[..length];
      ghost var all := Split(data);
      ghost var done: seq<seq<byte>> := [];
      assert data[0..] == data;
      while offset + 4 <= length
        invariant 0 <= offset <= length && emitted == old(emitted) + done && chunks == [] && total == 0
        invariant all == After(done, Split(data[offset..]))
        decreases length - offset
      {
        var size := ReadI32(buffer, offset);
        SizeAt(buffer, length, offset);
        if size <= 0 { return true; }
        if offset + size <= length {
          OnMessage(buffer[offset..offset + size]);
          ghost var s := data[offset..];
          assert s[..size] == buffer[offset..offset + size] && s[size..] == data[offset + size..];
          Emitted(done, s, size);
          done := done + [s[..size]];
          offset := offset + size;
          continue;
        }
        break;
      }
      if offset < length {
        chunks := [buffer[offset..length]];
        total := length - offset;
        assert buffer[offset..length] == data[offset..];
        FlattenPush([], data[offset..]);
        assert [] + [data[offset..]] == chunks;
      }
      failed := false;
    }
  }

  lemma {:induction false} SizeAt(buffer: seq<byte>, length: nat, offset: nat)
    requires offset + 4 <= length <= |buffer|
    ensures ReadI32(buffer, offset) == ReadI32(buffer[..length][offset..], 0)
  {
    ShiftedRead(buffer, buffer[..length][offset..], offset, 0, 4);
  }

  lemma {:induction false} ShiftedRead(s: seq<byte>, t: seq<byte>, shift: nat, o: nat, n: nat)
    requires shift + o + n <= |s| && o + n <= |t| && forall i :: o <= i < o + n ==> s[shift + i] == t[i]
    ensures ReadLe(s, shift + o, n) == ReadLe(t, o, n)
    decreases n
  {
    if n > 0 {
      assert s[shift + o] == t[o];
      ShiftedRead(s, t, shift, o + 1, n - 1);
    }
  }

  /** Feeds all chunks, stopping at the first error: the outcome depends on the concatenated bytes alone. */
  method FeedAll(reader: BSONStreamReader, chunks: seq<seq<byte>>) returns (failed: bool)
    requires reader.Valid() && reader.emitted == [] && reader.Buffered() == []
    modifies reader
    ensures failed == Split(Flatten(chunks)).bad
    ensures reader.emitted == Split(Flatten(chunks)).messages
    ensures !failed ==> reader.Valid() && reader.Buffered() == Split(Flatten(chunks)).rest
  {
    hide FeedOf, Split, Flatten, ReadI32;
    NoBytes();
    assert chunks[..0] == [];
    for k := 0 to |chunks|
      invariant reader.Valid() && !Split(Flatten(chunks[..k])).bad
      invariant reader.emitted == Split(Flatten(chunks[..k])).messages
      invariant reader.Buffered() == Split(Flatten(chunks[..k])).rest
    {
      var fed, more := Flatten(chunks[..k]), chunks[k];
      FlattenPush(chunks[..k], more);
      assert chunks[..k] + [more] == chunks[..k + 1];
      assert more[..|more|] == more;
      SplitResumes(fed, more);
      FeedResumes(reader.Buffered(), more);
      var bad := reader.Feed(more, |more|);
      if bad {
        FlattenSplit(chunks, k + 1);
        SplitResumes(fed + more, Flatten(chunks[k + 1..]));
        return true;
      }
    }
    assert chunks[..|chunks|] == chunks;
    failed := false;
  }

  lemma {:induction false} NoBytes()
    ensures Flatten([]) == [] && Split([]) == Parts([], [], false)
  {
  }

  /** A feed without an error is a step of the split. */
  lemma {:induction false} FeedResumes(rest: seq<byte>, more: seq<byte>)
    requires Split(rest) == Parts([], rest, false)
    ensures var r := FeedOf(rest, more);
            r.messages == Split(rest + more).messages && r.failed == Split(rest + more).bad
            && (!r.failed ==> r.buffered == Split(rest + more).rest)
  {
    assert rest + [] == rest;
  }

  /** What feeds do one after the other when their errors are caught: whether each throws, and the messages of all. */
  function Feeds(buffered: seq<byte>, chunks: seq<seq<byte>>): (seq<byte>, seq<seq<byte>>, seq<bool>) {
    if chunks == [] then (buffered, [], [])
    else
      var (b, messages, fails) := Feeds(buffered, chunks[..|chunks| - 1]);
      var r := FeedOf(b, chunks[|chunks| - 1]);
      (r.buffered, messages + r.messages, fails + [r.failed])
  }

  /** Feeds all chunks, catching errors. */
  method FeedOn(reader: BSONStreamReader, chunks: seq<seq<byte>>) returns (fails: seq<bool>)
    requires reader.Consistent()
    modifies reader
    ensures reader.Consistent()
    ensures var (buffered, messages, expected) := Feeds(old(reader.Buffered()), chunks);
            reader.Buffered() == buffered && reader.emitted == old(reader.emitted) + messages && fails == expected
  {
    fails := [];
    assert chunks[..0] == [];
    ghost var emitted0, buffered0 := reader.emitted, reader.Buffered();
    for k := 0 to |chunks|
      invariant reader.Consistent() && reader.Buffered() == Feeds(buffered0, chunks[..k]).0
      invariant reader.emitted == emitted0 + Feeds(buffered0, chunks[..k]).1 && fails == Feeds(buffered0, chunks[..k]).2
    {
      assert chunks[..k + 1][..k] == chunks[..k] && chunks[k][..|chunks[k]|] == chunks[k];
      var failed := reader.Feed(chunks[k], |chunks[k]|);
      fails := fails + [failed];
    }
    assert chunks[..|chunks|] == chunks;
  }

  /** Once dead, always dead: nothing is emitted, every non-empty chunk throws, and all bytes are kept. */
  lemma {:induction false} DeadForever(buffered: seq<byte>, chunks: seq<seq<byte>>)
    requires Dead(buffered)
    ensures var (b, messages, fails) := Feeds(buffered, chunks);
            && b == buffered + Flatten(chunks) && Dead(b) && messages == [] && |fails| == |chunks|
            && forall k :: 0 <= k < |chunks| ==> (fails[k] <==> chunks[k] != [])
  {
    hide ReadI32;
    if chunks == [] {
      assert buffered + [] == buffered;
    } else {
      var n := |chunks| - 1;
      var init, last := chunks[..n], chunks[n];
      DeadForever(buffered, init);
      FlattenPush(init, last);
      assert init + [last] == chunks;
      var b := buffered + Flatten(init);
      assert b + last == buffered + (Flatten(init) + last);
      if last != [] { DeadFeed(b, last); }
    }
  }

  lemma {:induction false} FlattenSplit(chunks: seq<seq<byte>>, k: nat)
    requires k <= |chunks|
    ensures Flatten(chunks) == Flatten(chunks[..k]) + Flatten(chunks[k..])
  {
    if k == 0 {
      assert chunks[0..] == chunks;
      assert [] + Flatten(chunks) == Flatten(chunks);
    } else {
      FlattenSplit(chunks[1..], k - 1);
      assert chunks[..k][1..] == chunks[1..][..k - 1] && chunks[1..][k - 1..] == chunks[k..];
      assert chunks[0] + (Flatten(chunks[1..][..k - 1]) + Flatten(chunks[k..]))
          == chunks[0] + Flatten(chunks[1..][..k - 1]) + Flatten(chunks[k..]);
    }
  }
}
