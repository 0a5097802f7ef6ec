/** The buffered output stream against writing to the stream below it directly. */
module Streams {
  import opened Bytes

  const BUFFER_SIZE: nat := 8192

  datatype Whence = SeekSet | SeekCurrent | SeekEnd

  datatype Op = Write(bytes: seq<byte>) | Seek(offset: int, whence: Whence)

  // ----- A stream over a vector -----

  datatype Store = Store(data: seq<byte>, at: nat)
  {
    predicate Valid() {
      at <= |data|
    }
  }

  /** Overwrites at the current position and grows the vector as needed. */
  function WriteTo(s: Store, bytes: seq<byte>): (r: Store)
    requires s.Valid()
    ensures r.Valid()
  {
    var end := s.at + |bytes|;
    Store(s.data[..s.at] + bytes + (if end < |s.data| then s.data[end..] else []), end)
  }

  function Target(s: Store, offset: int, whence: Whence): int
  {
    match whence
    case SeekSet => offset
    case SeekCurrent => s.at + offset
    case SeekEnd => |s.data| + offset
  }

  /** Moves to a position, with zeros up to it if it is behind the end. */
  function SeekTo(s: Store, to: nat): (r: Store)
    requires s.Valid()
    ensures r.Valid()
  {
    Store(if to > |s.data| then s.data + Zeros(to - |s.data|) else s.data, to)
  }

  /** A seek to a negative position has no meaning for a vector. */
  predicate Allowed(s: Store, op: Op)
  {
    op.Seek? ==> Target(s, op.offset, op.whence) >= 0
  }

  /** One operation done directly: the new state and the position it reports. */
  function Direct(s: Store, op: Op): (r: (Store, int))
    requires s.Valid() && Allowed(s, op)
    ensures r.0.Valid()
  {
    match op
    case Write(bytes) => (WriteTo(s, bytes), 0)
    case Seek(offset, whence) => var to := Target(s, offset, whence); (SeekTo(s, to), to)
  }

  predicate AllAllowed(s: Store, ops: seq<Op>)
    requires s.Valid()
    decreases |ops|
  {
    ops == [] || (Allowed(s, ops[0]) && AllAllowed(Direct(s, ops[0]).0, ops[1..]))
  }

  function DirectRun(s: Store, ops: seq<Op>): (r: (Store, seq<int>))
    requires s.Valid() && AllAllowed(s, ops)
    ensures r.0.Valid()
    decreases |ops|
  {
    if ops == [] then (s, [])
    else
      var first := Direct(s, ops[0]);
      var rest := DirectRun(first.0, ops[1..]);
      (rest.0, [first.1] + rest.1)
  }

  lemma {:induction false} WriteNothing(s: Store)
    requires s.Valid()
    ensures WriteTo(s, []) == s
  {
    assert s.at == |s.data| ==> s.data[..s.at] == s.data;
  }

  /** Two writes in a row are one. */
  lemma {:induction false} WriteTwice(s: Store, a: seq<byte>, b: seq<byte>)
    requires s.Valid()
    ensures WriteTo(WriteTo(s, a), b) == WriteTo(s, a + b)
  {
    var t := WriteTo(s, a);
    assert t.data[..t.at] == s.data[..s.at] + a;
    var end := t.at + |b|;
    if end < |s.data| {
      assert t.data[end..] == s.data[end..];
    }
  }

  /** A write behind a seek: the bytes stand where the seek went, in front of them what was there or zeros, and behind
      them what was there. */
  lemma {:induction false} TheoremSeekThenWrite(s: Store, offset: int, whence: Whence, bytes: seq<byte>, to: nat)
    requires s.Valid() && (whence == SeekSet ==> to == offset)
    requires (whence == SeekCurrent ==> to == s.at + offset) && (whence == SeekEnd ==> to == |s.data| + offset)
    ensures var ops := [Seek(offset, whence), Write(bytes)];
            AllAllowed(s, ops) &&
            var r := DirectRun(s, ops);
            && r.1[0] == to && r.0.at == to + |bytes|
            && |r.0.data| == (if |s.data| > to + |bytes| then |s.data| else to + |bytes|)
            && forall i :: 0 <= i < |r.0.data| ==>
                 r.0.data[i] == if to <= i < to + |bytes| then bytes[i - to] else if i < |s.data| then s.data[i] else 0
  {
    var ops := [Seek(offset, whence), Write(bytes)];
    var t := SeekTo(s, to);
    assert ops[1..] == [Write(bytes)] && ops[1..][1..] == [];
    assert AllAllowed(t, ops[1..]);
    assert DirectRun(t, ops[1..]).0 == WriteTo(t, bytes);
  }

  // ----- The buffered stream over a stream whose writes may fail -----

  /** The stream below, with the number of writes it has seen; write number k fails if fails(k). */
  datatype Below = Below(store: Store, calls: nat)

  function WriteBelow(fails: nat -> bool, l: Below, bytes: seq<byte>): (bool, Below)
    requires l.store.Valid()
  {
    if fails(l.calls) then (false, l.(calls := l.calls + 1)) else (true, Below(WriteTo(l.store, bytes), l.calls + 1))
  }

  datatype Buffered = Buffered(out: Below, pending: seq<byte>)
  {
    predicate Valid() {
      out.store.Valid() && |pending| <= BUFFER_SIZE
    }

    /** What will be in the stream once the buffer is flushed. */
    function Flushed(): Store
      requires Valid()
    {
      WriteTo(out.store, pending)
    }
  }

  function Flush(fails: nat -> bool, b: Buffered): (r: (bool, Buffered))
    requires b.Valid()
    ensures r.1.Valid() && r.1.pending == []
  {
    if b.pending == [] then (true, b)
    else
      var w := WriteBelow(fails, b.out, b.pending);
      (w.0, Buffered(w.1, []))
  }

  /** Large writes bypass the buffer and do not ask whether the flush before them worked. */
  function BufferedWrite(fails: nat -> bool, b: Buffered, bytes: seq<byte>): (r: (bool, Buffered))
    requires b.Valid()
    ensures r.1.Valid()
  {
    if |bytes| > BUFFER_SIZE then
      var w := WriteBelow(fails, Flush(fails, b).1.out, bytes);
      (w.0, Buffered(w.1, []))
    else if |b.pending| + |bytes| > BUFFER_SIZE then
      var f := Flush(fails, b);
      if !f.0 then f else (true, f.1.(pending := bytes))
    else (true, b.(pending := b.pending + bytes))
  }

  /** One operation through the buffer: success, new state, reported position. */
  function Through(fails: nat -> bool, b: Buffered, op: Op): (r: (bool, Buffered, int))
    requires b.Valid()
    ensures r.1.Valid()
  {
    match op
    case Write(bytes) => var w := BufferedWrite(fails, b, bytes); (w.0, w.1, 0)
    case Seek(offset, whence) =>
      var f := Flush(fails, b);
      if !f.0 then (false, f.1, -1)
      else
        var to := Target(f.1.out.store, offset, whence);
        if to < 0 then (false, f.1, -1) else (true, f.1.(out := f.1.out.(store := SeekTo(f.1.out.store, to))), to)
  }

  /** The flush before a large write failed. */
  predicate Lost(fails: nat -> bool, b: Buffered, op: Op)
  {
    op.Write? && |op.bytes| > BUFFER_SIZE && b.pending != [] && fails(b.out.calls)
  }

  /** Every operation reported success. */
  predicate AllOk(fails: nat -> bool, b: Buffered, ops: seq<Op>)
    requires b.Valid()
    decreases |ops|
  {
    ops == [] || (Through(fails, b, ops[0]).0 && AllOk(fails, Through(fails, b, ops[0]).1, ops[1..]))
  }

  predicate NoneLost(fails: nat -> bool, b: Buffered, ops: seq<Op>)
    requires b.Valid()
    decreases |ops|
  {
    ops == [] || (!Lost(fails, b, ops[0]) && NoneLost(fails, Through(fails, b, ops[0]).1, ops[1..]))
  }

  function BufferedRun(fails: nat -> bool, b: Buffered, ops: seq<Op>): (r: (Buffered, seq<int>))
    requires b.Valid()
    ensures r.0.Valid()
    decreases |ops|
  {
    if ops == [] then (b, [])
    else
      var first := Through(fails, b, ops[0]);
      var rest := BufferedRun(fails, first.1, ops[1..]);
      (rest.0, [first.2] + rest.1)
  }

  lemma {:induction false} FlushKeeps(fails: nat -> bool, b: Buffered)
    requires b.Valid() && Flush(fails, b).0
    ensures Flush(fails, b).1.out.store == b.Flushed()
    ensures Flush(fails, b).1.Flushed() == b.Flushed()
  {
    var s := Flush(fails, b).1.out.store;
    WriteNothing(s);
    WriteNothing(b.out.store);
  }

  lemma {:induction false} WriteRefines(fails: nat -> bool, b: Buffered, bytes: seq<byte>)
    requires b.Valid() && BufferedWrite(fails, b, bytes).0 && !Lost(fails, b, Write(bytes))
    ensures BufferedWrite(fails, b, bytes).1.Flushed() == WriteTo(b.Flushed(), bytes)
  {
    var r := BufferedWrite(fails, b, bytes).1;
    if |bytes| > BUFFER_SIZE {
      FlushKeeps(fails, b);
      WriteNothing(r.out.store);
    } else if |b.pending| + |bytes| > BUFFER_SIZE {
      FlushKeeps(fails, b);
    } else {
      WriteTwice(b.out.store, b.pending, bytes);
    }
  }

  lemma {:induction false} StepRefines(fails: nat -> bool, b: Buffered, op: Op)
    requires b.Valid() && Through(fails, b, op).0 && !Lost(fails, b, op) && Allowed(b.Flushed(), op)
    ensures var r, d := Through(fails, b, op), Direct(b.Flushed(), op); r.1.Flushed() == d.0 && r.2 == d.1
  {
    match op
    case Write(bytes) => WriteRefines(fails, b, bytes);
    case Seek(_, _) =>
      FlushKeeps(fails, b);
      var s := Through(fails, b, op).1.out.store;
      WriteNothing(s);
  }

  /** Whatever is written and sought, if every call reports success and no flush before a large write failed,
      the bytes after a last flush and all reported positions are those of writing directly. */
  lemma {:induction false} TheoremBufferedRefinesDirect(fails: nat -> bool, b: Buffered, ops: seq<Op>)
    requires b.Valid() && AllAllowed(b.Flushed(), ops) && AllOk(fails, b, ops) && NoneLost(fails, b, ops)
    ensures var r, d := BufferedRun(fails, b, ops), DirectRun(b.Flushed(), ops); r.0.Flushed() == d.0 && r.1 == d.1
    decreases |ops|
  {
    if ops != [] {
      StepRefines(fails, b, ops[0]);
      TheoremBufferedRefinesDirect(fails, Through(fails, b, ops[0]).1, ops[1..]);
    }
  }

  function Never(): nat -> bool
  {
    _ => false
  }

  /** Over a vector no call fails, so the above holds for all operations. */
  lemma {:induction false} TheoremOverVector(b: Buffered, ops: seq<Op>)
    requires b.Valid() && AllAllowed(b.Flushed(), ops)
    ensures AllOk(Never(), b, ops) && NoneLost(Never(), b, ops)
    ensures var r, d := BufferedRun(Never(), b, ops), DirectRun(b.Flushed(), ops); r.0.Flushed() == d.0 && r.1 == d.1
    decreases |ops|
  {
    if ops != [] {
      FlushKeeps(Never(), b);
      StepRefines(Never(), b, ops[0]);
      TheoremOverVector(Through(Never(), b, ops[0]).1, ops[1..]);
    }
  }

  // ----- Exactly when bytes get lost -----

  /** One operation that reports success does what it does directly exactly if it does not lose the buffer. */
  lemma {:induction false} StepIff(fails: nat -> bool, b: Buffered, op: Op)
    requires b.Valid() && Through(fails, b, op).0 && Allowed(b.Flushed(), op)
    ensures var r, d := Through(fails, b, op), Direct(b.Flushed(), op);
            r.1.Flushed() == d.0 && r.2 == d.1 <==> !Lost(fails, b, op)
  {
    if Lost(fails, b, op) {
      LostMoves(fails, b, op);
    } else {
      StepRefines(fails, b, op);
    }
  }

  /** Then the position falls behind by the number of bytes lost. */
  lemma {:induction false} LostMoves(fails: nat -> bool, b: Buffered, op: Op)
    requires b.Valid() && Through(fails, b, op).0 && Lost(fails, b, op)
    ensures Through(fails, b, op).1.Flushed().at + |b.pending| == WriteTo(b.Flushed(), op.bytes).at
  {
  }

  /** After every operation the stream stands as if written directly, and every position reported is the same. */
  predicate AgreesThroughout(fails: nat -> bool, b: Buffered, d: Store, ops: seq<Op>)
    requires b.Valid() && d.Valid() && AllAllowed(d, ops)
    decreases |ops|
  {
    && b.Flushed() == d
    && (ops == [] ||
        (Through(fails, b, ops[0]).2 == Direct(d, ops[0]).1
         && AgreesThroughout(fails, Through(fails, b, ops[0]).1, Direct(d, ops[0]).0, ops[1..])))
  }

  /** A run in which every call reports success agrees with the direct run at every point exactly if no flush in front
      of a large write failed. */
  lemma {:induction false} TheoremAgreesThroughoutIff(fails: nat -> bool, b: Buffered, ops: seq<Op>)
    requires b.Valid() && AllAllowed(b.Flushed(), ops) && AllOk(fails, b, ops)
    ensures AgreesThroughout(fails, b, b.Flushed(), ops) <==> NoneLost(fails, b, ops)
    decreases |ops|
  {
    if ops != [] {
      StepIff(fails, b, ops[0]);
      if !Lost(fails, b, ops[0]) {
        TheoremAgreesThroughoutIff(fails, Through(fails, b, ops[0]).1, ops[1..]);
      } else {
        NotNow(fails, Through(fails, b, ops[0]).1, Direct(b.Flushed(), ops[0]).0, ops[1..]);
      }
    }
  }

  lemma {:induction false} NotNow(fails: nat -> bool, b: Buffered, d: Store, ops: seq<Op>)
    requires b.Valid() && d.Valid() && AllAllowed(d, ops) && b.Flushed() != d
    ensures !AgreesThroughout(fails, b, d, ops)
  {
  }

  /** Writes and seeks relative to the current position, which no lost byte escapes. */
  predicate Relative(ops: seq<Op>)
  {
    forall i :: 0 <= i < |ops| ==> ops[i].Write? || ops[i].whence == SeekCurrent
  }

  function LostBytes(fails: nat -> bool, b: Buffered, ops: seq<Op>): nat
    requires b.Valid()
    decreases |ops|
  {
    if ops == [] then 0
    else (if Lost(fails, b, ops[0]) then |b.pending| else 0) + LostBytes(fails, Through(fails, b, ops[0]).1, ops[1..])
  }

  lemma {:induction false} NothingLost(fails: nat -> bool, b: Buffered, ops: seq<Op>)
    requires b.Valid()
    ensures LostBytes(fails, b, ops) == 0 <==> NoneLost(fails, b, ops)
    decreases |ops|
  {
    if ops != [] { NothingLost(fails, Through(fails, b, ops[0]).1, ops[1..]); }
  }

  lemma {:induction false} StepFallsBehind(fails: nat -> bool, b: Buffered, d: Store, op: Op, lost: nat)
    requires b.Valid() && d.Valid() && Allowed(d, op) && Through(fails, b, op).0 &&
             (op.Write? || op.whence == SeekCurrent)
    requires b.Flushed().at + lost == d.at
    ensures Through(fails, b, op).1.Flushed().at + lost + (if Lost(fails, b, op) then |b.pending| else 0) ==
            Direct(d, op).0.at
  {
    if op.Seek? { FlushKeeps(fails, b); }
  }

  lemma {:induction false} FallsBehind(fails: nat -> bool, b: Buffered, d: Store, ops: seq<Op>, lost: nat)
    requires b.Valid() && d.Valid() && AllAllowed(d, ops) && AllOk(fails, b, ops) && Relative(ops)
    requires b.Flushed().at + lost == d.at
    ensures BufferedRun(fails, b, ops).0.Flushed().at + lost + LostBytes(fails, b, ops) == DirectRun(d, ops).0.at
    decreases |ops|
  {
    if ops != [] {
      StepFallsBehind(fails, b, d, ops[0], lost);
      FallsBehind(fails, Through(fails, b, ops[0]).1, Direct(d, ops[0]).0, ops[1..],
                  lost + (if Lost(fails, b, ops[0]) then |b.pending| else 0));
    }
  }

  /** Without absolute seeks the end alone decides: state and positions are those of the direct run exactly if nothing
      was lost, and the stream ends short by the number of bytes lost. */
  lemma {:induction false} TheoremRelativeRunIff(fails: nat -> bool, b: Buffered, ops: seq<Op>)
    requires b.Valid() && AllAllowed(b.Flushed(), ops) && AllOk(fails, b, ops) && Relative(ops)
    ensures var r, d := BufferedRun(fails, b, ops), DirectRun(b.Flushed(), ops);
            && (r.0.Flushed() == d.0 && r.1 == d.1 <==> NoneLost(fails, b, ops))
            && r.0.Flushed().at + LostBytes(fails, b, ops) == d.0.at
  {
    FallsBehind(fails, b, b.Flushed(), ops, 0);
    NothingLost(fails, b, ops);
    if NoneLost(fails, b, ops) { TheoremBufferedRefinesDirect(fails, b, ops); }
  }

  function NewStream(): Buffered
  {
    Buffered(Below(Store([], 0), 0), [])
  }

  /** On a new stream: a small write, then a large one whose flush fails. Both report success, and so does a last
      flush, but the small one is gone. */
  lemma {:induction false} LostExample(small: seq<byte>, large: seq<byte>, fails: nat -> bool)
    requires 0 < |small| <= BUFFER_SIZE < |large| && fails(0) && !fails(1)
    ensures var ops := [Write(small), Write(large)];
            && AllOk(fails, NewStream(), ops) && Flush(fails, BufferedRun(fails, NewStream(), ops).0).0
            && BufferedRun(fails, NewStream(), ops).0.Flushed().data == large
            && DirectRun(NewStream().Flushed(), ops).0.data == small + large
  {
    var b0, ops := NewStream(), [Write(small), Write(large)];
    var b1 := Through(fails, b0, ops[0]).1;
    var b2 := Through(fails, b1, ops[1]).1;
    assert ops[1..] == [Write(large)] && ops[1..][1..] == [];
    assert b1 == Buffered(Below(Store([], 0), 0), small);
    assert b2.out.store == WriteTo(Store([], 0), large) == Store(large, |large|);
    assert BufferedRun(fails, b2, []) == (b2, []) && AllOk(fails, b2, []);
    WriteNothing(b2.out.store);
    LargeAfterSmall(small, large);
  }

  lemma {:induction false} LargeAfterSmall(small: seq<byte>, large: seq<byte>)
    ensures DirectRun(NewStream().Flushed(), [Write(small), Write(large)]).0.data == small + large
  {
    var d0, ops := NewStream().Flushed(), [Write(small), Write(large)];
    assert d0 == Store([], 0) && ops[1..] == [Write(large)] && ops[1..][1..] == [];
    var d1 := WriteTo(d0, small);
    assert d1 == Store(small, |small|);
    var d2 := WriteTo(d1, large);
    assert d2 == Store(small + large, |small| + |large|);
    assert DirectRun(d2, []) == (d2, []);
    assert DirectRun(d1, [Write(large)]).0 == d2;
  }

  // ----- The streams as they are used -----

  class VectorOutputStream {
    var offset: nat
    var vector: seq<byte>
    var calls: nat
    const fails: nat -> bool

    ghost function State(): Below
      reads this
    {
      Below(Store(vector, offset), calls)
    }

    constructor (vector: seq<byte>, fails: nat -> bool)
      ensures State() == Below(Store(vector, |vector|), 0) && this.fails == fails
    {
      this.vector, this.offset, this.calls, this.fails := vector, |vector|, 0, fails;
    }

    method EnsureCapacity(newOffset: nat)
      modifies this`vector
      ensures vector == if newOffset > old(|vector|) then old(vector) + Zeros(newOffset - old(|vector|))
              else old(vector)
    {
      if newOffset > |vector| {
        vector := vector + Zeros(newOffset - |vector|);
      }
    }

    method WriteFully(bytes: seq<byte>) returns (ok: bool)
      requires State().store.Valid()
      modifies this
      ensures (ok, State()) == WriteBelow(fails, old(State()), bytes)
    {
      ok := !fails(calls);
      calls := calls + 1;
      if !ok {
        return;
      }
      ghost var was := vector;
      if offset == |vector| {
        assert vector[..offset] + bytes + [] == vector + bytes;
        vector := vector + bytes;
        offset := offset + |bytes|;
      } else {
        var newOffset := offset + |bytes|;
        EnsureCapacity(newOffset);
        assert vector[..offset] == was[..offset];
        assert vector[newOffset..] == if newOffset < |was| then was[newOffset..] else [];
        vector := vector[..offset] + bytes + vector[newOffset..];
        offset := newOffset;
      }
    }

    method SeekPosition(off: int, whence: Whence) returns (position: int)
      requires State().store.Valid()
      modifies this
      ensures var to := Target(old(State()).store, off, whence);
              if to < 0 then position == -1 && State() == old(State())
              else position == to && State() == old(State()).(store := SeekTo(old(State()).store, to))
    {
      var to := match whence case SeekSet => off case SeekCurrent => offset + off case SeekEnd => |vector| + off;
      if to < 0 {
        return -1;
      }
      EnsureCapacity(to);
      offset := to;
      return to;
    }
  }

  class BufferedOutputStream {
    const out: VectorOutputStream
    const buffer: array<byte>
    var used: nat

    ghost predicate Valid()
      reads this, out, buffer
    {
      buffer.Length == BUFFER_SIZE && used <= BUFFER_SIZE && out.State().store.Valid()
    }

    ghost function State(): Buffered
      requires Valid()
      reads this, out, buffer
    {
      Buffered(out.State(), buffer[..used])
    }

    constructor (out: VectorOutputStream)
      requires out.State().store.Valid()
      ensures Valid() && fresh(buffer) && this.out == out && State() == Buffered(out.State(), [])
    {
      this.out := out;
      this.buffer := new byte[BUFFER_SIZE](_ => 0);
      this.used := 0;
    }

    method DoFlush() returns (ok: bool)
      requires Valid()
      modifies this`used, out
      ensures Valid() && (ok, State()) == Flush(out.fails, old(State()))
    {
      ok := true;
      if used > 0 {
        ok := out.WriteFully(buffer[..used]);
        used := 0;
      }
    }

    method WriteFully(bytes: seq<byte>) returns (ok: bool)
      requires Valid()
      modifies this`used, out, buffer
      ensures Valid() && (ok, State()) == BufferedWrite(out.fails, old(State()), bytes)
    {
      if |bytes| > BUFFER_SIZE {
        var _ := DoFlush();
        ok := out.WriteFully(bytes);
        return;
      }
      if used + |bytes| > BUFFER_SIZE {
        var success := DoFlush();
        if !success {
          return false;
        }
      }
      ghost var pending := buffer[..used];
      forall k | 0 <= k < |bytes| { buffer[used + k] := bytes[k]; }
      used := used + |bytes|;
      assert buffer[..used] == pending + bytes;
      assert [] + bytes == bytes;
      return true;
    }

    method SeekPosition(offset: int, whence: Whence) returns (position: int)
      requires Valid()
      modifies this`used, out
      ensures Valid()
      ensures var r := Through(out.fails, old(State()), Seek(offset, whence)); State() == r.1 && position == r.2
    {
      var ok := DoFlush();
      if !ok {
        return -1;
      }
      position := out.SeekPosition(offset, whence);
    }
  }

  /** After `i` operations the whole run is the positions so far and a run of what remains. */
  predicate Remaining(start: Buffered, now: Buffered, ops: seq<Op>, i: nat, positions: seq<int>)
  {
    && start.Valid() && now.Valid() && i <= |ops|
    && var rest := BufferedRun(Never(), now, ops[i..]);
       BufferedRun(Never(), start, ops) == (rest.0, positions + rest.1)
  }

  lemma {:induction false} RemainingStep(start: Buffered, now: Buffered, ops: seq<Op>, i: nat, positions: seq<int>)
    requires Remaining(start, now, ops, i, positions) && i < |ops|
    ensures var r := Through(Never(), now, ops[i]); Remaining(start, r.1, ops, i + 1, positions + [r.2])
  {
    var r := Through(Never(), now, ops[i]);
    assert ops[i..][1..] == ops[i + 1..];
    var rest := BufferedRun(Never(), r.1, ops[i + 1..]);
    assert positions + ([r.2] + rest.1) == positions + [r.2] + rest.1;
  }

  /** A client that writes and seeks through a buffered stream over a vector. */
  method RunOverVector(initial: seq<byte>, ops: seq<Op>) returns (data: seq<byte>, positions: seq<int>)
    requires AllAllowed(Store(initial, |initial|), ops)
    ensures (data, positions) == (DirectRun(Store(initial, |initial|), ops).0.data,
                                  DirectRun(Store(initial, |initial|), ops).1)
  {
    var out := new VectorOutputStream(initial, Never());
    var stream := new BufferedOutputStream(out);
    ghost var start := stream.State();
    WriteNothing(start.out.store);
    positions := [];
    assert ops[0..] == ops && positions + BufferedRun(Never(), start, ops).1 == BufferedRun(Never(), start, ops).1;
    for i := 0 to |ops|
      invariant stream.Valid() && stream.out == out && out.fails == Never()
      invariant fresh(stream) && fresh(out) && fresh(stream.buffer)
      invariant Remaining(start, stream.State(), ops, i, positions)
    {
      RemainingStep(start, stream.State(), ops, i, positions);
      match ops[i]
      case Write(bytes) => {
        var ok := stream.WriteFully(bytes);
        positions := positions + [0];
      }
      case Seek(offset, whence) => {
        var position := stream.SeekPosition(offset, whence);
        positions := positions + [position];
      }
    }
    assert ops[|ops|..] == [] && positions + [] == positions;
    TheoremOverVector(start, ops);
    FlushKeeps(Never(), stream.State());
    var ok := stream.DoFlush();
    data := out.vector;
  }
}
