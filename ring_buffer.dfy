/**
 * The apogee ring buffer of the flight computer: five float slots, a write
 * index, a read index and a length, all updated in place.
 *
 * Both indices are wrapped from 5 back to 0 just before they are used, so
 * they range over 0..5 and index 5 stands for slot 0.  The length saturates
 * at 5 on a put and, being an unsigned byte, wraps from 0 to 255 on a get
 * from an empty buffer.
 *
 * `Ring` is the value of the whole structure; the functions over it are the
 * specification the class `RingBuffer` is proved against, and the queue view
 * `Contents` with its lemmas states the FIFO behaviour and its one quirk: a
 * put on a full buffer overwrites the slot the reader returns next.
 */
module RingBuffer {
  import opened CInts

  const SizeOfBuffer: int := 5

  datatype Ring = Ring(slots: seq<real>, writeIndex: uint8, readIndex: uint8, bufferLength: uint8)

  /** The shape every reachable ring has: five slots, indices in 0..5. */
  predicate WellFormed(r: Ring) {
    |r.slots| == SizeOfBuffer && r.writeIndex <= SizeOfBuffer && r.readIndex <= SizeOfBuffer
  }

  function ZeroSlots(): (z: seq<real>)
    ensures |z| == SizeOfBuffer && forall i :: 0 <= i < |z| ==> z[i] == 0.0
  {
    [0.0, 0.0, 0.0, 0.0, 0.0]
  }

  /** The slot a put or get uses for an index after the wrap-before-use step. */
  function Slot(index: uint8): (s: int)
    requires index <= SizeOfBuffer
    ensures 0 <= s < SizeOfBuffer
    ensures s == index % SizeOfBuffer
  {
    if index == SizeOfBuffer then 0 else index
  }

  // ---------------------------------------------------------------------
  // The operations, as functions of the ring's value
  // ---------------------------------------------------------------------

  /** ring_buffer_init: both indices and the length become 0; slots are untouched. */
  function RingInit(r: Ring): (r': Ring)
    ensures r'.writeIndex == 0 && r'.readIndex == 0 && r'.bufferLength == 0
    ensures r'.slots == r.slots
  {
    r.(writeIndex := 0, readIndex := 0, bufferLength := 0)
  }

  /** ring_buffer_put: store d in the slot the write index names, then advance it. */
  function RingPut(r: Ring, d: real): (r': Ring)
    requires WellFormed(r)
    ensures WellFormed(r')
    ensures 1 <= r'.writeIndex <= SizeOfBuffer
    ensures r'.writeIndex == Slot(r.writeIndex) + 1
    ensures r'.slots[Slot(r.writeIndex)] == d
    ensures forall i :: 0 <= i < SizeOfBuffer && i != Slot(r.writeIndex) ==> r'.slots[i] == r.slots[i]
    ensures r'.readIndex == r.readIndex
    ensures r.bufferLength < SizeOfBuffer ==> r'.bufferLength == r.bufferLength + 1
    ensures r.bufferLength >= SizeOfBuffer ==> r'.bufferLength == SizeOfBuffer
  {
    var w := Slot(r.writeIndex);
    Ring(r.slots[w := d], w + 1, r.readIndex,
         if r.bufferLength >= SizeOfBuffer then SizeOfBuffer else r.bufferLength + 1)
  }

  datatype GetResult = GetResult(ring: Ring, value: real)

  /** ring_buffer_get: return the slot the read index names, advance it, decrement the length. */
  function RingGet(r: Ring): (g: GetResult)
    requires WellFormed(r)
    ensures WellFormed(g.ring)
    ensures g.value == r.slots[Slot(r.readIndex)]
    ensures g.ring.slots == r.slots && g.ring.writeIndex == r.writeIndex
    ensures 1 <= g.ring.readIndex <= SizeOfBuffer && g.ring.readIndex == Slot(r.readIndex) + 1
    ensures r.bufferLength > 0 ==> g.ring.bufferLength == r.bufferLength - 1
    ensures r.bufferLength == 0 ==> g.ring.bufferLength == 255
  {
    var s := Slot(r.readIndex);
    GetResult(r.(readIndex := s + 1, bufferLength := Dec8(r.bufferLength)), r.slots[s])
  }

  /** ring_buffer_flush: the memset covers exactly the five slots, which become 0. */
  function RingFlush(r: Ring): (r': Ring)
    ensures WellFormed(r')
    ensures r'.writeIndex == 0 && r'.readIndex == 0 && r'.bufferLength == 0
    ensures forall i :: 0 <= i < |r'.slots| ==> r'.slots[i] == 0.0
  {
    Ring(ZeroSlots(), 0, 0, 0)
  }

  // ---------------------------------------------------------------------
  // The queue view
  // ---------------------------------------------------------------------

  /** The write index sits `bufferLength` slots past the read index: no value was overwritten. */
  predicate Aligned(r: Ring) {
    WellFormed(r) && r.bufferLength <= SizeOfBuffer &&
    r.writeIndex % SizeOfBuffer == (r.readIndex + r.bufferLength) % SizeOfBuffer
  }

  /** The values a reader gets next, oldest first. */
  function Contents(r: Ring): (q: seq<real>)
    requires WellFormed(r) && r.bufferLength <= SizeOfBuffer
    ensures |q| == r.bufferLength
  {
    seq(r.bufferLength, k requires 0 <= k < r.bufferLength => r.slots[(r.readIndex + k) % SizeOfBuffer])
  }

  /** A ring fresh from init over zeroed memory is aligned and empty. */
  lemma InitIsEmpty(r: Ring)
    requires |r.slots| == SizeOfBuffer
    ensures Aligned(RingInit(r)) && Contents(RingInit(r)) == []
  {
  }

  /** A put on an aligned ring with room appends to the queue and keeps it aligned. */
  lemma PutAppends(r: Ring, d: real)
    requires Aligned(r) && r.bufferLength < SizeOfBuffer
    ensures Aligned(RingPut(r, d))
    ensures Contents(RingPut(r, d)) == Contents(r) + [d]
  {
    var r' := RingPut(r, d);
    var q, q' := Contents(r), Contents(r');
    assert Slot(r.writeIndex) == (r.readIndex + r.bufferLength) % SizeOfBuffer;
    forall k | 0 <= k < |q'|
      ensures q'[k] == (q + [d])[k]
    {
      if k < |q| {
        assert (r.readIndex + k) % SizeOfBuffer != Slot(r.writeIndex);
      }
    }
  }

  /**
   * The quirk: a put on a full aligned ring writes into the slot the reader
   * returns next, so the newest value jumps to the head of the queue and
   * the ring is no longer aligned.
   */
  lemma PutOnFullOverwritesHead(r: Ring, d: real)
    requires Aligned(r) && r.bufferLength == SizeOfBuffer
    ensures RingPut(r, d).bufferLength == SizeOfBuffer
    ensures Contents(RingPut(r, d)) == [d] + Contents(r)[1..]
    ensures RingGet(RingPut(r, d)).value == d
    ensures !Aligned(RingPut(r, d))
  {
    var r' := RingPut(r, d);
    assert Slot(r.writeIndex) == Slot(r.readIndex);
    var q, q' := Contents(r), Contents(r');
    forall k | 0 <= k < |q'|
      ensures q'[k] == ([d] + q[1..])[k]
    {
      if k > 0 {
        assert (r.readIndex + k) % SizeOfBuffer != Slot(r.writeIndex);
      }
    }
  }

  /** A get on an aligned non-empty ring pops the head of the queue and keeps it aligned. */
  lemma GetPopsHead(r: Ring)
    requires Aligned(r) && r.bufferLength > 0
    ensures Aligned(RingGet(r).ring)
    ensures RingGet(r).value == Contents(r)[0]
    ensures Contents(RingGet(r).ring) == Contents(r)[1..]
    ensures Contents(r) == [RingGet(r).value] + Contents(RingGet(r).ring)
  {
    var g := RingGet(r);
    var q, q' := Contents(r), Contents(g.ring);
    forall k | 0 <= k < |q'|
      ensures q'[k] == q[1..][k]
    {
      assert (Slot(r.readIndex) + 1 + k) % SizeOfBuffer == (r.readIndex + (k + 1)) % SizeOfBuffer;
    }
  }

  // ---------------------------------------------------------------------
  // Sequences of operations
  // ---------------------------------------------------------------------

  datatype Op = PutOp(value: real) | GetOp

  /** Gets never outnumber the values held, and no more than five are ever outstanding. */
  predicate NoOverrun(held: nat, ops: seq<Op>)
    decreases |ops|
  {
    ops == [] ||
    match ops[0]
    case PutOp(_) => held < SizeOfBuffer && NoOverrun(held + 1, ops[1..])
    case GetOp => held > 0 && NoOverrun(held - 1, ops[1..])
  }

  datatype RunResult = RunResult(ring: Ring, outputs: seq<real>)

  /** Apply the operations in order, collecting the values the gets return. */
  function Apply(r: Ring, ops: seq<Op>): (res: RunResult)
    requires WellFormed(r)
    ensures WellFormed(res.ring)
    decreases |ops|
  {
    if ops == [] then RunResult(r, [])
    else
      match ops[0]
      case PutOp(v) => Apply(RingPut(r, v), ops[1..])
      case GetOp =>
        var g := RingGet(r);
        var rest := Apply(g.ring, ops[1..]);
        RunResult(rest.ring, [g.value] + rest.outputs)
  }

  function PutValues(ops: seq<Op>): seq<real> {
    if ops == [] then []
    else (if ops[0].PutOp? then [ops[0].value] else []) + PutValues(ops[1..])
  }

  /**
   * FIFO order: while nothing is overwritten, the values held followed by
   * the values put equal the values got followed by the values still held.
   */
  lemma {:induction false} FifoOrder(r: Ring, ops: seq<Op>)
    requires Aligned(r) && NoOverrun(r.bufferLength, ops)
    ensures Aligned(Apply(r, ops).ring)
    ensures Contents(r) + PutValues(ops) == Apply(r, ops).outputs + Contents(Apply(r, ops).ring)
    decreases |ops|
  {
    if ops != [] {
      match ops[0]
      case PutOp(v) =>
        PutAppends(r, v);
        FifoOrder(RingPut(r, v), ops[1..]);
        FifoPutStep(r, v, ops);
      case GetOp =>
        GetPopsHead(r);
        FifoOrder(RingGet(r).ring, ops[1..]);
        FifoGetStep(r, ops);
    }
  }

  lemma FifoPutStep(r: Ring, v: real, ops: seq<Op>)
    requires Aligned(r) && r.bufferLength < SizeOfBuffer && ops != [] && ops[0] == PutOp(v)
    requires Aligned(RingPut(r, v)) && Contents(RingPut(r, v)) == Contents(r) + [v]
    requires Aligned(Apply(RingPut(r, v), ops[1..]).ring)
    requires Contents(RingPut(r, v)) + PutValues(ops[1..]) ==
             Apply(RingPut(r, v), ops[1..]).outputs + Contents(Apply(RingPut(r, v), ops[1..]).ring)
    ensures Apply(r, ops) == Apply(RingPut(r, v), ops[1..])
    ensures Contents(r) + PutValues(ops) == Apply(r, ops).outputs + Contents(Apply(r, ops).ring)
  {
    assert PutValues(ops) == [v] + PutValues(ops[1..]);
    var tail := Apply(RingPut(r, v), ops[1..]);
    AppendShift(Contents(r), v, PutValues(ops[1..]), tail.outputs + Contents(tail.ring));
  }

  lemma AppendShift<T>(q: seq<T>, v: T, rest: seq<T>, total: seq<T>)
    requires (q + [v]) + rest == total
    ensures q + ([v] + rest) == total
  {
  }

  lemma PopShift<T>(q: seq<T>, v: T, q': seq<T>, rest: seq<T>, out: seq<T>, left: seq<T>)
    requires q == [v] + q' && q' + rest == out + left
    ensures q + rest == ([v] + out) + left
  {
    calc {
      q + rest;
      ([v] + q') + rest;
      [v] + (q' + rest);
      [v] + (out + left);
      ([v] + out) + left;
    }
  }

  lemma FifoGetStep(r: Ring, ops: seq<Op>)
    requires Aligned(r) && r.bufferLength > 0 && ops != [] && ops[0] == GetOp
    requires Contents(r) == [RingGet(r).value] + Contents(RingGet(r).ring)
    requires Aligned(RingGet(r).ring) && Aligned(Apply(RingGet(r).ring, ops[1..]).ring)
    requires Contents(RingGet(r).ring) + PutValues(ops[1..]) ==
             Apply(RingGet(r).ring, ops[1..]).outputs + Contents(Apply(RingGet(r).ring, ops[1..]).ring)
    ensures Apply(r, ops).ring == Apply(RingGet(r).ring, ops[1..]).ring
    ensures Contents(r) + PutValues(ops) == Apply(r, ops).outputs + Contents(Apply(r, ops).ring)
  {
    var g := RingGet(r);
    var tail := Apply(g.ring, ops[1..]);
    assert Apply(r, ops) == RunResult(tail.ring, [g.value] + tail.outputs);
    assert PutValues(ops) == PutValues(ops[1..]);
    PopShift(Contents(r), g.value, Contents(g.ring), PutValues(ops[1..]), tail.outputs, Contents(tail.ring));
  }

  /** From an empty ring, the gets return a prefix of the put values, in put order. */
  lemma GetsFollowPutOrder(r: Ring, ops: seq<Op>)
    requires Aligned(r) && r.bufferLength == 0 && NoOverrun(0, ops)
    ensures Apply(r, ops).outputs <= PutValues(ops)
  {
    FifoOrder(r, ops);
    var res := Apply(r, ops);
    assert Contents(r) == [];
    assert PutValues(ops) == res.outputs + Contents(res.ring);
    assert res.outputs == PutValues(ops)[..|res.outputs|];
  }

  function Puts(r: Ring, values: seq<real>): (r': Ring)
    requires WellFormed(r)
    ensures WellFormed(r')
    decreases |values|
  {
    if values == [] then r else Puts(RingPut(r, values[0]), values[1..])
  }

  /** Puts never fail: after n of them the length is min(length + n, 5). */
  lemma {:induction false} PutsSaturate(r: Ring, values: seq<real>)
    requires WellFormed(r) && r.bufferLength <= SizeOfBuffer
    ensures Puts(r, values).bufferLength ==
            if r.bufferLength + |values| < SizeOfBuffer then r.bufferLength + |values| else SizeOfBuffer
    decreases |values|
  {
    if values != [] {
      PutsSaturate(RingPut(r, values[0]), values[1..]);
    }
  }

  // ---------------------------------------------------------------------
  // The struct, updated in place
  // ---------------------------------------------------------------------

  class RingBuffer {
    var buffer: array<real>
    var writeIndex: uint8
    var readIndex: uint8
    var bufferLength: uint8

    ghost predicate Valid()
      reads this
    {
      buffer.Length == SizeOfBuffer && writeIndex <= SizeOfBuffer && readIndex <= SizeOfBuffer
    }

    /** The value of the whole struct. */
    function State(): (r: Ring)
      reads this, buffer
      ensures Valid() ==> WellFormed(r)
    {
      Ring(buffer[..], writeIndex, readIndex, bufferLength)
    }

    /** A global ring_buffer: zero-filled storage. */
    constructor ()
      ensures Valid() && fresh(buffer)
      ensures State() == Ring(ZeroSlots(), 0, 0, 0)
    {
      buffer := new real[SizeOfBuffer](_ => 0.0);
      writeIndex, readIndex, bufferLength := 0, 0, 0;
      new;
      assert buffer[..] == ZeroSlots();
    }

    /** ring_buffer_init */
    method Init()
      requires Valid()
      modifies this
      ensures Valid() && buffer == old(buffer)
      ensures State() == RingInit(old(State()))
    {
      writeIndex := 0;
      readIndex := 0;
      bufferLength := 0;
    }

    /** ring_buffer_put */
    method Put(d: real)
      requires Valid()
      modifies this, buffer
      ensures Valid() && buffer == old(buffer)
      ensures State() == RingPut(old(State()), d)
    {
      if writeIndex == SizeOfBuffer {
        writeIndex := 0;
      }
      buffer[writeIndex] := d;
      writeIndex := writeIndex + 1;
      if bufferLength >= SizeOfBuffer {
        bufferLength := SizeOfBuffer;
      } else {
        bufferLength := bufferLength + 1;
      }
    }

    /** ring_buffer_get */
    method Get() returns (d: real)
      requires Valid()
      modifies this
      ensures Valid() && buffer == old(buffer)
      ensures State() == RingGet(old(State())).ring
      ensures d == RingGet(old(State())).value
    {
      if readIndex == SizeOfBuffer {
        readIndex := 0;
      }
      bufferLength := Dec8(bufferLength);
      d := buffer[readIndex];
      readIndex := readIndex + 1;
    }

    /** ring_buffer_available */
    method Available() returns (n: uint8)
      ensures n == bufferLength
    {
      n := bufferLength;
    }

    /** ring_buffer_empty */
    method Empty() returns (e: bool)
      ensures e <==> bufferLength == 0
    {
      e := bufferLength == 0;
    }

    /** ring_buffer_full */
    method Full() returns (f: bool)
      ensures f <==> bufferLength == SizeOfBuffer
    {
      f := bufferLength == SizeOfBuffer;
    }

    /** ring_buffer_flush */
    method Flush()
      requires Valid()
      modifies this, buffer
      ensures Valid() && buffer == old(buffer)
      ensures State() == RingFlush(old(State()))
    {
      bufferLength := 0;
      readIndex := 0;
      writeIndex := 0;
      forall i | 0 <= i < SizeOfBuffer {
        buffer[i] := 0.0;
      }
      assert buffer[..] == ZeroSlots();
    }
  }
}
