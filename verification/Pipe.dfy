/** The byte pipe: a ring written and read in up to two parts. */
module Pipes {
  import opened Bytes

  const COPY_MAX: nat := 1024
  const ISR_COPY_MAX: nat := 64

  datatype Outcome = Transferred(n: nat) | Invalid | Context

  function Min(a: nat, b: nat): (r: nat)
    ensures r <= a && r <= b && (r == a || r == b)
  {
    if a < b then a else b
  }

  /** The checks both directions share before they look at the ring. */
  function Check(length: nat, inIsr: bool, fromIsr: bool): Outcome {
    if length > COPY_MAX then Invalid
    else if fromIsr && length > ISR_COPY_MAX then Invalid
    else if inIsr != fromIsr then Context
    else Transferred(0)
  }

  /** A transfer is turned away exactly for its length or for the wrong context, whatever is in the ring. */
  lemma CheckIff(length: nat, inIsr: bool, fromIsr: bool)
    ensures var r := Check(length, inIsr, fromIsr); var fits := length <= 1024 && (fromIsr ==> length <= 64);
            && (r == Invalid <==> !fits) && (r == Context <==> fits && inIsr != fromIsr)
            && (r == Transferred(0) <==> fits && inIsr == fromIsr)
  {}

  class Pipe {
    const buffer: array<byte>
    const size: nat
    var head: nat
    var tail: nat
    var count: nat

    /** Everything ever written and everything ever read. */
    ghost var written: seq<byte>
    ghost var taken: seq<byte>

    ghost predicate Valid()
      reads this, buffer
    {
      && size == buffer.Length && size > 0 && head < size && count <= size
      && tail == Wrap(head, count, size)
      && written == taken + Contents()
    }

    ghost function Contents(): (c: seq<byte>)
      reads this, buffer
      requires size == buffer.Length && size > 0 && head < size && count <= size
      ensures |c| == count && forall k :: 0 <= k < count ==> c[k] == buffer[Wrap(head, k, size)]
    {
      seq(count, k requires 0 <= k < count && size == buffer.Length && size > 0 && head < size && count <= size
                   reads this, buffer => buffer[Wrap(head, k, size)])
    }

    constructor (buffer: array<byte>)
      requires buffer.Length > 0
      ensures Valid() && Contents() == [] && written == taken == [] && this.buffer == buffer
    {
      this.buffer, size := buffer, buffer.Length;
      head, tail, count := 0, 0, 0;
      written, taken := [], [];
    }

    /** `pipe_write_common`, one attempt: as much of `data` as there is room for is appended,
        the part that runs over the end of the ring going to its start. */
    method Write(data: seq<byte>, inIsr: bool, fromIsr: bool) returns (r: Outcome)
      requires Valid()
      modifies this`tail, this`count, this`written, buffer
      ensures Valid()
      ensures Check(|data|, inIsr, fromIsr) != Transferred(0) ==>
                r == Check(|data|, inIsr, fromIsr) && Contents() == old(Contents()) && written == old(written)
      ensures Check(|data|, inIsr, fromIsr) == Transferred(0) ==>
                var n := Min(|data|, size - old(count));
                r == Transferred(n) && Contents() == old(Contents()) + data[..n] && written == old(written) + data[..n]
    {
      r := Check(|data|, inIsr, fromIsr);
      if r != Transferred(0) {
        return;
      }
      var length := Min(|data|, size - count);
      ghost var was := Contents();
      CopyIn(data[..length]);
      tail := (tail + length) % size;
      count := count + length;
      written := written + data[..length];
      r := Transferred(length);
      WrapOn(head, count - length, length, size);
      assert Contents() == was + data[..length];
    }

    /** The two copies of a write. */
    method CopyIn(data: seq<byte>)
      requires Valid() && count + |data| <= size
      modifies buffer
      ensures forall k :: 0 <= k < count ==> buffer[Wrap(head, k, size)] == old(buffer[Wrap(head, k, size)])
      ensures forall k :: count <= k < count + |data| ==> buffer[Wrap(head, k, size)] == data[k - count]
    {
      var first := Min(size - tail, |data|);
      forall k | 0 <= k < first {
        buffer[tail + k] := data[k];
      }
      forall k | 0 <= k < |data| - first {
        buffer[k] := data[first + k];
      }
    }

    /** The two copies of a read. */
    method CopyOut(length: nat) returns (data: seq<byte>)
      requires Valid() && length <= count
      ensures data == Contents()[..length]
    {
      var first := Min(size - head, length);
      data := buffer[head..head + first] + buffer[..length - first];
    }

    /** `pipe_read_common`, one attempt: the oldest bytes, as many as asked for and there are. */
    method Read(length: nat, inIsr: bool, fromIsr: bool) returns (r: Outcome, data: seq<byte>)
      requires Valid()
      modifies this`head, this`count, this`taken
      ensures Valid()
      ensures Check(length, inIsr, fromIsr) != Transferred(0) ==>
                r == Check(length, inIsr, fromIsr) && data == [] && Contents() == old(Contents()) && taken == old(taken)
      ensures Check(length, inIsr, fromIsr) == Transferred(0) ==>
                var n := Min(length, old(count));
                && r == Transferred(n) && data == old(Contents())[..n]
                && Contents() == old(Contents())[n..] && taken == old(taken) + data
    {
      data := [];
      r := Check(length, inIsr, fromIsr);
      if r != Transferred(0) {
        return;
      }
      var n := Min(length, count);
      data := Take(n);
      r := Transferred(n);
    }

    method Take(n: nat) returns (data: seq<byte>)
      requires Valid() && n <= count
      modifies this`head, this`count, this`taken
      ensures Valid() && data == old(Contents())[..n] && Contents() == old(Contents())[n..]
      ensures taken == old(taken) + data
    {
      hide Wrap;
      ghost var was := Contents();
      data := CopyOut(n);
      Advance(n);
      Regroup(taken, was, n);
      taken := taken + data;
    }

    /** Drops the first `n` bytes. */
    method Advance(n: nat)
      requires Valid() && n <= count
      modifies this`head, this`count
      ensures head < size && count <= size && tail == Wrap(head, count, size)
      ensures Contents() == old(Contents())[n..] && count == old(count) - n
    {
      hide Wrap;
      ghost var was := Contents();
      ReadOn(head, n, count, size);
      head := Wrap(head, n, size);
      count := count - n;
      assert Contents() == was[n..];
    }
  }

  lemma Regroup<T>(a: seq<T>, b: seq<T>, n: nat)
    requires n <= |b|
    ensures a + b == (a + b[..n]) + b[n..]
  {}

  /** After a read the remaining bytes are where they were, seen from the new head. */
  lemma ReadOn(head: nat, n: nat, count: nat, size: nat)
    requires head < size && n <= count <= size
    ensures forall k :: 0 <= k <= count - n ==> Wrap(Wrap(head, n, size), k, size) == Wrap(head, n + k, size)
  {
    forall k | 0 <= k <= count - n ensures Wrap(Wrap(head, n, size), k, size) == Wrap(head, n + k, size) {
      WrapOn(head, n, k, size);
    }
  }

  /** One transfer of a run: `Put` offers bytes, `Get` asks for up to `n`. */
  datatype Transfer = Put(data: seq<byte>) | Get(n: nat)

  /** The contents and what left the pipe after each transfer moved what it could. */
  function Run(q: seq<byte>, room: nat, ts: seq<Transfer>): (r: (seq<byte>, seq<byte>, seq<byte>))
    requires |q| <= room
    decreases |ts|
  {
    if ts == [] then (q, [], [])
    else
      match ts[0]
      case Put(data) =>
        var accepted := data[..Min(|data|, room - |q|)];
        var (left, into, out) := Run(q + accepted, room, ts[1..]);
        (left, accepted + into, out)
      case Get(n) =>
        var m := Min(n, |q|);
        var (left, into, out) := Run(q[m..], room, ts[1..]);
        (left, into, q[..m] + out)
  }

  /** First in, first out over any run of partial transfers: what was there followed by all
      accepted bytes is what came out followed by what is left, in order. */
  lemma {:induction false} RunIsFifo(q: seq<byte>, room: nat, ts: seq<Transfer>)
    requires |q| <= room
    ensures var (left, into, out) := Run(q, room, ts); q + into == out + left && |left| <= room
    decreases |ts|
  {
    if ts != [] {
      match ts[0] {
        case Put(data) =>
          var accepted := data[..Min(|data|, room - |q|)];
          RunIsFifo(q + accepted, room, ts[1..]);
          var (left, into, out) := Run(q + accepted, room, ts[1..]);
          assert q + (accepted + into) == (q + accepted) + into;
        case Get(n) =>
          var m := Min(n, |q|);
          RunIsFifo(q[m..], room, ts[1..]);
          var (left, into, out) := Run(q[m..], room, ts[1..]);
          assert q + into == q[..m] + (q[m..] + into);
          assert (q[..m] + out) + left == q[..m] + (out + left);
      }
    }
  }
}
