/** The message queue as a ring of fixed-size slots: a prioritised message is put in place
    by searching and shifting within the ring. */
module MsgQueues {
  import opened Bytes
  import opened Lists
  import opened StableQueue

  const PRIORITY_MAX: nat := 31
  const ISR_COPY_MAX: nat := 64
  const ISR_SHIFT_MAX: nat := 2

  datatype Code = Ok | Invalid | Context | Busy | Again | Overflow

  class MsgQueue {
    const buffer: array2<byte>
    const lengths: array<nat>
    const priorities: array?<nat>
    const maxMsgs: nat
    const msgSize: nat
    var head: nat
    var tail: nat
    var count: nat

    ghost predicate Valid()
      reads this, lengths
    {
      && maxMsgs > 0 && msgSize > 0
      && buffer.Length0 == maxMsgs && buffer.Length1 == msgSize && lengths.Length == maxMsgs
      && (priorities != null ==> priorities.Length == maxMsgs && priorities != lengths)
      && head < maxMsgs && tail < maxMsgs && count <= maxMsgs
      && forall k :: 0 <= k < maxMsgs ==> lengths[k] <= msgSize
    }

    /** The first `n` bytes of a slot. */
    function Row(slot: nat, n: nat): (r: seq<byte>)
      reads buffer
      requires slot < buffer.Length0 && n <= buffer.Length1
      ensures |r| == n && forall k :: 0 <= k < n ==> r[k] == buffer[slot, k]
    {
      seq(n, k requires 0 <= k < n reads buffer => buffer[slot, k])
    }

    /** The message in a slot; without a priority array all priorities are 0. */
    function Cell(slot: nat): Message
      reads buffer, lengths, priorities
      requires slot < buffer.Length0 && slot < lengths.Length && lengths[slot] <= buffer.Length1
      requires priorities != null ==> slot < priorities.Length
    {
      Message(Row(slot, lengths[slot]), if priorities == null then 0 else priorities[slot])
    }

    /** The queued messages, from the head round the ring. */
    function Contents(): (q: seq<Message>)
      reads this, buffer, lengths, priorities
      requires Valid()
      ensures |q| == count && forall k :: 0 <= k < count ==> q[k] == Cell(Wrap(head, k, maxMsgs))
    {
      seq(count, k requires 0 <= k < count && Valid() reads this, buffer, lengths, priorities => Cell(Wrap(head, k, maxMsgs)))
    }

    /** `mq_create_common`: storage is the caller's; no priority array for a static queue. */
    constructor (buffer: array2<byte>, lengths: array<nat>, priorities: array?<nat>)
      requires buffer.Length0 > 0 && buffer.Length1 > 0 && lengths.Length == buffer.Length0
      requires priorities != null ==> priorities.Length == buffer.Length0 && priorities != lengths
      modifies lengths, priorities
      ensures Valid() && Contents() == []
      ensures maxMsgs == buffer.Length0 && msgSize == buffer.Length1
      ensures this.buffer == buffer && this.lengths == lengths && this.priorities == priorities
    {
      this.buffer, this.lengths, this.priorities := buffer, lengths, priorities;
      maxMsgs, msgSize := buffer.Length0, buffer.Length1;
      head, tail, count := 0, 0, 0;
      new;
      forall k | 0 <= k < lengths.Length {
        lengths[k] := 0;
      }
      if priorities != null {
        forall k | 0 <= k < priorities.Length {
          priorities[k] := 0;
        }
      }
    }

    /** Searches from the head for the first message of lower priority. */
    method FindInsert(priority: nat) returns (insert: nat)
      requires Valid() && (priority != 0 ==> priorities != null)
      ensures insert == Position(Contents(), priority)
    {
      insert := count;
      if priorities != null && priority != 0 {
        var logical := 0;
        while logical < count
          invariant logical <= count && insert == count
          invariant forall k :: 0 <= k < logical ==> Contents()[k].priority >= priority
        {
          var index := (head + logical) % maxMsgs;
          assert Contents()[logical] == Cell(Wrap(head, logical, maxMsgs));
          if priorities[index] < priority {
            insert := logical;
            break;
          }
          logical := logical + 1;
        }
      }
      PositionIs(Contents(), priority, insert);
    }

    /** Copies a whole slot, stale bytes and all. */
    method CopySlot(destination: nat, source: nat)
      requires Valid() && destination < maxMsgs && source < maxMsgs && destination != source
      modifies buffer, lengths, priorities
      ensures Valid() && Cell(destination) == old(Cell(source))
      ensures forall k :: 0 <= k < maxMsgs && k != destination ==> Cell(k) == old(Cell(k))
    {
      forall k | 0 <= k < msgSize {
        buffer[destination, k] := buffer[source, k];
      }
      lengths[destination] := lengths[source];
      if priorities != null {
        priorities[destination] := priorities[source];
      }
    }

    /** Moves the messages from logical position `insert` on one slot further. */
    method Shift(insert: nat)
      requires Valid() && insert <= count < maxMsgs
      modifies buffer, lengths, priorities
      ensures Valid()
      ensures forall k :: 0 <= k < insert ==> Cell(Wrap(head, k, maxMsgs)) == old(Contents())[k]
      ensures forall k :: insert < k <= count ==> Cell(Wrap(head, k, maxMsgs)) == old(Contents())[k - 1]
    {
      var logical := count;
      while logical > insert
        invariant Valid() && insert <= logical <= count
        invariant forall k :: 0 <= k <= logical ==> Cell(Wrap(head, k, maxMsgs)) == old(Cell(Wrap(head, k, maxMsgs)))
        invariant forall k :: logical < k <= count ==> Cell(Wrap(head, k, maxMsgs)) == old(Cell(Wrap(head, k - 1, maxMsgs)))
      {
        ghost var h, n, c := head, maxMsgs, count;
        forall k | 0 <= k <= c ensures Wrap(h, k, n) == Wrap(h, logical, n) <==> k == logical {
          WrapApart(h, k, logical, n);
        }
        hide Cell;
        CopySlot(Wrap(head, logical, maxMsgs), Wrap(head, logical - 1, maxMsgs));
        logical := logical - 1;
      }
    }

    /** Writes message, length and priority into a slot. */
    method Store(slot: nat, message: seq<byte>, priority: nat)
      requires Valid() && slot < maxMsgs && |message| <= msgSize && (priorities == null ==> priority == 0)
      modifies buffer, lengths, priorities
      ensures Valid() && Cell(slot) == Message(message, priority)
      ensures forall k :: 0 <= k < maxMsgs && k != slot ==> Cell(k) == old(Cell(k))
    {
      forall k | 0 <= k < |message| {
        buffer[slot, k] := message[k];
      }
      lengths[slot] := |message|;
      if priorities != null {
        priorities[slot] := priority;
      }
      assert Row(slot, |message|) == message;
    }

    /** What an attempt to send comes to. A full queue is reported before a priority that
        the queue cannot hold. */
    function SendCode(message: seq<byte>, priority: nat, inIsr: bool, fromIsr: bool): Code
      reads this
    {
      if priority > PRIORITY_MAX || inIsr != fromIsr then (if fromIsr then Context else Invalid)
      else if fromIsr && |message| > ISR_COPY_MAX then Invalid
      else if |message| > msgSize then Invalid
      else if count == maxMsgs then Busy
      else if priorities == null && priority != 0 then Invalid
      else if fromIsr && priority != 0 && count > ISR_SHIFT_MAX then Busy
      else Ok
    }

    /** `mq_send_common`, one attempt: on success the message is queued behind everything of
        its priority or above; otherwise nothing changes. */
    method Send(message: seq<byte>, priority: nat, inIsr: bool, fromIsr: bool) returns (code: Code)
      requires Valid() && Sorted(Contents())
      modifies this`tail, this`count, buffer, lengths, priorities
      ensures Valid() && Sorted(Contents()) && code == old(SendCode(message, priority, inIsr, fromIsr))
      ensures Contents() == if code == Ok then Queued(old(Contents()), Message(message, priority)) else old(Contents())
      ensures code == Context <==> fromIsr && (priority > PRIORITY_MAX || !inIsr)
      ensures code == Ok <==>
                && priority <= PRIORITY_MAX && inIsr == fromIsr && |message| <= msgSize && (fromIsr ==> |message| <= ISR_COPY_MAX)
                && |old(Contents())| < maxMsgs && (priorities == null ==> priority == 0)
                && (fromIsr && priority != 0 ==> |old(Contents())| <= ISR_SHIFT_MAX)
      ensures (&& priority <= PRIORITY_MAX && inIsr == fromIsr && |message| <= msgSize && (fromIsr ==> |message| <= ISR_COPY_MAX)
               && |old(Contents())| == maxMsgs) ==> code == Busy
    {
      code := SendCode(message, priority, inIsr, fromIsr);
      if code != Ok {
        return;
      }
      ghost var q := Contents();
      hide Cell, Position, InsertAt;
      var insert := FindInsert(priority);
      Place(insert, message, priority);
      QueuedSorted(q, Message(message, priority));
    }

    /** Makes room at logical position `insert` and stores the message there. */
    method Place(insert: nat, message: seq<byte>, priority: nat)
      requires Valid() && insert <= count < maxMsgs
      requires |message| <= msgSize && (priorities == null ==> priority == 0)
      modifies this`tail, this`count, buffer, lengths, priorities
      ensures Valid() && Contents() == InsertAt(old(Contents()), insert, Message(message, priority))
    {
      hide Cell, Wrap, MsgQueue.Contents, InsertAt;
      ghost var q, m := Contents(), Message(message, priority);
      Shift(insert);
      tail := Wrap(head, insert, maxMsgs);
      ghost var h, n := head, maxMsgs;
      Fill(insert, message, priority, q);
      tail := Wrap(tail, 1, maxMsgs);
      count := count + 1;
      ghost var r := Contents();
      assert r[insert] == Cell(Wrap(h, insert, n));
      assert forall k :: 0 <= k < count ==> r[k] == Cell(Wrap(h, k, n));
      IsInserted(r, q, insert, m);
    }

    /** The message goes into the gap, which `tail` has been set to. */
    method Fill(insert: nat, message: seq<byte>, priority: nat, ghost q: seq<Message>)
      requires Valid() && insert <= count < maxMsgs && |q| == count && tail == Wrap(head, insert, maxMsgs)
      requires |message| <= msgSize && (priorities == null ==> priority == 0)
      requires forall k :: 0 <= k < insert ==> Cell(Wrap(head, k, maxMsgs)) == q[k]
      requires forall k :: insert < k <= count ==> Cell(Wrap(head, k, maxMsgs)) == q[k - 1]
      modifies buffer, lengths, priorities
      ensures Valid() && Cell(Wrap(head, insert, maxMsgs)) == Message(message, priority)
      ensures forall k :: 0 <= k < insert ==> Cell(Wrap(head, k, maxMsgs)) == q[k]
      ensures forall k :: insert < k <= count ==> Cell(Wrap(head, k, maxMsgs)) == q[k - 1]
    {
      hide Cell, Wrap;
      forall k | 0 <= k <= count ensures k != insert ==> Wrap(head, k, maxMsgs) != Wrap(head, insert, maxMsgs) {
        WrapApart(head, k, insert, maxMsgs);
      }
      Store(tail, message, priority);
    }

    function ReceiveCode(capacity: nat, inIsr: bool): Code
      reads this, lengths
      requires Valid()
    {
      if inIsr then Context else if count == 0 then Again
      else if lengths[head] > capacity then Overflow else Ok
    }

    /** `aixos_mq_recv_priority`, one attempt: the front is handed out if it fits; a caller
        with too little room learns the size and nothing changes. */
    method Receive(capacity: nat, inIsr: bool) returns (code: Code, size: nat, data: seq<byte>, priority: nat)
      requires Valid() && Sorted(Contents())
      modifies this`head, this`count
      ensures Valid() && Sorted(Contents())
      ensures code == Context <==> inIsr
      ensures code == Again <==> !inIsr && old(Contents()) == []
      ensures code == Overflow <==> !inIsr && old(Contents()) != [] && |old(Contents())[0].data| > capacity
      ensures code == Ok <==> !inIsr && old(Contents()) != [] && |old(Contents())[0].data| <= capacity
      ensures code == Ok || code == Overflow ==> size == |old(Contents())[0].data|
      ensures code == Ok ==> Message(data, priority) == old(Contents())[0] && Contents() == old(Contents())[1..]
      ensures code != Ok ==> Contents() == old(Contents())
    {
      size, data, priority := 0, [], 0;
      code := ReceiveCode(capacity, inIsr);
      ghost var q := Contents();
      if code == Ok || code == Overflow {
        assert q[0] == Cell(Wrap(head, 0, maxMsgs));
        size := lengths[head];
      }
      if code == Ok {
        data := Row(head, size);
        priority := if priorities == null then 0 else priorities[head];
        ghost var h, n := head, maxMsgs;
        head := Wrap(head, 1, maxMsgs);
        count := count - 1;
        hide Cell;
        forall k | 0 <= k < count ensures Contents()[k] == q[1..][k] {
          WrapOn(h, 1, k, n);
        }
        assert Contents() == q[1..];
      }
    }
  }

  lemma IsInserted(r: seq<Message>, q: seq<Message>, i: nat, m: Message)
    requires i <= |q| && |r| == |q| + 1
    requires (forall k :: 0 <= k < i ==> r[k] == q[k]) && r[i] == m && forall k :: i < k <= |q| ==> r[k] == q[k - 1]
    ensures r == InsertAt(q, i, m)
  {
    assert r[..i] == q[..i];
    assert r[i + 1..] == q[i..];
    assert r == r[..i] + [r[i]] + r[i + 1..];
  }
}
