/** The stable priority queue a message queue is meant to be: highest priority first, and
    first in first out among equals. */
module StableQueue {
  import opened Bytes
  import opened Lists

  datatype Message = Message(data: seq<byte>, priority: nat)

  /** Where a message of priority `p` goes: behind every message of at least that priority
      that no lower one precedes. */
  function Position(q: seq<Message>, p: nat): (i: nat)
    ensures i <= |q| && (i < |q| ==> q[i].priority < p)
    ensures forall k :: 0 <= k < i ==> q[k].priority >= p
  {
    if q == [] || q[0].priority < p then 0 else 1 + Position(q[1..], p)
  }

  function Queued(q: seq<Message>, m: Message): seq<Message> {
    InsertAt(q, Position(q, m.priority), m)
  }

  ghost predicate Sorted(q: seq<Message>) {
    forall i, j :: 0 <= i <= j < |q| ==> q[i].priority >= q[j].priority
  }

  /** The messages of priority `p`, in order. */
  function OfPriority(q: seq<Message>, p: nat): seq<Message> {
    if q == [] then [] else OfPriority(q[..|q| - 1], p) + if q[|q| - 1].priority == p then [q[|q| - 1]] else []
  }

  lemma {:induction false} OfPriorityConcat(a: seq<Message>, b: seq<Message>, p: nat)
    ensures OfPriority(a + b, p) == OfPriority(a, p) + OfPriority(b, p)
  {
    if b == [] {
      assert a + b == a;
    } else {
      var front := b[..|b| - 1];
      assert (a + b)[..|a + b| - 1] == a + front;
      OfPriorityConcat(a, front, p);
    }
  }

  lemma OfPriorityOne(m: Message, p: nat)
    ensures OfPriority([m], p) == if m.priority == p then [m] else []
  {
    assert [m][..0] == [];
  }

  lemma {:induction false} NoneOfPriority(q: seq<Message>, p: nat)
    requires forall k :: 0 <= k < |q| ==> q[k].priority != p
    ensures OfPriority(q, p) == []
  {
    if q != [] {
      NoneOfPriority(q[..|q| - 1], p);
    }
  }

  /** A place with no lower priority before it and a lower one next is that place. */
  lemma {:induction false} PositionIs(q: seq<Message>, p: nat, i: nat)
    requires i <= |q| && (i < |q| ==> q[i].priority < p)
    requires forall k :: 0 <= k < i ==> q[k].priority >= p
    ensures i == Position(q, p)
  {
    if i > 0 {
      PositionIs(q[1..], p, i - 1);
    }
  }

  lemma QueuedSorted(q: seq<Message>, m: Message)
    requires Sorted(q)
    ensures Sorted(Queued(q, m))
  {
    var i := Position(q, m.priority);
    assert forall k :: i <= k < |q| ==> q[k].priority < m.priority;
  }

  lemma AllLower(q: seq<Message>, i: nat, p: nat)
    requires Sorted(q) && i <= |q| && (i < |q| ==> q[i].priority < p)
    ensures OfPriority(q[i..], p) == []
  {
    forall k | 0 <= k < |q| - i ensures q[i..][k].priority != p {
      assert q[i..][k] == q[i + k] && q[i].priority >= q[i + k].priority;
    }
    NoneOfPriority(q[i..], p);
  }

  /** Queueing appends to the messages of the same priority and leaves every other priority alone. */
  lemma QueuedIsLast(q: seq<Message>, m: Message, p: nat)
    requires Sorted(q)
    ensures OfPriority(Queued(q, m), p) == OfPriority(q, p) + OfPriority([m], p)
    ensures OfPriority([m], p) == if m.priority == p then [m] else []
  {
    hide OfPriority, Position;
    var i := Position(q, m.priority);
    var before, after := q[..i], q[i..];
    assert Queued(q, m) == (before + [m]) + after;
    assert q == before + after;
    OfPriorityConcat(before, after, p);
    OfPriorityConcat(before + [m], after, p);
    OfPriorityConcat(before, [m], p);
    OfPriorityOne(m, p);
    if m.priority == p {
      AllLower(q, i, p);
    } else {
      assert OfPriority(before, p) + [] == OfPriority(before, p);
    }
  }

  /** The front is the oldest message of the highest priority there is. */
  lemma FrontIsFirst(q: seq<Message>, p: nat)
    requires Sorted(q) && q != []
    ensures OfPriority(q, p) == (if q[0].priority == p then [q[0]] else []) + OfPriority(q[1..], p)
    ensures p > q[0].priority ==> OfPriority(q, p) == []
    ensures Sorted(q[1..])
  {
    assert q == [q[0]] + q[1..];
    OfPriorityConcat([q[0]], q[1..], p);
    OfPriorityOne(q[0], p);
    if p > q[0].priority {
      NoneOfPriority(q, p);
    }
  }

  lemma {:induction false} MemberOfPriority(q: seq<Message>, k: nat)
    requires k < |q|
    ensures OfPriority(q, q[k].priority) != []
  {
    var front := q[..|q| - 1];
    if k < |q| - 1 {
      assert front[k] == q[k];
      MemberOfPriority(front, k);
    }
  }

  /** A sorted queue is determined by what it holds of each priority, in order. */
  lemma {:induction false} SortedIsDetermined(a: seq<Message>, b: seq<Message>)
    requires Sorted(a) && Sorted(b) && forall p: nat :: OfPriority(a, p) == OfPriority(b, p)
    ensures a == b
  {
    if a == [] || b == [] {
      if a != [] {
        MemberOfPriority(a, 0);
      }
      if b != [] {
        MemberOfPriority(b, 0);
      }
    } else {
      MemberOfPriority(a, 0);
      MemberOfPriority(b, 0);
      FrontIsFirst(a, b[0].priority);
      FrontIsFirst(b, a[0].priority);
      assert a[0].priority == b[0].priority;
      SameFront(a, b);
      assert a[0] == b[0];
      forall p: nat ensures OfPriority(a[1..], p) == OfPriority(b[1..], p) {
        RestOfPriority(a, b, p);
      }
      assert Sorted(a[1..]) && Sorted(b[1..]);
      SortedIsDetermined(a[1..], b[1..]);
      assert a == [a[0]] + a[1..] && b == [b[0]] + b[1..];
    }
  }

  lemma RestOfPriority(a: seq<Message>, b: seq<Message>, p: nat)
    requires Sorted(a) && Sorted(b) && a != [] && b != [] && a[0] == b[0]
    requires OfPriority(a, p) == OfPriority(b, p)
    ensures OfPriority(a[1..], p) == OfPriority(b[1..], p)
  {
    FrontIsFirst(a, p);
    FrontIsFirst(b, p);
    hide OfPriority;
    if a[0].priority == p {
      RestEqual(a[0], OfPriority(a[1..], p), OfPriority(b[1..], p));
    } else {
      assert [] + OfPriority(a[1..], p) == OfPriority(a[1..], p);
      assert [] + OfPriority(b[1..], p) == OfPriority(b[1..], p);
    }
  }

  lemma RestEqual(m: Message, a: seq<Message>, b: seq<Message>)
    ensures [m] + a == [m] + b ==> a == b
  {
    if [m] + a == [m] + b {
      assert a == ([m] + a)[1..] && b == ([m] + b)[1..];
    }
  }

  lemma SameFront(a: seq<Message>, b: seq<Message>)
    requires Sorted(a) && Sorted(b) && a != [] && b != [] && a[0].priority == b[0].priority
    requires OfPriority(a, a[0].priority) == OfPriority(b, a[0].priority)
    ensures a[0] == b[0]
  {
    var p := a[0].priority;
    FrontIsFirst(a, p);
    FrontIsFirst(b, p);
    assert ([a[0]] + OfPriority(a[1..], p))[0] == ([b[0]] + OfPriority(b[1..], p))[0];
  }

  lemma Prefixed<T>(x: seq<T>, a: seq<T>, b: seq<T>, c: seq<T>, d: seq<T>)
    requires a + b == c + d
    ensures (x + a) + b == (x + c) + d
  {
    assert (x + a) + b == x + (a + b) && (x + c) + d == x + (c + d);
  }

  // ----- runs

  datatype Event = Sent(m: Message) | Received

  /** The queue after a run that never receives from an empty queue. */
  ghost predicate Runs(q: seq<Message>, es: seq<Event>, sent: seq<Message>, received: seq<Message>, r: seq<Message>)
    decreases |es|
  {
    if es == [] then sent == received == [] && r == q
    else
      var rest := es[1..];
      match es[0]
      case Sent(m) => sent != [] && sent[0] == m && Runs(Queued(q, m), rest, sent[1..], received, r)
      case Received => q != [] && received != [] && received[0] == q[0] && Runs(q[1..], rest, sent, received[1..], r)
  }

  /** Nothing is lost, duplicated or overtaken: of each priority, what was there and what was
      sent is, in this order, what was received and what is left. */
  lemma {:induction false} RunsConserve(q: seq<Message>, es: seq<Event>, sent: seq<Message>, received: seq<Message>,
                                        r: seq<Message>, p: nat)
    requires Sorted(q) && Runs(q, es, sent, received, r)
    ensures Sorted(r) && OfPriority(q, p) + OfPriority(sent, p) == OfPriority(received, p) + OfPriority(r, p)
    decreases |es|
  {
    hide OfPriority, Queued;
    if es == [] {
      assert OfPriority([], p) == [] by { NoneOfPriority([], p); }
    } else {
      match es[0] {
        case Sent(m) =>
          QueuedSorted(q, m);
          QueuedIsLast(q, m, p);
          RunsConserve(Queued(q, m), es[1..], sent[1..], received, r, p);
          assert sent == [m] + sent[1..];
          OfPriorityConcat([m], sent[1..], p);
        case Received =>
          FrontIsFirst(q, p);
          RunsConserve(q[1..], es[1..], sent, received[1..], r, p);
          assert received == [q[0]] + received[1..];
          OfPriorityConcat([q[0]], received[1..], p);
          OfPriorityOne(q[0], p);
          Prefixed(OfPriority([q[0]], p), OfPriority(q[1..], p), OfPriority(sent, p),
                   OfPriority(received[1..], p), OfPriority(r, p));
      }
    }
  }
}
