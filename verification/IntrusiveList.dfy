/** The intrusive doubly linked list every kernel queue is made of: a ring of nodes through
    a list head, relinked in place, standing for the sequence of its nodes. */
module IntrusiveLists {
  import opened Lists

  class Node {
    var next: Node?
    var prev: Node?

    /** What the node is part of, as `AIXOS_CONTAINER_OF` finds it; nothing for a list head. */
    const item: nat

    /** `aixos_list_init`: a node linked to itself. */
    constructor (item: nat)
      ensures next == this && prev == this && Ring(this, []) && this.item == item
    {
      next, prev := this, this;
      this.item := item;
    }
  }

  /** A node that is on no list is linked to itself, which is how one can tell. */
  predicate Loose(node: Node)
    reads node
  {
    node.next == node
  }

  /** The node `i` steps after the head, going round to the head again. */
  function At(head: Node, s: seq<Node>, i: nat): Node
    requires i <= |s| + 1
  {
    if i == 0 || i == |s| + 1 then head else s[i - 1]
  }

  ghost predicate LinkedAt(head: Node, s: seq<Node>, i: nat)
    requires i <= |s|
    reads head, s
  {
    At(head, s, i).next == At(head, s, i + 1) && At(head, s, i + 1).prev == At(head, s, i)
  }

  /** The ring through `head` is exactly `s`, `next` and `prev` being inverse. */
  ghost predicate Ring(head: Node, s: seq<Node>)
    reads head, s
  {
    && head !in s && NoDup(s)
    && forall i :: 0 <= i <= |s| ==> LinkedAt(head, s, i)
  }

  lemma RingStep(head: Node, s: seq<Node>, i: nat)
    requires Ring(head, s) && i <= |s|
    ensures At(head, s, i).next == At(head, s, i + 1) && At(head, s, i + 1).prev == At(head, s, i)
  {
    assert LinkedAt(head, s, i);
  }

  lemma SameNode(head: Node, s: seq<Node>, i: nat, j: nat)
    requires head !in s && NoDup(s) && i <= |s| && j <= |s|
    ensures At(head, s, i) == At(head, s, j) <==> i == j
  {}

  /** `__aixos_list_add`: the four writes that link `node` between its two neighbours. */
  method AddBetween(node: Node, prev: Node, next: Node, ghost head: Node, ghost s: seq<Node>, ghost i: nat)
    requires Ring(head, s) && node !in s && node != head && i <= |s|
    requires prev == At(head, s, i) && next == At(head, s, i + 1)
    modifies node, prev, next
    ensures Ring(head, InsertAt(s, i, node))
  {
    ghost var r := InsertAt(s, i, node);
    forall k | 0 <= k <= |s| ensures LinkedAt(head, s, k) {}
    InsertAtIsAddition(s, i, node);
    next.prev := node;
    node.next := next;
    node.prev := prev;
    prev.next := node;
    hide Ring;
    forall k | 0 <= k <= |r| ensures LinkedAt(head, r, k) {
      InsertedLink(head, s, i, node, k);
      if k < i {
        assert old(LinkedAt(head, s, k));
        SameNode(head, s, k, i);
        KeptLink(head, s, i, k);
      } else if k > i + 1 {
        assert old(LinkedAt(head, s, k - 1));
        KeptLink(head, s, i, k - 1);
      }
    }
    assert Ring(head, r) by { RingIs(head, r); }
  }

  lemma RingIs(head: Node, s: seq<Node>)
    requires head !in s && NoDup(s) && forall i :: 0 <= i <= |s| ==> LinkedAt(head, s, i)
    ensures Ring(head, s)
  {}

  /** A link other than the one at `i` joins neither `At(i)` onward nor `At(i + 1)` backward. */
  lemma KeptLink(head: Node, s: seq<Node>, i: nat, k: nat)
    requires head !in s && NoDup(s) && i <= |s| && k <= |s| && k != i
    ensures At(head, s, k) != At(head, s, i) && At(head, s, k + 1) != At(head, s, i + 1)
  {}

  lemma InsertedLink(head: Node, s: seq<Node>, i: nat, node: Node, k: nat)
    requires i <= |s| && k <= |s| + 1
    ensures var r := InsertAt(s, i, node);
            && At(head, r, k) == (if k <= i then At(head, s, k) else if k == i + 1 then node else At(head, s, k - 1))
            && At(head, r, k + 1) == (if k < i then At(head, s, k + 1) else if k == i then node else At(head, s, k))
  {}

  /** `aixos_list_add_tail`. */
  method AddTail(node: Node, head: Node, ghost s: seq<Node>)
    requires Ring(head, s) && node !in s && node != head
    modifies node, head, s
    ensures Ring(head, s + [node])
  {
    RingStep(head, s, |s|);
    AddBetween(node, head.prev, head, head, s, |s|);
    assert InsertAt(s, |s|, node) == s + [node];
  }

  /** `aixos_list_add`. */
  method AddFirst(node: Node, head: Node, ghost s: seq<Node>)
    requires Ring(head, s) && node !in s && node != head
    modifies node, head, s
    ensures Ring(head, [node] + s)
  {
    RingStep(head, s, 0);
    AddBetween(node, head, head.next, head, s, 0);
    assert InsertAt(s, 0, node) == [node] + s;
  }

  /** `__aixos_list_del`: the two writes that close the ring over the node between. */
  method Bypass(before: Node, after: Node, ghost head: Node, ghost s: seq<Node>, ghost i: nat)
    requires Ring(head, s) && i < |s| && before == At(head, s, i) && after == At(head, s, i + 2)
    modifies before, after
    ensures Ring(head, s[..i] + s[i + 1..])
  {
    ghost var r := s[..i] + s[i + 1..];
    forall k | 0 <= k <= |s| ensures LinkedAt(head, s, k) {}
    after.prev := before;
    before.next := after;
    hide Ring;
    forall k | 0 <= k <= |r| ensures LinkedAt(head, r, k) {
      RemovedLink(head, s, i, k);
      if k < i {
        assert old(LinkedAt(head, s, k));
        KeptLink(head, s, i, k);
        KeptLink(head, s, i + 1, k);
      } else if k > i {
        assert old(LinkedAt(head, s, k + 1));
        KeptLink(head, s, i, k + 1);
        KeptLink(head, s, i + 1, k + 1);
      }
    }
    RingIs(head, r);
  }

  /** `aixos_list_del` of node `i`: the ring closes over it, and its own links are cleared. */
  method Del(entry: Node, ghost head: Node, ghost s: seq<Node>, ghost i: nat)
    requires Ring(head, s) && i < |s| && s[i] == entry
    modifies entry, At(head, s, i), At(head, s, i + 2)
    ensures Ring(head, Without(s, entry)) && entry.next == null && entry.prev == null
    ensures entry !in Without(s, entry)
  {
    WithoutAt(s, i);
    WithoutIsDeletion(s, entry);
    RingStep(head, s, i);
    RingStep(head, s, i + 1);
    hide Without, LinkedAt;
    Bypass(entry.prev, entry.next, head, s, i);
    entry.next := null;
    entry.prev := null;
  }

  /** `aixos_list_del` and `aixos_list_init`: the node can be told to be on no list. */
  method DelInit(entry: Node, ghost head: Node, ghost s: seq<Node>, ghost i: nat)
    requires Ring(head, s) && i < |s| && s[i] == entry
    modifies entry, At(head, s, i), At(head, s, i + 2)
    ensures Ring(head, Without(s, entry)) && Loose(entry) && entry.prev == entry
  {
    hide Without, LinkedAt;
    Del(entry, head, s, i);
    assert entry != head;
    entry.next, entry.prev := entry, entry;
  }

  lemma RemovedLink(head: Node, s: seq<Node>, i: nat, k: nat)
    requires i < |s| && k < |s|
    ensures var r := s[..i] + s[i + 1..];
            && At(head, r, k) == (if k <= i then At(head, s, k) else At(head, s, k + 1))
            && At(head, r, k + 1) == (if k < i then At(head, s, k + 1) else At(head, s, k + 2))
  {}

  /** `aixos_list_is_empty` and `aixos_list_first`. */
  method First(head: Node, ghost s: seq<Node>) returns (empty: bool, node: Node?)
    requires Ring(head, s)
    ensures empty <==> s == []
    ensures !empty ==> node == s[0]
  {
    RingStep(head, s, 0);
    node := head.next;
    empty := node == head;
  }

  /** `AIXOS_LIST_FOR_EACH`: following `next` from the head meets the nodes in order, and
      ends at the head after the last. */
  method Walk(head: Node, ghost s: seq<Node>) returns (visited: seq<Node>)
    requires Ring(head, s)
    ensures visited == s
  {
    visited := [];
    RingStep(head, s, 0);
    var position := head.next;
    while position != head
      invariant |visited| <= |s| && visited == s[..|visited|] && position == At(head, s, |visited| + 1)
      decreases |s| - |visited|
    {
      RingStep(head, s, |visited| + 1);
      visited := visited + [position];
      position := position.next;
    }
  }

  /** The sorted insertion of the wait, timeout and timer lists: the node goes
      in front of the first one it must precede, at the end when there is none. */
  method InsertBefore(node: Node, head: Node, precedes: Node -> bool, ghost s: seq<Node>) returns (ghost i: nat)
    requires Ring(head, s) && node !in s && node != head
    modifies node, head, s
    ensures i <= |s| && Ring(head, InsertAt(s, i, node))
    ensures (forall k :: 0 <= k < i ==> !precedes(s[k])) && (i < |s| ==> precedes(s[i]))
  {
    i := 0;
    RingStep(head, s, 0);
    var position: Node := head.next;
    while position != head && !precedes(position)
      invariant Ring(head, s) && i <= |s| && position == At(head, s, i + 1)
      invariant forall k :: 0 <= k < i ==> !precedes(s[k])
      decreases |s| - i
    {
      RingStep(head, s, i + 1);
      position := position.next;
      i := i + 1;
    }
    RingStep(head, s, i);
    AddBetween(node, position.prev, position, head, s, i);
  }
}
