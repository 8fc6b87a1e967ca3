/** A family of intrusive lists over one kind of node: the wait lists of all kernel objects,
    linked through one node of every task, are one such family. Each element is on at most
    one of the lists, and which one has to be known to nobody but the caller. */
module RingTables {
  import opened Lists
  import opened IntrusiveLists

  /** The nodes of the elements of `s`. */
  ghost function NodesOf(nodes: map<nat, Node>, s: seq<nat>): (r: seq<Node>)
    requires forall i :: 0 <= i < |s| ==> s[i] in nodes
    ensures |r| == |s| && forall i :: 0 <= i < |s| ==> r[i] == nodes[s[i]]
  {
    seq(|s|, i requires 0 <= i < |s| => nodes[s[i]])
  }

  /** Nodes know what they are part of, so different elements have different nodes. */
  ghost predicate Labelled(nodes: map<nat, Node>) {
    forall t :: t in nodes ==> nodes[t].item == t
  }

  ghost predicate OneHeadEach<Key(!new)>(heads: map<Key, Node>, nodes: map<nat, Node>) {
    && (forall k, l :: k in heads && l in heads && heads[k] == heads[l] ==> k == l)
    && (forall k, t :: k in heads && t in nodes ==> heads[k] != nodes[t])
  }

  ghost predicate AtMostOneList<Key(!new)>(lists: map<Key, seq<nat>>) {
    forall k, l, t :: k in lists && l in lists && t in lists[k] && t in lists[l] ==> k == l
  }

  ghost predicate OnNone<Key(!new)>(lists: map<Key, seq<nat>>, t: nat) {
    forall k :: k in lists ==> t !in lists[k]
  }

  lemma EmptyListAdded<Key(!new)>(lists: map<Key, seq<nat>>, k: Key)
    requires AtMostOneList(lists) && k !in lists
    ensures AtMostOneList(lists[k := []]) && forall t :: OnNone(lists[k := []], t) <==> OnNone(lists, t)
  {
    var r := lists[k := []];
    forall t ensures OnNone(r, t) <==> OnNone(lists, t) {
      assert forall l :: l in lists ==> r[l] == lists[l];
    }
  }

  lemma EmptyListDropped<Key(!new)>(lists: map<Key, seq<nat>>, k: Key)
    requires AtMostOneList(lists) && k in lists && lists[k] == []
    ensures AtMostOneList(lists - {k}) && forall t :: OnNone(lists - {k}, t) <==> OnNone(lists, t)
  {
    var r := lists - {k};
    forall t ensures OnNone(r, t) <==> OnNone(lists, t) {
      assert forall l :: l in lists && l != k ==> r[l] == lists[l];
    }
  }

  lemma HeadAdded<Key(!new)>(heads: map<Key, Node>, nodes: map<nat, Node>, k: Key, head: Node)
    requires OneHeadEach(heads, nodes) && k !in heads
    requires (forall l :: l in heads ==> heads[l] != head) && (forall t :: t in nodes ==> nodes[t] != head)
    ensures OneHeadEach(heads[k := head], nodes)
  {}

  lemma InsertedLists<Key(!new)>(lists: map<Key, seq<nat>>, k: Key, i: nat, t: nat)
    requires AtMostOneList(lists) && k in lists && i <= |lists[k]| && OnNone(lists, t) && NoDup(lists[k])
    ensures var r := lists[k := InsertAt(lists[k], i, t)];
            && AtMostOneList(r) && forall u :: OnNone(r, u) <==> OnNone(lists, u) && u != t
  {
    var r := lists[k := InsertAt(lists[k], i, t)];
    InsertAtIsAddition(lists[k], i, t);
    hide InsertAt;
    forall u ensures OnNone(r, u) <==> OnNone(lists, u) && u != t {
      if OnNone(r, u) {
        assert u !in r[k];
        assert forall l :: l in lists && l != k ==> lists[l] == r[l];
      }
    }
  }

  lemma RemovedLists<Key(!new)>(lists: map<Key, seq<nat>>, k: Key, t: nat)
    requires AtMostOneList(lists) && k in lists && t in lists[k] && NoDup(lists[k])
    ensures var r := lists[k := Without(lists[k], t)];
            && AtMostOneList(r) && forall u :: OnNone(r, u) <==> OnNone(lists, u) || u == t
  {
    var r := lists[k := Without(lists[k], t)];
    WithoutIsDeletion(lists[k], t);
    hide Without;
    forall u ensures OnNone(r, u) <==> OnNone(lists, u) || u == t {
      if OnNone(r, u) && u != t {
        assert u !in r[k];
        assert forall l :: l in lists && l != k ==> lists[l] == r[l];
      }
    }
  }

  class RingTable<Key(==, !new)> {
    var heads: map<Key, Node>
    var nodes: map<nat, Node>

    /** What each ring stands for. */
    ghost var lists: map<Key, seq<nat>>

    /** The nodes and list heads, now or earlier. */
    ghost var Repr: set<Node>

    ghost predicate RingAt(k: Key)
      reads this, Repr
    {
      && k in heads && k in lists && heads[k] in Repr
      && (forall i :: 0 <= i < |lists[k]| ==> lists[k][i] in nodes && nodes[lists[k][i]] in Repr)
      && Ring(heads[k], NodesOf(nodes, lists[k]))
    }

    ghost predicate Valid()
      reads this, Repr
    {
      && lists.Keys == heads.Keys
      && (forall k :: k in heads ==> heads[k] in Repr) && (forall t :: t in nodes ==> nodes[t] in Repr)
      && Labelled(nodes) && OneHeadEach(heads, nodes) && AtMostOneList(lists)
      && (forall k :: k in heads ==> RingAt(k))
      && (forall t :: t in nodes && OnNone(lists, t) ==> Loose(nodes[t]))
    }

    constructor ()
      ensures Valid() && heads == map[] && nodes == map[] && lists == map[] && Repr == {}
    {
      heads, nodes, lists, Repr := map[], map[], map[], {};
    }

    /** `aixos_list_init` of a new list's head. */
    method AddHead(k: Key)
      requires Valid() && k !in heads
      modifies this
      ensures Valid() && nodes == old(nodes) && lists == old(lists)[k := []]
      ensures heads.Keys == old(heads).Keys + {k} && old(Repr) <= Repr && fresh(Repr - old(Repr))
    {
      hide AtMostOneList, OnNone, OneHeadEach, Labelled, Ring;
      EmptyListAdded(lists, k);
      var head := new Node(0);
      HeadAdded(heads, nodes, k, head);
      heads := heads[k := head];
      Repr := Repr + {head};
      lists := lists[k := []];
      assert NodesOf(nodes, lists[k]) == [];
      forall l | l in heads ensures RingAt(l) {
        assert l != k ==> lists[l] == old(lists)[l] && heads[l] == old(heads)[l];
      }
    }

    /** An object with an empty list goes away. */
    method DropHead(k: Key)
      requires Valid() && k in lists && lists[k] == []
      modifies this
      ensures Valid() && nodes == old(nodes) && lists == old(lists) - {k}
      ensures heads.Keys == old(heads).Keys - {k} && Repr == old(Repr)
    {
      hide AtMostOneList, OnNone, Labelled, Ring;
      EmptyListDropped(lists, k);
      heads := heads - {k};
      lists := lists - {k};
      forall l | l in heads ensures RingAt(l) {
        assert lists[l] == old(lists)[l];
      }
    }

    /** `aixos_list_init` of a new element's node. */
    method AddNode(t: nat)
      requires Valid() && t !in nodes
      modifies this
      ensures Valid() && heads == old(heads) && lists == old(lists) && OnNone(lists, t)
      ensures nodes.Keys == old(nodes).Keys + {t} && old(Repr) <= Repr && fresh(Repr - old(Repr))
    {
      var node := new Node(t);
      assert forall l :: l in heads ==> RingAt(l);
      assert OnNone(lists, t);
      nodes := nodes[t := node];
      Repr := Repr + {node};
      forall l | l in heads ensures RingAt(l) {
        assert NodesOf(nodes, lists[l]) == NodesOf(old(nodes), lists[l]);
      }
    }

    /** An element that is on no list goes away. */
    method DropNode(t: nat)
      requires Valid() && t in nodes && OnNone(lists, t)
      modifies this
      ensures Valid() && heads == old(heads) && lists == old(lists)
      ensures nodes.Keys == old(nodes).Keys - {t} && Repr == old(Repr)
    {
      assert forall l :: l in heads ==> RingAt(l);
      nodes := nodes - {t};
      forall l | l in heads ensures RingAt(l) {
        assert NodesOf(nodes, lists[l]) == NodesOf(old(nodes), lists[l]);
      }
    }

    lemma Heads(k: Key)
      requires Valid()
      ensures k in heads <==> k in lists
    {}

    // ----- walking

    /** The node `i` steps after the head of list `k`. */
    ghost function Stop(k: Key, i: nat): Node
      reads this, Repr
      requires Valid() && k in lists && i <= |lists[k]| + 1
    {
      assert RingAt(k);
      At(heads[k], NodesOf(nodes, lists[k]), i)
    }

    lemma Stops(k: Key, i: nat)
      requires Valid() && k in lists && i <= |lists[k]| + 1
      ensures Stop(k, i) in Repr
      ensures Stop(k, i) == heads[k] <==> i == 0 || i == |lists[k]| + 1
      ensures 0 < i <= |lists[k]| ==> lists[k][i - 1] in nodes && Stop(k, i) == nodes[lists[k][i - 1]]
                                      && Stop(k, i).item == lists[k][i - 1]
    {
      assert RingAt(k);
    }

    /** `position->next`, once the walk of list `k` is at its node `i`. */
    function Following(position: Node, ghost k: Key, ghost i: nat): (next: Node)
      reads this, Repr
      requires Valid() && k in lists && i <= |lists[k]| && position == Stop(k, i)
      ensures next == Stop(k, i + 1)
    {
      assert RingAt(k);
      RingStep(heads[k], NodesOf(nodes, lists[k]), i);
      position.next
    }

    function FirstStop(k: Key): (first: Node)
      reads this, Repr
      requires Valid() && k in lists
      ensures first == Stop(k, 1)
    {
      Following(heads[k], k, 0)
    }

    /** `aixos_list_is_empty`. */
    predicate Empty(k: Key)
      reads this, Repr
      requires Valid() && k in lists
      ensures Empty(k) <==> lists[k] == []
    {
      Stops(k, 1);
      FirstStop(k) == heads[k]
    }

    /** The element of the first node. */
    function First(k: Key): (t: nat)
      reads this, Repr
      requires Valid() && k in lists && lists[k] != []
      ensures t == lists[k][0]
    {
      Stops(k, 1);
      FirstStop(k).item
    }

    // ----- linking

    /** Whether an element is on a list can be told from its node. */
    predicate Linked(t: nat)
      reads this, Repr
      requires Valid() && t in nodes
      ensures Linked(t) <==> !OnNone(lists, t)
    {
      LooseIff(t);
      !Loose(nodes[t])
    }

    lemma LooseIff(t: nat)
      requires Valid() && t in nodes
      ensures Loose(nodes[t]) <==> OnNone(lists, t)
    {
      if k: Key :| k in lists && t in lists[k] {
        LinkedNode(k, t);
      }
    }

    lemma LinkedNode(k: Key, t: nat)
      requires Valid() && k in lists && t in lists[k]
      ensures t in nodes && !Loose(nodes[t])
    {
      assert RingAt(k);
      var i :| 0 <= i < |lists[k]| && lists[k][i] == t;
      Stops(k, i + 1);
      Stops(k, i + 2);
      RingStep(heads[k], NodesOf(nodes, lists[k]), i + 1);
    }

    /** The nodes of one list are apart from those of every other and from those on none. */
    lemma Apart(k: Key, i: nat, l: Key)
      requires Valid() && k in lists && l in heads && k != l && i <= |lists[k]| + 1
      ensures lists[l] == lists[l] && RingAt(l)
      ensures Stop(k, i) != heads[l] && Stop(k, i) !in NodesOf(nodes, lists[l])
    {
      Stops(k, i);
      assert RingAt(l);
      if 0 < i <= |lists[k]| {
        assert lists[k][i - 1] in lists[k];
        assert lists[k][i - 1] !in lists[l];
      }
    }

    lemma LooseApart(t: nat, l: Key)
      requires Valid() && t in nodes && OnNone(lists, t) && l in heads
      ensures RingAt(l) && nodes[t] != heads[l] && nodes[t] !in NodesOf(nodes, lists[l])
    {
      assert RingAt(l);
    }

    lemma OthersLoose(k: Key, i: nat, u: nat)
      requires Valid() && k in lists && i <= |lists[k]| + 1 && u in nodes && OnNone(lists, u)
      ensures Stop(k, i) != nodes[u]
    {
      Stops(k, i);
      assert 0 < i <= |lists[k]| ==> lists[k][i - 1] in lists[k];
    }

    /** The lists but `k`, and the loose nodes but that of `t`, are as far from these nodes
        as they have to be. */
    ghost predicate Aside(k: Key, t: nat, ns: set<Node>)
      reads this, Repr
    {
      && (forall l :: l in heads && l != k ==> RingAt(l) && heads[l] !in ns)
      && (forall l, n :: l in heads && l != k && RingAt(l) && n in NodesOf(nodes, lists[l]) ==> n !in ns)
      && (forall u :: u in nodes && u != t && OnNone(lists, u) ==> nodes[u] in Repr && Loose(nodes[u]) && nodes[u] !in ns)
    }

    lemma IsAside(k: Key, t: nat, i: nat)
      requires Valid() && k in lists && t in nodes && OnNone(lists, t) && i <= |lists[k]|
      ensures Aside(k, t, {nodes[t], Stop(k, i), Stop(k, i + 1)})
    {
      hide Stop, Loose;
      forall l | l in heads && l != k
        ensures RingAt(l) && nodes[t] != heads[l] && nodes[t] !in NodesOf(nodes, lists[l])
        ensures Stop(k, i) != heads[l] && Stop(k, i) !in NodesOf(nodes, lists[l])
        ensures Stop(k, i + 1) != heads[l] && Stop(k, i + 1) !in NodesOf(nodes, lists[l])
      {
        Apart(k, i, l);
        Apart(k, i + 1, l);
        LooseApart(t, l);
      }
      forall u | u in nodes && u != t && OnNone(lists, u)
        ensures Loose(nodes[u]) && nodes[u] != nodes[t] && nodes[u] != Stop(k, i) && nodes[u] != Stop(k, i + 1)
      {
        LooseNode(u);
        OthersLoose(k, i, u);
        OthersLoose(k, i + 1, u);
      }
    }

    lemma ListNoDup(k: Key)
      requires Valid() && k in lists
      ensures NoDup(lists[k])
    {
      assert RingAt(k);
      var chain := NodesOf(nodes, lists[k]);
      forall i, j | 0 <= i < j < |lists[k]| ensures lists[k][i] != lists[k][j] {
        assert chain[i] != chain[j];
      }
    }

    /** The pointer writes of an insertion, and all they leave alone. */
    method Splice(k: Key, t: nat, position: Node, ghost i: nat)
      requires Valid() && k in lists && t in nodes && OnNone(lists, t)
      requires i <= |lists[k]| && position == Stop(k, i + 1)
      modifies Repr
      ensures Ring(heads[k], InsertAt(NodesOf(nodes, lists[k]), i, nodes[t]))
      ensures forall l :: l in heads && l != k ==> RingAt(l)
      ensures forall u :: u in nodes && u != t && OnNone(lists, u) ==> Loose(nodes[u])
    {
      ghost var chain := NodesOf(nodes, lists[k]);
      assert RingAt(k);
      LooseApart(t, k);
      RingStep(heads[k], chain, i);
      IsAside(k, t, i);
      Stops(k, i);
      Stops(k, i + 1);
      hide Ring;
      AddBetween(nodes[t], position.prev, position, heads[k], chain, i);
    }

    /** `__aixos_list_add` in front of the node the walk has come to. */
    method LinkBefore(k: Key, t: nat, position: Node, ghost i: nat)
      requires Valid() && k in lists && t in nodes && OnNone(lists, t)
      requires i <= |lists[k]| && position == Stop(k, i + 1)
      modifies this`lists, Repr
      ensures Valid() && lists == old(lists)[k := InsertAt(old(lists)[k], i, t)]
    {
      hide Ring, InsertAt, AtMostOneList, OnNone, OneHeadEach, Labelled, NoDup;
      ghost var was, s := lists, lists[k];
      assert RingAt(k);
      ListNoDup(k);
      InsertedLists(lists, k, i, t);
      Splice(k, t, position, i);
      lists := lists[k := InsertAt(s, i, t)];
      InsertedNodes(nodes, s, i, t);
      forall l | l in heads && l != k ensures RingAt(l) {
        assert lists[l] == was[l];
      }
    }

    lemma RemovedAside(k: Key, t: nat, i: nat)
      requires Valid() && k in lists && i < |lists[k]| && lists[k][i] == t
      ensures forall l :: l in heads && l != k ==> RingAt(l) && heads[l] !in ThreeStops(k, i)
      ensures forall l, n :: l in heads && l != k && RingAt(l) && n in NodesOf(nodes, lists[l]) ==> n !in ThreeStops(k, i)
      ensures forall u :: u in nodes && OnNone(lists, u) ==> Loose(nodes[u]) && nodes[u] !in ThreeStops(k, i)
    {
      hide Valid, OnNone, Stop, Loose, Ring;
      forall l | l in heads && l != k
        ensures RingAt(l) && heads[l] !in ThreeStops(k, i)
        ensures forall n :: n in NodesOf(nodes, lists[l]) ==> n !in ThreeStops(k, i)
      {
        Apart(k, i, l);
        Apart(k, i + 1, l);
        Apart(k, i + 2, l);
      }
      forall u | u in nodes && OnNone(lists, u) ensures Loose(nodes[u]) && nodes[u] !in ThreeStops(k, i) {
        LooseNode(u);
        OthersLoose(k, i, u);
        OthersLoose(k, i + 1, u);
        OthersLoose(k, i + 2, u);
      }
    }

    lemma LooseNode(u: nat)
      requires Valid() && u in nodes && OnNone(lists, u)
      ensures Loose(nodes[u])
    {}

    ghost function ThreeStops(k: Key, i: nat): set<Node>
      reads this, Repr
      requires Valid() && k in lists && i < |lists[k]|
    {
      {Stop(k, i), Stop(k, i + 1), Stop(k, i + 2)}
    }

    /** The pointer writes of a removal, and all they leave alone. */
    method Unsplice(t: nat, ghost k: Key)
      requires Valid() && k in lists && t in lists[k]
      modifies Repr
      ensures t in nodes && Ring(heads[k], Without(NodesOf(nodes, lists[k]), nodes[t])) && Loose(nodes[t])
      ensures forall l :: l in heads && l != k ==> RingAt(l)
      ensures forall u :: u in nodes && OnNone(lists, u) ==> Loose(nodes[u])
    {
      hide Ring, Without, AtMostOneList, OneHeadEach, Labelled, OnNone, LinkedAt;
      ghost var i :| 0 <= i < |lists[k]| && lists[k][i] == t;
      ghost var chain := NodesOf(nodes, lists[k]);
      assert RingAt(k) && chain[i] == nodes[t];
      RemovedAside(k, t, i);
      Stops(k, i);
      Stops(k, i + 1);
      Stops(k, i + 2);
      DelInit(nodes[t], heads[k], chain, i);
    }

    /** `aixos_list_del` and `aixos_list_init` of an element, from whatever list it is on. */
    method Unlink(t: nat, ghost k: Key)
      requires Valid() && k in lists && t in lists[k]
      modifies this`lists, Repr
      ensures Valid() && lists == old(lists)[k := Without(old(lists)[k], t)] && OnNone(lists, t)
    {
      hide Ring, Without, AtMostOneList, OnNone, OneHeadEach, Labelled, NoDup;
      ghost var was, s := lists, lists[k];
      assert RingAt(k);
      ListNoDup(k);
      RemovedLists(lists, k, t);
      Unsplice(t, k);
      lists := lists[k := Without(s, t)];
      RemovedNodes(nodes, s, t);
      forall l | l in heads && l != k ensures RingAt(l) {
        assert lists[l] == was[l];
      }
    }
  }

  lemma {:induction false} RemovedNodes(nodes: map<nat, Node>, s: seq<nat>, t: nat)
    requires (forall j :: 0 <= j < |s| ==> s[j] in nodes) && t in s && NoDup(s) && Labelled(nodes)
    ensures forall j :: 0 <= j < |Without(s, t)| ==> Without(s, t)[j] in nodes
    ensures NodesOf(nodes, Without(s, t)) == Without(NodesOf(nodes, s), nodes[t])
  {
    hide Without;
    var chain := NodesOf(nodes, s);
    var i :| 0 <= i < |s| && s[i] == t;
    assert NoDup(chain) by {
      forall a, b | 0 <= a < b < |chain| ensures chain[a] != chain[b] {
        assert chain[a].item == s[a] && chain[b].item == s[b];
      }
    }
    assert chain[i] == nodes[t];
    WithoutAt(s, i);
    WithoutAt(chain, i);
  }

  lemma InsertedNodes(nodes: map<nat, Node>, s: seq<nat>, i: nat, t: nat)
    requires (forall j :: 0 <= j < |s| ==> s[j] in nodes) && i <= |s| && t in nodes
    ensures forall j :: 0 <= j < |InsertAt(s, i, t)| ==> InsertAt(s, i, t)[j] in nodes
    ensures NodesOf(nodes, InsertAt(s, i, t)) == InsertAt(NodesOf(nodes, s), i, nodes[t])
  {}
}
