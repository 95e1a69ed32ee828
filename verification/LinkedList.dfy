/** The intrusive doubly linked list under every queue, pool and cache of the stack. */
module LinkedList {

  class Node {
    var next: Node?
    var pre: Node?

    constructor ()
      ensures next == null && pre == null
    {
      next, pre := null, null;
    }
  }

  function At(s: seq<Node>, i: int): Node? {
    if 0 <= i < |s| then s[i] else null
  }

  /** `s` without the node at `k`. */
  function Without(s: seq<Node>, k: nat): seq<Node>
    requires k < |s|
  {
    s[..k] + s[k + 1..]
  }

  /** `s` with `n` put in front of place `k`. */
  function With(s: seq<Node>, k: nat, n: Node): seq<Node>
    requires k <= |s|
  {
    s[..k] + [n] + s[k..]
  }

  predicate NoRepeat(s: seq<Node>) {
    forall i, j :: 0 <= i < j < |s| ==> s[i] != s[j]
  }

  /** The links of the nodes of `s` spell out `s` in both directions. */
  ghost predicate Linked(s: seq<Node>)
    reads s
  {
    && (forall i {:trigger s[i].next} :: 0 <= i < |s| ==> s[i].next == At(s, i + 1))
    && (forall i {:trigger s[i].pre} :: 0 <= i < |s| ==> s[i].pre == At(s, i - 1))
  }

  lemma WithAt(s: seq<Node>, k: nat, n: Node)
    requires k <= |s| && NoRepeat(s) && n !in s
    ensures var r := With(s, k, n);
      && |r| == |s| + 1 && NoRepeat(r) && r[k] == n
      && (forall i :: 0 <= i < k ==> r[i] == s[i])
      && (forall i :: k < i < |r| ==> r[i] == s[i - 1])
  {
  }

  lemma WithoutAt(s: seq<Node>, k: nat)
    requires k < |s| && NoRepeat(s)
    ensures var r := Without(s, k);
      && |r| == |s| - 1 && NoRepeat(r) && s[k] !in r
      && (forall i :: 0 <= i < k ==> r[i] == s[i])
      && (forall i :: k <= i < |r| ==> r[i] == s[i + 1])
  {
  }

  /** A node and its neighbours stand in no other place. */
  lemma Neighbours(s: seq<Node>, k: nat)
    requires k < |s| && NoRepeat(s)
    ensures forall j :: 0 <= j < |s| ==> (s[j] == s[k] <==> j == k)
    ensures forall j :: 0 <= j < |s| ==> (s[j] == At(s, k - 1) <==> j == k - 1)
    ensures forall j :: 0 <= j < |s| ==> (s[j] == At(s, k + 1) <==> j == k + 1)
    ensures At(s, k - 1) == null || At(s, k - 1) in s
    ensures At(s, k + 1) == null || At(s, k + 1) in s
    ensures (At(s, 0) == s[k] <==> k == 0) && (At(s, |s| - 1) == s[k] <==> k == |s| - 1)
  {
  }

  lemma AtPlace(s: seq<Node>, k: nat)
    requires k < |s|
    ensures At(s, k) == s[k]
  {
  }

  /** Links rewritten around the new node `n` spell out the sequence with `n` in it. */
  lemma LinksWith(s: seq<Node>, k: nat, n: Node)
    requires k <= |s| && NoRepeat(s) && n !in s
    requires n.next == At(s, k) && n.pre == At(s, k - 1)
    requires forall j {:trigger s[j].next} :: 0 <= j < |s| ==> s[j].next == if j == k - 1 then n else At(s, j + 1)
    requires forall j {:trigger s[j].pre} :: 0 <= j < |s| ==> s[j].pre == if j == k then n else At(s, j - 1)
    ensures var r := With(s, k, n);
      && NoRepeat(r) && Linked(r) && |r| == |s| + 1
      && At(r, 0) == (if k == 0 then n else At(s, 0))
      && At(r, |s|) == (if k == |s| then n else At(s, |s| - 1))
  {
    var r := With(s, k, n);
    WithAt(s, k, n);
    hide With, NoRepeat;
    forall i | 0 <= i < |r| ensures r[i].next == At(r, i + 1) && r[i].pre == At(r, i - 1) {
      if i != k {
        var j := if i < k then i else i - 1;
        assert r[i] == s[j];
      }
    }
  }

  /** Links rewritten around the node at `k` spell out the sequence without it. */
  lemma LinksWithout(s: seq<Node>, k: nat)
    requires k < |s| && NoRepeat(s)
    requires forall j {:trigger s[j].next} :: 0 <= j < |s| && j != k ==>
      s[j].next == At(s, if j == k - 1 then k + 1 else j + 1)
    requires forall j {:trigger s[j].pre} :: 0 <= j < |s| && j != k ==>
      s[j].pre == At(s, if j == k + 1 then k - 1 else j - 1)
    ensures var r := Without(s, k);
      && NoRepeat(r) && Linked(r) && |r| == |s| - 1
      && At(r, 0) == At(s, if k == 0 then 1 else 0)
      && At(r, |s| - 2) == At(s, if k == |s| - 1 then |s| - 2 else |s| - 1)
  {
    var r := Without(s, k);
    WithoutAt(s, k);
    hide Without, NoRepeat;
    forall i | 0 <= i < |r| ensures r[i].next == At(r, i + 1) && r[i].pre == At(r, i - 1) {
      var j := if i < k then i else i + 1;
      assert r[i] == s[j];
    }
  }

  class List {
    var first: Node?
    var last: Node?
    var count: int
    ghost var nodes: seq<Node>

    ghost predicate Valid()
      reads this, nodes
    {
      && NoRepeat(nodes)
      && Linked(nodes)
      && first == At(nodes, 0)
      && last == At(nodes, |nodes| - 1)
      && count == |nodes|
    }

    /** init_list */
    constructor ()
      ensures Valid() && nodes == []
    {
      first, last, count, nodes := null, null, 0, [];
    }

    /** list_insert_first */
    method InsertFirst(node: Node)
      requires Valid() && node !in nodes
      modifies this, nodes, node
      ensures Valid() && nodes == [node] + old(nodes)
    {
      ghost var s := nodes;
      node.next := first;
      node.pre := null;
      if count == 0 {
        first := node;
        last := node;
      } else {
        first.pre := node;
        first := node;
      }
      count := count + 1;
      LinksWith(s, 0, node);
      WithAt(s, 0, node);
      hide Linked, NoRepeat;
      nodes := With(s, 0, node);
    }

    /** list_insert_last */
    method InsertLast(node: Node)
      requires Valid() && node !in nodes
      modifies this, nodes, node
      ensures Valid() && nodes == old(nodes) + [node]
    {
      ghost var s := nodes;
      node.pre := last;
      node.next := null;
      if count == 0 {
        first := node;
        last := node;
      } else {
        last.next := node;
        last := node;
      }
      count := count + 1;
      LinksWith(s, |s|, node);
      WithAt(s, |s|, node);
      hide Linked, NoRepeat;
      nodes := With(s, |s|, node);
    }

    /** list_insert_after: on an empty list `pre` is not looked at. */
    method InsertAfter(pre: Node, node: Node)
      requires Valid() && node !in nodes && (nodes != [] ==> pre in nodes)
      modifies this, nodes, node
      ensures Valid()
      ensures old(nodes) == [] ==> nodes == [node]
      ensures forall k :: 0 <= k < |old(nodes)| && old(nodes)[k] == pre ==> nodes == With(old(nodes), k + 1, node)
    {
      hide At, NoRepeat, With;
      if count == 0 {
        InsertFirst(node);
        return;
      }
      ghost var s := nodes;
      ghost var k :| 0 <= k < |s| && s[k] == pre;
      Neighbours(s, k);
      node.next := pre.next;
      node.pre := pre;
      if pre.next != null {
        pre.next.pre := node;
      }
      pre.next := node;
      if last == pre {
        last := node;
      }
      count := count + 1;
      nodes := With(s, k + 1, node);
      AtPlace(s, k);
      LinksWith(s, k + 1, node);
    }

    /** list_remove */
    method Remove(node: Node)
      requires Valid() && node in nodes
      modifies this, nodes
      ensures Valid() && node.next == null && node.pre == null
      ensures forall k :: 0 <= k < |old(nodes)| && old(nodes)[k] == node ==> nodes == Without(old(nodes), k)
    {
      hide At, NoRepeat, Without;
      ghost var s := nodes;
      ghost var k :| 0 <= k < |s| && s[k] == node;
      Neighbours(s, k);
      if node == first {
        first := node.next;
      }
      if node == last {
        last := node.pre;
      }
      if node.pre != null {
        node.pre.next := node.next;
      }
      if node.next != null {
        node.next.pre := node.pre;
      }
      node.pre := null;
      node.next := null;
      count := count - 1;
      nodes := Without(s, k);
      LinksWithout(s, k);
    }

    /** list_remove_first */
    method RemoveFirst() returns (node: Node?)
      requires Valid()
      modifies this, nodes
      ensures Valid() && node == At(old(nodes), 0)
      ensures node == null <==> old(nodes) == []
      ensures node != null ==> old(nodes) == [node] + nodes && node !in nodes
    {
      node := first;
      if node != null {
        WithoutAt(nodes, 0);
        Remove(node);
      }
    }

    /** list_remove_last */
    method RemoveLast() returns (node: Node?)
      requires Valid()
      modifies this, nodes
      ensures Valid() && node == At(old(nodes), |old(nodes)| - 1)
      ensures node == null <==> old(nodes) == []
      ensures node != null ==> old(nodes) == nodes + [node] && node !in nodes
    {
      node := last;
      if node != null {
        WithoutAt(nodes, |nodes| - 1);
        Remove(node);
      }
    }

    /** list_for_each: following `next` from `first` visits every node once, in order, and ends. */
    method ForEach() returns (visited: seq<Node>)
      requires Valid()
      ensures visited == nodes
    {
      visited := [];
      var node := first;
      while node != null
        invariant |visited| <= |nodes| && visited == nodes[..|visited|]
        invariant node == At(nodes, |visited|)
        decreases |nodes| - |visited|
      {
        visited := visited + [node];
        node := node.next;
      }
    }
  }
}
