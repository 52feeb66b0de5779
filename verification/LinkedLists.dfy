/** Singly linked lists with a tail pointer, as the client and the broker keep
  * their message and packet queues.  `nodes` lists the nodes in chain order. */
module LinkedLists {

  class Node<T> {
    var data: T
    var next: Node?<T>

    constructor (data: T)
      ensures this.data == data && next == null
    {
      this.data, next := data, null;
    }
  }

  /** The values held by a chain of nodes, in order. */
  ghost function Values<T>(nodes: seq<Node<T>>): (s: seq<T>)
    reads nodes
    ensures |s| == |nodes|
    ensures forall i :: 0 <= i < |nodes| ==> s[i] == nodes[i].data
  {
    seq(|nodes|, i requires 0 <= i < |nodes| reads nodes => nodes[i].data)
  }

  /** The `i`th node of a chain, null behind its end. */
  ghost function NodeAt<T>(nodes: seq<Node<T>>, i: int): Node?<T> {
    if 0 <= i < |nodes| then nodes[i] else null
  }

  /** Taking out the `k`th node and pointing its predecessor past it keeps the rest linked. */
  lemma LinkedWithout<T>(was: seq<Node<T>>, k: nat, now: seq<Node<T>>)
    requires k < |was| && now == was[..k] + was[k + 1..]
    requires forall i, j :: 0 <= i < j < |was| ==> was[i] != was[j]
    requires forall i :: 0 <= i < |was| && i != k - 1 ==> was[i].next == NodeAt(was, i + 1)
    requires k > 0 ==> was[k - 1].next == NodeAt(was, k + 1)
    ensures forall i :: 0 <= i < |now| ==> now[i].next == NodeAt(now, i + 1)
    ensures forall i, j :: 0 <= i < j < |now| ==> now[i] != now[j]
  {
    forall i | 0 <= i < |now|
      ensures now[i].next == NodeAt(now, i + 1)
    {
      assert now[i] == was[if i < k then i else i + 1];
      assert NodeAt(now, i + 1) == NodeAt(was, if i + 1 < k then i + 1 else i + 2);
    }
  }

  /** The last node of what is left. */
  lemma TailWithout<T>(was: seq<Node<T>>, k: nat, now: seq<Node<T>>)
    requires k < |was| && now == was[..k] + was[k + 1..]
    ensures NodeAt(now, |now| - 1) == if k + 1 == |was| then NodeAt(was, k - 1) else NodeAt(was, |was| - 1)
  {
  }

  /** The other nodes stay, the one taken out does not. */
  lemma NodesWithout<T>(was: seq<Node<T>>, k: nat, now: seq<Node<T>>)
    requires k < |was| && now == was[..k] + was[k + 1..]
    requires forall i, j :: 0 <= i < j < |was| ==> was[i] != was[j]
    ensures was[k] !in now && forall n :: n in now ==> n in was
  {
  }

  lemma ValuesWithout<T>(was: seq<Node<T>>, k: nat)
    requires k < |was|
    ensures Values(was[..k] + was[k + 1..]) == Values(was)[..k] + Values(was)[k + 1..]
  {
    var now, a, b := was[..k] + was[k + 1..], Values(was)[..k], Values(was)[k + 1..];
    assert forall i :: 0 <= i < k ==> now[i] == was[i] && a[i] == was[i].data;
    assert forall i :: k <= i < |now| ==> now[i] == was[i + 1] && b[i - k] == was[i + 1].data;
  }

  class LinkedList<T> {
    var head: Node?<T>
    var last: Node?<T>
    ghost var nodes: seq<Node<T>>

    /** The chain from `head` runs through `nodes` and ends after the last one. */
    ghost predicate Linked()
      reads this`head, this`nodes, nodes
    {
      && head == NodeAt(nodes, 0)
      && (forall i :: 0 <= i < |nodes| ==> nodes[i].next == NodeAt(nodes, i + 1))
      && (forall i, j :: 0 <= i < j < |nodes| ==> nodes[i] != nodes[j])
    }

    ghost predicate Valid()
      reads this, nodes
    {
      Linked() && last == NodeAt(nodes, |nodes| - 1)
    }

    ghost function Contents(): (s: seq<T>)
      reads this`nodes, nodes
      ensures |s| == |nodes|
      ensures forall i :: 0 <= i < |nodes| ==> s[i] == nodes[i].data
    {
      Values(nodes)
    }

    constructor ()
      ensures Valid() && nodes == []
    {
      head, last, nodes := null, null, [];
    }

    /** The links in terms of positions. */
    lemma Links(i: nat)
      requires Valid() && i < |nodes|
      ensures nodes[i].next == NodeAt(nodes, i + 1)
      ensures nodes[i].data == Contents()[i]
    {
    }

    lemma ValidLinked()
      requires Valid()
      ensures Linked()
    {
    }

    lemma LinkedHead()
      requires Linked()
      ensures head == NodeAt(nodes, 0) && |Contents()| == |nodes|
    {
    }

    lemma LinkedAt(i: nat)
      requires Linked() && i < |nodes|
      ensures nodes[i].next == NodeAt(nodes, i + 1) && nodes[i].data == Contents()[i]
    {
    }

    lemma TailSet()
      requires Linked() && last == NodeAt(nodes, |nodes| - 1)
      ensures Valid()
    {
    }

    lemma Head()
      requires Valid()
      ensures head == NodeAt(nodes, 0)
    {
    }

    /** Link node `n` behind the tail. */
    method Append(n: Node<T>)
      requires Valid() && n !in nodes
      modifies this, nodes, n
      ensures Valid() && nodes == old(nodes) + [n]
      ensures Contents() == old(Contents()) + [old(n.data)]
      ensures n.data == old(n.data)
    {
      n.next := null;
      if last != null {
        last.next := n;
      } else {
        head := n;
      }
      last := n;
      nodes := nodes + [n];
    }

    /** Point the tail at the last node of the chain. */
    method SetLast(n: Node?<T>)
      requires Valid() && n == NodeAt(nodes, |nodes| - 1)
      modifies this`last
      ensures Valid() && nodes == old(nodes) && Contents() == old(Contents())
    {
      last := n;
    }

    /** Overwrite the value in `n`, the `k`th node. */
    method Write(n: Node<T>, ghost k: nat, data: T)
      requires Valid() && k < |nodes| && n == nodes[k]
      modifies n
      ensures Valid() && Contents() == old(Contents())[k := data]
      ensures n.data == data && n.next == old(n.next)
    {
      n.data := data;
    }

    /** The same on a list whose tail pointer may be stale. */
    method Put(n: Node<T>, ghost k: nat, data: T)
      requires Linked() && k < |nodes| && n == nodes[k]
      modifies n
      ensures Linked() && Contents() == old(Contents())[k := data] && (old(Valid()) ==> Valid())
      ensures n.data == data && n.next == old(n.next)
    {
      n.data := data;
    }

    /** Point past `cur`, the `k`th node; `prev` is the node before it, null at the head.  The tail pointer
      * moves only if there is no node behind. */
    method Bypass(prev: Node?<T>, cur: Node<T>, ghost k: nat)
      requires Linked() && k < |nodes| && cur == nodes[k]
      requires prev == NodeAt(nodes, k - 1)
      modifies this, nodes`next
      ensures Linked() && nodes == old(nodes)[..k] + old(nodes)[k + 1..]
      ensures cur.next == old(cur.next)
      ensures last == if k + 1 == |old(nodes)| then prev else old(last)
    {
      ghost var was := nodes;
      assert cur.next == NodeAt(was, k + 1);
      assert k > 0 ==> was[k - 1].next == cur;
      if prev != null {
        prev.next := cur.next;
      } else {
        head := cur.next;
      }
      if cur.next == null {
        last := prev;
      }
      nodes := was[..k] + was[k + 1..];
      assert forall i :: 0 <= i < |was| && i != k - 1 ==> was[i].next == NodeAt(was, i + 1);
      LinkedWithout(was, k, nodes);
    }

    lemma NoneTwice()
      requires Linked() || Valid()
      ensures Linked() && forall i, j :: 0 <= i < j < |nodes| ==> nodes[i] != nodes[j]
    {
    }

    lemma TailIs()
      requires Valid()
      ensures last == NodeAt(nodes, |nodes| - 1)
    {
    }

    /** Unlink `cur`, the `k`th node; `prev` is the node before it, null at the head. */
    method Unlink(prev: Node?<T>, cur: Node<T>, ghost k: nat)
      requires (Linked() || Valid()) && k < |nodes| && cur == nodes[k]
      requires prev == NodeAt(nodes, k - 1)
      modifies this, nodes`next
      ensures Linked() && (old(Valid()) ==> Valid()) && nodes == old(nodes)[..k] + old(nodes)[k + 1..]
      ensures last == if k + 1 == |old(nodes)| then prev else old(last)
      ensures Contents() == old(Contents())[..k] + old(Contents())[k + 1..]
      ensures cur.data == old(cur.data) && cur.next == old(cur.next)
      ensures cur !in nodes && forall n :: n in nodes ==> n in old(nodes)
    {
      hide LinkedList.Linked, LinkedList.Valid, Values;
      ghost var was, vals, whole := nodes, Values(nodes), Valid();
      NoneTwice();
      if whole {
        TailIs();
      }
      NodesWithout(was, k, was[..k] + was[k + 1..]);
      Bypass(prev, cur, k);
      assert Values(was) == vals;
      ValuesWithout(was, k);
      if whole {
        TailWithout(was, k, nodes);
        TailSet();
      }
    }

    /** Unlink the first node; the tail pointer is cleared only if it points to that node. */
    method RemoveFirst() returns (n: Node<T>)
      requires Linked() && nodes != []
      modifies this`head, this`last, this`nodes
      ensures Linked() && n == old(nodes)[0] && nodes == old(nodes)[1..] && n !in nodes
      ensures Contents() == old(Contents())[1..]
      ensures last == if old(last) == n then null else old(last)
      ensures old(Valid()) ==> Valid()
    {
      n := head;
      head := head.next;
      if last == n {
        last := null;
      }
      nodes := nodes[1..];
    }

    /** Take over the nodes of another list, which is left empty; both tail pointers stay as they are. */
    method MoveFrom(other: LinkedList<T>)
      requires other != this && other.Linked()
      modifies this`head, this`nodes, other`head, other`nodes
      ensures Linked() && nodes == old(other.nodes) && Contents() == old(other.Contents())
      ensures other.Linked() && other.nodes == []
    {
      head, nodes := other.head, other.nodes;
      other.head, other.nodes := null, [];
    }

    /** Forget all nodes. */
    method Drop()
      modifies this`head, this`last, this`nodes
      ensures Valid() && nodes == []
    {
      head, last, nodes := null, null, [];
    }
  }
}
