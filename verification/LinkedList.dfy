/** The singly linked lists of the program, with head, tail and count: the outgoing queue of a
    client (client_manager.c) and the packages waiting for a key (client.c). */
module LinkedList {

  class Node<T> {
    const item: T
    var next: Node?<T>

    constructor (item: T)
      ensures this.item == item && next == null
    {
      this.item := item;
      next := null;
    }
  }

  ghost function NodeAt<T>(spine: seq<Node<T>>, i: int): Node?<T> {
    if 0 <= i < |spine| then spine[i] else null
  }

  /** Node i leads to the next one, and node `gap` to the one after that. */
  ghost predicate Leads<T>(spine: seq<Node<T>>, i: nat, gap: int)
    requires i < |spine|
    reads spine
  {
    spine[i].next == NodeAt(spine, if i == gap then i + 2 else i + 1)
  }

  ghost predicate Distinct<T>(spine: seq<Node<T>>) {
    forall i, j :: 0 <= i < j < |spine| ==> spine[i] != spine[j]
  }

  ghost predicate Linked<T>(spine: seq<Node<T>>)
    reads spine
  {
    Distinct(spine) && forall i :: 0 <= i < |spine| ==> Leads(spine, i, -1)
  }

  ghost function Items<T>(spine: seq<Node<T>>): (list: seq<T>)
    ensures |list| == |spine| && forall i :: 0 <= i < |spine| ==> list[i] == spine[i].item
  {
    seq(|spine|, i requires 0 <= i < |spine| => spine[i].item)
  }

  ghost function Without<T>(s: seq<T>, i: nat): (rest: seq<T>)
    requires i < |s|
    ensures |rest| == |s| - 1
    ensures forall j :: 0 <= j < |rest| ==> rest[j] == s[if j < i then j else j + 1]
  {
    s[..i] + s[i + 1..]
  }

  lemma ItemsWithout<T>(spine: seq<Node<T>>, i: nat)
    requires i < |spine|
    ensures Items(Without(spine, i)) == Without(Items(spine), i)
  {
  }

  /** Head and tail once node i is gone. */
  lemma EndsWithout<T>(spine: seq<Node<T>>, i: nat)
    requires i < |spine| && Distinct(spine)
    ensures NodeAt(Without(spine, i), 0) == if i == 0 then NodeAt(spine, 1) else spine[0]
    ensures var tail := NodeAt(spine, |spine| - 1);
            NodeAt(Without(spine, i), |spine| - 2) == if tail == spine[i] then NodeAt(spine, i - 1) else tail
  {
  }

  /** The node after node `gap` has been bypassed; all other links are as before. */
  ghost predicate Bypassed<T>(spine: seq<Node<T>>, gap: int)
    reads spine
  {
    Distinct(spine) && forall j :: 0 <= j < |spine| ==> Leads(spine, j, gap)
  }

  lemma LinkedWithout<T>(spine: seq<Node<T>>, i: nat)
    requires i < |spine| && Bypassed(spine, i - 1)
    ensures Linked(Without(spine, i))
  {
    var rest := Without(spine, i);
    forall j | 0 <= j < |rest| ensures Leads(rest, j, -1) {
      assert Leads(spine, if j < i then j else j + 1, i - 1);
    }
  }

  class List<T> {
    var head: Node?<T>
    var tail: Node?<T>
    var count: nat
    ghost var spine: seq<Node<T>>

    ghost predicate Valid()
      reads this, spine
    {
      && Linked(spine)
      && head == NodeAt(spine, 0) && tail == NodeAt(spine, |spine| - 1)
      && count == |spine|
    }

    ghost function Contents(): seq<T>
      reads this
    {
      Items(spine)
    }

    constructor ()
      ensures Valid() && Contents() == [] && spine == []
    {
      head, tail, count, spine := null, null, 0, [];
    }

    method Append(item: T)
      requires Valid()
      modifies this, spine
      ensures Valid() && Contents() == old(Contents()) + [item]
      ensures forall n :: n in spine ==> n in old(spine) || fresh(n)
    {
      var node := new Node(item);
      if tail != null {
        tail.next := node;
      } else {
        head := node;
      }
      tail := node;
      count := count + 1;
      spine := spine + [node];
      forall j | 0 <= j < |spine| ensures Leads(spine, j, -1) {
        assert j < |old(spine)| ==> old(Leads(spine, j, -1));
      }
    }

    /** Unlink the node after `previous`, or the head. */
    method Unlink(previous: Node?<T>, node: Node<T>, ghost i: nat)
      requires Valid() && i < |spine| && node == spine[i] && previous == NodeAt(spine, i - 1)
      modifies this, spine
      ensures Valid() && spine == Without(old(spine), i) && Contents() == Without(old(Contents()), i)
    {
      EndsWithout(spine, i);
      ItemsWithout(spine, i);
      Bypass(previous, node, i);
      LinkedWithout(spine, i);
      Shorten(previous, node, i);
    }

    method Shorten(previous: Node?<T>, node: Node<T>, ghost i: nat)
      requires i < |spine| && count == |spine| && Linked(Without(spine, i)) && head == NodeAt(Without(spine, i), 0)
      requires NodeAt(Without(spine, i), |spine| - 2) == if tail == node then previous else tail
      modifies this
      ensures Valid() && spine == Without(old(spine), i)
    {
      if tail == node {
        tail := previous;
      }
      count := count - 1;
      spine := Without(spine, i);
    }

    method Bypass(previous: Node?<T>, node: Node<T>, ghost i: nat)
      requires Valid() && i < |spine| && node == spine[i] && previous == NodeAt(spine, i - 1)
      modifies `head, spine
      ensures Bypassed(spine, i - 1) && head == if i == 0 then NodeAt(spine, 1) else spine[0]
    {
      assert Leads(spine, i, -1);
      if previous != null {
        previous.next := node.next;
      } else {
        head := node.next;
      }
      ghost var gap := i - 1;
      forall j | 0 <= j < |spine| ensures Leads(spine, j, gap) {
        assert old(Leads(spine, j, -1));
      }
    }

    /** The oldest item, if there is one. */
    method RemoveHead() returns (removed: bool, items: seq<T>)
      requires Valid()
      modifies this, spine
      ensures Valid() && removed == (old(Contents()) != [])
      ensures removed ==> items == [old(Contents())[0]] && Contents() == old(Contents())[1..]
      ensures !removed ==> items == [] && Contents() == []
      ensures forall n :: n in spine ==> n in old(spine)
    {
      if head == null {
        return false, [];
      }
      var node: Node<T> := head;
      assert Without(old(Contents()), 0) == old(Contents())[1..];
      Unlink(null, node, 0);
      assert spine == old(spine)[1..];
      return true, [node.item];
    }
  }
}
