/** The doubly linked list of lib/kernel/list.c: nodes live inside other structures, and a list is two sentinels. */
module IntrusiveList {
  import opened Interrupts

  class Elem {
    var prev: Elem?
    var next: Elem?
  }

  class List {
    const head: Elem
    const tail: Elem
    const eflags: Eflags
    ghost var nodes: seq<Elem>   // head, the elements, tail

    ghost predicate Valid()
      reads this, nodes
    {
      && |nodes| >= 2 && nodes[0] == head && nodes[|nodes| - 1] == tail
      && (forall i, j :: 0 <= i < j < |nodes| ==> nodes[i] != nodes[j])
      && nodes[0].prev == null && nodes[|nodes| - 1].next == null
      && (forall i {:trigger nodes[i].next} :: 0 <= i < |nodes| - 1 ==> nodes[i].next == nodes[i + 1])
      && (forall i {:trigger nodes[i].prev} :: 1 <= i < |nodes| ==> nodes[i].prev == nodes[i - 1])
    }

    /** The sequence the list stands for. */
    ghost function Elems(): seq<Elem>
      requires |nodes| >= 2
      reads this
    {
      nodes[1..|nodes| - 1]
    }

    /** list_init. */
    constructor (eflags: Eflags)
      ensures Valid() && Elems() == [] && this.eflags == eflags && fresh(head) && fresh(tail)
    {
      var h, t := new Elem, new Elem;
      h.prev := null;
      h.next := t;
      t.prev := h;
      t.next := null;
      head, tail, nodes := h, t, [h, t];
      this.eflags := eflags;
    }

    method Empty() returns (r: bool)
      requires Valid()
      ensures r <==> Elems() == []
    {
      assert nodes[0].next == nodes[1];
      r := head.next == tail;
    }

    method Len() returns (len: nat)
      requires Valid()
      ensures len == |Elems()|
    {
      assert nodes[0].next == nodes[1];
      var elem := head.next;
      len := 0;
      while elem != tail
        invariant 0 <= len <= |nodes| - 2 && elem == nodes[len + 1]
        decreases |nodes| - len
      {
        assert nodes[len + 1].next == nodes[len + 2];
        len := len + 1;
        elem := elem.next;
      }
    }

    method Find(obj: Elem) returns (r: bool)
      requires Valid()
      ensures r <==> obj in Elems()
    {
      assert nodes[0].next == nodes[1];
      var elem := head.next;
      ghost var i := 1;
      while elem != tail
        invariant 1 <= i <= |nodes| - 1 && elem == nodes[i]
        invariant obj !in Elems()[..i - 1]
        decreases |nodes| - i
      {
        assert elem == Elems()[i - 1];
        if elem == obj { return true; }
        assert nodes[i].next == nodes[i + 1];
        elem := elem.next;
        i := i + 1;
      }
      assert Elems()[..i - 1] == Elems();
      return false;
    }

    /** list_traversal: the first element that `func` accepts. */
    method Traversal(func: (Elem, int) -> bool, arg: int) returns (r: Elem?)
      requires Valid()
      ensures r == null ==> forall e :: e in Elems() ==> !func(e, arg)
      ensures r != null ==> exists i :: 0 <= i < |Elems()| && Elems()[i] == r && func(r, arg)
                                     && forall j :: 0 <= j < i ==> !func(Elems()[j], arg)
    {
      assert nodes[0].next == nodes[1];
      var elem := head.next;
      ghost var i := 1;
      if head.next == tail { return null; }
      while elem != tail
        invariant 1 <= i <= |nodes| - 1 && elem == nodes[i]
        invariant forall j :: 0 <= j < i - 1 ==> !func(Elems()[j], arg)
        decreases |nodes| - i
      {
        assert elem == Elems()[i - 1];
        if func(elem, arg) { return elem; }
        assert nodes[i].next == nodes[i + 1];
        elem := elem.next;
        i := i + 1;
      }
      return null;
    }

    /** list_insert_before; `before` is node number k, which may be the tail. */
    method InsertBefore(before: Elem, elem: Elem, ghost k: nat)
      requires Valid() && 1 <= k < |nodes| && nodes[k] == before && elem !in nodes
      modifies this`nodes, elem, before, nodes[k - 1], eflags
      ensures Valid() && nodes == old(nodes)[..k] + [elem] + old(nodes)[k..]
      ensures eflags.intr == old(eflags.intr)
    {
      var oldStatus := eflags.Disable();
      assert nodes[k].prev == nodes[k - 1];
      before.prev.next := elem;
      elem.prev := before.prev;
      elem.next := before;
      before.prev := elem;
      nodes := nodes[..k] + [elem] + nodes[k..];
      var _ := eflags.SetStatus(oldStatus);
    }

    method Push(elem: Elem)
      requires Valid() && elem !in nodes
      modifies this`nodes, elem, head, nodes[1], eflags
      ensures Valid() && Elems() == [elem] + old(Elems()) && eflags.intr == old(eflags.intr)
      ensures nodes == [head, elem] + old(nodes)[1..]
    {
      assert nodes[0].next == nodes[1];
      InsertBefore(head.next, elem, 1);
      FirstAdded(old(nodes), elem);
    }

    method Append(elem: Elem)
      requires Valid() && elem !in nodes
      modifies this`nodes, elem, tail, nodes[|nodes| - 2], eflags
      ensures Valid() && Elems() == old(Elems()) + [elem] && eflags.intr == old(eflags.intr)
    {
      InsertBefore(tail, elem, |nodes| - 1);
      LastAdded(old(nodes), elem);
    }

    /** list_remove of node number k; its own pointers stay as they are. */
    method Remove(pelem: Elem, ghost k: nat)
      requires Valid() && 1 <= k < |nodes| - 1 && nodes[k] == pelem
      modifies this`nodes, nodes[k - 1], nodes[k + 1], eflags
      ensures Valid() && nodes == old(nodes)[..k] + old(nodes)[k + 1..]
      ensures Elems() == old(Elems())[..k - 1] + old(Elems())[k..]
      ensures eflags.intr == old(eflags.intr)
    {
      var oldStatus := eflags.Disable();
      assert nodes[k].prev == nodes[k - 1] && nodes[k].next == nodes[k + 1];
      pelem.prev.next := pelem.next;
      pelem.next.prev := pelem.prev;
      var _ := eflags.SetStatus(oldStatus);
      ghost var n := nodes;
      DropMiddle(n, k);
      StillLinked(n, k);
      nodes := n[..k] + n[k + 1..];
    }

    /** list_pop; on an empty list the C code would follow NULL, so its callers look first. */
    method Pop() returns (elem: Elem)
      requires Valid() && Elems() != []
      modifies this`nodes, head, nodes[2], eflags
      ensures Valid() && elem == old(Elems())[0] && Elems() == old(Elems())[1..] && eflags.intr == old(eflags.intr)
      ensures nodes == [head] + old(nodes)[2..] && elem == old(nodes)[1]
    {
      assert nodes[0].next == nodes[1];
      elem := head.next;
      Remove(elem, 1);
    }
  }

  /** The neighbours of node number k lead past it, and every other pair is as it should be. */
  lemma StillLinked(n: seq<Elem>, k: nat)
    requires 1 <= k < |n| - 1 && n[k - 1].next == n[k + 1] && n[k + 1].prev == n[k - 1]
    requires forall i {:trigger n[i].next} :: 0 <= i < |n| - 1 && i != k - 1 && i != k ==> n[i].next == n[i + 1]
    requires forall i {:trigger n[i].prev} :: 1 <= i < |n| && i != k + 1 && i != k ==> n[i].prev == n[i - 1]
    ensures var m := n[..k] + n[k + 1..];
      && (forall i {:trigger m[i].next} :: 0 <= i < |m| - 1 ==> m[i].next == m[i + 1])
      && (forall i {:trigger m[i].prev} :: 1 <= i < |m| ==> m[i].prev == m[i - 1])
  {
    var m := n[..k] + n[k + 1..];
    forall i | 0 <= i < |m| - 1 ensures m[i].next == m[i + 1] {
      assert m[i] == n[if i < k then i else i + 1] && m[i + 1] == n[if i + 1 < k then i + 1 else i + 2];
    }
    forall i | 1 <= i < |m| ensures m[i].prev == m[i - 1] {
      assert m[i] == n[if i < k then i else i + 1] && m[i - 1] == n[if i - 1 < k then i - 1 else i];
    }
  }

  lemma FirstAdded(n: seq<Elem>, e: Elem)
    requires |n| >= 2
    ensures n[..1] + [e] + n[1..] == [n[0], e] + n[1..]
    ensures (n[..1] + [e] + n[1..])[1..|n|] == [e] + n[1..|n| - 1]
  {
    var a, b := (n[..1] + [e] + n[1..])[1..|n|], [e] + n[1..|n| - 1];
    assert |a| == |b|;
    forall i | 0 <= i < |a| ensures a[i] == b[i] {
      assert a[i] == if i == 0 then e else n[i];
    }
  }

  lemma LastAdded(n: seq<Elem>, e: Elem)
    requires |n| >= 2
    ensures (n[..|n| - 1] + [e] + n[|n| - 1..])[1..|n|] == n[1..|n| - 1] + [e]
  {
    var a, b := (n[..|n| - 1] + [e] + n[|n| - 1..])[1..|n|], n[1..|n| - 1] + [e];
    assert |a| == |b|;
    forall i | 0 <= i < |a| ensures a[i] == b[i] {
      assert a[i] == if i < |n| - 2 then n[i + 1] else e;
    }
  }

  lemma DropMiddle(n: seq<Elem>, k: nat)
    requires 1 <= k < |n| - 1
    ensures (n[..k] + n[k + 1..])[1..|n| - 2] == n[1..|n| - 1][..k - 1] + n[1..|n| - 1][k..]
  {
    var a, b := (n[..k] + n[k + 1..])[1..|n| - 2], n[1..|n| - 1][..k - 1] + n[1..|n| - 1][k..];
    assert |a| == |b|;
    forall i | 0 <= i < |a| ensures a[i] == b[i] {
      assert a[i] == if i < k - 1 then n[i + 1] else n[i + 2];
    }
  }

  /** A list none of whose nodes was written is still the same list. */
  twostate lemma Unnoticed(l: List)
    requires old(l.Valid()) && l.nodes == old(l.nodes)
    requires forall e :: e in l.nodes ==> e.prev == old(e.prev) && e.next == old(e.next)
    ensures l.Valid()
  {
    forall i | 0 <= i < |l.nodes|
      ensures l.nodes[i].prev == old(l.nodes[i].prev) && l.nodes[i].next == old(l.nodes[i].next)
    {
      assert l.nodes[i] in l.nodes;
    }
  }

  ghost predicate Apart(a: List, b: List)
    reads a, b
  {
    forall e :: e in a.nodes ==> e !in b.nodes
  }

  /** thread_unblock(list_pop(waiters)): one node leaves a list and enters another; a third list does not notice. */
  method PopThenPush(waiters: List, ready: List, ghost other: List) returns (elem: Elem)
    requires waiters.Valid() && ready.Valid() && other.Valid() && waiters.Elems() != []
    requires waiters != ready && waiters != other && ready != other && waiters.eflags == ready.eflags
    requires Apart(waiters, ready) && Apart(waiters, other) && Apart(ready, other)
    modifies waiters, ready, waiters.nodes, ready.nodes, waiters.eflags
    ensures waiters.Valid() && ready.Valid() && other.Valid()
    ensures elem == old(waiters.Elems())[0] && waiters.Elems() == old(waiters.Elems())[1..]
    ensures ready.Elems() == [elem] + old(ready.Elems())
    ensures other.Elems() == old(other.Elems())
    ensures forall e :: e in other.nodes ==> e.prev == old(e.prev) && e.next == old(e.next)
    ensures Apart(waiters, ready) && Apart(waiters, other) && Apart(ready, other)
    ensures waiters.eflags.intr == old(waiters.eflags.intr)
  {
    elem := waiters.Pop();
    PoppedMembers(old(waiters.nodes), waiters.nodes);
    assert elem in old(waiters.nodes);
    label popped:
    hide List.Valid;
    Unnoticed(ready);
    Unnoticed(other);
    ready.Push(elem);
    Unnoticed@popped(waiters);
    Unnoticed@popped(other);
    assert forall e :: e in ready.nodes <==> e in old(ready.nodes) || e == elem by {
      assert old(ready.nodes) == [ready.head] + old(ready.nodes)[1..];
    }
  }

  /** thread_unblock(list entry that was not popped): the tag is the first of the ready list, and the waiters lead to it
      and from there on into the ready list. They are not a list any more. */
  method PushWithoutPop(waiters: List, ready: List, elem: Elem, ghost k: nat)
    requires waiters.Valid() && ready.Valid() && waiters != ready && Apart(waiters, ready)
    requires 1 <= k < |waiters.nodes| - 1 && waiters.nodes[k] == elem
    modifies ready, ready.nodes, elem, ready.eflags
    ensures ready.Valid() && ready.Elems() == [elem] + old(ready.Elems())
    ensures waiters.nodes == old(waiters.nodes) && waiters.nodes[k - 1].next == elem
    ensures elem.prev == ready.head && elem.next == old(ready.nodes)[1] && !waiters.Valid()
  {
    assert waiters.nodes[k - 1].next == waiters.nodes[k];
    assert elem in waiters.nodes && waiters.nodes[k - 1] in waiters.nodes && ready.head in ready.nodes;
    ready.Push(elem);
    assert ready.nodes[1].prev == ready.nodes[0] && ready.nodes[1].next == ready.nodes[2];
  }

  lemma PoppedMembers(a: seq<Elem>, b: seq<Elem>)
    requires |a| >= 2 && b == [a[0]] + a[2..] && (forall i, j :: 0 <= i < j < |a| ==> a[i] != a[j])
    ensures forall e :: e in b <==> e in a && e != a[1]
  {
    forall e | e in a && e != a[1] ensures e in b {
      var i :| 0 <= i < |a| && a[i] == e;
      assert e == if i == 0 then b[0] else b[i - 1];
    }
  }
}
