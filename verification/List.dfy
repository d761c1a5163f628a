/** The singly linked list the client keeps its topics and loop clients in. */
module Lists {
  class ListElement<T> {
    var data: T
    var next: ListElement?<T>

    constructor (data: T)
      ensures this.data == data && next == null
    {
      this.data := data;
      next := null;
    }
  }

  /** The node at a position of a chain, or null past its ends. */
  function NodeAt<T>(chain: seq<ListElement<T>>, i: int): ListElement?<T> {
    if 0 <= i < |chain| then chain[i] else null
  }

  predicate Distinct<T>(chain: seq<ListElement<T>>) {
    forall i, j :: 0 <= i < j < |chain| ==> chain[i] != chain[j]
  }

  lemma {:induction false} WithoutDistinct<T>(chain: seq<ListElement<T>>, index: int)
    requires Distinct(chain)
    ensures Distinct(Without(chain, index))
  {
    forall i, j | 0 <= i < j < |Without(chain, index)|
      ensures Without(chain, index)[i] != Without(chain, index)[j]
    {
      assert chain[if 0 <= index <= i then i + 1 else i] != chain[if 0 <= index <= j then j + 1 else j];
    }
  }

  function Without<T>(s: seq<T>, index: int): (r: seq<T>)
    ensures |r| == if 0 <= index < |s| then |s| - 1 else |s|
    ensures forall i {:trigger r[i]} :: 0 <= i < |r| ==> r[i] == if 0 <= index <= i then s[i + 1] else s[i]
  {
    if 0 <= index < |s| then s[..index] + s[index + 1..] else s
  }

  /** The position of the first item that matches, or -1. */
  function FirstIndex<T>(s: seq<T>, matches: T -> bool): (r: int)
    ensures -1 <= r < |s|
    ensures r >= 0 ==> matches(s[r]) && forall i :: 0 <= i < r ==> !matches(s[i])
    ensures r == -1 ==> forall i :: 0 <= i < |s| ==> !matches(s[i])
  {
    if s == [] then -1
    else if matches(s[0]) then 0
    else
      var rest := FirstIndex(s[1..], matches);
      if rest == -1 then -1 else rest + 1
  }

  class List<T> {
    var elements: ListElement?<T>
    var lastElement: ListElement?<T>
    var invalidItem: T
    var size: int

    // What the list stores, the nodes it is stored in, in order, and all nodes the list ever owned.
    ghost var items: seq<T>
    ghost var chain: seq<ListElement<T>>
    ghost var nodes: set<ListElement<T>>

    /** The nodes are distinct, hold the items, and are each linked to the next one. */
    ghost predicate Linked()
      reads this, nodes
    {
      && |items| == |chain| && elements == NodeAt(chain, 0) && Distinct(chain)
      && (forall i :: 0 <= i < |chain| ==> chain[i] in nodes)
      && (forall i {:trigger chain[i].data} {:trigger items[i]} :: 0 <= i < |chain| ==> chain[i].data == items[i])
      && (forall i {:trigger chain[i].next} :: 0 <= i < |chain| ==> chain[i].next == NodeAt(chain, i + 1))
    }

    ghost predicate Valid()
      reads this, nodes
    {
      Linked() && size == |chain| && lastElement == NodeAt(chain, |chain| - 1)
    }

    constructor (invalid: T)
      ensures Valid() && items == [] && nodes == {} && invalidItem == invalid
    {
      elements, lastElement := null, null;
      invalidItem := invalid;
      size := 0;
      chain, items, nodes := [], [], {};
    }

    constructor Copy(other: List<T>)
      requires other.Valid()
      ensures Valid() && fresh(nodes) && items == other.items && invalidItem == other.invalidItem
    {
      elements, lastElement := null, null;
      invalidItem := other.invalidItem;
      size := 0;
      chain, items, nodes := [], [], {};
      new;
      AppendCopy(other);
    }

    /** The list becomes a copy of the other one, with nodes of its own. Assigned to itself it ends up
        empty, since it is cleared before it is copied. */
    method Assign(other: List<T>)
      requires Valid() && other.Valid()
      modifies this
      ensures Valid() && fresh(nodes) && invalidItem == old(other.invalidItem)
      ensures items == if other == this then [] else old(other.items)
    {
      if !IsEmpty() {
        Clear();
      }
      nodes := {};
      AppendCopy(other);
      invalidItem := other.invalidItem;
    }

    method AppendCopy(other: List<T>)
      requires Valid() && other.Valid() && items == [] && nodes == {}
      modifies this
      ensures Valid() && fresh(nodes) && invalidItem == old(invalidItem)
      ensures items == old(other.items)
    {
      if !other.IsEmpty() {
        ghost var source := other.chain;
        var otherElement := other.elements;
        var otherSize := other.Count();
        while 0 < otherSize
          invariant 0 <= otherSize <= |source| && |items| == |source| - otherSize
          invariant Valid() && fresh(nodes) && invalidItem == old(invalidItem)
          invariant this != other && other.Valid() && unchanged(other)
          invariant otherElement == NodeAt(source, |items|)
          invariant items == other.items[..|items|]
        {
          assert otherElement.data == other.items[|items|];
          Append(otherElement.data);
          otherElement := otherElement.next;
          otherSize := otherSize - 1;
        }
        assert other.items[..|other.items|] == other.items;
      }
    }

    method Append(item: T)
      requires Valid()
      modifies this, nodes
      ensures Valid() && fresh(nodes - old(nodes)) && invalidItem == old(invalidItem)
      ensures items == old(items) + [item]
    {
      var e := new ListElement<T>(item);
      if IsEmpty() {
        elements := e;
      } else {
        lastElement.next := e;
      }
      lastElement := e;
      size := size + 1;
      chain, items, nodes := chain + [e], items + [item], nodes + {e};
    }

    method At(index: int) returns (item: T)
      requires Valid()
      ensures item == if 0 <= index < |items| then items[index] else invalidItem
    {
      if ValidIndex(index) {
        var tmp := Element(index);
        item := tmp.data;
      } else {
        item := invalidItem;
      }
    }

    /** Assignment through the indexing operator: past the ends it overwrites the invalid item. */
    method Set(index: int, item: T)
      requires Valid()
      modifies this, nodes
      ensures Valid() && nodes == old(nodes)
      ensures invalidItem == if 0 <= index < |old(items)| then old(invalidItem) else item
      ensures items == if 0 <= index < |old(items)| then old(items)[index := item] else old(items)
    {
      if ValidIndex(index) {
        var tmp := Element(index);
        Write(tmp, item, index);
      } else {
        invalidItem := item;
      }
    }

    /** Assignment through a node that is known to be at position `index`. */
    method Write(it: ListElement<T>, item: T, ghost index: nat)
      requires Valid() && index < |chain| && it == chain[index]
      modifies it`data, this`items
      ensures Valid() && items == old(items)[index := item]
    {
      it.data := item;
      items := items[index := item];
    }

    method Remove(index: int)
      requires Valid()
      modifies this, nodes
      ensures Valid() && nodes == old(nodes) && invalidItem == old(invalidItem)
      ensures items == Without(old(items), index)
    {
      if ValidIndex(index) {
        var current := Element(index);
        var next := current.next;
        var isLast := next == null;
        current.next := null;
        if 0 == index {
          elements := next;
          if isLast {
            lastElement := elements;
          }
        } else {
          var previous := Element(index - 1);
          previous.next := next;
          if isLast {
            lastElement := previous;
          }
        }
        size := size - 1;
        chain, items := Without(chain, index), Without(items, index);
        WithoutDistinct(old(chain), index);
        Relinked(index);
      }
    }

    /** Once the predecessor of an unlinked node leads to its successor, the rest is linked. */
    twostate lemma {:induction false} Relinked(index: int)
      requires old(Valid()) && 0 <= index < |old(chain)| && nodes == old(nodes)
      requires chain == Without(old(chain), index) && items == Without(old(items), index)
      requires elements == NodeAt(chain, 0) && Distinct(chain)
      requires lastElement == if index + 1 < |old(chain)| then old(lastElement) else old(NodeAt(chain, index - 1))
      requires index > 0 ==> old(chain)[index - 1].next == old(NodeAt(chain, index + 1))
      requires forall n {:trigger n.data} :: n in nodes ==> n.data == old(n.data)
      requires forall n {:trigger n.next} ::
                 n in nodes && n != old(chain)[index] && (index > 0 ==> n != old(chain)[index - 1]) ==>
                 n.next == old(n.next)
      ensures Linked() && lastElement == NodeAt(chain, |chain| - 1)
    {
      forall i | 0 <= i < |chain|
        ensures chain[i] in nodes && chain[i].data == items[i] && chain[i].next == NodeAt(chain, i + 1)
      {
        var was := if index <= i then i + 1 else i;
        assert chain[i] == old(chain)[was];
        assert old(chain[was]) in nodes && old(chain[was].data) == old(items[was]);
        assert old(chain[was]).next == NodeAt(old(chain), if was + 1 == index then was + 2 else was + 1);
      }
    }

    method TakeFront() returns (item: T)
      requires Valid()
      modifies this, nodes
      ensures Valid() && nodes == old(nodes) && invalidItem == old(invalidItem)
      ensures if old(items) == [] then item == invalidItem && items == []
              else item == old(items)[0] && items == old(items)[1..]
    {
      item := invalidItem;
      if !IsEmpty() {
        var current := Element(0);
        var next := current.next;
        current.next := null;
        item := current.data;
        elements := next;
        size := size - 1;
        chain, items := chain[1..], items[1..];
      }
      if IsEmpty() {
        lastElement := null;
      }
    }

    method Pop()
      requires Valid()
      modifies this, nodes
      ensures Valid() && nodes == old(nodes) && invalidItem == old(invalidItem)
      ensures items == if old(items) == [] then [] else old(items)[1..]
    {
      if !IsEmpty() {
        var current := Element(0);
        var next := current.next;
        current.next := null;
        elements := next;
        size := size - 1;
        chain, items := chain[1..], items[1..];
      }
      if IsEmpty() {
        lastElement := null;
      }
    }

    /** Puts an item in front. On an empty list `lastElement` is left behind, and only then is the list
        no longer well formed. */
    method Push(item: T)
      requires Valid()
      modifies this
      ensures Linked() && size == |chain| && fresh(nodes - old(nodes)) && invalidItem == old(invalidItem)
      ensures items == [item] + old(items)
      ensures Valid() <==> old(items) != []
    {
      var e := new ListElement<T>(item);
      if !IsEmpty() {
        var firstElement := elements;
        e.next := firstElement;
      }
      elements := e;
      size := size + 1;
      chain, items, nodes := [e] + chain, [item] + items, nodes + {e};
    }

    method IndexOf(matches: T -> bool) returns (ret: int)
      requires Valid()
      ensures ret == FirstIndex(items, matches)
    {
      ret := -1;
      if !IsEmpty() {
        var n := 0;
        var tmp := elements;
        while tmp != null
          invariant 0 <= n <= |chain| && tmp == NodeAt(chain, n)
          invariant forall i :: 0 <= i < n ==> !matches(items[i])
          decreases |chain| - n
        {
          if matches(tmp.data) {
            ret := n;
            break;
          }
          tmp := tmp.next;
          n := n + 1;
        }
      }
      FirstIsUnique(items, matches, ret);
    }

    method Clear()
      requires Valid()
      modifies this
      ensures Valid() && nodes == old(nodes) && items == [] && invalidItem == old(invalidItem)
    {
      if !IsEmpty() {
        elements := null;
        lastElement := null;
        size := 0;
        chain, items := [], [];
      }
    }

    function Count(): (r: int)
      requires Valid()
      reads this, nodes
      ensures r == |items|
    {
      size
    }

    predicate IsEmpty()
      requires Linked()
      reads this, nodes
      ensures IsEmpty() <==> items == []
    {
      elements == null
    }

    predicate ValidIndex(index: int)
      reads this
    {
      0 <= index && index < size
    }

    /** The node at a position, found by walking the links up to it. */
    method Element(index: int) returns (node: ListElement<T>)
      requires 0 <= index < |chain| && elements == chain[0]
      requires forall i {:trigger chain[i].next} :: 0 <= i < index ==> chain[i].next == chain[i + 1]
      ensures node == chain[index]
    {
      var walk := elements;
      for n := 0 to index
        invariant walk == chain[n]
      {
        walk := walk.next;
      }
      node := walk;
    }
  }

  lemma {:induction false} FirstIsUnique<T>(s: seq<T>, matches: T -> bool, k: int)
    requires -1 <= k < |s|
    requires k >= 0 ==> matches(s[k]) && forall i :: 0 <= i < k ==> !matches(s[i])
    requires k == -1 ==> forall i :: 0 <= i < |s| ==> !matches(s[i])
    ensures k == FirstIndex(s, matches)
  {
  }
}
