/** lib/_linklist.js: intrusive circular doubly linked lists. A list head is an item too. The firing order
    of a list follows `idlePrev` from the head, so `peek` is the item that fires first. */
module LinkList {
  class Item {
    var idleNext: Item?
    var idlePrev: Item?
    var idleStart: int
    var idleTimeout: int
    /** Whether it has a callback. */
    const onTimeout: bool

    constructor (onTimeout: bool)
      ensures idleNext == null && idlePrev == null && this.onTimeout == onTimeout
    {
      idleNext, idlePrev, idleStart, idleTimeout := null, null, 0, -1;
      this.onTimeout := onTimeout;
    }
  }

  /** The i-th item in firing order; the head comes before the first and after the last. */
  function At(list: Item, ring: seq<Item>, i: int): Item {
    if 0 <= i < |ring| then ring[i] else list
  }

  ghost predicate LinkedAt(list: Item, ring: seq<Item>, i: int)
    reads list`idleNext, list`idlePrev, ring`idleNext, ring`idlePrev
  {
    At(list, ring, i).idlePrev == At(list, ring, i + 1) && At(list, ring, i + 1).idleNext == At(list, ring, i)
  }

  ghost predicate Distinct(list: Item, ring: seq<Item>) {
    list !in ring && forall i, j :: 0 <= i < j < |ring| ==> ring[i] != ring[j]
  }

  /** The head and the items form a ring. */
  ghost predicate Ring(list: Item, ring: seq<Item>)
    reads list`idleNext, list`idlePrev, ring`idleNext, ring`idlePrev
  {
    Distinct(list, ring) && forall i :: -1 <= i < |ring| ==> LinkedAt(list, ring, i)
  }

  ghost function Members(list: Item, ring: seq<Item>): set<Item> {
    {list} + set x | x in ring
  }

  /** An item whose neighbours, if any, are in no part of the ring. */
  ghost predicate Apart(item: Item, list: Item, ring: seq<Item>)
    reads item
  {
    && item !in Members(list, ring)
    && (item.idleNext != null ==> item.idleNext !in Members(list, ring))
    && (item.idlePrev != null ==> item.idlePrev !in Members(list, ring))
  }

  method Init(list: Item)
    modifies list`idleNext, list`idlePrev
    ensures Ring(list, [])
  {
    list.idleNext := list;
    list.idlePrev := list;
  }

  method Peek(list: Item, ghost ring: seq<Item>) returns (first: Item?)
    requires Ring(list, ring)
    ensures first == if ring == [] then null else ring[0]
  {
    assert LinkedAt(list, ring, -1);
    if list.idlePrev == list {
      first := null;
    } else {
      first := list.idlePrev;
    }
  }

  method IsEmpty(list: Item, ghost ring: seq<Item>) returns (empty: bool)
    requires Ring(list, ring)
    ensures empty <==> ring == []
  {
    assert LinkedAt(list, ring, |ring| - 1);
    empty := list.idleNext == list;
  }

  /** The ring without the item at place k; -1 is no place. */
  ghost function Without(ring: seq<Item>, k: int): seq<Item>
    requires -1 <= k < |ring|
  {
    if k == -1 then ring else ring[..k] + ring[k + 1..]
  }

  ghost function Neighbours(item: Item): set<Item>
    reads item
  {
    {item} + (if item.idleNext != null then {item.idleNext} else {}) + (if item.idlePrev != null then {item.idlePrev} else {})
  }

  /** An item of the ring has its neighbours there. */
  lemma NeighboursIn(item: Item, list: Item, ring: seq<Item>, k: int)
    requires Ring(list, ring) && 0 <= k < |ring| && ring[k] == item
    ensures item.idleNext != null && item.idlePrev != null
    ensures forall y :: y in Neighbours(item) ==> y == list || y in ring
  {
    assert LinkedAt(list, ring, k - 1) && LinkedAt(list, ring, k);
  }

  /** `remove`: the ring the item is in closes behind it; k is its place in `ring`, or -1 if it is in none
      of it. */
  method Remove(item: Item, ghost list: Item, ghost ring: seq<Item>, ghost k: int)
    requires Ring(list, ring)
    requires if k == -1 then Apart(item, list, ring) else 0 <= k < |ring| && ring[k] == item
    modifies Neighbours(item)`idleNext, Neighbours(item)`idlePrev
    ensures item.idleNext == null && item.idlePrev == null
    ensures var next, prev := old(item.idleNext), old(item.idlePrev);
            && (next != null && next != item ==> next.idlePrev == prev && (next != prev ==> next.idleNext == old(next.idleNext)))
            && (prev != null && prev != item ==> prev.idleNext == next && (next != prev ==> prev.idlePrev == old(prev.idlePrev)))
    ensures Ring(list, Without(ring, k))
  {
    if k >= 0 {
      assert LinkedAt(list, ring, k - 1) && LinkedAt(list, ring, k);
    }
    if item.idleNext != null {
      item.idleNext.idlePrev := item.idlePrev;
    }
    if item.idlePrev != null {
      item.idlePrev.idleNext := item.idleNext;
    }
    item.idleNext := null;
    item.idlePrev := null;
    ghost var rest := Without(ring, k);
    forall i | -1 <= i < |rest|
      ensures LinkedAt(list, rest, i)
    {
      if k == -1 {
        assert old(LinkedAt(list, ring, i));
      } else if i < k - 1 {
        assert old(LinkedAt(list, ring, i));
      } else if i == k - 1 {
        assert At(list, rest, i) == At(list, ring, i) && At(list, rest, i + 1) == At(list, ring, i + 2);
      } else {
        assert old(LinkedAt(list, ring, i + 1));
        assert At(list, rest, i) == At(list, ring, i + 1) && At(list, rest, i + 1) == At(list, ring, i + 2);
      }
    }
  }

  /** `shift`: the item that fires first leaves the ring. */
  method Shift(list: Item, ghost ring: seq<Item>) returns (first: Item)
    requires Ring(list, ring) && ring != []
    modifies Neighbours(ring[0])`idleNext, Neighbours(ring[0])`idlePrev
    ensures first == ring[0] && first.idleNext == null && first.idlePrev == null
    ensures Ring(list, ring[1..])
  {
    assert LinkedAt(list, ring, -1);
    first := list.idlePrev;
    Remove(first, list, ring, 0);
    assert ring[..0] + ring[1..] == ring[1..];
  }

  /** `append(cur, item)`: the item leaves its place j in the ring, if it has one, and comes right before `cur` in
      firing order, k being the place of `cur` then; with the head for `cur` it comes last. */
  method Append(cur: Item, item: Item, ghost list: Item, ghost ring: seq<Item>, ghost j: int, ghost k: nat)
    requires Ring(list, ring) && item != list
    requires if j == -1 then Apart(item, list, ring) else 0 <= j < |ring| && ring[j] == item
    requires k <= |Without(ring, j)| && cur == At(list, Without(ring, j), k)
    modifies Neighbours(item)`idleNext, Neighbours(item)`idlePrev
    modifies cur`idleNext, At(list, Without(ring, j), k - 1)`idlePrev
    ensures Ring(list, Without(ring, j)[..k] + [item] + Without(ring, j)[k..])
  {
    Remove(item, list, ring, j);
    Link(cur, item, list, Without(ring, j), k);
  }

  /** `append` once the item is detached. */
  method Link(cur: Item, item: Item, ghost list: Item, ghost ring: seq<Item>, ghost k: nat)
    requires Ring(list, ring) && k <= |ring| && cur == At(list, ring, k)
    requires item !in Members(list, ring) && item.idleNext == null && item.idlePrev == null
    modifies cur`idleNext, At(list, ring, k - 1)`idlePrev, item`idleNext, item`idlePrev
    ensures Ring(list, ring[..k] + [item] + ring[k..])
  {
    assert LinkedAt(list, ring, k - 1);
    item.idleNext := cur.idleNext;
    cur.idleNext.idlePrev := item;
    item.idlePrev := cur;
    cur.idleNext := item;
    ghost var more := ring[..k] + [item] + ring[k..];
    forall i | -1 <= i < |more|
      ensures LinkedAt(list, more, i)
    {
      if i < k - 1 {
        assert old(LinkedAt(list, ring, i));
      } else if i > k {
        assert old(LinkedAt(list, ring, i - 1));
        assert At(list, more, i) == At(list, ring, i - 1) && At(list, more, i + 1) == At(list, ring, i);
      } else {
        assert At(list, more, k - 1) == At(list, ring, k - 1) && At(list, more, k + 1) == cur;
      }
    }
  }
}
