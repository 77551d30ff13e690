/** The unref'd timers of lib/timers.js: a linked ring of items kept in firing order, and one native timer armed for the
    earliest of them. The ghost fields give the ring and the clocks as the values of TimerRing. */
module Timers {
  import opened Wrappers
  import opened TimerRing
  import L = LinkList

  predicate Detached(x: Item)
    reads x`idleNext, x`idlePrev
  {
    x.idleNext == null && x.idlePrev == null
  }

  /** How `enroll` ends. */
  datatype Outcome = Done | TypeError | RangeError

  /** An item outside the ring: in no list, or with its neighbours in a list that is elsewhere. An item linked to
      itself, as `enroll` leaves it, is its own neighbour. */
  ghost predicate Elsewhere(x: Item, ring: seq<Item>, items: set<Item>)
    requires x in items
    reads items`idleNext, items`idlePrev
  {
    if x.idleNext == null then x.idlePrev == null
    else
      && x.idleNext in items && x.idleNext !in ring && x.idleNext.idlePrev == x
      && x.idlePrev != null && x.idlePrev in items && x.idlePrev !in ring && x.idlePrev.idleNext == x
  }

  ghost predicate OthersElsewhere(ring: seq<Item>, items: set<Item>)
    reads items`idleNext, items`idlePrev
  {
    forall x :: x in items && x !in ring ==> Elsewhere(x, ring, items)
  }

  /** The clocks are those of the items. */
  ghost predicate Tied(c: Clocks, items: set<Item>)
    reads items`idleStart, items`idleTimeout
  {
    forall x :: x in items ==> x in c.idleStart && x in c.idleTimeout && c.idleStart[x] == x.idleStart && c.idleTimeout[x] == x.idleTimeout
  }

  lemma TiedItem(c: Clocks, items: set<Item>, item: Item)
    requires Tied(c, items) && item in items
    ensures c.Expiry(item) == item.idleStart + item.idleTimeout
  {
  }

  /** The place of an item in a ring, or -1; removing it is taking that place out. */
  lemma PlaceOf(ring: seq<Item>, item: Item) returns (k: int)
    requires Distinct(ring)
    ensures -1 <= k < |ring| && (if k == -1 then item !in ring else ring[k] == item)
    ensures k == -1 <==> item !in ring
    ensures Removed(ring, item) == L.Without(ring, k) && item !in Removed(ring, item)
    ensures forall i :: 0 <= i < |Removed(ring, item)| ==> Removed(ring, item)[i] in ring
    ensures forall i :: 0 <= i < |ring| && ring[i] != item ==> ring[i] in Removed(ring, item)
  {
    RemovedMembers(ring, item);
    k := -1;
    if item in ring {
      k :| 0 <= k < |ring| && ring[k] == item;
      RemovedAt(ring, k);
    }
  }

  /** The head and the ring are linked, and the other items are in no list or in others. */
  ghost predicate LinkedIn(list: Item, ring: seq<Item>, items: set<Item>)
    reads list`idleNext, list`idlePrev, items`idleNext, items`idlePrev
  {
    && list !in items && (forall i :: 0 <= i < |ring| ==> ring[i] in items)
    && L.Ring(list, ring)
    && OthersElsewhere(ring, items)
  }

  /** The ring is linked, has the clocks of its items, and is in order of expiry. */
  ghost predicate Sound(list: Item, ring: seq<Item>, items: set<Item>, c: Clocks)
    reads list`idleNext, list`idlePrev, items`idleNext, items`idlePrev, items`idleStart, items`idleTimeout
  {
    LinkedIn(list, ring, items) && Tied(c, items) && Ordered(ring, c)
  }

  ghost function ClocksOf(items: set<Item>): Clocks
    reads items`idleStart, items`idleTimeout
  {
    Clocks(map x | x in items :: x.idleStart, map x | x in items :: x.idleTimeout)
  }

  lemma Begins(list: Item, items: set<Item>)
    requires list !in items && L.Ring(list, []) && OthersElsewhere([], items)
    ensures Sound(list, [], items, ClocksOf(items))
  {
    hide L.Ring, OthersElsewhere;
  }

  lemma RingDistinct(list: Item, ring: seq<Item>)
    requires L.Ring(list, ring)
    ensures Distinct(ring) && list !in ring
  {
  }

  /** While something waits, the native timer was started for `when` and that is not too late, unless a pass is `busy`. */
  ghost predicate Punctual(ring: seq<Item>, c: Clocks, busy: bool, armedAt: Option<int>, when: int) {
    ring != [] ==> busy || (armedAt == Some(when) && when <= c.Expiry(ring[0]))
  }

  /** Whether the native timer is started for an entry that was put in the ring to expire at t. */
  predicate Starts(empty: bool, last: bool, when: int, t: int) {
    empty || (!last && when > t)
  }

  lemma StillPunctual(ring: seq<Item>, c: Clocks, busy: bool, armedAt: Option<int>, when: int, item: Item, k: nat, ring': seq<Item>)
    requires Punctual(ring, c, busy, armedAt, when) && k == Place(ring, c, c.Expiry(item))
    requires ring' != [] && ring'[0] == if k == 0 then item else ring[0]
    ensures k <= |ring|
    ensures var t, starts := c.Expiry(item), Starts(ring == [], k == |ring|, when, c.Expiry(item));
            Punctual(ring', c, busy, if starts then Some(t) else armedAt, if starts then t else when)
  {
  }

  class UnrefTimers {
    /** `unrefList`, the head of the ring. */
    const list: Item
    /** The items in play, and the heads of the other lists they may be in. */
    ghost const items: set<Item>
    ghost var ring: seq<Item>
    ghost var clocks: Clocks
    var when: int
    /** What the native timer was started for, if it is, counted from the time that the code had read. The native start
        counts from the time of the event loop, which callbacks may have moved on; only `when` is exact. */
    var armedAt: Option<int>
    /** A pass is running, or one was scheduled because a callback threw. */
    var passing: bool
    var rerun: bool

    ghost predicate Linked()
      reads `ring, list`idleNext, list`idlePrev, items`idleNext, items`idlePrev
    {
      LinkedIn(list, ring, items)
    }

    /** The native timer is not too late, unless a pass is running or about to run. */
    ghost predicate OnTime()
      reads this
    {
      Punctual(ring, clocks, passing || rerun, armedAt, when)
    }

    ghost predicate Valid()
      reads this, list, items
    {
      Sound(list, ring, items, clocks) && OnTime()
    }

    ghost function View(): TimerRing.Timers
      reads this
    {
      TimerRing.Timers(ring, clocks)
    }

    constructor (ghost items: set<Item>)
      requires OthersElsewhere([], items)
      ensures Valid() && ring == [] && !passing && !rerun && this.items == items && fresh(list)
    {
      hide OthersElsewhere, L.Ring, Sound, ClocksOf;
      list := new L.Item(false);
      this.items := items;
      ring := [];
      clocks := ClocksOf(items);
      when, armedAt, passing, rerun := -1, None, false, false;
      new;
      L.Init(list);
      Begins(list, items);
    }

    /** Between the calls other code may have moved the items outside the ring to other lists and set their clocks. */
    ghost method Observe()
      requires Linked() && Ordered(ring, clocks) && OnTime()
      requires forall i :: 0 <= i < |ring| ==> SameClock(clocks, ClocksOf(items), ring[i])
      modifies `clocks
      ensures Valid() && clocks == ClocksOf(items)
    {
      hide LinkedIn;
      OrderedElsewhere(ring, clocks, ClocksOf(items));
      clocks := ClocksOf(items);
    }

    method Start(msecs: int, now: int)
      modifies `armedAt, `when
      ensures armedAt == Some(now + msecs) && when == now + msecs
    {
      armedAt := Some(now + msecs);
      when := now + msecs;
    }

    /** `L.remove(item)`. */
    method TakeOut(item: Item)
      requires Linked() && item in items
      modifies `ring, list`idleNext, list`idlePrev, items`idleNext, items`idlePrev
      ensures Linked() && ring == Removed(old(ring), item) && Detached(item) && item !in ring
    {
      hide Removed, L.Ring, L.Without, OthersElsewhere, L.Apart, L.Neighbours;
      RingDistinct(list, ring);
      ghost var k := PlaceOf(ring, item);
      NeighboursAre(k, item);
      Remove(k, item, Removed(ring, item));
      ring := Removed(ring, item);
    }

    /** An item has its neighbours in the ring, or in other lists. */
    lemma NeighboursAre(k: int, item: Item)
      requires Linked() && item in items && -1 <= k < |ring| && if k == -1 then item !in ring else ring[k] == item
      ensures item in ring ==> forall y :: y in L.Neighbours(item) ==> y == list || y in ring
      ensures item !in ring ==> L.Apart(item, list, ring)
      ensures forall y :: y in L.Neighbours(item) ==> y == list || y in items
    {
      if k == -1 {
        assert Elsewhere(item, ring, items);
      } else {
        L.NeighboursIn(item, list, ring, k);
      }
    }

    /** An item that leaves its list, be it the ring or another, leaves every other list linked. */
    method Remove(ghost k: int, item: Item, ghost rest: seq<Item>)
      requires L.Ring(list, ring) && OthersElsewhere(ring, items) && list !in items && item in items
      requires -1 <= k < |ring| && if k == -1 then item !in ring && L.Apart(item, list, ring) else ring[k] == item
      requires forall y :: y in L.Neighbours(item) ==> y == list || y in items
      requires item in ring ==> forall y :: y in L.Neighbours(item) ==> y == list || y in ring
      requires (forall i :: 0 <= i < |rest| ==> rest[i] in ring) && (forall x :: x in ring && x != item ==> x in rest)
      modifies L.Neighbours(item)`idleNext, L.Neighbours(item)`idlePrev
      ensures Detached(item) && L.Ring(list, L.Without(ring, k)) && OthersElsewhere(rest, items)
    {
      hide L.Ring, L.Without;
      assert item !in ring ==> Elsewhere(item, ring, items);
      L.Remove(item, list, ring, k);
      forall x | x in items && x !in rest
        ensures Elsewhere(x, rest, items)
      {
        if x != item {
          assert old(Elsewhere(x, ring, items));
        }
      }
    }

    /** `L.append(cur, item)` for an item in no list. */
    method PutBefore(cur: Item, item: Item, ghost k: nat)
      requires Linked() && item in items && item !in ring && Detached(item) && k <= |ring| && cur == L.At(list, ring, k)
      modifies `ring, list`idleNext, list`idlePrev, items`idleNext, items`idlePrev
      ensures Linked() && ring == Inserted(old(ring), k, item)
      ensures old(Tied(clocks, items)) ==> Tied(clocks, items)
    {
      hide L.Ring, OthersElsewhere, Inserted, L.At;
      InsertedMembers(ring, k, item);
      Link(cur, item, k);
      ring := Inserted(ring, k, item);
    }

    method Link(cur: Item, item: Item, ghost k: nat)
      requires L.Ring(list, ring) && OthersElsewhere(ring, items) && list !in items && item in items && item !in ring
      requires (forall i :: 0 <= i < |ring| ==> ring[i] in items) && Detached(item) && k <= |ring| && cur == L.At(list, ring, k)
      modifies list`idleNext, list`idlePrev, items`idleNext, items`idlePrev
      ensures L.Ring(list, Inserted(ring, k, item)) && OthersElsewhere(Inserted(ring, k, item), items)
    {
      hide L.Ring;
      InsertedMembers(ring, k, item);
      L.Append(cur, item, list, ring, -1, k);
      forall x | x in items && x !in Inserted(ring, k, item)
        ensures Elsewhere(x, Inserted(ring, k, item), items)
      {
        assert old(Elsewhere(x, ring, items));
      }
    }

    /** The search loop of `_unrefActive`: from the entry that fires first to the first one that expires after t, or the
        head. */
    method FindPlace(t: int) returns (cur: Item, ghost k: nat)
      requires Linked() && Tied(clocks, items)
      ensures k == Place(ring, clocks, t) && cur == L.At(list, ring, k)
    {
      k := 0;
      assert L.LinkedAt(list, ring, -1);
      cur := list.idlePrev;
      while cur != list
        invariant k <= |ring| && cur == L.At(list, ring, k)
        invariant forall i :: 0 <= i < k ==> clocks.Expiry(ring[i]) <= t
        decreases |ring| - k
      {
        assert k < |ring| && ring[k] in items;
        if t < cur.idleStart + cur.idleTimeout {
          break;
        }
        assert L.LinkedAt(list, ring, k);
        cur := cur.idlePrev;
        k := k + 1;
      }
      PlaceIs(ring, clocks, t, k);
    }

    /** `_unrefActive`. */
    method UnrefActive(item: Item, now: int)
      requires Valid() && item in items
      modifies `ring, `clocks, `when, `armedAt, list`idleNext, list`idlePrev, items`idleNext, items`idlePrev, item`idleStart
      ensures Valid() && View() == Armed(old(View()), item, now)
    {
      var msecs := item.idleTimeout;
      if msecs <= 0 {
        return;
      }
      ghost var before := View();
      ArmedOrdered(before, item, now);
      Restart(item, now);
      hide Ordered, Removed, Place, Inserted, LinkedIn;
      Insert(item, now);
    }

    /** The first half: the item is taken out and its clock restarted. */
    method Restart(item: Item, now: int)
      requires Valid() && item in items
      modifies `ring, `clocks, list`idleNext, list`idlePrev, items`idleNext, items`idlePrev, item`idleStart
      ensures Linked() && Tied(clocks, items) && OnTime() && item !in ring && Detached(item)
      ensures ring == Removed(old(ring), item) && clocks == Started(old(clocks), item, now)
    {
      hide Removed, Ordered, LinkedIn;
      StartedClock(clocks, item, now, items);
      MembersIn();
      RestLater(View(), item, Started(clocks, item, now));
      TakeOut(item);
      item.idleStart := now;
      clocks := Started(clocks, item, now);
    }

    /** The second half: the item is put in its place, and the native timer started if it would be too late. */
    method Insert(item: Item, now: int)
      requires Linked() && Tied(clocks, items) && OnTime() && item in items && item !in ring
      requires item.idleStart == now && Detached(item)
      modifies `ring, `when, `armedAt, list`idleNext, list`idlePrev, items`idleNext, items`idlePrev
      ensures Linked() && Tied(clocks, items) && OnTime()
      ensures ring == Inserted(old(ring), Place(old(ring), clocks, now + item.idleTimeout), item)
    {
      hide LinkedIn, Tied, Place, Inserted, Punctual;
      var msecs := item.idleTimeout;
      TiedItem(clocks, items, item);
      ghost var before := ring;
      var empty, last := Put(item, now + msecs);
      StillPunctual(before, clocks, passing || rerun, armedAt, when, item, Place(before, clocks, now + msecs), ring);
      if Starts(empty, last, when, now + msecs) {
        Start(msecs, now);
      }
    }

    /** The item goes before the first entry that expires after t, or last. */
    method Put(item: Item, t: int) returns (empty: bool, last: bool)
      requires Linked() && Tied(clocks, items) && item in items && item !in ring && Detached(item)
      modifies `ring, list`idleNext, list`idlePrev, items`idleNext, items`idlePrev
      ensures Linked() && Tied(clocks, items)
      ensures ring == Inserted(old(ring), Place(old(ring), clocks, t), item)
      ensures empty == (old(ring) == []) && last == (Place(old(ring), clocks, t) == |old(ring)|)
      ensures ring != [] && ring[0] == if Place(old(ring), clocks, t) == 0 then item else old(ring)[0]
    {
      assert L.Ring(list, ring);
      empty := L.IsEmpty(list, ring);
      var cur, k := FindPlace(t);
      last := cur == list;
      assert last == (k == |ring|);
      FirstInserted(ring, k, item);
      hide LinkedIn, Tied, Place, Inserted;
      PutBefore(cur, item, k);
    }

    /** `unenroll`, as far as this list goes. */
    method Unenroll(item: Item)
      requires Valid() && item in items
      modifies `ring, `clocks, list`idleNext, list`idlePrev, items`idleNext, items`idlePrev, item`idleTimeout
      ensures Valid() && View() == Dropped(old(View()), item) && Detached(item)
    {
      hide Removed, Ordered, LinkedIn;
      ResetOrdered(View(), item, -1);
      RestLater(View(), item, Timed(clocks, item, -1));
      TakeOut(item);
      item.idleTimeout := -1;
      clocks := Timed(clocks, item, -1);
    }

    /** `enroll`: the item leaves the list it is in, and is linked to itself with a new timeout, not running yet. */
    method Enroll(item: Item, amount: Msecs) returns (r: Outcome)
      requires Valid() && item in items
      modifies `ring, `clocks, list`idleNext, list`idlePrev, items`idleNext, items`idlePrev, item`idleTimeout
      ensures Valid() && View() == Enrolled(old(View()), item, amount)
      ensures r == if amount.NoNumber? then TypeError else if amount.NotFinite? || amount.msecs < 0 then RangeError else Done
      ensures r.Done? ==> item !in ring && item.idleNext == item && item.idlePrev == item && item.idleTimeout == Clamped(amount.msecs)
      ensures !r.Done? ==> forall x :: x in items ==> x.idleNext == old(x.idleNext) && x.idlePrev == old(x.idlePrev)
    {
      if amount.NoNumber? {
        return TypeError;
      }
      if amount.NotFinite? || amount.msecs < 0 {
        return RangeError;
      }
      hide Reset, LinkedIn, Ordered, Tied, Clamped;
      ghost var before := View();
      if item.idleNext != null {
        Unenroll(item);
      } else {
        NoLinks(item);
      }
      ResetAgain(before, View(), item, Clamped(amount.msecs));
      SetUp(item, Clamped(amount.msecs));
      r := Done;
    }

    lemma StaysOrdered(item: Item, msecs: int)
      requires Valid() && item !in ring
      ensures Ordered(ring, Timed(clocks, item, msecs)) && (ring != [] ==> Timed(clocks, item, msecs).Expiry(ring[0]) == clocks.Expiry(ring[0]))
    {
      OrderedElsewhere(ring, clocks, Timed(clocks, item, msecs));
    }

    /** The end of `enroll`. */
    method SetUp(item: Item, msecs: int)
      requires Valid() && item in items && item !in ring && Detached(item)
      modifies `clocks, item`idleNext, item`idlePrev, item`idleTimeout
      ensures Valid() && ring == old(ring) && clocks == Timed(old(clocks), item, msecs)
      ensures item.idleNext == item && item.idlePrev == item && item.idleTimeout == msecs
    {
      hide LinkedIn, Ordered;
      StaysOrdered(item, msecs);
      item.idleTimeout := msecs;
      LinkToItself(item);
      clocks := Timed(clocks, item, msecs);
    }

    method LinkToItself(item: Item)
      requires Linked() && item in items && item !in ring && Detached(item)
      modifies item`idleNext, item`idlePrev
      ensures Linked() && item.idleNext == item && item.idlePrev == item
    {
      hide L.Ring;
      L.Init(item);
      Itself(item);
      forall x | x in items && x !in ring
        ensures Elsewhere(x, ring, items)
      {
        assert old(Elsewhere(x, ring, items));
      }
    }

    lemma Itself(item: Item)
      requires L.Ring(item, [])
      ensures item.idleNext == item && item.idlePrev == item
    {
      assert L.LinkedAt(item, [], -1);
    }

    /** An item without links is in no list. */
    lemma NoLinks(item: Item)
      requires Valid() && item in items && item.idleNext == null
      ensures item !in ring && Detached(item)
    {
      forall k | 0 <= k < |ring|
        ensures ring[k].idleNext != null
      {
        L.NeighboursIn(ring[k], list, ring, k);
      }
      assert Elsewhere(item, ring, items);
    }

    /** `setTimeout` of a socket: whatever list the item is in, or none, it then waits in the ring for its new timeout. */
    method SetTimeout(item: Item, amount: Msecs, now: int) returns (r: Outcome)
      requires Valid() && item in items
      modifies `ring, `clocks, `when, `armedAt, list`idleNext, list`idlePrev
      modifies items`idleNext, items`idlePrev, item`idleStart, item`idleTimeout
      ensures Valid()
      ensures amount == Finite(0) ==> View() == Dropped(old(View()), item) && Detached(item)
      ensures amount != Finite(0) ==> View() == if r.Done? then Armed(Enrolled(old(View()), item, amount), item, now) else old(View())
      ensures r.Done? <==> amount.Finite? && amount.msecs >= 0
      ensures r.Done? && amount != Finite(0) ==> item in ring && clocks.Expiry(item) == now + if amount.msecs > 2147483647 then 2147483647 else amount.msecs
    {
      hide LinkedIn, Ordered, Tied, Reset, Removed, Inserted, Place;
      if amount == Finite(0) {
        Unenroll(item);
        return Done;
      }
      ghost var before := View();
      r := Enroll(item, amount);
      if r.Done? {
        EnrolledArms(before, item, amount, now);
        UnrefActive(item, now);
      }
    }

    /** What a callback does to the timers. */
    method RunCallback(ops: seq<Op>)
      requires Valid() && forall i :: 0 <= i < |ops| ==> ops[i].item in items
      modifies `ring, `clocks, `when, `armedAt, list`idleNext, list`idlePrev
      modifies items`idleNext, items`idlePrev, items`idleStart, items`idleTimeout
      ensures Valid() && View() == AfterAll(old(View()), ops)
    {
      hide Ordered, LinkedIn, Tied, Armed, Dropped, Enrolled;
      ghost var before := View();
      for i := 0 to |ops|
        invariant Valid() && View() == AfterAll(before, ops[..i])
      {
        assert ops[..i + 1][..i] == ops[..i];
        match ops[i] {
          case Arm(item, at) => UnrefActive(item, at);
          case Drop(item) => Unenroll(item);
          case Enrol(item, amount) => var _ := Enroll(item, amount);
        }
      }
      assert ops[..|ops|] == ops;
    }

    /** One turn: the first entry leaves the ring, and its callback runs if it has one. */
    method Fire(first: Item, callback: Callback) returns (ran: bool)
      requires Valid() && passing && ring != [] && first == ring[0]
      requires forall i :: 0 <= i < |callback.ops| ==> callback.ops[i].item in items
      modifies `ring, `clocks, `when, `armedAt, list`idleNext, list`idlePrev
      modifies items`idleNext, items`idlePrev, items`idleStart, items`idleTimeout
      ensures Valid() && ran == first.onTimeout
      ensures View() == AfterAll(Without(old(View())), if ran then callback.ops else [])
    {
      TailOrdered(ring, clocks);
      assert first in items;
      hide Ordered;
      TakeOut(first);
      ran := first.onTimeout;
      hide LinkedIn, Tied, AfterAll;
      if ran {
        RunCallback(callback.ops);
      }
    }

    /** The items with a callback. */
    ghost function Live(): set<Item> {
      set x | x in items && x.onTimeout
    }

    /** `L.peek(unrefList)`. */
    method First() returns (first: L.Item?)
      requires Sound(list, ring, items, clocks)
      ensures first == if ring == [] then null else ring[0]
    {
      assert L.Ring(list, ring);
      hide L.Ring;
      first := L.Peek(list, ring);
    }

    /** The entry that fires first, if it has expired. */
    method FirstExpired(now: int) returns (first: L.Item?)
      requires Sound(list, ring, items, clocks)
      ensures first == null ==> ring == [] || clocks.Expiry(ring[0]) > now
      ensures first != null ==> ring != [] && first == ring[0] && first.idleStart + first.idleTimeout <= now
    {
      first := First();
      if first != null {
        TiedFirst();
        if now - first.idleStart < first.idleTimeout {
          first := null;
        }
      }
    }

    lemma MembersIn()
      requires Sound(list, ring, items, clocks)
      ensures AllIn(ring, items)
    {
    }

    /** One turn of the loop of `unrefTimeout`. */
    method TakeTurn(first: Item, fired: seq<Item>, callbacks: seq<Callback>, ghost now: int) returns (fired': seq<Item>, ran: bool)
      requires Valid() && passing && ring != [] && first == ring[0] && Allowed(callbacks, now, items)
      modifies `ring, `clocks, `when, `armedAt, list`idleNext, list`idlePrev
      modifies items`idleNext, items`idlePrev, items`idleStart, items`idleTimeout
      ensures Valid() && (View(), fired') == Turn(old(View()), fired, callbacks, Live())
      ensures ran == first.onTimeout && fired' == if ran then fired + [first] else fired
    {
      AllowedAt(callbacks, |fired|, now, items);
      MembersIn();
      assert first in items;
      hide Allowed, Ordered, LinkedIn, Tied;
      ran := Fire(first, CallbackAt(callbacks, |fired|));
      fired' := if ran then fired + [first] else fired;
    }

    /** The same, for a pass under way. */
    method PassOn(first: Item, fired: seq<Item>, callbacks: seq<Callback>, ghost now: int, ghost before: TimerRing.Timers, ghost n: nat)
      returns (fired': seq<Item>, threw: bool)
      requires Valid() && passing && ring != [] && first == ring[0] && Allowed(callbacks, now, items)
      requires first.idleStart + first.idleTimeout <= now && AllIn(before.ring, items)
      requires InPass(before, View(), fired, callbacks, Live(), now, n)
      modifies `ring, `clocks, `when, `armedAt, list`idleNext, list`idlePrev
      modifies items`idleNext, items`idlePrev, items`idleStart, items`idleTimeout
      ensures Valid() && InPass(before, View(), fired', callbacks, Live(), now, n + 1)
      ensures Due(View(), now) < old(Due(View(), now))
      ensures StoppedBy(callbacks, fired, false) ==> StoppedBy(callbacks, fired', threw)
    {
      hide LinkedIn, Tied, Ordered, Allowed, InPass, Due, AllIn;
      MembersIn();
      TiedFirst();
      InPassNext(before, View(), fired, callbacks, Live(), now, n, items);
      hide Turn;
      var ran;
      fired', ran := TakeTurn(first, fired, callbacks, now);
      threw := ran && CallbackAt(callbacks, |fired|).throws;
    }

    lemma TiedFirst()
      requires Sound(list, ring, items, clocks) && ring != []
      ensures clocks.Expiry(ring[0]) == ring[0].idleStart + ring[0].idleTimeout
    {
    }

    /** The body of the loop of `unrefTimeout`: a turn, or the end of the pass. */
    method Round(fired: seq<Item>, callbacks: seq<Callback>, now: int, ghost before: TimerRing.Timers, ghost n: nat)
      returns (fired': seq<Item>, threw: bool, more: bool, ghost n': nat)
      requires Valid() && passing && Allowed(callbacks, now, items) && AllIn(before.ring, items)
      requires InPass(before, View(), fired, callbacks, Live(), now, n) && StoppedBy(callbacks, fired, false)
      modifies `ring, `clocks, `when, `armedAt, list`idleNext, list`idlePrev
      modifies items`idleNext, items`idlePrev, items`idleStart, items`idleTimeout
      ensures Valid() && InPass(before, View(), fired', callbacks, Live(), now, n')
      ensures Due(View(), now) <= old(Due(View(), now)) && (more ==> Due(View(), now) < old(Due(View(), now)))
      ensures StoppedBy(callbacks, fired', threw) && (threw ==> !more)
      ensures !more && !threw && ring != [] ==> clocks.Expiry(ring[0]) > now
    {
      hide Sound, InPass, Due, Allowed, StoppedBy, AllIn;
      fired', threw, more, n' := fired, false, false, n;
      var first := FirstExpired(now);
      if first != null {
        fired', threw := PassOn(first, fired, callbacks, now, before, n);
        more, n' := !threw, n + 1;
      }
    }

    /** The loop of `unrefTimeout`. */
    method Pass(now: int, callbacks: seq<Callback>) returns (fired: seq<Item>, threw: bool, ghost n: nat)
      requires Valid() && passing && Allowed(callbacks, now, items)
      modifies `ring, `clocks, `when, `armedAt, list`idleNext, list`idlePrev
      modifies items`idleNext, items`idlePrev, items`idleStart, items`idleTimeout
      ensures Valid() && InPass(old(View()), View(), fired, callbacks, Live(), now, n)
      ensures StoppedBy(callbacks, fired, threw)
      ensures !threw && ring != [] ==> clocks.Expiry(ring[0]) > now
    {
      fired, threw, n := [], false, 0;
      assert StoppedBy(callbacks, fired, false);
      hide Sound, InPass, Due, Allowed, StoppedBy, AllIn;
      ghost var before := View();
      InPassBegins(before, callbacks, Live(), now);
      MembersIn();
      var more := true;
      while more
        invariant Valid() && InPass(before, View(), fired, callbacks, Live(), now, n)
        invariant StoppedBy(callbacks, fired, threw) && (threw ==> !more)
        invariant !more && !threw && ring != [] ==> clocks.Expiry(ring[0]) > now
        decreases Due(View(), now), more
      {
        fired, threw, more, n := Round(fired, callbacks, now, before, n);
      }
    }

    /** What the pass leaves `when` and the native timer with: nothing to wait for, the earliest entry, or another pass. */
    method Conclude(now: int, threw: bool)
      requires Valid() && (!threw && ring != [] ==> clocks.Expiry(ring[0]) > now)
      modifies `when, `armedAt, `passing, `rerun
      ensures Valid() && !passing && rerun == threw
      ensures !threw ==> if ring == [] then when == -1 else armedAt == Some(when) && when == clocks.Expiry(ring[0])
    {
      hide Sound;
      var first := First();
      passing, rerun := false, threw;
      if threw {
        return;
      }
      if first == null {
        when := -1;
      } else {
        TiedFirst();
        var diff := now - first.idleStart;
        Start(first.idleTimeout - diff, now);
      }
    }

    /** `unrefTimeout`: one pass at time `now`, of n turns. Only expired entries fire, once each and in order of expiry; the
        entries that no callback names fire, or stay as they are; unless a callback throws nothing expired is left and
        the native timer is armed for the earliest entry; and the pass ends although callbacks arm entries. */
    method UnrefTimeout(now: int, callbacks: seq<Callback>) returns (fired: seq<Item>, threw: bool, ghost n: nat)
      requires Valid() && Allowed(callbacks, now, items)
      modifies `ring, `clocks, `when, `armedAt, `passing, `rerun, list`idleNext, list`idlePrev
      modifies items`idleNext, items`idlePrev, items`idleStart, items`idleTimeout
      ensures Valid() && !passing && threw == rerun
      ensures (View(), fired) == Turns(old(View()), callbacks, Live(), n)
      ensures FiredInOrder(old(View()), fired, Live(), now)
      ensures Accounted(old(View()), View(), fired, Live(), NamedBy(callbacks, |fired|), now)
      ensures StoppedBy(callbacks, fired, threw)
      ensures !threw ==> Completed(old(View()), View(), fired, Live(), NamedBy(callbacks, |fired|), now)
      ensures !threw ==> if ring == [] then when == -1 else armedAt == Some(when) && when == clocks.Expiry(ring[0])
    {
      armedAt, passing, rerun := None, true, false;
      ghost var before := View();
      hide InPass, Allowed, FiredInOrder, Accounted, Turns, Completed, Ordered, LinkedIn, Tied;
      fired, threw, n := Pass(now, callbacks);
      InPassMeans(before, View(), fired, callbacks, Live(), now, n);
      assert Ordered(ring, clocks);
      if !threw {
        PassCompletes(before, View(), fired, Live(), NamedBy(callbacks, |fired|), now);
      }
      Conclude(now, threw);
    }
  }
}
