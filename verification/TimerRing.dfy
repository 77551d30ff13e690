/** The ring of unref'd timers of lib/timers.js as a value: its items in firing order and their clocks, and what arming,
    dropping and firing do to it. */
module TimerRing {
  import LinkList

  type Item = LinkList.Item

  /** The clock fields of the items. */
  datatype Clocks = Clocks(idleStart: map<Item, int>, idleTimeout: map<Item, int>) {
    function Timeout(x: Item): int {
      if x in idleTimeout then idleTimeout[x] else 0
    }

    function Expiry(x: Item): int {
      (if x in idleStart then idleStart[x] else 0) + Timeout(x)
    }
  }

  datatype Timers = Timers(ring: seq<Item>, clocks: Clocks)

  // ---- the order ----

  ghost predicate Distinct(ring: seq<Item>) {
    forall i, j :: 0 <= i < j < |ring| ==> ring[i] != ring[j]
  }

  ghost predicate Ascending(ring: seq<Item>, c: Clocks) {
    forall i, j :: 0 <= i < j < |ring| ==> c.Expiry(ring[i]) <= c.Expiry(ring[j])
  }

  ghost predicate Running(ring: seq<Item>, c: Clocks) {
    forall i :: 0 <= i < |ring| ==> c.Timeout(ring[i]) > 0
  }

  /** Distinct items with positive timeouts, in order of expiry. */
  ghost predicate Ordered(ring: seq<Item>, c: Clocks) {
    Distinct(ring) && Ascending(ring, c) && Running(ring, c)
  }

  /** `L.remove`. */
  ghost function Removed(ring: seq<Item>, item: Item): (r: seq<Item>)
    ensures |r| <= |ring|
    ensures item !in ring ==> r == ring
  {
    if ring == [] then [] else if ring[0] == item then ring[1..] else [ring[0]] + Removed(ring[1..], item)
  }

  /** `L.append(cur, item)` with the k-th entry for `cur`, or the head if k is the length. */
  ghost function Inserted(ring: seq<Item>, k: nat, item: Item): seq<Item>
    requires k <= |ring|
  {
    ring[..k] + [item] + ring[k..]
  }

  /** The first entry that expires after t, or the length. */
  ghost function Place(ring: seq<Item>, c: Clocks, t: int): (k: nat)
    ensures k <= |ring|
    ensures forall i :: 0 <= i < k ==> c.Expiry(ring[i]) <= t
    ensures k < |ring| ==> t < c.Expiry(ring[k])
  {
    if ring == [] || t < c.Expiry(ring[0]) then 0 else 1 + Place(ring[1..], c, t)
  }

  lemma {:induction false} PlaceIs(ring: seq<Item>, c: Clocks, t: int, k: nat)
    requires k <= |ring| && (forall i :: 0 <= i < k ==> c.Expiry(ring[i]) <= t) && (k < |ring| ==> t < c.Expiry(ring[k]))
    ensures Place(ring, c, t) == k
  {
    if k > 0 {
      assert c.Expiry(ring[0]) <= t;
      assert forall i :: 0 <= i < k - 1 ==> ring[1..][i] == ring[i + 1];
      PlaceIs(ring[1..], c, t, k - 1);
    }
  }

  lemma {:induction false} RemovedAt(ring: seq<Item>, k: nat)
    requires Distinct(ring) && k < |ring|
    ensures Removed(ring, ring[k]) == ring[..k] + ring[k + 1..]
  {
    if k > 0 {
      assert ring[0] != ring[k] && ring[1..][k - 1] == ring[k];
      RemovedAt(ring[1..], k - 1);
      assert ring[..k] + ring[k + 1..] == [ring[0]] + (ring[1..][..k - 1] + ring[1..][k..]);
    }
  }

  lemma {:induction false} RemovedMembers(ring: seq<Item>, item: Item)
    requires Distinct(ring)
    ensures item !in Removed(ring, item)
    ensures forall x :: x in Removed(ring, item) <==> x in ring && x != item
    ensures forall i :: 0 <= i < |Removed(ring, item)| ==> Removed(ring, item)[i] in ring && Removed(ring, item)[i] != item
  {
    if ring != [] {
      assert ring == [ring[0]] + ring[1..];
      assert ring[0] !in ring[1..];
      if ring[0] != item {
        RemovedMembers(ring[1..], item);
      }
    }
  }

  lemma TailOrdered(ring: seq<Item>, c: Clocks)
    requires ring != [] && Ordered(ring, c)
    ensures Ordered(ring[1..], c) && ring[0] !in ring[1..]
    ensures forall x :: x in ring[1..] ==> c.Expiry(ring[0]) <= c.Expiry(x)
  {
  }

  lemma ConsOrdered(x: Item, rest: seq<Item>, c: Clocks)
    requires Ordered(rest, c) && x !in rest && c.Timeout(x) > 0 && forall y :: y in rest ==> c.Expiry(x) <= c.Expiry(y)
    ensures Ordered([x] + rest, c)
  {
    var more := [x] + rest;
    forall i, j | 0 <= i < j < |more|
      ensures more[i] != more[j] && c.Expiry(more[i]) <= c.Expiry(more[j])
    {
      assert more[j] == rest[j - 1] && rest[j - 1] in rest;
    }
  }

  lemma {:induction false} RemovedOrdered(ring: seq<Item>, item: Item, c: Clocks)
    requires Ordered(ring, c)
    ensures Ordered(Removed(ring, item), c)
    ensures Removed(ring, item) != [] ==> c.Expiry(ring[0]) <= c.Expiry(Removed(ring, item)[0])
  {
    if ring != [] {
      TailOrdered(ring, c);
      RemovedMembers(ring[1..], item);
      RemovedOrdered(ring[1..], item, c);
      var head, rest := ring[0], Removed(ring[1..], item);
      assert c.Timeout(head) > 0;
      assert ring[1..] != [] ==> ring[1..][0] in ring[1..];
      hide Ordered;
      ConsOrdered(head, rest, c);
    }
  }

  lemma InsertedOrdered(ring: seq<Item>, k: nat, item: Item, c: Clocks)
    requires Ordered(ring, c) && k <= |ring| && item !in ring && c.Timeout(item) > 0
    requires forall i :: 0 <= i < k ==> c.Expiry(ring[i]) <= c.Expiry(item)
    requires k < |ring| ==> c.Expiry(item) <= c.Expiry(ring[k])
    ensures Ordered(Inserted(ring, k, item), c)
  {
    var more := Inserted(ring, k, item);
    forall i, j | 0 <= i < j < |more|
      ensures more[i] != more[j] && c.Expiry(more[i]) <= c.Expiry(more[j])
    {
      var i', j' := if i < k then i else i - 1, if j < k then j else j - 1;
      assert i != k ==> more[i] == ring[i'];
      assert j != k ==> more[j] == ring[j'];
    }
  }

  lemma FirstInserted(ring: seq<Item>, k: nat, item: Item)
    requires k <= |ring|
    ensures Inserted(ring, k, item) != [] && Inserted(ring, k, item)[0] == if k == 0 then item else ring[0]
  {
  }

  lemma InsertedMembers(ring: seq<Item>, k: nat, item: Item)
    requires k <= |ring|
    ensures forall x :: x in Inserted(ring, k, item) <==> x in ring || x == item
    ensures forall i :: 0 <= i < |Inserted(ring, k, item)| ==> Inserted(ring, k, item)[i] in ring || Inserted(ring, k, item)[i] == item
  {
    assert ring == ring[..k] + ring[k..];
  }

  /** The clock of an item outside the ring does not matter. */
  lemma OrderedElsewhere(ring: seq<Item>, c: Clocks, c': Clocks)
    requires Ordered(ring, c)
    requires forall x :: x in ring ==> c.Expiry(x) == c'.Expiry(x) && c.Timeout(x) == c'.Timeout(x)
    ensures Ordered(ring, c')
  {
  }

  // ---- what a callback may do ----

  /** The argument of `enroll`. */
  datatype Msecs = NoNumber | NotFinite | Finite(msecs: int)

  const TIMEOUT_MAX := 0x7fff_ffff

  /** Arm an item at some time, take one out, or enroll one. */
  datatype Op = Arm(item: Item, at: int) | Drop(item: Item) | Enrol(item: Item, amount: Msecs)

  /** The effect of one callback, and whether it ends in an exception. */
  datatype Callback = Callback(ops: seq<Op>, throws: bool)

  ghost function Started(c: Clocks, item: Item, at: int): Clocks {
    c.(idleStart := c.idleStart[item := at])
  }

  ghost function Timed(c: Clocks, item: Item, msecs: int): Clocks {
    c.(idleTimeout := c.idleTimeout[item := msecs])
  }

  /** `_unrefActive` at time `at`. */
  ghost function Armed(t: Timers, item: Item, at: int): Timers {
    if t.clocks.Timeout(item) <= 0 then t
    else
      var c, rest := Started(t.clocks, item, at), Removed(t.ring, item);
      Timers(Inserted(rest, Place(rest, c, at + c.Timeout(item)), item), c)
  }

  /** The item leaves the ring with another timeout. */
  ghost function Reset(t: Timers, item: Item, msecs: int): Timers {
    Timers(Removed(t.ring, item), Timed(t.clocks, item, msecs))
  }

  /** `unenroll`. */
  ghost function Dropped(t: Timers, item: Item): Timers {
    Reset(t, item, -1)
  }

  /** `enroll`, which throws on what is no number of milliseconds and keeps the others within 31 bits. */
  ghost function Enrolled(t: Timers, item: Item, amount: Msecs): Timers {
    if !amount.Finite? || amount.msecs < 0 then t else Reset(t, item, Clamped(amount.msecs))
  }

  function Clamped(msecs: int): int {
    if msecs > TIMEOUT_MAX then TIMEOUT_MAX else msecs
  }

  ghost function After(t: Timers, op: Op): Timers {
    match op
    case Arm(item, at) => Armed(t, item, at)
    case Drop(item) => Dropped(t, item)
    case Enrol(item, amount) => Enrolled(t, item, amount)
  }

  ghost function AfterAll(t: Timers, ops: seq<Op>): Timers {
    if ops == [] then t else After(AfterAll(t, ops[..|ops| - 1]), ops[|ops| - 1])
  }

  /** The clock does not run backwards. */
  ghost predicate NotBefore(ops: seq<Op>, now: int) {
    forall i :: 0 <= i < |ops| && ops[i].Arm? ==> ops[i].at >= now
  }

  ghost function Named(ops: seq<Op>): set<Item> {
    set i | 0 <= i < |ops| :: ops[i].item
  }

  ghost predicate SameClock(c: Clocks, c': Clocks, x: Item) {
    c.Expiry(x) == c'.Expiry(x) && c.Timeout(x) == c'.Timeout(x)
  }

  /** Items other than those named stay where and as they are. */
  ghost predicate OthersStay(t: Timers, t': Timers, named: set<Item>, items: set<Item>) {
    forall x :: x in items && x !in named ==> (x in t'.ring <==> x in t.ring) && SameClock(t.clocks, t'.clocks, x)
  }

  /** Every entry is as it was, or expires in the future. */
  ghost predicate OnlyLater(t: Timers, t': Timers, now: int) {
    forall x :: x in t'.ring ==> t'.clocks.Expiry(x) > now || (x in t.ring && t'.clocks.Expiry(x) == t.clocks.Expiry(x))
  }

  lemma StartedClock(c: Clocks, item: Item, at: int, items: set<Item>)
    ensures Started(c, item, at).Timeout(item) == c.Timeout(item) && Started(c, item, at).Expiry(item) == at + c.Timeout(item)
    ensures forall x :: x in items && x != item ==> SameClock(c, Started(c, item, at), x)
  {
  }

  lemma RestOrdered(t: Timers, item: Item, c: Clocks)
    requires Ordered(t.ring, t.clocks)
    requires forall x :: x in t.ring && x != item ==> SameClock(t.clocks, c, x)
    ensures Ordered(Removed(t.ring, item), c) && item !in Removed(t.ring, item)
  {
    RemovedOrdered(t.ring, item, t.clocks);
    RemovedMembers(t.ring, item);
    hide Removed;
    OrderedElsewhere(Removed(t.ring, item), t.clocks, c);
    hide Ordered;
  }

  /** With the item out, the first entry left expires no earlier than the first one did. */
  lemma RestLater(t: Timers, item: Item, c: Clocks)
    requires Ordered(t.ring, t.clocks)
    requires forall x :: x in t.ring && x != item ==> SameClock(t.clocks, c, x)
    ensures Removed(t.ring, item) != [] ==> t.ring != [] && t.clocks.Expiry(t.ring[0]) <= c.Expiry(Removed(t.ring, item)[0])
  {
    RemovedOrdered(t.ring, item, t.clocks);
    RemovedMembers(t.ring, item);
    hide Removed, Ordered;
  }

  lemma ArmedOrdered(t: Timers, item: Item, at: int)
    requires Ordered(t.ring, t.clocks)
    ensures Ordered(Armed(t, item, at).ring, Armed(t, item, at).clocks)
  {
    hide Removed, Ordered, Started, Inserted, SameClock;
    if t.clocks.Timeout(item) > 0 {
      var c, rest := Started(t.clocks, item, at), Removed(t.ring, item);
      StartedClock(t.clocks, item, at, set x | x in t.ring);
      RestOrdered(t, item, c);
      InsertedOrdered(rest, Place(rest, c, at + c.Timeout(item)), item, c);
    }
  }

  lemma ResetOrdered(t: Timers, item: Item, msecs: int)
    requires Ordered(t.ring, t.clocks)
    ensures Ordered(Reset(t, item, msecs).ring, Reset(t, item, msecs).clocks)
  {
    hide Removed, Ordered;
    RestOrdered(t, item, Timed(t.clocks, item, msecs));
  }

  /** What `unenroll` leaves with its timeout set again, or an item outside the ring. */
  lemma ResetAgain(t: Timers, u: Timers, item: Item, msecs: int)
    requires u == Dropped(t, item) || (u == t && item !in t.ring)
    requires item !in u.ring
    ensures Reset(t, item, msecs) == Timers(u.ring, Timed(u.clocks, item, msecs))
  {
  }

  lemma ArmedMembers(t: Timers, item: Item, at: int)
    requires Distinct(t.ring) && t.clocks.Timeout(item) > 0
    ensures forall x :: x in t.ring && x != item ==> x in Armed(t, item, at).ring
    ensures var r := Armed(t, item, at).ring; forall i :: 0 <= i < |r| ==> r[i] in t.ring || r[i] == item
  {
    hide Removed, Place, Inserted, Started;
    var c, rest := Started(t.clocks, item, at), Removed(t.ring, item);
    RemovedMembers(t.ring, item);
    InsertedMembers(rest, Place(rest, c, at + c.Timeout(item)), item);
  }

  /** An item that was unenrolled is not armed any more, until it is enrolled again. */
  lemma DroppedStaysOut(t: Timers, item: Item, at: int)
    requires Distinct(t.ring)
    ensures Armed(Dropped(t, item), item, at) == Dropped(t, item) && item !in Dropped(t, item).ring
  {
    RemovedMembers(t.ring, item);
  }

  /** Enrolled with a positive timeout, an item can be armed, whatever it was before. */
  lemma EnrolledArms(t0: Timers, item: Item, amount: Msecs, now: int)
    requires amount.Finite? && amount.msecs > 0
    ensures var u := Armed(Enrolled(t0, item, amount), item, now);
            item in u.ring && u.clocks.Expiry(item) == now + if amount.msecs > 2147483647 then 2147483647 else amount.msecs
  {
    hide Removed, Place, Inserted;
    var t := Enrolled(t0, item, amount);
    var c, rest := Started(t.clocks, item, now), Removed(t.ring, item);
    InsertedMembers(rest, Place(rest, c, now + c.Timeout(item)), item);
  }

  lemma ArmedOthers(t: Timers, item: Item, at: int, now: int, items: set<Item>)
    requires Distinct(t.ring) && at >= now && (forall x :: x in t.ring ==> x in items)
    ensures OthersStay(t, Armed(t, item, at), {item}, items) && OnlyLater(t, Armed(t, item, at), now)
  {
    if t.clocks.Timeout(item) > 0 {
      ArmedMembers(t, item, at);
      StartedClock(t.clocks, item, at, items);
      assert Armed(t, item, at).clocks == Started(t.clocks, item, at);
      hide Armed, Started;
    }
  }

  lemma ResetOthers(t: Timers, item: Item, msecs: int, now: int, items: set<Item>)
    requires Distinct(t.ring)
    ensures OthersStay(t, Reset(t, item, msecs), {item}, items) && OnlyLater(t, Reset(t, item, msecs), now)
  {
    RemovedMembers(t.ring, item);
    hide Removed;
    var u := Reset(t, item, msecs);
    forall x | x in u.ring
      ensures x in t.ring && u.clocks.Expiry(x) == t.clocks.Expiry(x)
    {
      assert x in Removed(t.ring, item);
    }
  }

  lemma AfterMembers(t: Timers, op: Op, items: set<Item>)
    requires Distinct(t.ring) && (forall x :: x in t.ring ==> x in items) && op.item in items
    ensures forall x :: x in After(t, op).ring ==> x in items
  {
    if !op.Arm? {
      RemovedMembers(t.ring, op.item);
    } else if t.clocks.Timeout(op.item) > 0 {
      ArmedMembers(t, op.item, op.at);
    } else {
      assert Armed(t, op.item, op.at) == t;
    }
    hide Removed, Armed;
    var r := After(t, op).ring;
    forall i | 0 <= i < |r|
      ensures r[i] in items
    {
    }
  }

  lemma OthersJoin(t: Timers, u: Timers, v: Timers, a: set<Item>, b: set<Item>, now: int, items: set<Item>)
    requires OthersStay(t, u, a, items) && OthersStay(u, v, b, items) && OnlyLater(t, u, now) && OnlyLater(u, v, now)
    ensures OthersStay(t, v, a + b, items) && OnlyLater(t, v, now)
  {
  }

  lemma NothingDone(t: Timers, named: set<Item>, now: int, items: set<Item>)
    ensures OthersStay(t, t, named, items) && OnlyLater(t, t, now)
  {
  }

  /** What one operation keeps. */
  lemma AfterKeeps(t: Timers, op: Op, now: int, items: set<Item>)
    requires Ordered(t.ring, t.clocks) && (op.Arm? ==> op.at >= now)
    requires (forall x :: x in t.ring ==> x in items) && op.item in items
    ensures var u := After(t, op);
            && Ordered(u.ring, u.clocks) && OthersStay(t, u, {op.item}, items) && OnlyLater(t, u, now)
            && forall x :: x in u.ring ==> x in items
  {
    AfterMembers(t, op, items);
    assert Distinct(t.ring);
    hide Ordered, Distinct, OthersStay, OnlyLater, Armed, Reset, Clamped;
    NothingDone(t, {op.item}, now, items);
    match op {
      case Arm(item, at) =>
        ArmedOrdered(t, item, at);
        ArmedOthers(t, item, at, now, items);
      case Drop(item) =>
        ResetOrdered(t, item, -1);
        ResetOthers(t, item, -1, now, items);
      case Enrol(item, amount) =>
        if amount.Finite? {
          ResetOrdered(t, item, Clamped(amount.msecs));
          ResetOthers(t, item, Clamped(amount.msecs), now, items);
        }
    }
  }

  lemma NamedMore(ops: seq<Op>)
    requires ops != []
    ensures Named(ops) == Named(ops[..|ops| - 1]) + {ops[|ops| - 1].item}
  {
    var front, last := ops[..|ops| - 1], ops[|ops| - 1];
    forall x | x in Named(ops)
      ensures x in Named(front) || x == last.item
    {
      var i :| 0 <= i < |ops| && ops[i].item == x;
      assert i < |front| ==> front[i] == ops[i];
    }
  }

  /** What a callback keeps: the order, every item it does not name, and nothing armed expires by now. */
  lemma {:induction false} AfterAllKeeps(t: Timers, ops: seq<Op>, now: int, items: set<Item>)
    requires Ordered(t.ring, t.clocks) && NotBefore(ops, now)
    requires (forall x :: x in t.ring ==> x in items) && Named(ops) <= items
    ensures var u := AfterAll(t, ops);
            && Ordered(u.ring, u.clocks) && OthersStay(t, u, Named(ops), items) && OnlyLater(t, u, now)
            && forall x :: x in u.ring ==> x in items
  {
    hide Ordered, OthersStay, OnlyLater, After;
    NothingDone(t, {}, now, items);
    if ops == [] {
      assert Named(ops) == {};
    } else {
      var front, last := ops[..|ops| - 1], ops[|ops| - 1];
      NamedMore(ops);
      AfterAllKeeps(t, front, now, items);
      var u := AfterAll(t, front);
      AfterKeeps(u, last, now, items);
      OthersJoin(t, u, After(u, last), Named(front), {last.item}, now, items);
    }
  }

  // ---- a pass ----

  /** The items named by the callbacks that ran. */
  ghost function NamedBy(callbacks: seq<Callback>, n: nat): set<Item> {
    if n == 0 then {}
    else NamedBy(callbacks, n - 1) + if n - 1 < |callbacks| then Named(callbacks[n - 1].ops) else {}
  }

  /** The entries that have expired. */
  ghost function Due(t: Timers, now: int): set<Item> {
    set x | x in t.ring && t.clocks.Expiry(x) <= now
  }

  /** Only expired entries with a callback were fired, once each and in order of expiry. */
  ghost predicate FiredInOrder(t0: Timers, fired: seq<Item>, live: set<Item>, now: int) {
    && Distinct(fired)
    && (forall i :: 0 <= i < |fired| ==> fired[i] in t0.ring && fired[i] in live && t0.clocks.Expiry(fired[i]) <= now)
    && (forall i, j :: 0 <= i < j < |fired| ==> t0.clocks.Expiry(fired[i]) <= t0.clocks.Expiry(fired[j]))
  }

  /** What is left in the ring is later than what was fired, and is as it was or expires in the future. */
  ghost predicate LeftLater(t0: Timers, t: Timers, fired: seq<Item>, now: int) {
    && (forall x :: x in t.ring ==> t.clocks.Expiry(x) > now || (x in t0.ring && x !in fired && t.clocks.Expiry(x) == t0.clocks.Expiry(x)))
    && (forall x, i :: x in t.ring && 0 <= i < |fired| ==> t0.clocks.Expiry(fired[i]) <= t.clocks.Expiry(x))
  }

  /** An entry that no callback named was fired, or had expired without a callback, or is still there as it was;
      and nothing else was added. */
  ghost predicate Accounted(t0: Timers, t: Timers, fired: seq<Item>, live: set<Item>, named: set<Item>, now: int) {
    && (forall x :: x in t0.ring && x !in named ==>
          x in fired || (x !in live && t0.clocks.Expiry(x) <= now) || (x in t.ring && SameClock(t0.clocks, t.clocks, x)))
    && (forall x :: x in t.ring && x !in named ==> x in t0.ring && SameClock(t0.clocks, t.clocks, x))
  }

  ghost predicate Passing(t0: Timers, t: Timers, fired: seq<Item>, live: set<Item>, named: set<Item>, now: int) {
    FiredInOrder(t0, fired, live, now) && LeftLater(t0, t, fired, now) && Accounted(t0, t, fired, live, named, now)
  }

  lemma PassBegins(t: Timers, live: set<Item>, now: int)
    ensures Passing(t, t, [], live, {}, now)
  {
  }

  /** The first entry leaves the ring. */
  ghost function Without(t: Timers): Timers
    requires t.ring != []
  {
    t.(ring := t.ring[1..])
  }

  lemma FiredKeepsOrder(t0: Timers, t: Timers, fired: seq<Item>, live: set<Item>, now: int)
    requires FiredInOrder(t0, fired, live, now) && LeftLater(t0, t, fired, now)
    requires t.ring != [] && t.clocks.Expiry(t.ring[0]) <= now && t.ring[0] in live
    ensures FiredInOrder(t0, fired + [t.ring[0]], live, now)
  {
    var first := t.ring[0];
    assert first in t.ring;
    assert first in t0.ring && first !in fired && t.clocks.Expiry(first) == t0.clocks.Expiry(first);
  }

  lemma LeftStaysLater(t0: Timers, t: Timers, u: Timers, fired: seq<Item>, now: int, ran: bool)
    requires LeftLater(t0, t, fired, now) && Ordered(t.ring, t.clocks)
    requires t.ring != [] && t.clocks.Expiry(t.ring[0]) <= now && OnlyLater(Without(t), u, now)
    ensures LeftLater(t0, u, if ran then fired + [t.ring[0]] else fired, now)
  {
    var first := t.ring[0];
    TailOrdered(t.ring, t.clocks);
    assert first in t.ring;
    forall x | x in u.ring
      ensures u.clocks.Expiry(x) > now || (x in t0.ring && x !in fired && x != first && u.clocks.Expiry(x) == t0.clocks.Expiry(x))
      ensures t.clocks.Expiry(first) <= u.clocks.Expiry(x)
      ensures forall i :: 0 <= i < |fired| ==> t0.clocks.Expiry(fired[i]) <= u.clocks.Expiry(x)
    {
      if u.clocks.Expiry(x) <= now {
        assert x in t.ring[1..] && x in t.ring;
      }
      assert forall i :: 0 <= i < |fired| ==> t0.clocks.Expiry(fired[i]) <= t.clocks.Expiry(first);
    }
  }

  lemma StaysAccounted(t0: Timers, t: Timers, u: Timers, fired: seq<Item>, live: set<Item>, named: set<Item>, more: set<Item>, items: set<Item>,
                       now: int, ran: bool)
    requires forall x :: x in t0.ring || x in u.ring ==> x in items
    requires Accounted(t0, t, fired, live, named, now) && t.ring != [] && t.clocks.Expiry(t.ring[0]) <= now
    requires OthersStay(Without(t), u, more, items) && (ran <==> t.ring[0] in live)
    ensures Accounted(t0, u, if ran then fired + [t.ring[0]] else fired, live, named + more, now)
  {
    var first := t.ring[0];
    assert t.ring == [first] + t.ring[1..];
    forall x | x in t0.ring && x !in named + more
      ensures x in (if ran then fired + [first] else fired) || (x !in live && t0.clocks.Expiry(x) <= now) || (x in u.ring && SameClock(t0.clocks, u.clocks, x))
    {
      if x in t.ring && x != first {
        assert x in t.ring[1..];
      }
    }
  }

  /** One turn of a pass keeps all of it, whatever its callback does, and leaves fewer expired entries. */
  lemma PassGoesOn(t0: Timers, t: Timers, u: Timers, fired: seq<Item>, live: set<Item>, named: set<Item>, more: set<Item>, items: set<Item>,
                       now: int, ran: bool)
    requires forall x :: x in t0.ring || x in u.ring ==> x in items
    requires Passing(t0, t, fired, live, named, now) && Ordered(t.ring, t.clocks)
    requires t.ring != [] && t.clocks.Expiry(t.ring[0]) <= now && (ran <==> t.ring[0] in live)
    requires OnlyLater(Without(t), u, now) && OthersStay(Without(t), u, more, items)
    ensures Passing(t0, u, if ran then fired + [t.ring[0]] else fired, live, named + more, now)
    ensures Due(u, now) < Due(t, now)
  {
    if ran {
      FiredKeepsOrder(t0, t, fired, live, now);
    }
    LeftStaysLater(t0, t, u, fired, now, ran);
    StaysAccounted(t0, t, u, fired, live, named, more, items, now, ran);
    DueShrinks(t, u, now);
    hide FiredInOrder, LeftLater, Accounted, Ordered, OnlyLater, OthersStay, Due;
  }

  lemma DueShrinks(t: Timers, u: Timers, now: int)
    requires Ordered(t.ring, t.clocks) && t.ring != [] && t.clocks.Expiry(t.ring[0]) <= now && OnlyLater(Without(t), u, now)
    ensures Due(u, now) < Due(t, now)
  {
    TailOrdered(t.ring, t.clocks);
    assert t.ring[0] in Due(t, now) && t.ring[0] !in Due(u, now);
    assert forall x :: x in t.ring[1..] ==> x in t.ring;
  }

  // ---- the turns of a pass ----

  /** The j-th callback that runs does callbacks[j]. */
  function CallbackAt(callbacks: seq<Callback>, j: nat): Callback {
    if j < |callbacks| then callbacks[j] else Callback([], false)
  }

  /** No callback that ran ended in an exception, but for the last one if `threw`. */
  predicate StoppedBy(callbacks: seq<Callback>, fired: seq<Item>, threw: bool) {
    && (threw <==> fired != [] && CallbackAt(callbacks, |fired| - 1).throws)
    && forall j :: 0 <= j < |fired| - 1 ==> !CallbackAt(callbacks, j).throws
  }

  /** The first entry leaves the ring, and its callback runs if it has one. */
  ghost function Turn(t: Timers, fired: seq<Item>, callbacks: seq<Callback>, live: set<Item>): (Timers, seq<Item>)
    requires t.ring != []
  {
    if t.ring[0] in live then (AfterAll(Without(t), CallbackAt(callbacks, |fired|).ops), fired + [t.ring[0]])
    else (Without(t), fired)
  }

  /** The timers after n turns, and what was fired. */
  ghost function Turns(t: Timers, callbacks: seq<Callback>, live: set<Item>, n: nat): (Timers, seq<Item>) {
    if n == 0 then (t, [])
    else
      var (u, fired) := Turns(t, callbacks, live, n - 1);
      if u.ring == [] then (u, fired) else Turn(u, fired, callbacks, live)
  }

  ghost predicate Allowed(callbacks: seq<Callback>, now: int, items: set<Item>) {
    forall j :: 0 <= j < |callbacks| ==> NotBefore(callbacks[j].ops, now) && Named(callbacks[j].ops) <= items
  }

  lemma AllowedAt(callbacks: seq<Callback>, j: nat, now: int, items: set<Item>)
    requires Allowed(callbacks, now, items)
    ensures NotBefore(CallbackAt(callbacks, j).ops, now) && Named(CallbackAt(callbacks, j).ops) <= items
    ensures forall i :: 0 <= i < |CallbackAt(callbacks, j).ops| ==> CallbackAt(callbacks, j).ops[i].item in items
    ensures NamedBy(callbacks, j + 1) == NamedBy(callbacks, j) + Named(CallbackAt(callbacks, j).ops)
  {
    var ops := CallbackAt(callbacks, j).ops;
    assert forall i :: 0 <= i < |ops| ==> ops[i].item in Named(ops);
  }

  lemma TurnRuns(t0: Timers, t: Timers, fired: seq<Item>, ops: seq<Op>, live: set<Item>, named: set<Item>, now: int, items: set<Item>)
    requires Passing(t0, t, fired, live, named, now) && Ordered(t.ring, t.clocks) && NotBefore(ops, now) && Named(ops) <= items
    requires (forall x :: x in t0.ring ==> x in items) && (forall x :: x in t.ring ==> x in items)
    requires t.ring != [] && t.clocks.Expiry(t.ring[0]) <= now && t.ring[0] in live
    ensures var u := AfterAll(Without(t), ops);
            Passing(t0, u, fired + [t.ring[0]], live, named + Named(ops), now) && Due(u, now) < Due(t, now)
  {
    TailOrdered(t.ring, t.clocks);
    assert forall x :: x in t.ring[1..] ==> x in t.ring;
    hide Passing, Ordered, NotBefore, AfterAll, OnlyLater, OthersStay, Due, Named;
    AfterAllKeeps(Without(t), ops, now, items);
    PassGoesOn(t0, t, AfterAll(Without(t), ops), fired, live, named, Named(ops), items, now, true);
  }

  lemma TurnSkips(t0: Timers, t: Timers, fired: seq<Item>, live: set<Item>, named: set<Item>, now: int, items: set<Item>)
    requires Passing(t0, t, fired, live, named, now) && Ordered(t.ring, t.clocks)
    requires (forall x :: x in t0.ring ==> x in items) && (forall x :: x in t.ring ==> x in items)
    requires t.ring != [] && t.clocks.Expiry(t.ring[0]) <= now && t.ring[0] !in live
    ensures Passing(t0, Without(t), fired, live, named, now) && Due(Without(t), now) < Due(t, now)
  {
    assert forall x :: x in t.ring[1..] ==> x in t.ring;
    hide Passing, Ordered, OnlyLater, OthersStay, Due;
    NothingDone(Without(t), {}, now, items);
    PassGoesOn(t0, t, Without(t), fired, live, named, {}, items, now, false);
    assert named + {} == named;
  }

  /** The state of a pass after n turns. */
  ghost predicate InPass(t0: Timers, t: Timers, fired: seq<Item>, callbacks: seq<Callback>, live: set<Item>, now: int, n: nat) {
    (t, fired) == Turns(t0, callbacks, live, n) && Passing(t0, t, fired, live, NamedBy(callbacks, |fired|), now)
  }

  ghost predicate AllIn(ring: seq<Item>, items: set<Item>) {
    forall x :: x in ring ==> x in items
  }

  lemma InPassBegins(t: Timers, callbacks: seq<Callback>, live: set<Item>, now: int)
    ensures InPass(t, t, [], callbacks, live, now, 0)
  {
    PassBegins(t, live, now);
    hide Passing;
  }

  /** A turn keeps what a pass keeps, and leaves fewer expired entries. */
  lemma InPassNext(t0: Timers, t: Timers, fired: seq<Item>, callbacks: seq<Callback>, live: set<Item>, now: int, n: nat, items: set<Item>)
    requires InPass(t0, t, fired, callbacks, live, now, n) && Ordered(t.ring, t.clocks) && Allowed(callbacks, now, items)
    requires AllIn(t0.ring, items) && AllIn(t.ring, items)
    requires t.ring != [] && t.clocks.Expiry(t.ring[0]) <= now
    ensures var (u, fired') := Turn(t, fired, callbacks, live);
            InPass(t0, u, fired', callbacks, live, now, n + 1) && Due(u, now) < Due(t, now)
  {
    hide Passing, Ordered, NotBefore, AfterAll, Due, Named;
    AllowedAt(callbacks, |fired|, now, items);
    hide Allowed, NamedBy;
    if t.ring[0] in live {
      TurnRuns(t0, t, fired, CallbackAt(callbacks, |fired|).ops, live, NamedBy(callbacks, |fired|), now, items);
    } else {
      TurnSkips(t0, t, fired, live, NamedBy(callbacks, |fired|), now, items);
    }
  }

  lemma InPassMeans(t0: Timers, t: Timers, fired: seq<Item>, callbacks: seq<Callback>, live: set<Item>, now: int, n: nat)
    requires InPass(t0, t, fired, callbacks, live, now, n)
    ensures (t, fired) == Turns(t0, callbacks, live, n)
    ensures FiredInOrder(t0, fired, live, now) && Accounted(t0, t, fired, live, NamedBy(callbacks, |fired|), now)
  {
  }

  lemma NoneExpired(ring: seq<Item>, c: Clocks, now: int)
    requires Ordered(ring, c) && (ring != [] ==> c.Expiry(ring[0]) > now)
    ensures forall x :: x in ring ==> c.Expiry(x) > now
  {
  }

  /** The expired entries with a callback were fired, and the others are still there as they were, but for what the
      callbacks named. */
  ghost predicate Completed(t0: Timers, t: Timers, fired: seq<Item>, live: set<Item>, named: set<Item>, now: int) {
    && (forall x :: x in t0.ring && x in live && x !in named && t0.clocks.Expiry(x) <= now ==> x in fired)
    && (forall x :: x in t0.ring && x !in named && t0.clocks.Expiry(x) > now ==> x in t.ring && SameClock(t0.clocks, t.clocks, x))
    && (forall x :: x in t.ring ==> t.clocks.Expiry(x) > now)
  }

  lemma PassCompletes(t0: Timers, t: Timers, fired: seq<Item>, live: set<Item>, named: set<Item>, now: int)
    requires FiredInOrder(t0, fired, live, now) && Accounted(t0, t, fired, live, named, now) && Ordered(t.ring, t.clocks)
    requires t.ring != [] ==> t.clocks.Expiry(t.ring[0]) > now
    ensures Completed(t0, t, fired, live, named, now)
  {
    NoneExpired(t.ring, t.clocks, now);
    hide Ordered;
    forall x | x in t0.ring && x !in named
      ensures x in live && t0.clocks.Expiry(x) <= now ==> x in fired
      ensures t0.clocks.Expiry(x) > now ==> x in t.ring && SameClock(t0.clocks, t.clocks, x)
    {
      if x in fired {
        var i :| 0 <= i < |fired| && fired[i] == x;
        assert t0.clocks.Expiry(fired[i]) <= now;
      }
    }
  }
}
