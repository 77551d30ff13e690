/** The IPC channel of lib/child_process.js between two processes: `_send` with its queue behind an
    unacknowledged handle, the acknowledgements, and the postponed disconnect. */
module Ipc {
  import opened Wrappers

  /** A handle given by the user. The native handle of a `once` one (a net.Socket) moves with the message. */
  datatype Handle = Handle(id: nat, once: bool)

  datatype Item = Item(message: nat, handle: Option<Handle>)

  /** What is written: a message, with its native handle or as text only, or an acknowledgement. */
  datatype Wire = Data(item: Item, attached: bool) | Ack

  /** One side. `written` is everything it wrote, `read` how much of the other side's it has read. */
  datatype Endpoint = Endpoint(
    connected: bool, channel: bool, closed: bool, queue: Option<seq<Item>>, live: set<Handle>,
    written: seq<Wire>, read: nat,
    // history
    given: seq<Item>, disconnects: nat, unanswered: nat, failed: bool)

  function Init(live: set<Handle>): Endpoint {
    Endpoint(true, true, false, None, live, [], 0, [], 0, 0, false)
  }

  /** `_send` of a message that is not an acknowledgement. */
  function Transmit(me: Endpoint, item: Item): Endpoint {
    if !me.connected && !me.channel then me.(failed := true)
    else if me.queue.Some? then me.(queue := Some(me.queue.value + [item]))
    else if item.handle.Some? && item.handle.value in me.live then
      me.(queue := Some([]), written := me.written + [Data(item, true)],
          live := if item.handle.value.once then me.live - {item.handle.value} else me.live)
    else me.(written := me.written + [Data(item, false)])
  }

  /** The queued messages are sent again in order; those behind another handle are queued again. */
  function Flush(me: Endpoint, items: seq<Item>): Endpoint
    decreases |items|
  {
    if items == [] then me else Transmit(Flush(me, items[..|items| - 1]), items[|items| - 1])
  }

  /** `_disconnect`. */
  function Cut(me: Endpoint): Endpoint {
    me.(channel := false, disconnects := me.disconnects + 1, failed := me.failed || !me.channel)
  }

  function Send(me: Endpoint, item: Item): Endpoint {
    if me.connected then Transmit(me.(given := me.given + [item]), item) else me
  }

  function Disconnect(me: Endpoint): Endpoint {
    if !me.connected then me
    else if me.queue.Some? then me.(connected := false)
    else Cut(me.(connected := false))
  }

  function OnAck(me: Endpoint): Endpoint {
    if me.queue.None? then me.(failed := true)
    else
      var flushed := Flush(me.(queue := None), me.queue.value);
      if !flushed.connected && flushed.channel && flushed.queue.None? then Cut(flushed) else flushed
  }

  /** A message that came with a handle is acknowledged first. That fails on a channel already given up. */
  function OnHandle(me: Endpoint): Endpoint {
    if me.connected || me.channel then me.(written := me.written + [Ack])
    else me.(unanswered := me.unanswered + 1, failed := true)
  }

  function Receive(me: Endpoint, wire: Wire): Endpoint {
    var me := me.(read := me.read + 1);
    if wire.Ack? then OnAck(me) else if wire.attached then OnHandle(me) else me
  }

  // ---- runs ----

  /** `Closed` is the deferred end of a disconnect; `Gone` is a handle the user closed. */
  datatype Action = DoSend(item: Item) | DoDisconnect | DoReceive | DoClose | DoGone(h: Handle)

  /** A side whose assertion failed takes no more steps. */
  predicate Enabled(me: Endpoint, you: Endpoint, action: Action) {
    && !me.failed
    && match action
       case DoReceive => !me.closed && me.read < |you.written|
       case DoClose => !me.channel && !me.closed
       case _ => true
  }

  function Act(me: Endpoint, you: Endpoint, action: Action): Endpoint
    requires Enabled(me, you, action)
  {
    match action
    case DoSend(item) => Send(me, item)
    case DoDisconnect => Disconnect(me)
    case DoReceive => Receive(me, you.written[me.read])
    case DoClose => me.(closed := true)
    case DoGone(h) => me.(live := me.live - {h})
  }

  datatype Event = Event(first: bool, action: Action)

  /** (x', y') is reached from (x, y). */
  ghost predicate Run(x: Endpoint, y: Endpoint, es: seq<Event>, x': Endpoint, y': Endpoint)
    decreases |es|
  {
    if es == [] then x' == x && y' == y
    else if es[0].first then Enabled(x, y, es[0].action) && Run(Act(x, y, es[0].action), y, es[1..], x', y')
    else Enabled(y, x, es[0].action) && Run(x, Act(y, x, es[0].action), es[1..], x', y')
  }
}

module IpcProofs {
  import opened Wrappers
  import opened Ipc

  /** The messages among what was written. */
  function Items(ws: seq<Wire>): seq<Item> {
    if ws == [] then []
    else Items(ws[..|ws| - 1]) + (if ws[|ws| - 1].Data? then [ws[|ws| - 1].item] else [])
  }

  function Waiting(me: Endpoint): seq<Item> {
    if me.queue.Some? then me.queue.value else []
  }

  /** How many of the first n were attached handles, and how many acknowledgements. */
  function Handles(ws: seq<Wire>, n: nat): nat
    requires n <= |ws|
  {
    if n == 0 then 0 else Handles(ws, n - 1) + if ws[n - 1].Data? && ws[n - 1].attached then 1 else 0
  }

  function Acks(ws: seq<Wire>, n: nat): nat
    requires n <= |ws|
  {
    if n == 0 then 0 else Acks(ws, n - 1) + if ws[n - 1].Ack? then 1 else 0
  }

  /** Handles on their way to `to`, acknowledgements on their way to it. */
  function HandlesTo(to: Endpoint, from: Endpoint): int
    requires to.read <= |from.written|
  {
    Handles(from.written, |from.written|) - Handles(from.written, to.read)
  }

  function AcksTo(to: Endpoint, from: Endpoint): int
    requires to.read <= |from.written|
  {
    Acks(from.written, |from.written|) - Acks(from.written, to.read)
  }

  /** What one side keeps by itself. `Sends` leaves out that a postponed disconnect has something to wait for. */
  ghost predicate Sends(me: Endpoint) {
    && Items(me.written) + Waiting(me) == me.given
    && (me.queue.Some? || me.connected ==> me.channel)
    && (me.closed ==> !me.channel)
    && me.disconnects == (if me.channel then 0 else 1)
  }

  ghost predicate Own(me: Endpoint) {
    Sends(me) && (me.channel && !me.connected ==> me.queue.Some?)
  }

  /** The handle that holds back the queue is on its way, or its acknowledgement is, or it went unanswered. */
  ghost predicate Balanced(me: Endpoint, you: Endpoint) {
    && me.read <= |you.written| && you.read <= |me.written|
    && HandlesTo(you, me) + AcksTo(me, you) + you.unanswered == (if me.queue.Some? then 1 else 0)
  }

  /** A side fails only over a handle it received after giving up its channel. */
  ghost predicate Fails(me: Endpoint) {
    (me.failed <==> me.unanswered > 0) && (me.failed ==> !me.channel)
  }

  ghost predicate Inv(x: Endpoint, y: Endpoint) {
    Own(x) && Own(y) && Balanced(x, y) && Balanced(y, x) && Fails(x) && Fails(y)
  }

  // ---- counting ----

  lemma {:induction false} CountsSame(ws: seq<Wire>, w: Wire, n: nat)
    requires n <= |ws|
    ensures Handles(ws + [w], n) == Handles(ws, n) && Acks(ws + [w], n) == Acks(ws, n)
  {
    if n > 0 {
      CountsSame(ws, w, n - 1);
    }
  }

  lemma {:induction false} CountsGrow(ws: seq<Wire>, m: nat, n: nat)
    requires m <= n <= |ws|
    ensures Handles(ws, m) <= Handles(ws, n) && Acks(ws, m) <= Acks(ws, n)
  {
    if m < n {
      CountsGrow(ws, m, n - 1);
    }
  }

  lemma ItemsAppend(ws: seq<Wire>, w: Wire)
    ensures Items(ws + [w]) == Items(ws) + if w.Data? then [w.item] else []
  {
    assert (ws + [w])[..|ws|] == ws;
  }

  // ---- sending ----

  function Held(queue: Option<seq<Item>>): int {
    if queue.Some? then 1 else 0
  }

  /** From ws to ws' messages were added, with as many handles as the queue was started. */
  ghost predicate Grew(ws: seq<Wire>, held: int, ws': seq<Wire>, held': int) {
    && |ws| <= |ws'|
    && (forall n: nat :: n <= |ws| ==> Handles(ws', n) == Handles(ws, n) && Acks(ws', n) == Acks(ws, n))
    && Acks(ws', |ws'|) == Acks(ws, |ws|)
    && Handles(ws', |ws'|) - held' == Handles(ws, |ws|) - held
  }

  lemma GrewByOne(ws: seq<Wire>, w: Wire, held: int)
    requires w.Data?
    ensures Grew(ws, held, ws + [w], if w.attached then held + 1 else held)
  {
    forall n: nat | n <= |ws|
      ensures Handles(ws + [w], n) == Handles(ws, n) && Acks(ws + [w], n) == Acks(ws, n)
    {
      CountsSame(ws, w, n);
    }
  }

  lemma GrewOn(ws: seq<Wire>, held: int, ws': seq<Wire>, held': int, ws'': seq<Wire>, held'': int)
    requires Grew(ws, held, ws', held') && Grew(ws', held', ws'', held'')
    ensures Grew(ws, held, ws'', held'')
  {
    forall n: nat | n <= |ws|
      ensures Handles(ws'', n) == Handles(ws, n) && Acks(ws'', n) == Acks(ws, n)
    {
      assert Handles(ws'', n) == Handles(ws', n) && Acks(ws'', n) == Acks(ws', n);
    }
  }

  /** Sending touches the queue, what is written and the native handles, and no more. */
  ghost predicate SameOtherwise(me: Endpoint, me': Endpoint) {
    && me'.read == me.read && me'.connected == me.connected && me'.channel == me.channel && me'.closed == me.closed
    && me'.given == me.given && me'.disconnects == me.disconnects && me'.unanswered == me.unanswered && me'.failed == me.failed
  }

  lemma TransmitWrites(me: Endpoint, item: Item)
    requires me.connected || me.channel
    ensures var t := Transmit(me, item); SameOtherwise(me, t) && Grew(me.written, Held(me.queue), t.written, Held(t.queue))
  {
    GrewByOne(me.written, Data(item, item.handle.Some? && item.handle.value in me.live), 0);
    hide Handles, Acks;
  }

  lemma TransmitItems(me: Endpoint, item: Item)
    requires me.connected || me.channel
    ensures Items(Transmit(me, item).written) + Waiting(Transmit(me, item)) == Items(me.written) + Waiting(me) + [item]
  {
    if me.queue.None? {
      ItemsAppend(me.written, Data(item, item.handle.Some? && item.handle.value in me.live));
    }
    hide Items;
  }

  lemma {:induction false} FlushWrites(me: Endpoint, items: seq<Item>)
    requires me.connected || me.channel
    ensures var t := Flush(me, items); SameOtherwise(me, t) && Grew(me.written, Held(me.queue), t.written, Held(t.queue))
    decreases |items|
  {
    if items != [] {
      var front := Flush(me, items[..|items| - 1]);
      FlushWrites(me, items[..|items| - 1]);
      TransmitWrites(front, items[|items| - 1]);
      hide Transmit, Grew;
      var t := Flush(me, items);
      GrewOn(me.written, Held(me.queue), front.written, Held(front.queue), t.written, Held(t.queue));
    }
  }

  lemma {:induction false} FlushItems(me: Endpoint, items: seq<Item>)
    requires me.connected || me.channel
    ensures Items(Flush(me, items).written) + Waiting(Flush(me, items)) == Items(me.written) + Waiting(me) + items
    decreases |items|
  {
    if items != [] {
      var front, last := items[..|items| - 1], items[|items| - 1];
      FlushItems(me, front);
      FlushWrites(me, front);
      TransmitItems(Flush(me, front), last);
      assert items == front + [last];
      hide Transmit, Items, Waiting, Grew;
    }
  }

  // ---- what each step keeps ----

  lemma GrewBalanced(me: Endpoint, me': Endpoint, you: Endpoint)
    requires Balanced(me, you) && Balanced(you, me)
    requires me'.read == me.read && me'.unanswered == me.unanswered
    requires Grew(me.written, Held(me.queue), me'.written, Held(me'.queue))
    ensures Balanced(me', you) && Balanced(you, me')
  {
    hide Handles, Acks;
  }

  lemma SendKeeps(me: Endpoint, you: Endpoint, item: Item)
    requires Inv(me, you) && !me.failed && me.connected
    ensures Inv(Send(me, item), you)
  {
    var me1 := me.(given := me.given + [item]);
    var me' := Transmit(me1, item);
    TransmitWrites(me1, item);
    TransmitItems(me1, item);
    hide Transmit, Items, Grew, Balanced;
    assert Waiting(me1) == Waiting(me);
    GrewBalanced(me, me', you);
  }

  lemma SameBalance(me: Endpoint, me': Endpoint, you: Endpoint)
    requires me'.written == me.written && me'.read == me.read && Held(me'.queue) == Held(me.queue) && me'.unanswered == me.unanswered
    ensures Balanced(me', you) == Balanced(me, you) && Balanced(you, me') == Balanced(you, me)
  {
    hide Handles, Acks;
  }

  lemma DisconnectKeeps(me: Endpoint, you: Endpoint)
    requires Inv(me, you) && !me.failed
    ensures Inv(Disconnect(me), you)
  {
    SameBalance(me, Disconnect(me), you);
    hide Balanced, Items;
  }

  // ---- receiving ----

  /** Reading takes one handle or one acknowledgement off the way, or neither. */
  lemma ReadBalance(me: Endpoint, you: Endpoint)
    requires Balanced(me, you) && Balanced(you, me) && me.read < |you.written|
    ensures var me1, w := me.(read := me.read + 1), you.written[me.read];
            && me1.read <= |you.written| && you.read <= |me1.written|
            && HandlesTo(me1, you) == HandlesTo(me, you) - (if w.Data? && w.attached then 1 else 0)
            && AcksTo(me1, you) == AcksTo(me, you) - (if w.Ack? then 1 else 0)
            && HandlesTo(you, me1) == HandlesTo(you, me) && AcksTo(you, me1) == AcksTo(you, me)
            && HandlesTo(me1, you) >= 0 && AcksTo(me1, you) >= 0 && HandlesTo(you, me1) >= 0 && AcksTo(you, me1) >= 0
  {
    CountsGrow(you.written, me.read + 1, |you.written|);
    CountsGrow(me.written, you.read, |me.written|);
  }

  lemma PlainKeeps(me: Endpoint, you: Endpoint)
    requires Inv(me, you) && me.read < |you.written| && you.written[me.read].Data? && !you.written[me.read].attached
    ensures Inv(me.(read := me.read + 1), you)
  {
    ReadBalance(me, you);
    hide HandlesTo, AcksTo, Items;
  }

  lemma HandleBalance(me: Endpoint, you: Endpoint)
    requires Balanced(me, you) && Balanced(you, me) && me.read < |you.written| && you.written[me.read].Data? && you.written[me.read].attached
    ensures var me1 := me.(read := me.read + 1);
            && Balanced(me1.(written := me.written + [Ack]), you) && Balanced(you, me1.(written := me.written + [Ack]))
            && Balanced(me1.(unanswered := me.unanswered + 1, failed := true), you)
            && Balanced(you, me1.(unanswered := me.unanswered + 1, failed := true))
  {
    ReadBalance(me, you);
    CountsSame(me.written, Ack, you.read);
    CountsSame(me.written, Ack, |me.written|);
  }

  lemma HandleKeeps(me: Endpoint, you: Endpoint)
    requires Inv(me, you) && !me.failed && me.read < |you.written| && you.written[me.read].Data? && you.written[me.read].attached
    ensures Inv(OnHandle(me.(read := me.read + 1)), you)
    ensures OnHandle(me.(read := me.read + 1)).failed <==> !me.channel
  {
    HandleBalance(me, you);
    ItemsAppend(me.written, Ack);
    hide Balanced, Items;
  }

  lemma AckBalance(me: Endpoint, you: Endpoint)
    requires Balanced(me, you) && Balanced(you, me) && me.read < |you.written| && you.written[me.read].Ack?
    ensures me.queue.Some?
    ensures var me1 := me.(read := me.read + 1, queue := None); Balanced(me1, you) && Balanced(you, me1)
  {
    ReadBalance(me, you);
    hide Handles, Acks;
  }

  /** After the flush, before the postponed disconnect. */
  lemma FlushKeeps(me: Endpoint, you: Endpoint)
    requires Inv(me, you) && !me.failed && me.read < |you.written| && you.written[me.read].Ack?
    ensures me.queue.Some?
    ensures var t := Flush(me.(read := me.read + 1, queue := None), me.queue.value);
            Sends(t) && Balanced(t, you) && Balanced(you, t) && Fails(t) && !t.failed
  {
    AckBalance(me, you);
    hide Balanced;
    var me1 := me.(read := me.read + 1, queue := None);
    FlushWrites(me1, me.queue.value);
    FlushItems(me1, me.queue.value);
    hide Flush, Items, Grew;
    assert Items(me.written) + [] + me.queue.value == me.given;
    GrewBalanced(me1, Flush(me1, me.queue.value), you);
  }

  lemma AckKeeps(me: Endpoint, you: Endpoint)
    requires Inv(me, you) && !me.failed && me.read < |you.written| && you.written[me.read].Ack?
    ensures Inv(OnAck(me.(read := me.read + 1)), you) && !OnAck(me.(read := me.read + 1)).failed
  {
    FlushKeeps(me, you);
    var me1 := me.(read := me.read + 1);
    var t := Flush(me.(read := me.read + 1, queue := None), me.queue.value);
    assert me1.(queue := None) == me.(read := me.read + 1, queue := None);
    SameBalance(t, Cut(t), you);
    hide Flush, Items, Balanced;
  }

  lemma ReceiveKeeps(me: Endpoint, you: Endpoint)
    requires Inv(me, you) && Enabled(me, you, DoReceive)
    ensures Inv(Receive(me, you.written[me.read]), you)
  {
    hide Inv, OnAck, OnHandle;
    if you.written[me.read].Ack? {
      AckKeeps(me, you);
    } else if you.written[me.read].attached {
      HandleKeeps(me, you);
    } else {
      PlainKeeps(me, you);
    }
  }

  lemma ActKeeps(me: Endpoint, you: Endpoint, action: Action)
    requires Inv(me, you) && Enabled(me, you, action)
    ensures Inv(Act(me, you, action), you)
  {
    match action {
      case DoSend(item) =>
        if me.connected {
          SendKeeps(me, you, item);
        }
      case DoDisconnect => DisconnectKeeps(me, you);
      case DoReceive => ReceiveKeeps(me, you);
      case DoClose => SameBalance(me, me.(closed := true), you);
      case DoGone(h) => SameBalance(me, me.(live := me.live - {h}), you);
    }
    hide Transmit, Disconnect, Receive, Balanced, Items;
  }

  lemma Symmetric(x: Endpoint, y: Endpoint)
    requires Inv(x, y)
    ensures Inv(y, x)
  {
  }

  lemma {:induction false} RunKeeps(x: Endpoint, y: Endpoint, es: seq<Event>, x': Endpoint, y': Endpoint)
    requires Inv(x, y) && Run(x, y, es, x', y')
    ensures Inv(x', y')
    decreases |es|
  {
    hide Inv, Act, Enabled;
    if es != [] {
      var action := es[0].action;
      if es[0].first {
        ActKeeps(x, y, action);
        RunKeeps(Act(x, y, action), y, es[1..], x', y');
      } else {
        Symmetric(x, y);
        ActKeeps(y, x, action);
        Symmetric(Act(y, x, action), x);
        RunKeeps(x, Act(y, x, action), es[1..], x', y');
      }
    }
  }

  // ---- what holds in every run ----

  lemma InitHolds(l: set<Handle>, m: set<Handle>)
    ensures Inv(Init(l), Init(m))
  {
  }

  /** The messages written, then the queue, are the messages given to `send` in order; so the messages the other
      side was handed, those on their way, and the queue are. */
  lemma MessagesKeepTheirOrder(l: set<Handle>, m: set<Handle>, es: seq<Event>, x: Endpoint, y: Endpoint)
    requires Run(Init(l), Init(m), es, x, y)
    ensures Items(x.written) + Waiting(x) == x.given
    ensures y.read <= |x.written| && Items(x.written[..y.read]) + Items(x.written[y.read..]) + Waiting(x) == x.given
  {
    InitHolds(l, m);
    RunKeeps(Init(l), Init(m), es, x, y);
    hide Run;
    ItemsConcat(x.written[..y.read], x.written[y.read..]);
    assert x.written[..y.read] + x.written[y.read..] == x.written;
    hide Items;
  }

  lemma {:induction false} ItemsConcat(a: seq<Wire>, b: seq<Wire>)
    ensures Items(a + b) == Items(a) + Items(b)
    decreases |b|
  {
    if b == [] {
      assert a + b == a;
    } else {
      var front, last := b[..|b| - 1], b[|b| - 1];
      assert a + b == (a + front) + [last] && b == front + [last];
      ItemsAppend(a + front, last);
      ItemsAppend(front, last);
      ItemsConcat(a, front);
      hide Items;
    }
  }

  /** While a queue exists exactly one handle or acknowledgement for it is on its way, and none otherwise, unless the
      other side failed over it. So an acknowledgement always finds the queue. */
  lemma OneHandleOnItsWay(l: set<Handle>, m: set<Handle>, es: seq<Event>, x: Endpoint, y: Endpoint)
    requires Run(Init(l), Init(m), es, x, y)
    ensures x.read <= |y.written| && y.read <= |x.written|
    ensures !y.failed ==> HandlesTo(y, x) + AcksTo(x, y) == (if x.queue.Some? then 1 else 0)
    ensures x.read < |y.written| && y.written[x.read].Ack? ==> x.queue.Some? && x.channel
    ensures y.failed ==> !y.channel && HandlesTo(y, x) == 0 && AcksTo(x, y) == 0 && x.queue.Some?
  {
    InitHolds(l, m);
    RunKeeps(Init(l), Init(m), es, x, y);
    CountsGrow(x.written, y.read, |x.written|);
    CountsGrow(y.written, x.read, |y.written|);
    if x.read < |y.written| && y.written[x.read].Ack? {
      AckBalance(x, y);
    }
    hide Run, Items, Handles, Acks;
  }

  /** The channel is given up at most once, only when asked, and only with everything given written. */
  lemma DisconnectsOnceAfterTheQueue(l: set<Handle>, m: set<Handle>, es: seq<Event>, x: Endpoint, y: Endpoint)
    requires Run(Init(l), Init(m), es, x, y)
    ensures x.disconnects == (if x.channel then 0 else 1)
    ensures x.disconnects == 1 ==> !x.connected && x.queue.None? && Items(x.written) == x.given
    ensures !x.connected && x.queue.None? ==> x.disconnects == 1
  {
    InitHolds(l, m);
    RunKeeps(Init(l), Init(m), es, x, y);
    hide Run, Items, Balanced;
  }

  /** Exactly when an assertion fails: a message with a handle is read after the side's own disconnect was carried
      out and before its channel is closed. */
  lemma FailsExactlyWhen(l: set<Handle>, m: set<Handle>, es: seq<Event>, x: Endpoint, y: Endpoint, action: Action)
    requires Run(Init(l), Init(m), es, x, y) && Enabled(x, y, action)
    ensures Act(x, y, action).failed <==>
              action.DoReceive? && !x.channel && y.written[x.read].Data? && y.written[x.read].attached
  {
    InitHolds(l, m);
    RunKeeps(Init(l), Init(m), es, x, y);
    hide Run, Items, Balanced;
    if action.DoReceive? {
      if y.written[x.read].Ack? {
        AckKeeps(x, y);
      } else if y.written[x.read].attached {
        HandleKeeps(x, y);
      }
    }
    hide OnAck, Flush;
  }

  /** Both sides are well behaved: one sends a handle, the other disconnects before reading it. */
  lemma DisconnectCanFail(h: Handle)
    ensures exists es, x, y :: Run(Init({h}), Init({}), es, x, y) && y.failed
  {
    var item := Item(0, Some(h));
    var x0, y0 := Init({h}), Init({});
    var x1, y1 := Send(x0, item), Disconnect(y0);
    var y2 := Receive(y1, x1.written[0]);
    var e0, e1, e2 := Event(true, DoSend(item)), Event(false, DoDisconnect), Event(false, DoReceive);
    assert x1.written == [Data(item, true)];
    assert Run(x1, y2, [], x1, y2);
    assert [e2][1..] == [];
    assert Run(x1, y1, [e2], x1, y2);
    assert [e1, e2][1..] == [e2];
    assert Run(x1, y0, [e1, e2], x1, y2);
    assert [e0, e1, e2][1..] == [e1, e2];
    assert Run(x0, y0, [e0, e1, e2], x1, y2);
  }
}

/** The object that `setupChannel` extends, with its fields changed in place, and the framing of its messages. */
module IpcTarget {
  import opened Wrappers
  import opened Ipc

  class Target {
    var connected: bool
    var channel: bool
    var queue: Option<seq<Item>>
    var live: set<Handle>
    var written: seq<Wire>
    ghost var rest: Endpoint

    /** The side as a value; the fields that its methods leave alone come from `rest`. */
    ghost function View(): Endpoint
      reads this
    {
      rest.(connected := connected, channel := channel, queue := queue, live := live, written := written)
    }

    /** `_send`; `ok` is its assertion. */
    method Transmit(item: Item) returns (ok: bool)
      modifies this
      ensures ok == old(connected || channel)
      ensures ok ==> View() == Ipc.Transmit(old(View()), item)
      ensures connected == old(connected) && channel == old(channel)
    {
      ok := connected || channel;
      if !ok {
        return;
      }
      if queue.Some? {
        queue := Some(queue.value + [item]);
        return;
      }
      var attached := item.handle.Some? && item.handle.value in live;
      if attached && item.handle.value.once {
        live := live - {item.handle.value};
      }
      written := written + [Data(item, attached)];
      if attached {
        queue := Some([]);
      }
    }

    method CutOff() returns (ok: bool)
      modifies this
      ensures ok == old(channel)
      ensures ok ==> View() == Cut(old(View()))
    {
      ok := channel;
      channel := false;
      rest := rest.(disconnects := rest.disconnects + 1);
    }

    method Disconnect() returns (ok: bool)
      modifies this
      ensures ok == (old(connected && queue.None?) ==> old(channel))
      ensures ok ==> View() == Ipc.Disconnect(old(View()))
    {
      ok := true;
      if connected {
        connected := false;
        if queue.None? {
          ok := CutOff();
        }
      }
    }

    /** The listener for an acknowledgement; the channel is still there, as OneHandleOnItsWay shows. */
    method Acknowledged() returns (ok: bool)
      modifies this
      requires channel
      ensures ok == old(queue.Some?)
      ensures ok ==> View() == OnAck(old(View()))
    {
      ok := queue.Some?;
      if !ok {
        return;
      }
      var items := queue.value;
      queue := None;
      ghost var start := View();
      for i := 0 to |items|
        invariant channel && connected == old(connected)
        invariant View() == Flush(start, items[..i])
      {
        assert items[..i + 1][..i] == items[..i];
        var _ := Transmit(items[i]);
      }
      assert items[..|items|] == items;
      if !connected && channel && queue.None? {
        var _ := CutOff();
      }
    }
  }

  // ---- framing ----

  /** The first line end at or after `from`, or the length. */
  function IndexOf(s: string, from: nat): (i: nat)
    requires from <= |s|
    ensures from <= i <= |s| && (i < |s| ==> s[i] == '\n')
    ensures forall k :: from <= k < i ==> s[k] != '\n'
    decreases |s| - from
  {
    if from == |s| || s[from] == '\n' then from else IndexOf(s, from + 1)
  }

  /** The complete lines from a position on, and what follows the last of them. */
  function Lines(s: string, from: nat): seq<string>
    requires from <= |s|
    decreases |s| - from
  {
    var i := IndexOf(s, from);
    if i == |s| then [] else [s[from..i]] + Lines(s, i + 1)
  }

  function Remainder(s: string, from: nat): string
    requires from <= |s|
    decreases |s| - from
  {
    var i := IndexOf(s, from);
    if i == |s| then s[from..] else Remainder(s, i + 1)
  }

  class Reader {
    var jsonBuffer: string
    var buffering: bool

    constructor ()
      ensures jsonBuffer == "" && !buffering
    {
      jsonBuffer, buffering := "", false;
    }

    /** `onread` of a decoded chunk: the complete lines are taken off the buffer. */
    method OnRead(chunk: string) returns (lines: seq<string>)
      modifies this
      ensures lines == Lines(old(jsonBuffer) + chunk, 0)
      ensures jsonBuffer == Remainder(old(jsonBuffer) + chunk, 0)
      ensures buffering <==> jsonBuffer != ""
    {
      lines, jsonBuffer := TakeLines(jsonBuffer + chunk);
      buffering := jsonBuffer != "";
    }
  }

  /** The loop of `onread`. */
  method TakeLines(buffer: string) returns (lines: seq<string>, rest: string)
    ensures lines == Lines(buffer, 0) && rest == Remainder(buffer, 0)
  {
    lines := [];
    var start: nat := 0;
    var i := IndexOf(buffer, start);
    assert TakenTo(buffer, lines, start);
    hide TakenTo;
    while i < |buffer|
      invariant start <= |buffer| && i == IndexOf(buffer, start) && TakenTo(buffer, lines, start)
      decreases |buffer| - start
    {
      TakenMore(buffer, lines, start, i);
      lines := lines + [buffer[start..i]];
      start := i + 1;
      i := IndexOf(buffer, start);
    }
    TakenAll(buffer, lines, start);
    rest := buffer[start..];
  }

  ghost predicate TakenTo(buffer: string, lines: seq<string>, start: nat) {
    && start <= |buffer|
    && lines + Lines(buffer, start) == Lines(buffer, 0) && Remainder(buffer, start) == Remainder(buffer, 0)
  }

  lemma TakenMore(buffer: string, lines: seq<string>, start: nat, i: nat)
    requires TakenTo(buffer, lines, start) && i == IndexOf(buffer, start) < |buffer|
    ensures TakenTo(buffer, lines + [buffer[start..i]], i + 1)
  {
    Step(buffer, start, i);
    hide Lines, Remainder, IndexOf;
    Regroup(lines, [buffer[start..i]], Lines(buffer, i + 1));
  }

  lemma TakenAll(buffer: string, lines: seq<string>, start: nat)
    requires TakenTo(buffer, lines, start) && IndexOf(buffer, start) == |buffer|
    ensures lines == Lines(buffer, 0) && buffer[start..] == Remainder(buffer, 0)
  {
    Step(buffer, start, |buffer|);
    hide Lines, Remainder, IndexOf;
  }

  lemma Regroup(a: seq<string>, b: seq<string>, c: seq<string>)
    ensures a + (b + c) == (a + b) + c
  {
  }

  /** The first line end is where nothing before it is one. */
  lemma {:induction false} First(s: string, from: nat, i: nat)
    requires from <= i <= |s| && (i < |s| ==> s[i] == '\n')
    requires forall k :: from <= k < i ==> s[k] != '\n'
    ensures IndexOf(s, from) == i
    decreases i - from
  {
    if from < i {
      First(s, from + 1, i);
    }
  }

  /** One line, or the end. */
  lemma Step(s: string, from: nat, i: nat)
    requires from <= |s| && i == IndexOf(s, from)
    ensures i == |s| ==> Lines(s, from) == [] && Remainder(s, from) == s[from..]
    ensures i < |s| ==> Lines(s, from) == [s[from..i]] + Lines(s, i + 1) && Remainder(s, from) == Remainder(s, i + 1)
  {
  }

  lemma {:induction false} Shift(s: string, d: nat, from: nat)
    requires d + from <= |s|
    ensures Lines(s[d..], from) == Lines(s, d + from) && Remainder(s[d..], from) == Remainder(s, d + from)
    decreases |s| - from
  {
    hide Lines, Remainder;
    var i := IndexOf(s, d + from);
    First(s[d..], from, i - d);
    hide IndexOf;
    Step(s, d + from, i);
    Step(s[d..], from, i - d);
    if i < |s| {
      assert s[d..][from..i - d] == s[d + from..i];
      Shift(s, d, i - d + 1);
    } else {
      assert s[d..][from..] == s[d + from..];
    }
  }

  /** Lines do not depend on where the text is cut into chunks. */
  lemma {:induction false} LinesOfConcat(a: string, b: string, from: nat)
    requires from <= |a|
    ensures Lines(a + b, from) == Lines(a, from) + Lines(Remainder(a, from) + b, 0)
    ensures Remainder(a + b, from) == Remainder(Remainder(a, from) + b, 0)
    decreases |a| - from
  {
    hide Lines, Remainder;
    var i := IndexOf(a, from);
    Step(a, from, i);
    if i < |a| {
      First(a + b, from, i);
      hide IndexOf;
      Step(a + b, from, i);
      assert (a + b)[from..i] == a[from..i];
      LinesOfConcat(a, b, i + 1);
    } else {
      Shift(a + b, from, 0);
      assert (a + b)[from..] == a[from..] + b;
    }
  }

  function Join(chunks: seq<string>): string {
    if chunks == [] then "" else Join(chunks[..|chunks| - 1]) + chunks[|chunks| - 1]
  }

  /** Every chunking of a text gives its lines. */
  method ReadAll(chunks: seq<string>) returns (lines: seq<string>, left: string)
    ensures lines == Lines(Join(chunks), 0) && left == Remainder(Join(chunks), 0)
  {
    var reader := new Reader();
    lines := [];
    for k := 0 to |chunks|
      invariant lines == Lines(Join(chunks[..k]), 0) && reader.jsonBuffer == Remainder(Join(chunks[..k]), 0)
    {
      LinesOfConcat(Join(chunks[..k]), chunks[k], 0);
      assert chunks[..k + 1][..k] == chunks[..k];
      var more := reader.OnRead(chunks[k]);
      lines := lines + more;
    }
    assert chunks[..|chunks|] == chunks;
    left := reader.jsonBuffer;
  }

  function Frame(messages: seq<string>): string {
    if messages == [] then "" else messages[0] + "\n" + Frame(messages[1..])
  }

  /** The messages written, each without a line end of its own, are the messages read. */
  lemma {:induction false} LinesOfFrame(messages: seq<string>)
    requires forall m :: m in messages ==> forall k :: 0 <= k < |m| ==> m[k] != '\n'
    ensures Lines(Frame(messages), 0) == messages && Remainder(Frame(messages), 0) == ""
  {
    if messages != [] {
      var m, rest := messages[0], Frame(messages[1..]);
      var s := m + "\n" + rest;
      First(s, 0, |m|);
      assert s[0..|m|] == m && s[|m| + 1..] == rest;
      Shift(s, |m| + 1, 0);
      LinesOfFrame(messages[1..]);
    }
  }
}
