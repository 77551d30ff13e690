/** What the users of the IPC channel of lib/child_process.js can count on: which messages are accepted, and which go with
    their handles. */
module IpcLaws {
  import opened Wrappers
  import opened Ipc

  // ---- accepted messages ----

  /** The messages that one side sends before it disconnects. */
  function SentFirst(es: seq<Event>, first: bool): seq<Item> {
    if es == [] then []
    else if es[0].first != first then SentFirst(es[1..], first)
    else
      match es[0].action
      case DoSend(item) => [item] + SentFirst(es[1..], first)
      case DoDisconnect => []
      case _ => SentFirst(es[1..], first)
  }

  /** The step neither accepts a message nor disconnects. */
  ghost predicate Same(me: Endpoint, t: Endpoint) {
    t.given == me.given && t.connected == me.connected
  }

  lemma TransmitSame(me: Endpoint, item: Item)
    ensures Same(me, Transmit(me, item))
  {
  }

  lemma {:induction false} FlushSame(me: Endpoint, items: seq<Item>)
    ensures Same(me, Flush(me, items))
    decreases |items|
  {
    if items != [] {
      FlushSame(me, items[..|items| - 1]);
      TransmitSame(Flush(me, items[..|items| - 1]), items[|items| - 1]);
      hide Transmit;
    }
  }

  lemma ActAccepts(me: Endpoint, you: Endpoint, action: Action)
    requires Enabled(me, you, action)
    ensures var t := Act(me, you, action);
            && t.given == me.given + (if action.DoSend? && me.connected then [action.item] else [])
            && t.connected == (me.connected && !action.DoDisconnect?)
  {
    match action {
      case DoSend(item) => TransmitSame(me.(given := me.given + [item]), item);
      case DoReceive =>
        var u := me.(read := me.read + 1);
        if u.queue.Some? {
          FlushSame(u.(queue := None), u.queue.value);
        }
      case _ =>
    }
    hide Transmit, Flush;
    assert me.given + [] == me.given;
  }

  lemma {:induction false} RunAccepts(x: Endpoint, y: Endpoint, es: seq<Event>, x': Endpoint, y': Endpoint)
    requires Run(x, y, es, x', y')
    ensures x'.given == x.given + (if x.connected then SentFirst(es, true) else [])
    ensures y'.given == y.given + (if y.connected then SentFirst(es, false) else [])
    decreases |es|
  {
    hide Act, Enabled;
    if es == [] {
      assert x.given + [] == x.given && y.given + [] == y.given;
    } else {
      var action := es[0].action;
      if es[0].first {
        ActAccepts(x, y, action);
        RunAccepts(Act(x, y, action), y, es[1..], x', y');
        Joins(x.given, action, SentFirst(es[1..], true));
      } else {
        ActAccepts(y, x, action);
        RunAccepts(x, Act(y, x, action), es[1..], x', y');
        Joins(y.given, action, SentFirst(es[1..], false));
      }
    }
  }

  lemma Joins(given: seq<Item>, action: Action, rest: seq<Item>)
    ensures action.DoSend? ==> (given + [action.item]) + rest == given + ([action.item] + rest)
    ensures (given + []) + rest == given + rest && (given + []) + [] == given + []
  {
  }

  /** In every run the messages accepted on a side are those sent there before its disconnect, in order. */
  lemma AcceptsUntilDisconnect(a: set<Handle>, b: set<Handle>, es: seq<Event>, x: Endpoint, y: Endpoint)
    requires Run(Init(a), Init(b), es, x, y)
    ensures x.given == SentFirst(es, true) && y.given == SentFirst(es, false)
  {
    RunAccepts(Init(a), Init(b), es, x, y);
    hide Run;
    assert [] + SentFirst(es, true) == SentFirst(es, true) && [] + SentFirst(es, false) == SentFirst(es, false);
  }

  // ---- handles ----

  predicate Has(item: Item, live: set<Handle>) {
    item.handle.Some? && item.handle.value in live
  }

  /** The handle was written with a message since. */
  ghost predicate Moved(me: Endpoint, t: Endpoint, h: Handle) {
    exists k :: |me.written| <= k < |t.written| && t.written[k].Data? && t.written[k].attached && t.written[k].item.handle == Some(h)
  }

  /** What is written goes with its handle exactly if that was still open, and a handle that moves is not open after that. */
  ghost predicate Attaches(me: Endpoint, t: Endpoint) {
    && me.written <= t.written && t.live <= me.live
    && (forall k :: |me.written| <= k < |t.written| && t.written[k].Data? ==>
          (t.written[k].attached <==> Has(t.written[k].item, me.live)))
    && (forall k :: |me.written| <= k < |t.written| && t.written[k].Data? && t.written[k].attached && t.written[k].item.handle.value.once ==>
          t.written[k].item.handle.value !in t.live)
    && (forall h :: h in me.live && h !in t.live ==> h.once && Moved(me, t, h))
  }

  lemma TransmitAttaches(me: Endpoint, item: Item)
    ensures Attaches(me, Transmit(me, item))
    ensures Transmit(me, item).queue.Some? || Transmit(me, item).live == me.live
  {
    var t := Transmit(me, item);
    if t.written != me.written {
      assert t.written[|me.written|].item == item;
    }
  }

  /** Once a handle was attached the rest is queued. */
  lemma {:induction false} FlushAttaches(me: Endpoint, items: seq<Item>)
    ensures Attaches(me, Flush(me, items)) && (Flush(me, items).queue.Some? || Flush(me, items).live == me.live)
    decreases |items|
  {
    if items != [] {
      var u, last := Flush(me, items[..|items| - 1]), items[|items| - 1];
      FlushAttaches(me, items[..|items| - 1]);
      TransmitAttaches(u, last);
      QueuedWaits(u, last);
      hide Transmit;
      AttachesMore(me, u, Transmit(u, last));
    }
  }

  lemma QueuedWaits(me: Endpoint, item: Item)
    ensures me.queue.Some? ==> Transmit(me, item).written == me.written && Transmit(me, item).live == me.live && Transmit(me, item).queue.Some?
  {
  }

  lemma AttachesMore(me: Endpoint, u: Endpoint, t: Endpoint)
    requires Attaches(me, u) && Attaches(u, t) && (u.live == me.live || (t.written == u.written && t.live == u.live))
    ensures Attaches(me, t)
  {
    forall k | |me.written| <= k < |t.written| && t.written[k].Data?
      ensures t.written[k].attached <==> Has(t.written[k].item, me.live)
      ensures t.written[k].attached && t.written[k].item.handle.value.once ==> t.written[k].item.handle.value !in t.live
    {
      if k < |u.written| {
        assert t.written[k] == u.written[k];
      }
    }
    forall h | h in me.live && h !in t.live
      ensures h.once && Moved(me, t, h)
    {
      if h !in u.live {
        var k :| |me.written| <= k < |u.written| && u.written[k].Data? && u.written[k].attached && u.written[k].item.handle == Some(h);
        assert t.written[k] == u.written[k];
      } else {
        var k :| |u.written| <= k < |t.written| && t.written[k].Data? && t.written[k].attached && t.written[k].item.handle == Some(h);
      }
    }
  }

  /** In every step messages go with their handles exactly if these are still open, and only a handle that moved, or that
      the user closed, is not open any more. */
  lemma HandlesGoWhileOpen(me: Endpoint, you: Endpoint, action: Action)
    requires Enabled(me, you, action) && !action.DoGone?
    ensures Attaches(me, Act(me, you, action))
  {
    hide Transmit, Flush, Attaches, OnAck, OnHandle;
    var t := Act(me, you, action);
    match action {
      case DoSend(item) =>
        var u := me.(given := me.given + [item]);
        TransmitAttaches(u, item);
        AttachesVia(me, u, Transmit(u, item));
        AttachesNothing(me, me);
      case DoReceive =>
        var u := me.(read := me.read + 1);
        AckAttaches(u);
        AttachesNothing(u, u);
        AttachesNothing(u, OnHandle(u));
        AttachesVia(me, u, t);
      case _ => AttachesNothing(me, t);
    }
  }

  lemma AttachesVia(me: Endpoint, u: Endpoint, t: Endpoint)
    requires u.written == me.written && u.live == me.live && Attaches(u, t)
    ensures Attaches(me, t)
  {
    assert forall h :: Moved(u, t, h) ==> Moved(me, t, h);
  }

  lemma AttachesNothing(me: Endpoint, t: Endpoint)
    ensures t.live == me.live && (t.written == me.written || t.written == me.written + [Ack]) ==> Attaches(me, t)
    ensures t == OnHandle(me) ==> Attaches(me, t)
  {
  }

  lemma AckAttaches(me: Endpoint)
    ensures Attaches(me, OnAck(me))
  {
    hide Flush, Transmit;
    if me.queue.Some? {
      FlushAttaches(me.(queue := None), me.queue.value);
    }
  }

  /** A handle that is not open goes with no message any more, whatever happens. */
  lemma {:induction false} NeverAgain(x: Endpoint, y: Endpoint, es: seq<Event>, x': Endpoint, y': Endpoint, h: Handle)
    requires Run(x, y, es, x', y') && h !in x.live
    ensures h !in x'.live && x.written <= x'.written
    ensures forall k :: |x.written| <= k < |x'.written| && x'.written[k].Data? && x'.written[k].attached ==> x'.written[k].item.handle != Some(h)
    decreases |es|
  {
    hide Act, Enabled;
    if es != [] {
      var action := es[0].action;
      if es[0].first {
        var u := Act(x, y, action);
        if action.DoGone? {
          GoneWrites(x, y, action);
        } else {
          HandlesGoWhileOpen(x, y, action);
        }
        NeverAgain(u, y, es[1..], x', y', h);
        assert forall k :: |x.written| <= k < |u.written| ==> x'.written[k] == u.written[k];
      } else {
        NeverAgain(x, Act(y, x, action), es[1..], x', y', h);
      }
    }
  }

  /** A handle that the user closes is not open any more. */
  lemma GoneWrites(me: Endpoint, you: Endpoint, action: Action)
    requires Enabled(me, you, action) && action.DoGone?
    ensures Act(me, you, action).written == me.written && Act(me, you, action).live == me.live - {action.h}
  {
  }
}
