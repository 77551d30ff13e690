/** Round-robin connection sharing of lib/cluster.js for one key: the master's `RoundRobinHandle`, the workers'
    faux handles and the FIFO channels between them, as a transition system. */
module Cluster {
  import opened Wrappers

  type Worker = nat
  type Conn = nat

  /** A connection on its way, under the sequence number of its message. */
  datatype Sent = Sent(seqno: nat, conn: Conn)

  datatype MasterMsg = Reply | NewConn(sent: Sent)
  datatype WorkerMsg = QueryServer | Close | Ack(seqno: nat, accepted: bool)

  /** A worker listens on the key at most once; its table has an entry for it while it is open. */
  datatype Phase = NotAsked | Asked | Open | Closed

  datatype Peer = Peer(phase: Phase, down: seq<MasterMsg>, up: seq<WorkerMsg>)

  /** What the closure kept for an acknowledgement refers to; `gen` tells which listener object made it. */
  datatype Call = Call(worker: Worker, conn: Conn, gen: nat)

  /** Where a connection is. Stranded means queued in a listener object that no longer exists. */
  datatype Place = Queued | Outstanding(seqno: nat) | Accepted | ClosedAtShutdown | Stranded

  datatype State = State(
    all: set<Worker>, free: seq<Worker>, handles: seq<Conn>,
    binding: bool, waiting: seq<Worker>, shut: bool, gen: nat,
    callbacks: map<nat, Call>, seqno: nat,
    peers: map<Worker, Peer>,
    // history
    arrived: nat, places: map<Conn, Place>, sent: map<Worker, Option<Sent>>, failed: bool)

  function Init(workers: set<Worker>): State {
    State({}, [], [], false, [], true, 0, map[], 0, map w | w in workers :: Peer(NotAsked, [], []),
          0, map[], map w | w in workers :: None, false)
  }

  function Tell(peers: map<Worker, Peer>, w: Worker, msg: MasterMsg): map<Worker, Peer>
    requires w in peers
  {
    peers[w := peers[w].(down := peers[w].down + [msg])]
  }

  /** The next message of w is taken off its channel. */
  function Taken(peers: map<Worker, Peer>, w: Worker): map<Worker, Peer>
    requires w in peers && peers[w].up != []
  {
    peers[w := peers[w].(up := peers[w].up[1..])]
  }

  // ---- the master ----

  /** `handoff`. */
  function Handoff(s: State, w: Worker): State
    requires w in s.peers
  {
    if w !in s.all then s
    else if s.handles == [] then s.(free := s.free + [w])
    else
      var sent := Sent(s.seqno, s.handles[0]);
      s.(handles := s.handles[1..], seqno := s.seqno + 1, callbacks := s.callbacks[s.seqno := Call(w, sent.conn, s.gen)],
         peers := Tell(s.peers, w, NewConn(sent)),
         places := s.places[sent.conn := Outstanding(s.seqno)], sent := s.sent[w := Some(sent)])
  }

  /** `distribute`. */
  function Distribute(s: State, c: Conn): State
    requires forall w :: w in s.free ==> w in s.peers
  {
    var s' := s.(handles := s.handles + [c], places := s.places[c := Queued]);
    if s.free == [] then s' else Handoff(s'.(free := s.free[1..]), s.free[0])
  }

  /** The `done` of `add`: the reply, then a connection if one is waiting. */
  function Done(s: State, w: Worker): State
    requires w in s.peers
  {
    Handoff(s.(peers := Tell(s.peers, w, Reply)), w)
  }

  /** `queryServer` and `add`. The first query makes a listener object, which has to bind first. */
  function Add(s: State, w: Worker): State
    requires w in s.peers && s.peers[w].up != []
  {
    var peers, failed := Taken(s.peers, w), s.failed || w in s.all;
    if s.shut then
      s.(peers := peers, shut := false, gen := s.gen + 1, binding := true, all := {w}, waiting := [w], failed := failed)
    else if s.binding then s.(peers := peers, all := s.all + {w}, waiting := s.waiting + [w], failed := failed)
    else Handoff(s.(peers := Tell(peers, w, Reply), all := s.all + {w}, failed := failed), w)
  }

  /** The 'listening' event runs the callbacks in the order they were added. */
  function Listening(s: State): State
    requires forall w :: w in s.waiting ==> w in s.peers
    decreases |s.waiting|
  {
    if s.waiting == [] then s.(binding := false)
    else DoneKeepsWaiting(s); Listening(Done(s.(waiting := s.waiting[1..]), s.waiting[0]))
  }

  lemma DoneKeepsWaiting(s: State)
    requires s.waiting != [] && forall w :: w in s.waiting ==> w in s.peers
    ensures var t := Done(s.(waiting := s.waiting[1..]), s.waiting[0]);
            t.waiting == s.waiting[1..] && t.peers.Keys == s.peers.Keys
  {
  }

  function Without(free: seq<Worker>, w: Worker): (r: seq<Worker>)
    ensures |r| <= |free|
  {
    if free == [] then [] else if free[0] == w then free[1..] else [free[0]] + Without(free[1..], w)
  }

  /** `close` and `remove`: when the last worker leaves, the queued connections are closed. */
  function Remove(s: State, w: Worker): State
    requires w in s.peers && s.peers[w].up != []
  {
    var peers := Taken(s.peers, w);
    if s.shut then s.(peers := peers, failed := true) // there is no listener object to ask
    else if w !in s.all then s.(peers := peers)
    else if s.all - {w} != {} then s.(peers := peers, all := s.all - {w}, free := Without(s.free, w))
    else
      s.(peers := peers, all := {}, free := Without(s.free, w), handles := [], shut := true,
         places := CloseAll(s.places, s.handles), failed := s.failed || s.binding) // its handle is null while it binds
  }

  function CloseAll(places: map<Conn, Place>, handles: seq<Conn>): map<Conn, Place> {
    map c | c in places :: if c in handles then ClosedAtShutdown else places[c]
  }

  /** `internal` takes an acknowledgement and its callback. */
  function Popped(s: State, w: Worker, q: nat): State
    requires w in s.peers && s.peers[w].up != []
  {
    s.(peers := Taken(s.peers, w), callbacks := s.callbacks - {q}, sent := s.sent[w := None])
  }

  /** The callback that `handoff` left. It refers to the listener object that made it. */
  function OnReply(s: State, w: Worker, call: Call, accepted: bool): State
    requires w in s.peers && forall x :: x in s.free ==> x in s.peers
  {
    var live := call.gen == s.gen && !s.shut;
    if accepted then
      if live then Handoff(s.(places := s.places[call.conn := Accepted]), w) else s.(places := s.places[call.conn := Accepted])
    else if live then
      DistributeKeepsPeers(s, call.conn);
      Handoff(Distribute(s, call.conn), w)
    else s.(places := s.places[call.conn := Stranded])
  }

  lemma DistributeKeepsPeers(s: State, c: Conn)
    requires forall w :: w in s.free ==> w in s.peers
    ensures Distribute(s, c).peers.Keys == s.peers.Keys
  {
  }

  /** The master takes the next message of worker w. */
  function MasterReceives(s: State, w: Worker): State
    requires w in s.peers && s.peers[w].up != [] && forall x :: x in s.free ==> x in s.peers
  {
    match s.peers[w].up[0]
    case QueryServer => Add(s, w)
    case Close => Remove(s, w)
    case Ack(q, accepted) =>
      if q in s.callbacks then OnReply(Popped(s, w, q), w, s.callbacks[q], accepted)
      else s.(peers := Taken(s.peers, w), failed := true)
  }

  // ---- a worker ----

  /** `_getServer`. */
  function Ask(p: Peer): Peer {
    p.(phase := Asked, up := p.up + [QueryServer])
  }

  /** `close` of the faux handle. */
  function CloseHandle(p: Peer): Peer {
    p.(phase := Closed, up := p.up + [Close])
  }

  /** `rr` for the reply and `onconnection` for a connection. */
  function WorkerReceives(p: Peer): Peer
    requires p.down != []
  {
    match p.down[0]
    case Reply => p.(phase := Open, down := p.down[1..])
    case NewConn(sent) => p.(down := p.down[1..], up := p.up + [Ack(sent.seqno, p.phase.Open?)])
  }

  // ---- runs ----

  datatype Event =
    | EvConnection
    | EvListening
    | EvMaster(w: Worker)
    | EvWorker(w: Worker)
    | EvAsk(w: Worker)
    | EvClose(w: Worker)

  /** The workers the master has listed are all known. */
  predicate Ready(s: State) {
    (forall w :: w in s.free ==> w in s.peers) && (forall w :: w in s.waiting ==> w in s.peers)
  }

  predicate Enabled(s: State, e: Event) {
    match e
    case EvConnection => !s.shut && !s.binding
    case EvListening => s.binding
    case EvMaster(w) => w in s.peers && s.peers[w].up != []
    case EvWorker(w) => w in s.peers && s.peers[w].down != []
    case EvAsk(w) => w in s.peers && s.peers[w].phase.NotAsked?
    case EvClose(w) => w in s.peers && s.peers[w].phase.Open?
  }

  function Apply(s: State, e: Event): State
    requires Enabled(s, e) && Ready(s)
  {
    match e
    case EvConnection => Distribute(s.(arrived := s.arrived + 1), s.arrived)
    case EvListening => Listening(s)
    case EvMaster(w) => MasterReceives(s, w)
    case EvWorker(w) => s.(peers := s.peers[w := WorkerReceives(s.peers[w])])
    case EvAsk(w) => s.(peers := s.peers[w := Ask(s.peers[w])])
    case EvClose(w) => s.(peers := s.peers[w := CloseHandle(s.peers[w])])
  }
}

module ClusterProofs {
  import opened Wrappers
  import opened Cluster

  // ---- the invariant ----

  /** What a worker, its two channels and the master's record of it can look like together. */
  ghost predicate Shape(p: Peer, inAll: bool, waits: bool, sent: Option<Sent>) {
    match p.phase
    case NotAsked => p.down == [] && p.up == [] && !inAll && !waits && sent.None?
    case Asked =>
      if !inAll then p.up == [QueryServer] && p.down == [] && !waits && sent.None?
      else
        && p.up == []
        && if waits then p.down == [] && sent.None?
           else p.down == [Reply] + if sent.Some? then [NewConn(sent.value)] else []
    case Open =>
      && inAll && !waits
      && if sent.None? then p.down == [] && p.up == []
         else (p.down == [NewConn(sent.value)] && p.up == []) || (p.down == [] && p.up == [Ack(sent.value.seqno, true)])
    case Closed =>
      && !waits
      && if inAll then
           if sent.None? then p.down == [] && p.up == [Close]
           else
             || (p.down == [NewConn(sent.value)] && p.up == [Close])
             || (p.down == [] && p.up == [Ack(sent.value.seqno, true), Close])
             || (p.down == [] && p.up == [Close, Ack(sent.value.seqno, false)])
         else
           if sent.None? then p.down == [] && p.up == []
           else (p.down == [NewConn(sent.value)] && p.up == []) || (p.down == [] && p.up == [Ack(sent.value.seqno, false)])
  }

  ghost predicate Shapes(peers: map<Worker, Peer>, all: set<Worker>, waiting: seq<Worker>, sent: map<Worker, Option<Sent>>) {
    && sent.Keys == peers.Keys
    && (forall w :: w in all ==> w in peers)
    && (forall w :: w in waiting ==> w in all)
    && (forall w :: w in peers ==> Shape(peers[w], w in all, w in waiting, sent[w]))
  }

  ghost predicate Distinct(s: seq<nat>) {
    forall i, j :: 0 <= i < j < |s| ==> s[i] != s[j]
  }

  /** Every worker in `all` is free, waits for its reply, or has a connection outstanding; `loose` may be
      none of these for the moment. */
  ghost predicate Tokens(all: set<Worker>, free: seq<Worker>, waiting: seq<Worker>, sent: map<Worker, Option<Sent>>, loose: set<Worker>) {
    && Distinct(free) && Distinct(waiting)
    && (forall w :: w in free ==> w in all && w in sent && w !in waiting && w !in loose && sent[w].None?)
    && (forall w :: w in waiting ==> w !in loose)
    && (forall w :: w in loose && w in sent ==> sent[w].None?)
    && (forall w :: w in all && w in sent ==> w in free || w in waiting || w in loose || sent[w].Some?)
  }

  /** The callbacks are those of the outstanding connections, at most one per worker. */
  ghost predicate Calls(callbacks: map<nat, Call>, seqno: nat, gen: nat, all: set<Worker>, sent: map<Worker, Option<Sent>>) {
    && (forall q :: q in callbacks ==>
          q < seqno && callbacks[q].worker in sent && sent[callbacks[q].worker] == Some(Sent(q, callbacks[q].conn)))
    && (forall w :: w in sent && sent[w].Some? ==>
          && sent[w].value.seqno in callbacks && callbacks[sent[w].value.seqno].worker == w
          && callbacks[sent[w].value.seqno].conn == sent[w].value.conn
          && (w in all ==> callbacks[sent[w].value.seqno].gen == gen))
  }

  /** Every connection is in exactly one place, and the queue and the callbacks agree with it. */
  ghost predicate Placed(places: map<Conn, Place>, arrived: nat, handles: seq<Conn>, callbacks: map<nat, Call>) {
    && (forall c :: c in places ==> c < arrived)
    && Distinct(handles)
    && (forall c :: c in handles ==> c in places && places[c] == Queued)
    && (forall c :: c in places && places[c] == Queued ==> c in handles)
    && (forall q :: q in callbacks ==> callbacks[q].conn in places && places[callbacks[q].conn] == Outstanding(q))
    && (forall c :: c in places && places[c].Outstanding? ==>
          places[c].seqno in callbacks && callbacks[places[c].seqno].conn == c)
  }

  ghost predicate Modes(s: State) {
    && (s.shut ==> s.all == {} && s.handles == [] && s.free == [] && !s.binding)
    && (!s.binding ==> s.waiting == [])
    && !s.failed
  }

  /** Everything but the balance of the two queues, with `loose` workers in nobody's hands. */
  ghost predicate Core(s: State, loose: set<Worker>) {
    && Shapes(s.peers, s.all, s.waiting, s.sent)
    && Tokens(s.all, s.free, s.waiting, s.sent, loose)
    && Calls(s.callbacks, s.seqno, s.gen, s.all, s.sent)
    && Placed(s.places, s.arrived, s.handles, s.callbacks)
    && Modes(s)
  }

  /** Queued connections and free workers never coexist. */
  ghost predicate Steady(s: State) {
    Core(s, {}) && (s.free == [] || s.handles == [])
  }

  ghost predicate Inv(s: State) {
    Steady(s) && (s.binding ==> forall w :: w in s.all ==> w in s.waiting)
  }

  // ---- handing off ----

  lemma Known(s: State, loose: set<Worker>)
    requires Core(s, loose)
    ensures s.sent.Keys == s.peers.Keys && s.all <= s.peers.Keys
    ensures forall w :: w in s.free ==> w in s.peers
    ensures forall w :: w in s.waiting ==> w in s.peers && w in s.all
  {
  }

  lemma InvReady(s: State)
    requires Inv(s)
    ensures Ready(s)
  {
    Known(s, {});
  }

  lemma InvSteady(s: State)
    requires Inv(s)
    ensures Steady(s)
  {
  }

  lemma ShapesSend(peers: map<Worker, Peer>, all: set<Worker>, waiting: seq<Worker>, sent: map<Worker, Option<Sent>>, w: Worker, x: Sent)
    requires Shapes(peers, all, waiting, sent) && w in all && w !in waiting && sent[w].None?
    ensures Shapes(Tell(peers, w, NewConn(x)), all, waiting, sent[w := Some(x)])
  {
    var p := peers[w];
    assert Shape(p, true, false, None);
    assert Shape(p.(down := p.down + [NewConn(x)]), true, false, Some(x));
  }

  lemma TokensSend(all: set<Worker>, free: seq<Worker>, waiting: seq<Worker>, sent: map<Worker, Option<Sent>>, w: Worker, x: Sent)
    requires Tokens(all, free, waiting, sent, {w}) && w in sent
    ensures Tokens(all, free, waiting, sent[w := Some(x)], {})
  {
  }

  lemma CallsSend(callbacks: map<nat, Call>, seqno: nat, gen: nat, all: set<Worker>, sent: map<Worker, Option<Sent>>, w: Worker, c: Conn)
    requires Calls(callbacks, seqno, gen, all, sent) && w in sent && sent[w].None?
    ensures Calls(callbacks[seqno := Call(w, c, gen)], seqno + 1, gen, all, sent[w := Some(Sent(seqno, c))])
  {
  }

  lemma PlacedSend(places: map<Conn, Place>, arrived: nat, handles: seq<Conn>, callbacks: map<nat, Call>, q: nat, w: Worker, gen: nat)
    requires Placed(places, arrived, handles, callbacks) && handles != [] && q !in callbacks
    ensures Placed(places[handles[0] := Outstanding(q)], arrived, handles[1..], callbacks[q := Call(w, handles[0], gen)])
  {
    var c, rest := handles[0], handles[1..];
    var p, k := places[c := Outstanding(q)], callbacks[q := Call(w, c, gen)];
    assert handles == [c] + rest && c in handles;
    assert c !in rest && Distinct(rest);
    forall x | x in rest
      ensures x in p && p[x] == Queued
    {
      assert x in handles && x != c;
    }
    forall x | x in p && p[x] == Queued
      ensures x in rest
    {
      assert x in places && places[x] == Queued && x != c;
    }
    forall r | r in k
      ensures k[r].conn in p && p[k[r].conn] == Outstanding(r)
    {
      if r != q {
        assert places[callbacks[r].conn] == Outstanding(r) && callbacks[r].conn != c;
      }
    }
    forall x | x in p && p[x].Outstanding?
      ensures p[x].seqno in k && k[p[x].seqno].conn == x
    {
      if x != c {
        assert places[x].seqno in callbacks && places[x].seqno != q;
      }
    }
    forall x | x in p
      ensures x < arrived
    {
      assert x in places;
    }
  }

  lemma HandoffFree(s: State, w: Worker)
    requires Core(s, {w}) && w in s.all && w !in s.waiting && s.handles == []
    ensures Steady(s.(free := s.free + [w]))
  {
    Known(s, {w});
    assert w !in s.free;
    hide Shapes, Calls, Placed;
  }

  lemma HandoffSent(s: State, w: Worker)
    requires Core(s, {w}) && w in s.all && w in s.peers && w !in s.waiting && s.handles != []
    ensures var x := Sent(s.seqno, s.handles[0]);
            && Shapes(Tell(s.peers, w, NewConn(x)), s.all, s.waiting, s.sent[w := Some(x)])
            && Tokens(s.all, s.free, s.waiting, s.sent[w := Some(x)], {})
            && Calls(s.callbacks[s.seqno := Call(w, x.conn, s.gen)], s.seqno + 1, s.gen, s.all, s.sent[w := Some(x)])
            && Placed(s.places[x.conn := Outstanding(s.seqno)], s.arrived, s.handles[1..], s.callbacks[s.seqno := Call(w, x.conn, s.gen)])
            && Modes(s)
  {
    Known(s, {w});
    assert s.sent[w].None? && s.seqno !in s.callbacks;
    ShapesSend(s.peers, s.all, s.waiting, s.sent, w, Sent(s.seqno, s.handles[0]));
    TokensSend(s.all, s.free, s.waiting, s.sent, w, Sent(s.seqno, s.handles[0]));
    CallsSend(s.callbacks, s.seqno, s.gen, s.all, s.sent, w, s.handles[0]);
    PlacedSend(s.places, s.arrived, s.handles, s.callbacks, s.seqno, w, s.gen);
    hide Shapes, Tokens, Calls, Placed, Tell;
  }

  lemma HandoffSend(s: State, w: Worker)
    requires Core(s, {w}) && w in s.all && w in s.peers && w !in s.waiting && s.handles != []
    requires s.free == [] || |s.handles| <= 1
    ensures Steady(Handoff(s, w))
  {
    hide Shapes, Tokens, Calls, Placed, Tell;
    HandoffSent(s, w);
  }

  lemma NotLoose(s: State, w: Worker)
    requires Core(s, {w}) && w !in s.all
    ensures Core(s, {})
  {
    hide Shapes, Calls, Placed;
  }

  /** A worker in nobody's hands gets the next connection or becomes free. */
  lemma HandoffKeeps(s: State, w: Worker)
    requires Core(s, {w}) && w in s.peers && w !in s.waiting
    requires s.free == [] || s.handles == [] || (w in s.all && |s.handles| <= 1)
    ensures Steady(Handoff(s, w))
  {
    hide Core, Tell;
    if w !in s.all {
      NotLoose(s, w);
    } else if s.handles == [] {
      HandoffFree(s, w);
    } else {
      HandoffSend(s, w);
    }
  }

  lemma HandoffModes(s: State, w: Worker)
    requires w in s.peers
    ensures var t := Handoff(s, w);
            t.binding == s.binding && t.all == s.all && t.waiting == s.waiting && t.shut == s.shut && t.peers.Keys == s.peers.Keys
  {
  }

  // ---- distributing ----

  /** A connection that is nowhere may be put anywhere. */
  lemma PlacedQueue(places: map<Conn, Place>, arrived: nat, handles: seq<Conn>, callbacks: map<nat, Call>, c: Conn)
    requires Placed(places - {c}, arrived, handles, callbacks) && c < arrived
    ensures Placed(places[c := Queued], arrived, handles + [c], callbacks)
  {
    var rest := places - {c};
    assert forall x :: x in rest ==> x in places && x != c && rest[x] == places[x];
    assert forall x :: x in places && x != c ==> x in rest;
    assert c !in handles;
    assert forall x :: x in handles + [c] <==> x in handles || x == c;
    assert places[c := Queued] == rest[c := Queued];
  }

  lemma PlacedElsewhere(places: map<Conn, Place>, arrived: nat, handles: seq<Conn>, callbacks: map<nat, Call>, c: Conn, p: Place)
    requires Placed(places - {c}, arrived, handles, callbacks) && c < arrived && !p.Queued? && !p.Outstanding?
    ensures Placed(places[c := p], arrived, handles, callbacks)
  {
    var rest := places - {c};
    assert forall x :: x in rest ==> x in places && x != c && rest[x] == places[x];
    assert forall x :: x in places && x != c ==> x in rest;
    assert places[c := p] == rest[c := p];
  }

  lemma TokensTake(all: set<Worker>, free: seq<Worker>, waiting: seq<Worker>, sent: map<Worker, Option<Sent>>)
    requires Tokens(all, free, waiting, sent, {}) && free != []
    ensures Tokens(all, free[1..], waiting, sent, {free[0]})
    ensures free[0] in all && free[0] in sent && free[0] !in waiting
  {
    assert free == [free[0]] + free[1..];
    assert free[0] in free && free[0] !in free[1..];
  }

  /** Everything but the place of connection c. */
  ghost predicate Floating(s: State, c: Conn) {
    && Shapes(s.peers, s.all, s.waiting, s.sent)
    && Tokens(s.all, s.free, s.waiting, s.sent, {})
    && Calls(s.callbacks, s.seqno, s.gen, s.all, s.sent)
    && Placed(s.places - {c}, s.arrived, s.handles, s.callbacks)
    && Modes(s) && c < s.arrived && !s.shut && (s.free == [] || s.handles == [])
  }

  lemma DistributeKeeps(s: State, c: Conn)
    requires Floating(s, c)
    ensures (forall w :: w in s.free ==> w in s.peers)
    ensures Steady(Distribute(s, c))
    ensures var t := Distribute(s, c); t.binding == s.binding && t.all == s.all && t.waiting == s.waiting
  {
    PlacedQueue(s.places, s.arrived, s.handles, s.callbacks, c);
    assert forall w :: w in s.free ==> w in s.peers;
    var s' := s.(handles := s.handles + [c], places := s.places[c := Queued]);
    if s.free == [] {
      hide Shapes, Tokens, Calls, Placed;
    } else {
      TokensTake(s.all, s.free, s.waiting, s.sent);
      hide Shapes, Tokens, Calls, Placed;
      HandoffKeeps(s'.(free := s.free[1..]), s.free[0]);
      HandoffModes(s'.(free := s.free[1..]), s.free[0]);
      hide Handoff, Steady;
    }
  }

  lemma ConnectionKeeps(s: State)
    requires Inv(s) && !s.shut && !s.binding
    ensures (forall w :: w in s.free ==> w in s.peers) && Inv(Distribute(s.(arrived := s.arrived + 1), s.arrived))
  {
    var s' := s.(arrived := s.arrived + 1);
    assert s.places - {s.arrived} == s.places;
    assert Floating(s', s.arrived) by { hide Shapes, Tokens, Calls; }
    DistributeKeeps(s', s.arrived);
    hide Core, Floating, Distribute;
  }

  // ---- an acknowledgement ----

  lemma ShapesPop(peers: map<Worker, Peer>, all: set<Worker>, waiting: seq<Worker>, sent: map<Worker, Option<Sent>>, w: Worker)
    requires Shapes(peers, all, waiting, sent) && w in peers && peers[w].up != [] && peers[w].up[0].Ack?
    ensures w !in waiting && sent[w].Some? && peers[w].up[0] == Ack(sent[w].value.seqno, w in all)
    ensures Shapes(Taken(peers, w), all, waiting, sent[w := None])
  {
    var p := peers[w];
    assert Shape(p, w in all, w in waiting, sent[w]);
    assert Shape(p.(up := p.up[1..]), w in all, false, None);
  }

  lemma TokensPop(all: set<Worker>, free: seq<Worker>, waiting: seq<Worker>, sent: map<Worker, Option<Sent>>, w: Worker)
    requires Tokens(all, free, waiting, sent, {}) && w in sent && sent[w].Some? && w !in waiting
    ensures Tokens(all, free, waiting, sent[w := None], {w})
    ensures w !in all ==> Tokens(all, free, waiting, sent[w := None], {})
  {
    assert w !in free;
  }

  lemma CallsPop(callbacks: map<nat, Call>, seqno: nat, gen: nat, all: set<Worker>, sent: map<Worker, Option<Sent>>, w: Worker)
    requires Calls(callbacks, seqno, gen, all, sent) && w in sent && sent[w].Some?
    ensures sent[w].value.seqno in callbacks
    ensures var call := callbacks[sent[w].value.seqno]; call.conn == sent[w].value.conn && (w in all ==> call.gen == gen)
    ensures Calls(callbacks - {sent[w].value.seqno}, seqno, gen, all, sent[w := None])
  {
  }

  lemma PlacedPop(places: map<Conn, Place>, arrived: nat, handles: seq<Conn>, callbacks: map<nat, Call>, q: nat)
    requires Placed(places, arrived, handles, callbacks) && q in callbacks
    ensures callbacks[q].conn < arrived && Placed(places - {callbacks[q].conn}, arrived, handles, callbacks - {q})
  {
  }

  /** Everything but the place of connection c, whose worker w is in nobody's hands. */
  ghost predicate Detached(s: State, w: Worker, c: Conn) {
    && Shapes(s.peers, s.all, s.waiting, s.sent) && Tokens(s.all, s.free, s.waiting, s.sent, {w})
    && (w !in s.all ==> Tokens(s.all, s.free, s.waiting, s.sent, {}))
    && Calls(s.callbacks, s.seqno, s.gen, s.all, s.sent)
    && Placed(s.places - {c}, s.arrived, s.handles, s.callbacks) && c < s.arrived
    && Modes(s) && (s.free == [] || s.handles == []) && (s.binding ==> forall x :: x in s.all ==> x in s.waiting)
    && w in s.peers && w !in s.waiting
  }

  lemma AcceptedKeeps(s: State, w: Worker, c: Conn)
    requires Detached(s, w, c) && w in s.all
    ensures Inv(Handoff(s.(places := s.places[c := Accepted]), w))
  {
    PlacedElsewhere(s.places, s.arrived, s.handles, s.callbacks, c, Accepted);
    hide Shapes, Tokens, Calls, Placed;
    var s' := s.(places := s.places[c := Accepted]);
    HandoffKeeps(s', w);
    HandoffModes(s', w);
    hide Handoff, Steady;
  }

  lemma RejectedKeeps(s: State, w: Worker, c: Conn)
    requires Detached(s, w, c) && w !in s.all && !s.shut
    ensures forall x :: x in s.free ==> x in s.peers
    ensures w in Distribute(s, c).peers && Inv(Handoff(Distribute(s, c), w))
  {
    assert Floating(s, c) by { hide Shapes, Tokens, Calls, Placed; }
    DistributeKeeps(s, c);
    DistributeKeepsPeers(s, c);
    hide Distribute, Steady, Floating;
  }

  lemma StrandedKeeps(s: State, w: Worker, c: Conn)
    requires Detached(s, w, c) && w !in s.all
    ensures Inv(s.(places := s.places[c := Stranded]))
  {
    PlacedElsewhere(s.places, s.arrived, s.handles, s.callbacks, c, Stranded);
    hide Shapes, Tokens, Calls, Placed;
  }

  /** The worker's answer is the one for its outstanding connection, and says whether it is still listed. */
  lemma AckPops(s: State, w: Worker)
    requires Inv(s) && w in s.peers && s.peers[w].up != [] && s.peers[w].up[0].Ack?
    ensures w in s.sent && s.sent[w].Some?
    ensures var x := s.sent[w].value;
            && s.peers[w].up[0] == Ack(x.seqno, w in s.all)
            && x.seqno in s.callbacks && s.callbacks[x.seqno].conn == x.conn && (w in s.all ==> s.callbacks[x.seqno].gen == s.gen && !s.shut)
            && Detached(Popped(s, w, x.seqno), w, x.conn)
  {
    Known(s, {});
    ShapesPop(s.peers, s.all, s.waiting, s.sent, w);
    TokensPop(s.all, s.free, s.waiting, s.sent, w);
    CallsPop(s.callbacks, s.seqno, s.gen, s.all, s.sent, w);
    PlacedPop(s.places, s.arrived, s.handles, s.callbacks, s.sent[w].value.seqno);
    hide Shapes, Tokens, Calls, Placed;
  }

  /** The three continuations of an acknowledgement. */
  lemma ReplyIs(s: State, w: Worker, q: nat, accepted: bool)
    requires w in s.peers && s.peers[w].up != [] && s.peers[w].up[0] == Ack(q, accepted) && q in s.callbacks && Ready(s)
    ensures var t := Popped(s, w, q); var c := s.callbacks[q].conn; var live := s.callbacks[q].gen == s.gen && !s.shut;
            && w in t.peers && (forall x :: x in t.free ==> x in t.peers) && t.all == s.all && t.shut == s.shut
            && (accepted && live ==> MasterReceives(s, w) == Handoff(t.(places := t.places[c := Accepted]), w))
            && (!accepted && live ==> w in Distribute(t, c).peers && MasterReceives(s, w) == Handoff(Distribute(t, c), w))
            && (!accepted && !live ==> MasterReceives(s, w) == t.(places := t.places[c := Stranded]))
  {
    DistributeKeepsPeers(Popped(s, w, q), s.callbacks[q].conn);
    hide Handoff, Distribute;
  }

  lemma AckKeeps(s: State, w: Worker)
    requires Inv(s) && w in s.peers && s.peers[w].up != [] && s.peers[w].up[0].Ack?
    ensures Ready(s) && Inv(MasterReceives(s, w))
  {
    hide Inv, Detached, Popped, Handoff, Distribute, MasterReceives, Ready;
    InvReady(s);
    AckPops(s, w);
    var q, c := s.sent[w].value.seqno, s.sent[w].value.conn;
    ReplyIs(s, w, q, w in s.all);
    if w in s.all {
      AcceptedKeeps(Popped(s, w, q), w, c);
    } else if s.callbacks[q].gen == s.gen && !s.shut {
      RejectedKeeps(Popped(s, w, q), w, c);
    } else {
      StrandedKeeps(Popped(s, w, q), w, c);
    }
  }

  // ---- a worker joins ----

  lemma ShapesAsk(peers: map<Worker, Peer>, all: set<Worker>, waiting: seq<Worker>, sent: map<Worker, Option<Sent>>, w: Worker)
    requires Shapes(peers, all, waiting, sent) && w in peers && peers[w].up != [] && peers[w].up[0].QueryServer?
    ensures w !in all && w !in waiting && sent[w].None?
    ensures Shapes(Taken(peers, w), all + {w}, waiting + [w], sent)
    ensures Shapes(Tell(Taken(peers, w), w, Reply), all + {w}, waiting, sent)
  {
    var p := peers[w];
    assert Shape(p, w in all, w in waiting, sent[w]);
    assert Shape(p.(up := p.up[1..]), true, true, None);
    assert Shape(p.(up := p.up[1..], down := p.down + [Reply]), true, false, None);
  }

  lemma TokensAsk(all: set<Worker>, free: seq<Worker>, waiting: seq<Worker>, sent: map<Worker, Option<Sent>>, w: Worker)
    requires Tokens(all, free, waiting, sent, {}) && w in sent && sent[w].None? && w !in all && w !in waiting
    ensures Tokens(all + {w}, free, waiting + [w], sent, {})
    ensures Tokens(all + {w}, free, waiting, sent, {w})
  {
    assert w !in free;
  }

  lemma CallsAsk(callbacks: map<nat, Call>, seqno: nat, gen: nat, gen': nat, all: set<Worker>, sent: map<Worker, Option<Sent>>, w: Worker)
    requires Calls(callbacks, seqno, gen, all, sent) && w in sent && sent[w].None?
    requires gen == gen' || all == {}
    ensures Calls(callbacks, seqno, gen', all + {w}, sent)
  {
  }

  lemma AddShut(s: State, w: Worker)
    requires Inv(s) && w in s.peers && s.peers[w].up != [] && s.peers[w].up[0].QueryServer? && s.shut
    ensures Inv(Add(s, w))
  {
    assert s.sent.Keys == s.peers.Keys;
    hide Shapes, Tokens, Calls, Placed, Taken;
    ShapesAsk(s.peers, s.all, s.waiting, s.sent, w);
    TokensAsk(s.all, s.free, s.waiting, s.sent, w);
    CallsAsk(s.callbacks, s.seqno, s.gen, s.gen + 1, s.all, s.sent, w);
    assert s.all + {w} == {w} && s.waiting + [w] == [w];
  }

  lemma AddWaits(s: State, w: Worker)
    requires Inv(s) && w in s.peers && s.peers[w].up != [] && s.peers[w].up[0].QueryServer? && s.binding
    ensures Inv(Add(s, w))
  {
    ShapesAsk(s.peers, s.all, s.waiting, s.sent, w);
    TokensAsk(s.all, s.free, s.waiting, s.sent, w);
    CallsAsk(s.callbacks, s.seqno, s.gen, s.gen, s.all, s.sent, w);
    hide Shapes, Tokens, Calls, Placed, Taken;
  }

  lemma AddJoined(s: State, w: Worker)
    requires Inv(s) && w in s.peers && s.peers[w].up != [] && s.peers[w].up[0].QueryServer? && !s.shut && !s.binding
    ensures var s' := s.(peers := Tell(Taken(s.peers, w), w, Reply), all := s.all + {w}, failed := s.failed || w in s.all);
            w in s'.peers && Inv(Handoff(s', w))
  {
    ShapesAsk(s.peers, s.all, s.waiting, s.sent, w);
    TokensAsk(s.all, s.free, s.waiting, s.sent, w);
    CallsAsk(s.callbacks, s.seqno, s.gen, s.gen, s.all, s.sent, w);
    var s' := s.(peers := Tell(Taken(s.peers, w), w, Reply), all := s.all + {w}, failed := s.failed || w in s.all);
    hide Shapes, Tokens, Calls, Placed, Taken, Tell;
    assert Core(s', {w});
    hide Core;
    HandoffKeeps(s', w);
    HandoffModes(s', w);
    hide Handoff, Steady;
  }

  lemma AddJoins(s: State, w: Worker)
    requires Inv(s) && w in s.peers && s.peers[w].up != [] && s.peers[w].up[0].QueryServer? && !s.shut && !s.binding
    ensures Inv(Add(s, w))
  {
    hide Inv, Handoff;
    AddJoined(s, w);
  }

  lemma AddKeeps(s: State, w: Worker)
    requires Inv(s) && w in s.peers && s.peers[w].up != [] && s.peers[w].up[0].QueryServer?
    ensures Ready(s) && Inv(MasterReceives(s, w))
  {
    hide Inv, Add, Ready;
    InvReady(s);
    if s.shut {
      AddShut(s, w);
    } else if s.binding {
      AddWaits(s, w);
    } else {
      AddJoins(s, w);
    }
  }

  // ---- the listener is bound ----

  lemma ShapesReply(peers: map<Worker, Peer>, all: set<Worker>, waiting: seq<Worker>, sent: map<Worker, Option<Sent>>)
    requires Shapes(peers, all, waiting, sent) && waiting != [] && Distinct(waiting)
    ensures var w := waiting[0];
            w in peers && Shapes(Tell(peers, w, Reply), all, waiting[1..], sent)
  {
    var w := waiting[0];
    assert waiting == [w] + waiting[1..];
    assert w in waiting && w !in waiting[1..];
    assert Shape(peers[w], true, true, sent[w]);
  }

  lemma TokensReply(all: set<Worker>, free: seq<Worker>, waiting: seq<Worker>, sent: map<Worker, Option<Sent>>)
    requires Tokens(all, free, waiting, sent, {}) && waiting != [] && waiting[0] in sent && sent[waiting[0]].None?
    ensures waiting[0] !in waiting[1..] && Tokens(all, free, waiting[1..], sent, {waiting[0]})
  {
    assert waiting == [waiting[0]] + waiting[1..];
    assert waiting[0] in waiting && waiting[0] !in waiting[1..];
  }

  lemma ReplyKeeps(s: State)
    requires Steady(s) && s.binding && s.waiting != []
    ensures var w := s.waiting[0]; var s' := s.(waiting := s.waiting[1..]);
            Ready(s) && Steady(Done(s', w)) && Done(s', w).binding
  {
    Known(s, {});
    var w := s.waiting[0];
    assert w in s.waiting;
    assert Shape(s.peers[w], true, true, s.sent[w]);
    assert s.sent[w].None?;
    ShapesReply(s.peers, s.all, s.waiting, s.sent);
    TokensReply(s.all, s.free, s.waiting, s.sent);
    hide Shapes, Tokens, Calls, Placed;
    var s' := s.(waiting := s.waiting[1..], peers := Tell(s.peers, w, Reply));
    HandoffKeeps(s', w);
    HandoffModes(s', w);
    hide Handoff, Steady;
  }

  lemma {:induction false} ListeningKeeps(s: State)
    requires Steady(s) && s.binding
    ensures Ready(s) && Inv(Listening(s))
    decreases |s.waiting|
  {
    Known(s, {});
    if s.waiting == [] {
      hide Shapes, Tokens, Calls, Placed;
    } else {
      ReplyKeeps(s);
      DoneKeepsWaiting(s);
      hide Done, Steady, Inv;
      ListeningKeeps(Done(s.(waiting := s.waiting[1..]), s.waiting[0]));
    }
  }

  // ---- a worker leaves ----

  lemma {:induction false} WithoutMembers(free: seq<Worker>, w: Worker)
    requires Distinct(free)
    ensures Distinct(Without(free, w)) && forall x :: x in Without(free, w) <==> x in free && x != w
  {
    if free != [] {
      assert free == [free[0]] + free[1..];
      assert free[0] !in free[1..];
      WithoutMembers(free[1..], w);
    }
  }

  lemma ShapesLeave(peers: map<Worker, Peer>, all: set<Worker>, waiting: seq<Worker>, sent: map<Worker, Option<Sent>>, w: Worker)
    requires Shapes(peers, all, waiting, sent) && w in peers && peers[w].up != [] && peers[w].up[0].Close?
    ensures w in all && w !in waiting
    ensures Shapes(Taken(peers, w), all - {w}, waiting, sent)
  {
    var p := peers[w];
    assert Shape(p, w in all, w in waiting, sent[w]);
    assert Shape(p.(up := p.up[1..]), false, false, sent[w]);
  }

  lemma TokensLeave(all: set<Worker>, free: seq<Worker>, waiting: seq<Worker>, sent: map<Worker, Option<Sent>>, w: Worker)
    requires Tokens(all, free, waiting, sent, {})
    ensures Tokens(all - {w}, Without(free, w), waiting, sent, {})
  {
    WithoutMembers(free, w);
  }

  lemma CallsLeave(callbacks: map<nat, Call>, seqno: nat, gen: nat, all: set<Worker>, sent: map<Worker, Option<Sent>>, w: Worker)
    requires Calls(callbacks, seqno, gen, all, sent)
    ensures Calls(callbacks, seqno, gen, all - {w}, sent)
  {
  }

  lemma PlacedClose(places: map<Conn, Place>, arrived: nat, handles: seq<Conn>, callbacks: map<nat, Call>)
    requires Placed(places, arrived, handles, callbacks)
    ensures Placed(CloseAll(places, handles), arrived, [], callbacks)
  {
  }

  lemma FreeGone(all: set<Worker>, free: seq<Worker>, waiting: seq<Worker>, sent: map<Worker, Option<Sent>>)
    requires Tokens(all, free, waiting, sent, {}) && all == {}
    ensures free == []
  {
    HasMember(free);
  }

  lemma HasMember(free: seq<Worker>)
    ensures free == [] || exists w :: w in free
  {
    if free != [] {
      assert free[0] in free;
    }
  }

  lemma RemoveKeeps(s: State, w: Worker)
    requires Inv(s) && w in s.peers && s.peers[w].up != [] && s.peers[w].up[0].Close?
    ensures Ready(s) && Inv(MasterReceives(s, w))
  {
    Known(s, {});
    ShapesLeave(s.peers, s.all, s.waiting, s.sent, w);
    TokensLeave(s.all, s.free, s.waiting, s.sent, w);
    CallsLeave(s.callbacks, s.seqno, s.gen, s.all, s.sent, w);
    PlacedClose(s.places, s.arrived, s.handles, s.callbacks);
    if s.all - {w} == {} {
      FreeGone(s.all - {w}, Without(s.free, w), s.waiting, s.sent);
    }
    hide Shapes, Tokens, Calls, Placed, CloseAll;
  }

  // ---- the steps of a worker ----

  lemma ShapesMove(peers: map<Worker, Peer>, all: set<Worker>, waiting: seq<Worker>, sent: map<Worker, Option<Sent>>, w: Worker)
    requires Shapes(peers, all, waiting, sent) && w in peers
    ensures peers[w].phase.NotAsked? ==> Shapes(peers[w := Ask(peers[w])], all, waiting, sent)
    ensures peers[w].phase.Open? ==> Shapes(peers[w := CloseHandle(peers[w])], all, waiting, sent)
    ensures peers[w].down != [] ==> Shapes(peers[w := WorkerReceives(peers[w])], all, waiting, sent)
  {
    var p, a, v, x := peers[w], w in all, w in waiting, sent[w];
    assert Shape(p, a, v, x);
    MoveShape(p, a, v, x);
    hide Shape, Ask, CloseHandle, WorkerReceives;
  }

  lemma MoveShape(p: Peer, inAll: bool, waits: bool, sent: Option<Sent>)
    requires Shape(p, inAll, waits, sent)
    ensures p.phase.NotAsked? ==> Shape(Ask(p), inAll, waits, sent)
    ensures p.phase.Open? ==> Shape(CloseHandle(p), inAll, waits, sent)
    ensures p.down != [] ==> Shape(WorkerReceives(p), inAll, waits, sent)
    ensures p.down != [] && p.down[0].Reply? ==> p.phase.Asked?
  {
  }

  lemma MoveKeeps(s: State, e: Event)
    requires Inv(s) && Enabled(s, e) && (e.EvWorker? || e.EvAsk? || e.EvClose?)
    ensures Ready(s) && Inv(Apply(s, e))
  {
    Known(s, {});
    ShapesMove(s.peers, s.all, s.waiting, s.sent, e.w);
    hide Shapes, Tokens, Calls, Placed, Ask, CloseHandle, WorkerReceives;
  }

  // ---- runs ----

  lemma MasterKeeps(s: State, w: Worker)
    requires Inv(s) && w in s.peers && s.peers[w].up != []
    ensures Ready(s) && Inv(MasterReceives(s, w))
  {
    hide Inv, Ready, MasterReceives;
    InvReady(s);
    match s.peers[w].up[0] {
      case QueryServer => AddKeeps(s, w);
      case Close => RemoveKeeps(s, w);
      case Ack(_, _) => AckKeeps(s, w);
    }
  }

  lemma StepKeeps(s: State, e: Event)
    requires Inv(s) && Enabled(s, e)
    ensures Ready(s) && Inv(Apply(s, e))
  {
    hide Inv, Steady, Ready;
    InvReady(s);
    InvSteady(s);
    if e.EvConnection? {
      ConnectionKeeps(s);
    } else if e.EvListening? {
      ListeningKeeps(s);
    } else if e.EvMaster? {
      MasterKeeps(s, e.w);
    } else {
      MoveKeeps(s, e);
    }
    hide MasterReceives, Listening, Distribute, WorkerReceives, Ask, CloseHandle;
  }

  /** t is reached from s by the steps es. That the states are Ready is no restriction: StepKeeps shows it of each. */
  ghost predicate Run(s: State, es: seq<Event>, t: State)
    decreases |es|
  {
    if es == [] then t == s else Enabled(s, es[0]) && Ready(s) && Run(Apply(s, es[0]), es[1..], t)
  }

  lemma {:induction false} RunKeeps(s: State, es: seq<Event>, t: State)
    requires Inv(s) && Run(s, es, t)
    ensures Inv(t)
    decreases |es|
  {
    if es != [] {
      StepKeeps(s, es[0]);
      hide Inv;
      RunKeeps(Apply(s, es[0]), es[1..], t);
    }
  }

  lemma InitHolds(workers: set<Worker>)
    ensures Inv(Init(workers)) && Complete(Init(workers))
  {
  }

  // ---- no connection is forgotten ----

  ghost predicate Complete(s: State) {
    forall c: Conn :: c < s.arrived ==> c in s.places
  }

  lemma HandoffComplete(s: State, w: Worker)
    requires w in s.peers && Complete(s)
    ensures Complete(Handoff(s, w))
  {
  }

  lemma DistributeComplete(s: State, c: Conn)
    requires (forall w :: w in s.free ==> w in s.peers) && (forall x: Conn :: x < s.arrived && x != c ==> x in s.places)
    ensures Complete(Distribute(s, c))
  {
    var s' := s.(handles := s.handles + [c], places := s.places[c := Queued]);
    if s.free != [] {
      HandoffComplete(s'.(free := s.free[1..]), s.free[0]);
      hide Handoff;
    }
  }

  lemma {:induction false} ListeningComplete(s: State)
    requires (forall w :: w in s.waiting ==> w in s.peers) && Complete(s)
    ensures Complete(Listening(s))
    decreases |s.waiting|
  {
    if s.waiting != [] {
      var w, s' := s.waiting[0], s.(waiting := s.waiting[1..]);
      HandoffComplete(s'.(peers := Tell(s.peers, w, Reply)), w);
      DoneKeepsWaiting(s);
      hide Handoff;
      ListeningComplete(Done(s', w));
    }
  }

  lemma AckComplete(s: State, w: Worker)
    requires Ready(s) && Complete(s) && w in s.peers && s.peers[w].up != [] && s.peers[w].up[0].Ack?
    ensures Complete(MasterReceives(s, w))
  {
    var q := s.peers[w].up[0].seqno;
    if q in s.callbacks {
      var t, c := Popped(s, w, q), s.callbacks[q].conn;
      if s.peers[w].up[0].accepted {
        HandoffComplete(t.(places := t.places[c := Accepted]), w);
      } else {
        DistributeComplete(t, c);
        DistributeKeepsPeers(t, c);
        HandoffComplete(Distribute(t, c), w);
      }
    }
    hide Handoff, Distribute;
  }

  lemma MasterComplete(s: State, w: Worker)
    requires Ready(s) && Complete(s) && w in s.peers && s.peers[w].up != []
    ensures Complete(MasterReceives(s, w))
  {
    if s.peers[w].up[0].Ack? {
      AckComplete(s, w);
      hide MasterReceives;
    } else if s.peers[w].up[0].QueryServer? && !s.shut && !s.binding {
      HandoffComplete(s.(peers := Tell(Taken(s.peers, w), w, Reply), all := s.all + {w}, failed := s.failed || w in s.all), w);
    }
    hide Handoff;
  }

  lemma StepComplete(s: State, e: Event)
    requires Ready(s) && Complete(s) && Enabled(s, e)
    ensures Complete(Apply(s, e))
  {
    if e.EvConnection? {
      DistributeComplete(s.(arrived := s.arrived + 1), s.arrived);
    } else if e.EvListening? {
      ListeningComplete(s);
    } else if e.EvMaster? {
      MasterComplete(s, e.w);
    }
    hide Distribute, Listening, MasterReceives;
  }

  lemma {:induction false} RunComplete(s: State, es: seq<Event>, t: State)
    requires Complete(s) && Run(s, es, t)
    ensures Complete(t)
    decreases |es|
  {
    if es != [] {
      StepComplete(s, es[0]);
      hide Complete;
      RunComplete(Apply(s, es[0]), es[1..], t);
    }
  }

  // ---- what holds in every run ----

  lemma OutstandingAt(s: State)
    requires Inv(s)
    ensures forall w :: w in s.sent && s.sent[w].Some? ==>
      s.sent[w].value.conn in s.places && s.places[s.sent[w].value.conn] == Outstanding(s.sent[w].value.seqno)
    ensures forall c :: c in s.places && s.places[c].Outstanding? ==>
      exists w :: w in s.sent && s.sent[w] == Some(Sent(s.places[c].seqno, c))
    ensures forall v, w :: v in s.sent && w in s.sent && s.sent[v].Some? && s.sent[w].Some? && v != w ==>
      s.sent[v].value.conn != s.sent[w].value.conn && s.sent[v].value.seqno != s.sent[w].value.seqno
  {
    hide Shapes, Tokens;
    forall c | c in s.places && s.places[c].Outstanding?
      ensures exists w :: w in s.sent && s.sent[w] == Some(Sent(s.places[c].seqno, c))
    {
      var w := s.callbacks[s.places[c].seqno].worker;
      assert w in s.sent && s.sent[w] == Some(Sent(s.places[c].seqno, c));
    }
  }

  /** Every connection that arrived is in exactly one place, which the state bears out: queued ones are those
      of the queue, once each; outstanding ones are at exactly one worker, under its number. */
  lemma EveryConnectionIsInOnePlace(workers: set<Worker>, es: seq<Event>, t: State)
    requires Run(Init(workers), es, t)
    ensures forall c: Conn :: c in t.places <==> c < t.arrived
    ensures forall c :: c in t.places ==> (t.places[c].Queued? <==> c in t.handles)
    ensures forall i, j :: 0 <= i < j < |t.handles| ==> t.handles[i] != t.handles[j]
    ensures forall w :: w in t.sent && t.sent[w].Some? ==>
      t.sent[w].value.conn in t.places && t.places[t.sent[w].value.conn] == Outstanding(t.sent[w].value.seqno)
    ensures forall c :: c in t.places && t.places[c].Outstanding? ==>
      exists w :: w in t.sent && t.sent[w] == Some(Sent(t.places[c].seqno, c))
    ensures forall v, w :: v in t.sent && w in t.sent && t.sent[v].Some? && t.sent[w].Some? && v != w ==>
      t.sent[v].value.conn != t.sent[w].value.conn && t.sent[v].value.seqno != t.sent[w].value.seqno
  {
    InitHolds(workers);
    RunKeeps(Init(workers), es, t);
    RunComplete(Init(workers), es, t);
    OutstandingAt(t);
    hide Run, Shapes, Tokens, Calls;
  }

  /** Queued connections and free workers never coexist while the server is up; no assertion of the two sides
      fails; every message finds what it needs. */
  lemma QueueAndFreeNeverCoexist(workers: set<Worker>, es: seq<Event>, t: State)
    requires Run(Init(workers), es, t)
    ensures t.free == [] || t.handles == []
    ensures forall w :: w in t.free ==> w in t.all && w in t.sent && t.sent[w].None?
    ensures forall w :: w in t.all && w !in t.waiting ==> w in t.sent && (t.sent[w].None? ==> w in t.free)
    ensures !t.failed
  {
    InitHolds(workers);
    RunKeeps(Init(workers), es, t);
    hide Run, Calls, Placed;
  }

  /** The connection messages and answers on w's two channels. */
  function Crossing(p: Peer): (n: nat) {
    CountConns(p.down) + CountAcks(p.up)
  }

  function CountConns(ms: seq<MasterMsg>): nat {
    if ms == [] then 0 else (if ms[0].NewConn? then 1 else 0) + CountConns(ms[1..])
  }

  function CountAcks(ms: seq<WorkerMsg>): nat {
    if ms == [] then 0 else (if ms[0].Ack? then 1 else 0) + CountAcks(ms[1..])
  }

  lemma CountsOfTwo(d: seq<MasterMsg>, u: seq<WorkerMsg>)
    requires |d| <= 2 && |u| <= 2
    ensures |d| == 0 ==> CountConns(d) == 0
    ensures |d| >= 1 ==> CountConns(d) == (if d[0].NewConn? then 1 else 0) + (if |d| == 2 && d[1].NewConn? then 1 else 0)
    ensures |u| == 0 ==> CountAcks(u) == 0
    ensures |u| >= 1 ==> CountAcks(u) == (if u[0].Ack? then 1 else 0) + (if |u| == 2 && u[1].Ack? then 1 else 0)
  {
  }

  lemma ShapeCounts(p: Peer, inAll: bool, waits: bool, sent: Option<Sent>)
    requires Shape(p, inAll, waits, sent)
    ensures Crossing(p) == (if sent.Some? then 1 else 0)
    ensures forall m :: m in p.down && m.NewConn? ==> sent == Some(m.sent)
    ensures forall m :: m in p.up && m.Ack? ==> sent.Some? && m.seqno == sent.value.seqno
    ensures p.up != [] && p.up[0].Ack? ==> (p.up[0].accepted <==> inAll)
    ensures p.up != [] && p.up[0].Close? ==> inAll
    ensures p.up != [] && p.up[0].QueryServer? ==> !inAll
    ensures p.down != [] && p.down[0].Reply? ==> p.phase.Asked?
  {
    CountsOfTwo(p.down, p.up);
    hide CountConns, CountAcks;
  }

  /** At most one connection is under way between the master and a worker, in one direction or the other,
      its answer carries its number, and a rejection is taken only from a worker no longer listed. */
  lemma OneOutstandingPerWorker(workers: set<Worker>, es: seq<Event>, t: State, w: Worker)
    requires Run(Init(workers), es, t) && w in t.peers
    ensures w in t.sent && Crossing(t.peers[w]) == (if t.sent[w].Some? then 1 else 0)
    ensures forall m :: m in t.peers[w].down && m.NewConn? ==> t.sent[w] == Some(m.sent)
    ensures forall m :: m in t.peers[w].up && m.Ack? ==> t.sent[w].Some? && m.seqno == t.sent[w].value.seqno && m.seqno in t.callbacks
    ensures t.peers[w].up != [] && t.peers[w].up[0].Ack? ==> (t.peers[w].up[0].accepted <==> w in t.all)
    ensures t.peers[w].up != [] && t.peers[w].up[0].Close? ==> w in t.all
    ensures t.peers[w].down != [] && t.peers[w].down[0].Reply? ==> t.peers[w].phase.Asked?
  {
    InitHolds(workers);
    RunKeeps(Init(workers), es, t);
    ShapeCounts(t.peers[w], w in t.all, w in t.waiting, t.sent[w]);
    hide Run, Crossing, Shape, Tokens, Placed;
  }

  // ---- a connection nobody serves ----

  /** Nothing is lost, and nothing is stranded that was not. */
  ghost predicate Kept(before: map<Conn, Place>, after: map<Conn, Place>) {
    forall c :: c in before ==> c in after && (after[c].Stranded? ==> before[c].Stranded?)
  }

  lemma HandoffKept(s: State, w: Worker)
    requires w in s.peers
    ensures Kept(s.places, Handoff(s, w).places)
  {
  }

  lemma DistributeKept(s: State, c: Conn)
    requires forall w :: w in s.free ==> w in s.peers
    ensures Kept(s.places[c := Queued], Distribute(s, c).places)
  {
    if s.free != [] {
      HandoffKept(s.(handles := s.handles + [c], places := s.places[c := Queued], free := s.free[1..]), s.free[0]);
      hide Handoff;
    }
  }

  lemma {:induction false} ListeningKept(s: State)
    requires forall w :: w in s.waiting ==> w in s.peers
    ensures Kept(s.places, Listening(s).places)
    decreases |s.waiting|
  {
    if s.waiting != [] {
      var w, s' := s.waiting[0], s.(waiting := s.waiting[1..]);
      HandoffKept(s'.(peers := Tell(s.peers, w, Reply)), w);
      DoneKeepsWaiting(s);
      hide Handoff;
      ListeningKept(Done(s', w));
    }
  }

  /** The next message of w is a rejection of connection c whose listener object has been shut down, or
      replaced by a later one. */
  ghost predicate Orphaned(s: State, w: Worker, c: Conn) {
    && w in s.peers && s.peers[w].up != [] && s.peers[w].up[0].Ack? && !s.peers[w].up[0].accepted
    && s.peers[w].up[0].seqno in s.callbacks
    && var call := s.callbacks[s.peers[w].up[0].seqno];
       call.conn == c && (s.shut || call.gen != s.gen)
  }

  lemma AckStrands(s: State, w: Worker, c: Conn)
    requires Ready(s) && w in s.peers && s.peers[w].up != [] && s.peers[w].up[0].Ack? && c in s.places && !s.places[c].Stranded?
    ensures c in MasterReceives(s, w).places && (MasterReceives(s, w).places[c].Stranded? <==> Orphaned(s, w, c))
  {
    var q := s.peers[w].up[0].seqno;
    if q in s.callbacks {
      var t, d := Popped(s, w, q), s.callbacks[q].conn;
      if s.peers[w].up[0].accepted {
        HandoffKept(t.(places := t.places[d := Accepted]), w);
      } else if s.callbacks[q].gen == s.gen && !s.shut {
        DistributeKept(t, d);
        DistributeKeepsPeers(t, d);
        HandoffKept(Distribute(t, d), w);
      }
    }
    hide Handoff, Distribute;
  }

  lemma MasterStrands(s: State, w: Worker, c: Conn)
    requires Ready(s) && w in s.peers && s.peers[w].up != [] && c in s.places && !s.places[c].Stranded?
    ensures c in MasterReceives(s, w).places && (MasterReceives(s, w).places[c].Stranded? <==> Orphaned(s, w, c))
  {
    if s.peers[w].up[0].Ack? {
      AckStrands(s, w, c);
      hide MasterReceives;
    } else if s.peers[w].up[0].QueryServer? && !s.shut && !s.binding {
      HandoffKept(s.(peers := Tell(Taken(s.peers, w), w, Reply), all := s.all + {w}, failed := s.failed || w in s.all), w);
    }
    hide Handoff;
  }

  /** Exactly when a connection is lost to everyone: its worker's rejection is taken after the last worker left
      the listener object that sent it. */
  lemma StrandsExactlyWhen(s: State, e: Event, c: Conn)
    requires Ready(s) && Enabled(s, e) && c in s.places && !s.places[c].Stranded?
    requires e.EvConnection? ==> c != s.arrived
    ensures c in Apply(s, e).places
    ensures Apply(s, e).places[c].Stranded? <==> e.EvMaster? && Orphaned(s, e.w, c)
  {
    hide Distribute, Listening, MasterReceives, Orphaned, WorkerReceives, Ask, CloseHandle;
    if e.EvConnection? {
      ConnectionStrands(s, c);
    } else if e.EvListening? {
      ListeningKept(s);
    } else if e.EvMaster? {
      MasterStrands(s, e.w, c);
    }
  }

  lemma ConnectionStrands(s: State, c: Conn)
    requires Ready(s) && c in s.places && !s.places[c].Stranded? && c != s.arrived
    ensures var t := Distribute(s.(arrived := s.arrived + 1), s.arrived); c in t.places && !t.places[c].Stranded?
  {
    DistributeKept(s.(arrived := s.arrived + 1), s.arrived);
    hide Distribute;
    assert c in s.places[s.arrived := Queued];
  }

  /** A single worker, before any connection. */
  function Before(all: set<Worker>, free: seq<Worker>, waiting: seq<Worker>, shut: bool, gen: nat, p: Peer): State {
    State(all, free, [], waiting != [], waiting, shut, gen, map[], 0, map[0 := p], 0, map[], map[0 := None], false)
  }

  /** The same, with connection 0 in the given place. */
  function After(all: set<Worker>, shut: bool, callbacks: map<nat, Call>, p: Peer, sent: Option<Sent>, place: Place): State {
    State(all, [], [], false, [], shut, 1, callbacks, 1, map[0 := p], 1, map[0 := place], map[0 := sent], false)
  }

  /** The steps of the run, each on its own. */
  lemma Asks()
    ensures var s1 := Before({}, [], [], true, 0, Peer(Asked, [], [QueryServer]));
            Enabled(Init({0}), EvAsk(0)) && Ready(Init({0})) && Apply(Init({0}), EvAsk(0)) == s1
  {
    var s0 := Init({0});
    assert [] + [QueryServer] == [QueryServer];
    assert s0.peers[0 := Peer(Asked, [], [QueryServer])] == map[0 := Peer(Asked, [], [QueryServer])];
    assert s0.sent == map[0 := None];
  }

  lemma Adds()
    ensures var s1, s2 := Before({}, [], [], true, 0, Peer(Asked, [], [QueryServer])), Before({0}, [], [0], false, 1, Peer(Asked, [], []));
            Ready(s1) && Apply(s1, EvMaster(0)) == s2
  {
    var s1 := Before({}, [], [], true, 0, Peer(Asked, [], [QueryServer]));
    assert [QueryServer][1..] == [];
    assert Taken(s1.peers, 0) == map[0 := Peer(Asked, [], [])];
  }

  lemma Binds()
    ensures var s2, s3 := Before({0}, [], [0], false, 1, Peer(Asked, [], [])), Before({0}, [0], [], false, 1, Peer(Asked, [Reply], []));
            Ready(s2) && Apply(s2, EvListening) == s3
  {
    var s2, s3 := Before({0}, [], [0], false, 1, Peer(Asked, [], [])), Before({0}, [0], [], false, 1, Peer(Asked, [Reply], []));
    assert [] + [Reply] == [Reply] && [] + [0] == [0] && s2.waiting[1..] == [];
    assert Tell(s2.peers, 0, Reply) == map[0 := Peer(Asked, [Reply], [])];
    assert Done(s2.(waiting := []), 0) == s3.(binding := true);
    assert Listening(s3.(binding := true)) == s3;
  }

  lemma Serves()
    ensures var s3, s4 := Before({0}, [0], [], false, 1, Peer(Asked, [Reply], [])), Before({0}, [0], [], false, 1, Peer(Open, [], []));
            Ready(s3) && Apply(s3, EvWorker(0)) == s4
  {
    assert [Reply][1..] == [];
  }

  lemma Connects()
    ensures var s4 := Before({0}, [0], [], false, 1, Peer(Open, [], []));
            var s5 := After({0}, false, map[0 := Call(0, 0, 1)], Peer(Open, [NewConn(Sent(0, 0))], []), Some(Sent(0, 0)), Outstanding(0));
            Ready(s4) && Apply(s4, EvConnection) == s5
  {
    var s4 := Before({0}, [0], [], false, 1, Peer(Open, [], []));
    assert [] + [0] == [0] && [0][1..] == [] && [] + [NewConn(Sent(0, 0))] == [NewConn(Sent(0, 0))];
    assert Tell(s4.peers, 0, NewConn(Sent(0, 0))) == map[0 := Peer(Open, [NewConn(Sent(0, 0))], [])];
  }

  lemma Leaves()
    ensures var calls, d, x := map[0 := Call(0, 0, 1)], [NewConn(Sent(0, 0))], Some(Sent(0, 0));
            var s5, s6 := After({0}, false, calls, Peer(Open, d, []), x, Outstanding(0)), After({0}, false, calls, Peer(Closed, d, [Close]), x, Outstanding(0));
            var s7 := After({}, true, calls, Peer(Closed, d, []), x, Outstanding(0));
            Ready(s5) && Ready(s6) && Apply(s5, EvClose(0)) == s6 && Apply(s6, EvMaster(0)) == s7
  {
    var calls, d, x := map[0 := Call(0, 0, 1)], [NewConn(Sent(0, 0))], Some(Sent(0, 0));
    var s6 := After({0}, false, calls, Peer(Closed, d, [Close]), x, Outstanding(0));
    assert [] + [Close] == [Close] && [Close][1..] == [];
    assert Taken(s6.peers, 0) == map[0 := Peer(Closed, d, [])];
    assert CloseAll(s6.places, []) == s6.places;
    assert s6.all - {0} == {};
  }

  lemma Rejects()
    ensures var calls, x, no := map[0 := Call(0, 0, 1)], Some(Sent(0, 0)), Ack(0, false);
            var s7, s8 := After({}, true, calls, Peer(Closed, [NewConn(Sent(0, 0))], []), x, Outstanding(0)), After({}, true, calls, Peer(Closed, [], [no]), x, Outstanding(0));
            var s9 := After({}, true, map[], Peer(Closed, [], []), None, Stranded);
            Ready(s7) && Ready(s8) && Apply(s7, EvWorker(0)) == s8 && Apply(s8, EvMaster(0)) == s9
  {
    var calls, x, no := map[0 := Call(0, 0, 1)], Some(Sent(0, 0)), Ack(0, false);
    var s8 := After({}, true, calls, Peer(Closed, [], [no]), x, Outstanding(0));
    assert [] + [no] == [no] && [no][1..] == [] && [NewConn(Sent(0, 0))][1..] == [];
    assert Taken(s8.peers, 0) == map[0 := Peer(Closed, [], [])];
    assert calls - {0} == map[];
  }

  ghost predicate Reaches(s: State, t: State) {
    exists es :: Run(s, es, t)
  }

  lemma Prepend(s: State, e: Event, t: State)
    requires Enabled(s, e) && Ready(s) && Reaches(Apply(s, e), t)
    ensures Reaches(s, t)
  {
    var es :| Run(Apply(s, e), es, t);
    assert ([e] + es)[1..] == es;
    assert Run(s, [e] + es, t);
  }

  lemma StrandedFromConnected()
    ensures Reaches(Before({0}, [0], [], false, 1, Peer(Open, [], [])), After({}, true, map[], Peer(Closed, [], []), None, Stranded))
  {
    var t := After({}, true, map[], Peer(Closed, [], []), None, Stranded);
    assert Run(t, [], t);
    Connects();
    Leaves();
    Rejects();
    hide Apply, Ready, Run;
    var calls, d, x := map[0 := Call(0, 0, 1)], [NewConn(Sent(0, 0))], Some(Sent(0, 0));
    Prepend(After({}, true, calls, Peer(Closed, [], [Ack(0, false)]), x, Outstanding(0)), EvMaster(0), t);
    Prepend(After({}, true, calls, Peer(Closed, d, []), x, Outstanding(0)), EvWorker(0), t);
    Prepend(After({0}, false, calls, Peer(Closed, d, [Close]), x, Outstanding(0)), EvMaster(0), t);
    Prepend(After({0}, false, calls, Peer(Open, d, []), x, Outstanding(0)), EvClose(0), t);
    Prepend(Before({0}, [0], [], false, 1, Peer(Open, [], [])), EvConnection, t);
  }

  /** A rejection that arrives after the last worker has left finds its listener object gone, and the connection
      joins a queue that nothing empties. */
  lemma ConnectionsCanBeStranded()
    ensures exists t :: Reaches(Init({0}), t) && 0 in t.places && t.places[0] == Stranded
  {
    var t := After({}, true, map[], Peer(Closed, [], []), None, Stranded);
    StrandedFromConnected();
    Asks();
    Adds();
    Binds();
    Serves();
    hide Apply, Ready, Reaches;
    Prepend(Before({0}, [0], [], false, 1, Peer(Asked, [Reply], [])), EvWorker(0), t);
    Prepend(Before({0}, [], [0], false, 1, Peer(Asked, [], [])), EvListening, t);
    Prepend(Before({}, [], [], true, 0, Peer(Asked, [], [QueryServer])), EvMaster(0), t);
    Prepend(Init({0}), EvAsk(0), t);
  }
}
