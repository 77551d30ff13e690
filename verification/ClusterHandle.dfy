/** `RoundRobinHandle` of lib/cluster.js as the object it is, with its lists changed in place. */
module ClusterHandle {
  import opened Wrappers
  import opened Cluster
  import CP = ClusterProofs

  class RoundRobinHandle {
    var all: set<Worker>
    var free: seq<Worker>
    var handles: seq<Conn>
    /** Everything around the object: the messages sent, the callbacks left and where each connection is. */
    ghost var around: State

    ghost function View(): State
      reads this
    {
      around.(all := all, free := free, handles := handles)
    }

    /** The newest connection offered to a worker: `sendHelper` leaves a callback under the message's number. */
    ghost method SendConnection(w: Worker, c: Conn)
      requires w in around.peers
      modifies this`around
      ensures around == old(around).(seqno := old(around).seqno + 1,
                callbacks := old(around).callbacks[old(around).seqno := Call(w, c, old(around).gen)],
                peers := Tell(old(around).peers, w, NewConn(Sent(old(around).seqno, c))),
                places := old(around).places[c := Outstanding(old(around).seqno)],
                sent := old(around).sent[w := Some(Sent(old(around).seqno, c))])
    {
      var s := around;
      around := s.(seqno := s.seqno + 1, callbacks := s.callbacks[s.seqno := Call(w, c, s.gen)],
                   peers := Tell(s.peers, w, NewConn(Sent(s.seqno, c))),
                   places := s.places[c := Outstanding(s.seqno)], sent := s.sent[w := Some(Sent(s.seqno, c))]);
    }

    method Handoff(w: Worker)
      requires w in around.peers
      modifies this
      ensures View() == Cluster.Handoff(old(View()), w)
    {
      if w !in all {
        return;
      }
      if |handles| == 0 {
        free := free + [w];
        return;
      }
      var handle := handles[0];
      handles := handles[1..];
      SendConnection(w, handle);
    }

    method Distribute(c: Conn)
      requires forall w :: w in free ==> w in around.peers
      modifies this
      ensures View() == Cluster.Distribute(old(View()), c)
    {
      handles := handles + [c];
      around := around.(places := around.places[c := Queued]);
      if |free| > 0 {
        var worker := free[0];
        free := free[1..];
        Handoff(worker);
      }
    }

    /** The callback that `handoff` leaves. Once the object was shut down it has no workers, and a connection it gets
        back joins a queue that nothing empties. */
    method Replied(w: Worker, c: Conn, accepted: bool)
      requires w in around.peers && (forall x :: x in free ==> x in around.peers)
      requires around.shut ==> all == {} && free == []
      modifies this
      ensures !old(around).shut ==> View() == OnReply(old(View()), w, Call(w, c, old(around).gen), accepted)
      ensures old(around).shut ==>
                View() == old(View()).(handles := old(handles) + (if accepted then [] else [c]),
                                       places := old(around).places[c := if accepted then Accepted else Stranded])
    {
      if accepted {
        around := around.(places := around.places[c := Accepted]);
      } else {
        DistributeKeepsPeers(View(), c);
        Distribute(c);
        if around.shut {
          around := around.(places := around.places[c := Stranded]);
        }
      }
      Handoff(w);
    }

    /** `remove`; true when the last worker has left and the listener is closed. */
    method Remove(w: Worker) returns (empty: bool)
      requires w in around.peers && around.peers[w].up != [] && !around.shut
      requires forall c :: c in handles ==> c in around.places
      modifies this
      ensures View() == Cluster.Remove(old(View()), w)
      ensures empty <==> old(all) == {w}
    {
      around := around.(peers := Taken(around.peers, w));
      if w !in all {
        return false;
      }
      all := all - {w};
      Unlist(w);
      if all != {} {
        return false;
      }
      CloseHandles();
      around := around.(shut := true, failed := around.failed || around.binding);
      return true;
    }

    /** `indexOf` and `splice` on the free workers. */
    method Unlist(w: Worker)
      modifies this`free
      ensures free == Without(old(free), w)
    {
      var index: nat := 0;
      while index < |free| && free[index] != w
        invariant index <= |free| && forall j :: 0 <= j < index ==> free[j] != w
      {
        index := index + 1;
      }
      WithoutAt(free, w, index);
      if index < |free| {
        free := free[..index] + free[index + 1..];
      }
    }

    /** The queued connections are closed one after the other. */
    method CloseHandles()
      requires forall c :: c in handles ==> c in around.places
      modifies this`handles, this`around
      ensures handles == [] && around == old(around).(places := CloseAll(old(around).places, old(handles)))
    {
      ghost var places := around.places;
      ghost var closed := CloseAll(places, handles);
      while |handles| > 0
        invariant around == old(around).(places := around.places) && CloseAll(around.places, handles) == closed
        invariant forall c :: c in handles ==> c in around.places
        decreases |handles|
      {
        var handle := handles[0];
        CloseOne(around.places, handles);
        handles := handles[1..];
        around := around.(places := around.places[handle := ClosedAtShutdown]);
      }
      assert CloseAll(around.places, []) == around.places;
    }
  }

  lemma WithoutStep(free: seq<Worker>, w: Worker)
    ensures Without([], w) == []
    ensures free != [] ==> Without(free, w) == if free[0] == w then free[1..] else [free[0]] + Without(free[1..], w)
  {
  }

  lemma CutBehind(free: seq<Worker>, index: nat)
    requires 0 < index <= |free|
    ensures index < |free| ==> free[..index] + free[index + 1..] == [free[0]] + (free[1..][..index - 1] + free[1..][index..])
    ensures free == [free[0]] + free[1..]
  {
  }

  lemma {:induction false} WithoutAt(free: seq<Worker>, w: Worker, index: nat)
    requires index <= |free| && (forall j :: 0 <= j < index ==> free[j] != w) && (index < |free| ==> free[index] == w)
    ensures Without(free, w) == if index < |free| then free[..index] + free[index + 1..] else free
  {
    hide Without;
    WithoutStep(free, w);
    if index > 0 {
      var rest := free[1..];
      assert forall j :: 0 <= j < |rest| ==> rest[j] == free[j + 1];
      CutBehind(free, index);
      WithoutAt(rest, w, index - 1);
    } else if free != [] {
      assert free[..0] + free[1..] == free[1..];
    }
  }

  lemma CloseOne(places: map<Conn, Place>, handles: seq<Conn>)
    requires handles != [] && forall c :: c in handles ==> c in places
    ensures CloseAll(places[handles[0] := ClosedAtShutdown], handles[1..]) == CloseAll(places, handles)
    ensures forall c :: c in handles[1..] ==> c in places
  {
    assert handles == [handles[0]] + handles[1..];
  }

  /** A connection arrives at a listener in a state of a run, and leaves it in one. */
  method OnConnection(h: RoundRobinHandle, c: Conn)
    requires CP.Inv(h.View()) && !h.around.shut && !h.around.binding && c == h.around.arrived
    modifies h
    ensures CP.Inv(h.View()) && Ready(old(h.View())) && h.View() == Apply(old(h.View()), EvConnection)
  {
    hide CP.Inv, Cluster.Distribute;
    CP.InvReady(h.View());
    CP.ConnectionKeeps(h.View());
    Arrives(h);
    h.Distribute(c);
  }

  ghost method Arrives(h: RoundRobinHandle)
    modifies h`around
    ensures h.View() == old(h.View()).(arrived := old(h.around).arrived + 1) && h.around.peers == old(h.around).peers
  {
    h.around := h.around.(arrived := h.around.arrived + 1);
  }

  /** The callback of the acknowledgement that the master takes next, while the object is the listener: the object then is
      in the state that the step leads to. */
  method OnAnswer(h: RoundRobinHandle, w: Worker, c: Conn, accepted: bool, ghost before: State, ghost q: nat)
    requires CP.Inv(before) && w in before.peers && before.peers[w].up != [] && before.peers[w].up[0] == Ack(q, accepted) && !before.shut
    requires q in before.callbacks && before.callbacks[q] == Call(w, c, before.gen) && h.View() == Popped(before, w, q)
    modifies h
    ensures Ready(before) && h.View() == MasterReceives(before, w) && CP.Inv(h.View())
  {
    hide CP.Inv, OnReply, CP.Detached;
    CP.InvReady(before);
    CP.AckKeeps(before, w);
    PoppedKeeps(before, w, q);
    h.Replied(w, c, accepted);
  }

  lemma PoppedKeeps(s: State, w: Worker, q: nat)
    requires w in s.peers && s.peers[w].up != [] && Ready(s)
    ensures var t := Popped(s, w, q);
            w in t.peers && t.free == s.free && t.shut == s.shut && t.gen == s.gen && forall x :: x in t.free ==> x in t.peers
  {
  }
}
