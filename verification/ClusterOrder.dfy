/** In what order the connections of lib/cluster.js go to the workers: round robin, and first come, first served. */
module ClusterOrder {
  import opened Wrappers
  import opened Cluster
  import opened ClusterProofs

  // ---- places in a line ----

  /** What stands before x. */
  function Before(line: seq<nat>, x: nat): set<nat> {
    if line == [] || line[0] == x then {} else {line[0]} + Before(line[1..], x)
  }

  lemma {:induction false} BeforeAppended(line: seq<nat>, y: nat, x: nat)
    requires x in line
    ensures Before(line + [y], x) == Before(line, x)
  {
    if line[0] != x {
      assert (line + [y])[1..] == line[1..] + [y];
      BeforeAppended(line[1..], y, x);
    }
  }

  lemma {:induction false} BeforeAre(line: seq<nat>, x: nat)
    ensures forall y :: y in Before(line, x) ==> y in line && y != x
  {
    if line != [] && line[0] != x {
      BeforeAre(line[1..], x);
    }
  }

  lemma BeforeTail(line: seq<nat>, x: nat)
    requires line != [] && line[0] != x && Distinct(line)
    ensures Before(line, x) == {line[0]} + Before(line[1..], x) && line[0] !in Before(line[1..], x)
  {
    BeforeAre(line[1..], x);
  }

  lemma {:induction false} BeforeWithout(line: seq<nat>, y: nat, x: nat)
    ensures Before(Without(line, y), x) <= Before(line, x) || x == y
  {
    if line != [] && line[0] != y && line[0] != x {
      BeforeWithout(line[1..], y, x);
    }
  }

  // ---- round robin ----

  /** The step hands w a connection. */
  predicate Given(s: State, t: State, w: Worker) {
    w in t.sent && t.sent[w].Some? && (w in s.sent ==> s.sent[w] != t.sent[w])
  }

  /** While v stays free nobody joins before it, and who is given a connection stood before it and does so no longer. */
  ghost predicate InTurn(s: State, t: State, v: Worker) {
    && Before(t.free, v) <= Before(s.free, v)
    && forall w :: Given(s, t, w) ==> w in Before(s.free, v) && w !in Before(t.free, v)
  }

  lemma NobodyServed(s: State, t: State, v: Worker)
    requires Before(t.free, v) <= Before(s.free, v) && forall w :: w in t.sent && t.sent[w].Some? ==> w in s.sent && s.sent[w] == t.sent[w]
    ensures InTurn(s, t, v)
  {
  }

  /** A free worker means that no connection waits, and that the listener is there and bound. */
  lemma FreeMeans(s: State)
    requires Inv(s) && s.free != []
    ensures s.handles == [] && !s.shut && !s.binding && Distinct(s.free) && (forall w :: w in s.free ==> w in s.all && w in s.peers && w in s.sent)
    ensures forall w :: w in s.free ==> s.sent[w].None?
  {
    Known(s, {});
    assert s.free[0] in s.free;
    hide Shapes, Calls, Placed;
  }

  /** The worker that waited longest gets the connection. */
  lemma DistributeFree(s: State, c: Conn)
    requires s.free != [] && s.handles == [] && (forall w :: w in s.free ==> w in s.all && w in s.peers)
    ensures var t := Distribute(s, c);
            t.free == s.free[1..] && t.handles == [] && t.sent == s.sent[s.free[0] := Some(Sent(s.seqno, c))] && t.all == s.all
  {
  }

  lemma HandoffReady(s: State, w: Worker)
    requires w in s.peers && s.handles == []
    ensures var t := Handoff(s, w); t.free == (if w in s.all then s.free + [w] else s.free) && t.sent == s.sent
  {
  }

  /** The head of the line is served, and another may join at the end. */
  lemma HeadInTurn(s: State, t: State, v: Worker, w: Worker)
    requires Distinct(s.free) && v in s.free && w != v && (t.free == s.free[1..] || t.free == s.free[1..] + [w]) && v in t.free
    requires forall x :: x in t.sent && x != s.free[0] && t.sent[x].Some? ==> x in s.sent && s.sent[x] == t.sent[x]
    ensures InTurn(s, t, v)
  {
    if s.free[0] != v {
      BeforeTail(s.free, v);
      assert v in s.free[1..];
      BeforeAppended(s.free[1..], w, v);
    }
  }

  lemma ConnectionInTurn(s: State, v: Worker)
    requires Inv(s) && v in s.free && Enabled(s, EvConnection) && Ready(s) && v in Apply(s, EvConnection).free
    ensures InTurn(s, Apply(s, EvConnection), v)
  {
    FreeMeans(s);
    DistributeFree(s.(arrived := s.arrived + 1), s.arrived);
    hide Inv, Distribute, InTurn;
    HeadInTurn(s, Apply(s, EvConnection), v, v + 1);
  }

  lemma AddInTurn(s: State, w: Worker, v: Worker)
    requires Inv(s) && v in s.free && w in s.peers && s.peers[w].up != []
    ensures InTurn(s, Add(s, w), v)
  {
    FreeMeans(s);
    var u := s.(peers := Tell(Taken(s.peers, w), w, Reply), all := s.all + {w}, failed := s.failed || w in s.all);
    HandoffReady(u, w);
    BeforeAppended(s.free, w, v);
    hide Inv, Handoff;
    NobodyServed(s, Add(s, w), v);
  }

  lemma RemoveIs(s: State, w: Worker)
    requires w in s.peers && s.peers[w].up != []
    ensures var t := Remove(s, w); t.sent == s.sent && (t.free == s.free || t.free == Without(s.free, w))
  {
    hide CloseAll, Taken, Without;
  }

  lemma RemoveInTurn(s: State, w: Worker, v: Worker)
    requires w in s.peers && s.peers[w].up != [] && v in s.free && v in Remove(s, w).free && Distinct(s.free)
    ensures InTurn(s, Remove(s, w), v)
  {
    hide Remove, Without;
    RemoveIs(s, w);
    BeforeWithout(s.free, w, v);
    WithoutGone(s.free, w);
    NobodyServed(s, Remove(s, w), v);
  }

  lemma {:induction false} WithoutGone(free: seq<Worker>, w: Worker)
    requires Distinct(free)
    ensures w !in Without(free, w) && forall x :: x in Without(free, w) ==> x in free
  {
    if free != [] && free[0] != w {
      assert Distinct(free[1..]);
      WithoutGone(free[1..], w);
    }
  }

  /** Who acknowledges had a connection. */
  lemma AckSent(s: State, w: Worker)
    requires Inv(s) && w in s.peers && s.peers[w].up != [] && s.peers[w].up[0].Ack?
    ensures w in s.sent && s.sent[w].Some?
  {
    assert Shape(s.peers[w], w in s.all, w in s.waiting, s.sent[w]);
    hide Tokens, Calls, Placed;
  }

  lemma AcceptedInTurn(s: State, u: State, w: Worker, v: Worker)
    requires w in u.peers && v in s.free && u.free == s.free && u.handles == [] && w != v
    requires forall x :: x in u.sent && u.sent[x].Some? ==> x in s.sent && s.sent[x] == u.sent[x]
    ensures InTurn(s, Handoff(u, w), v) && InTurn(s, u, v)
  {
    HandoffReady(u, w);
    BeforeAppended(s.free, w, v);
    hide Handoff;
    NobodyServed(s, Handoff(u, w), v);
    NobodyServed(s, u, v);
  }

  lemma RejectedInTurn(s: State, u: State, w: Worker, c: Conn, v: Worker)
    requires Ready(u) && w in u.peers && v in s.free && u.free == s.free && u.handles == [] && w != v && Distinct(s.free)
    requires forall x :: x in u.free ==> x in u.all && x in u.peers
    requires forall x :: x in u.sent && u.sent[x].Some? ==> x in s.sent && s.sent[x] == u.sent[x]
    requires w in Distribute(u, c).peers && v in Handoff(Distribute(u, c), w).free
    ensures InTurn(s, Handoff(Distribute(u, c), w), v)
  {
    DistributeFree(u, c);
    HandoffReady(Distribute(u, c), w);
    hide Handoff, Distribute;
    HeadInTurn(s, Handoff(Distribute(u, c), w), v, w);
  }

  lemma PoppedIs(s: State, w: Worker, q: nat)
    requires w in s.peers && s.peers[w].up != []
    ensures var u := Popped(s, w, q);
            && u.free == s.free && u.handles == s.handles && u.all == s.all && u.places == s.places && u.gen == s.gen && u.shut == s.shut
            && u.waiting == s.waiting && u.peers.Keys == s.peers.Keys && u.sent == s.sent[w := None]
  {
  }

  /** What the acknowledgement leaves before its callback runs. */
  ghost predicate Answered(s: State, u: State, w: Worker) {
    && w in u.peers && u.free == s.free && u.handles == [] && u.all == s.all && u.peers.Keys == s.peers.Keys && u.waiting == s.waiting
    && forall x :: x in u.sent && u.sent[x].Some? ==> x in s.sent && s.sent[x] == u.sent[x]
  }

  lemma AcceptInTurn(s: State, u: State, w: Worker, call: Call, v: Worker)
    requires Answered(s, u, w) && Ready(u) && v in s.free && w != v
    ensures InTurn(s, OnReply(u, w, call, true), v)
  {
    hide Handoff, InTurn;
    AcceptedInTurn(s, u.(places := u.places[call.conn := Accepted]), w, v);
  }

  lemma RejectInTurn(s: State, u: State, w: Worker, call: Call, v: Worker)
    requires Answered(s, u, w) && Ready(u) && v in s.free && w != v && Distinct(s.free)
    requires (forall x :: x in u.free ==> x in u.all && x in u.peers) && v in OnReply(u, w, call, false).free
    ensures InTurn(s, OnReply(u, w, call, false), v)
  {
    hide Handoff, Distribute, InTurn;
    if call.gen == u.gen && !u.shut {
      DistributeKeepsPeers(u, call.conn);
      RejectedInTurn(s, u, w, call.conn, v);
    } else {
      AcceptedInTurn(s, u.(places := u.places[call.conn := Stranded]), w, v);
    }
  }

  lemma PoppedAnswers(s: State, w: Worker, q: nat)
    requires w in s.peers && s.peers[w].up != [] && s.handles == [] && Ready(s)
    ensures Answered(s, Popped(s, w, q), w) && Ready(Popped(s, w, q)) && Popped(s, w, q).free == s.free
    ensures Popped(s, w, q).all == s.all && Popped(s, w, q).peers.Keys == s.peers.Keys
  {
    PoppedIs(s, w, q);
    hide Popped;
  }

  lemma AckInTurn(s: State, w: Worker, q: nat, accepted: bool, v: Worker)
    requires Inv(s) && v in s.free && w in s.peers && s.peers[w].up != [] && s.peers[w].up[0].Ack? && q in s.callbacks && Ready(s)
    requires v in OnReply(Popped(s, w, q), w, s.callbacks[q], accepted).free
    ensures InTurn(s, OnReply(Popped(s, w, q), w, s.callbacks[q], accepted), v)
  {
    hide Inv, OnReply, InTurn, Popped, Answered, Distinct, Ready;
    FreeMeans(s);
    AckSent(s, w);
    PoppedAnswers(s, w, q);
    if accepted {
      AcceptInTurn(s, Popped(s, w, q), w, s.callbacks[q], v);
    } else {
      RejectInTurn(s, Popped(s, w, q), w, s.callbacks[q], v);
    }
  }

  lemma StepInTurn(s: State, e: Event, v: Worker)
    requires Inv(s) && Enabled(s, e) && Ready(s) && v in s.free && v in Apply(s, e).free
    ensures InTurn(s, Apply(s, e), v)
  {
    FreeMeans(s);
    hide Inv, Add, Remove, OnReply, Distribute, Listening, InTurn;
    match e {
      case EvConnection => ConnectionInTurn(s, v);
      case EvListening =>
      case EvMaster(w) =>
        match s.peers[w].up[0] {
          case QueryServer => AddInTurn(s, w, v);
          case Close => RemoveInTurn(s, w, v);
          case Ack(q, accepted) =>
            if q in s.callbacks {
              AckInTurn(s, w, q, accepted, v);
            } else {
              NobodyServed(s, Apply(s, e), v);
            }
        }
      case EvWorker(w) => NobodyServed(s, Apply(s, e), v);
      case EvAsk(w) => NobodyServed(s, Apply(s, e), v);
      case EvClose(w) => NobodyServed(s, Apply(s, e), v);
    }
  }

  // ---- with the workers that wait for the bind ----

  /** The free workers, or those that asked before the listener was bound. */
  function Line(s: State): seq<Worker> {
    s.free + s.waiting
  }

  /** The same of the whole line. */
  ghost predicate TakesTurns(s: State, t: State, v: Worker) {
    && Before(Line(t), v) <= Before(Line(s), v)
    && forall w :: Given(s, t, w) ==> w in Before(Line(s), v) && w !in Before(Line(t), v)
  }

  lemma FreeTurns(s: State, t: State, v: Worker)
    requires InTurn(s, t, v) && s.waiting == [] && t.waiting == []
    ensures TakesTurns(s, t, v)
  {
    assert s.free + [] == s.free && t.free + [] == t.free;
  }

  lemma NobodysTurn(s: State, t: State, v: Worker)
    requires Before(Line(t), v) <= Before(Line(s), v) && forall w :: w in t.sent && t.sent[w].Some? ==> w in s.sent && s.sent[w] == t.sent[w]
    ensures TakesTurns(s, t, v)
  {
  }

  lemma TurnsJoin(s: State, u: State, t: State, v: Worker)
    requires TakesTurns(s, u, v) && TakesTurns(u, t, v)
    ensures TakesTurns(s, t, v)
  {
    forall w | Given(s, t, w)
      ensures w in Before(Line(s), v) && w !in Before(Line(t), v)
    {
      assert Given(s, u, w) || Given(u, t, w);
    }
  }

  lemma StaysBound(s: State, e: Event)
    requires Enabled(s, e) && Ready(s) && !s.binding && !s.shut
    ensures !Apply(s, e).binding
  {
    hide CloseAll, Without, Distribute, Listening, OnReply, Popped;
    if e.EvConnection? {
      DistributeBound(s.(arrived := s.arrived + 1), s.arrived);
    }
    if e.EvMaster? && s.peers[e.w].up[0].Ack? && s.peers[e.w].up[0].seqno in s.callbacks {
      PoppedIs(s, e.w, s.peers[e.w].up[0].seqno);
      PoppedBound(s, e.w, s.peers[e.w].up[0].seqno);
      ReplyBound(Popped(s, e.w, s.peers[e.w].up[0].seqno), e.w, s.callbacks[s.peers[e.w].up[0].seqno], s.peers[e.w].up[0].accepted);
    }
  }

  lemma DistributeBound(s: State, c: Conn)
    requires forall w :: w in s.free ==> w in s.peers
    ensures Distribute(s, c).binding == s.binding && Distribute(s, c).peers.Keys == s.peers.Keys
  {
  }

  lemma PoppedBound(s: State, w: Worker, q: nat)
    requires w in s.peers && s.peers[w].up != []
    ensures Popped(s, w, q).binding == s.binding
  {
  }

  lemma ReplyBound(s: State, w: Worker, call: Call, accepted: bool)
    requires Ready(s) && w in s.peers
    ensures OnReply(s, w, call, accepted).binding == s.binding
  {
    hide Distribute;
    DistributeBound(s, call.conn);
  }

  lemma NotWaiting(s: State)
    requires Inv(s)
    ensures !s.binding ==> s.waiting == []
    ensures s.binding ==> s.free == [] && Distinct(s.waiting) && (forall w :: w in s.all ==> w in s.waiting) && (forall w :: w in s.waiting ==> w in s.all)
    ensures forall w :: w in s.all && w in s.waiting ==> w in s.sent && s.sent[w].None?
  {
    Known(s, {});
    assert forall w :: w in s.waiting && w in s.peers ==> Shape(s.peers[w], w in s.all, true, s.sent[w]);
    assert s.free != [] ==> s.free[0] in s.free;
    hide Calls, Placed;
  }

  /** The first worker in line, which waited for the bind. */
  ghost predicate HeadWaits(s: State) {
    && s.waiting != [] && s.waiting[0] in s.peers && s.waiting[0] in s.all
    && Distinct(Line(s)) && (s.free == [] || s.handles == [])
  }

  function Next(s: State): State
    requires s.waiting != [] && s.waiting[0] in s.peers
  {
    Done(s.(waiting := s.waiting[1..]), s.waiting[0])
  }

  lemma NextIs(s: State)
    requires HeadWaits(s)
    ensures var t := Next(s);
            && t.waiting == s.waiting[1..] && t.all == s.all
            && if s.handles == [] then t.free == s.free + [s.waiting[0]] && t.handles == [] && t.sent == s.sent
               else t.free == s.free && t.sent == s.sent[s.waiting[0] := Some(Sent(s.seqno, s.handles[0]))]
  {
    hide Tell, Distinct;
  }

  /** The worker is given a connection or joins the free ones, who come before those that wait. */
  lemma NextLine(s: State)
    requires HeadWaits(s)
    ensures var t := Next(s);
            && (if s.handles == [] then Line(t) == Line(s) && t.sent == s.sent else s.free == [] && Line(t) == Line(s)[1..])
            && Distinct(Line(t)) && (t.free == [] || t.handles == []) && t.all == s.all && forall w :: w in Line(t) ==> w in Line(s)
  {
    NextIs(s);
    hide Next;
    assert s.waiting == [s.waiting[0]] + s.waiting[1..];
    if s.handles != [] {
      assert Line(s) == s.waiting;
    }
  }

  /** A worker gets its reply and then a connection, or joins the free ones. */
  lemma NextTurns(s: State, v: Worker)
    requires HeadWaits(s) && v in Line(Next(s))
    ensures TakesTurns(s, Next(s), v)
  {
    NextIs(s);
    NextLine(s);
    hide Next, HeadWaits;
    if s.handles == [] {
      NobodysTurn(s, Next(s), v);
    } else {
      BeforeTail(Line(s), v);
    }
  }

  lemma {:induction false} ListeningLine(s: State)
    requires (forall w :: w in s.waiting ==> w in s.peers && w in s.all) && Distinct(Line(s)) && (s.free == [] || s.handles == [])
    ensures forall w :: w in Line(Listening(s)) ==> w in Line(s)
    decreases |s.waiting|
  {
    hide Done;
    if s.waiting != [] {
      DoneKeepsWaiting(s);
      NextLine(s);
      ListeningLine(Next(s));
    }
  }

  lemma {:induction false} ListeningTurns(s: State, v: Worker)
    requires (forall w :: w in s.waiting ==> w in s.peers && w in s.all) && Distinct(Line(s)) && (s.free == [] || s.handles == [])
    requires v in Line(Listening(s))
    ensures TakesTurns(s, Listening(s), v)
    decreases |s.waiting|
  {
    hide Done, TakesTurns;
    if s.waiting == [] {
      NobodysTurn(s, Listening(s), v);
    } else {
      var t := Next(s);
      DoneKeepsWaiting(s);
      NextLine(s);
      ListeningLine(t);
      NextTurns(s, v);
      ListeningTurns(t, v);
      TurnsJoin(s, t, Listening(s), v);
    }
  }

  lemma AddWaitsTurn(s: State, w: Worker, v: Worker)
    requires s.binding && !s.shut && v in s.waiting && s.free == [] && w in s.peers && s.peers[w].up != []
    ensures TakesTurns(s, Add(s, w), v)
  {
    BeforeAppended(s.waiting, w, v);
    assert s.free + s.waiting == s.waiting && s.free + (s.waiting + [w]) == s.waiting + [w];
    NobodysTurn(s, Add(s, w), v);
  }

  lemma NotListed(u: State, w: Worker, call: Call, accepted: bool)
    requires w in u.peers && w !in u.all && u.free == [] && Ready(u)
    ensures var t := OnReply(u, w, call, accepted); t.free == [] && t.waiting == u.waiting && t.sent == u.sent
  {
  }

  /** An acknowledgement of one that is no longer listed. */
  lemma AckWaitsTurn(s: State, w: Worker, q: nat, accepted: bool, v: Worker)
    requires w !in s.all && w in s.peers && s.peers[w].up != [] && q in s.callbacks && Ready(s) && s.free == []
    ensures TakesTurns(s, OnReply(Popped(s, w, q), w, s.callbacks[q], accepted), v)
  {
    PoppedIs(s, w, q);
    NotListed(Popped(s, w, q), w, s.callbacks[q], accepted);
    hide Popped, OnReply;
    NobodysTurn(s, OnReply(Popped(s, w, q), w, s.callbacks[q], accepted), v);
  }

  lemma RemoveWaitsTurn(s: State, w: Worker, v: Worker)
    requires w in s.peers && s.peers[w].up != [] && s.free == []
    ensures TakesTurns(s, Remove(s, w), v)
  {
    RemoveIs(s, w);
    RemoveWaiting(s, w);
    hide Remove;
    NobodysTurn(s, Remove(s, w), v);
  }

  lemma RemoveWaiting(s: State, w: Worker)
    requires w in s.peers && s.peers[w].up != []
    ensures Remove(s, w).waiting == s.waiting
  {
    hide CloseAll, Taken, Without;
  }

  lemma WaitingTurns(s: State, e: Event, v: Worker)
    requires Inv(s) && Enabled(s, e) && Ready(s) && s.binding && v in s.waiting && v in Line(Apply(s, e))
    ensures TakesTurns(s, Apply(s, e), v)
  {
    NotWaiting(s);
    InvSteady(s);
    LineDistinct(s);
    assert !s.shut;
    hide Inv, Steady, Add, Remove, OnReply, Listening, TakesTurns;
    match e {
      case EvListening => ListeningTurns(s, v);
      case EvMaster(w) =>
        match s.peers[w].up[0] {
          case QueryServer => AddWaitsTurn(s, w, v);
          case Close => RemoveWaitsTurn(s, w, v);
          case Ack(q, accepted) =>
            AckSent(s, w);
            if q in s.callbacks {
              AckWaitsTurn(s, w, q, accepted, v);
            } else {
              NobodysTurn(s, Apply(s, e), v);
            }
        }
      case EvWorker(w) => NobodysTurn(s, Apply(s, e), v);
      case EvAsk(w) => NobodysTurn(s, Apply(s, e), v);
      case EvClose(w) => NobodysTurn(s, Apply(s, e), v);
      case EvConnection =>
    }
  }

  lemma LineDistinct(s: State)
    requires Inv(s)
    ensures Distinct(Line(s)) && forall w :: w in s.waiting ==> w in s.peers && w in s.all
  {
    Known(s, {});
    assert Tokens(s.all, s.free, s.waiting, s.sent, {});
    hide Shapes, Calls, Placed;
    var line := Line(s);
    forall i, j | 0 <= i < j < |line|
      ensures line[i] != line[j]
    {
      assert i < |s.free| ==> line[i] in s.free;
      assert j >= |s.free| ==> line[j] in s.waiting;
    }
  }

  lemma StepTakesTurns(s: State, e: Event, v: Worker)
    requires Inv(s) && Enabled(s, e) && Ready(s) && v in Line(s) && v in Line(Apply(s, e))
    ensures TakesTurns(s, Apply(s, e), v)
  {
    NotWaiting(s);
    if v in s.free {
      FreeMeans(s);
      StaysBound(s, e);
      StepKeeps(s, e);
      NotWaiting(Apply(s, e));
      hide Inv, Apply, TakesTurns, InTurn;
      StepInTurn(s, e, v);
      FreeTurns(s, Apply(s, e), v);
    } else {
      WaitingTurns(s, e, v);
    }
  }

  /** v stands in the line before and after every step. */
  ghost predicate InLineThroughout(s: State, es: seq<Event>, v: Worker)
    decreases |es|
  {
    v in Line(s) && (es == [] || (Enabled(s, es[0]) && Ready(s) && InLineThroughout(Apply(s, es[0]), es[1..], v)))
  }

  /** How often w is given a connection. */
  ghost function Turns(s: State, es: seq<Event>, w: Worker): nat
    decreases |es|
  {
    if es == [] || !Enabled(s, es[0]) || !Ready(s) then 0
    else (if Given(s, Apply(s, es[0]), w) then 1 else 0) + Turns(Apply(s, es[0]), es[1..], w)
  }

  lemma {:induction false} TurnsWhileInLine(s: State, es: seq<Event>, v: Worker, w: Worker)
    requires Inv(s) && InLineThroughout(s, es, v)
    ensures Turns(s, es, w) <= if w in Before(Line(s), v) then 1 else 0
    decreases |es|
  {
    hide Inv, Apply, Enabled, Ready, Given, Before, Line;
    if es != [] {
      StepKeeps(s, es[0]);
      StepTakesTurns(s, es[0], v);
      TurnsWhileInLine(Apply(s, es[0]), es[1..], v, w);
    }
  }

  /** Round robin: in every run, as long as one worker stays in the line no worker is given two connections, and none but
      those that joined it before are given any. */
  lemma RoundRobin(workers: set<Worker>, before: seq<Event>, s: State, es: seq<Event>, v: Worker, w: Worker)
    requires Run(Init(workers), before, s) && InLineThroughout(s, es, v)
    ensures Turns(s, es, w) <= if w in Before(Line(s), v) then 1 else 0
  {
    hide Run, InLineThroughout, Turns, Inv;
    InitHolds(workers);
    RunKeeps(Init(workers), before, s);
    TurnsWhileInLine(s, es, v, w);
  }

  // ---- first come, first served ----

  /** The step hands connection d to a worker. */
  predicate HandedOver(s: State, t: State, d: Conn) {
    d in t.places && t.places[d].Outstanding? && (d in s.places ==> s.places[d] != t.places[d])
  }

  /** While c stays queued nothing gets in front of it, and what is handed over stood in front and does so no longer. */
  ghost predicate InLine(s: State, t: State, c: Conn) {
    && Before(t.handles, c) <= Before(s.handles, c)
    && forall d :: HandedOver(s, t, d) ==> d in Before(s.handles, c) && d !in Before(t.handles, c)
  }

  lemma NoneHanded(s: State, t: State, c: Conn)
    requires Before(t.handles, c) <= Before(s.handles, c)
    requires forall d :: d in t.places && t.places[d].Outstanding? ==> d in s.places && s.places[d] == t.places[d]
    ensures InLine(s, t, c)
  {
  }

  lemma LineJoins(s: State, u: State, t: State, c: Conn)
    requires InLine(s, u, c) && InLine(u, t, c)
    ensures InLine(s, t, c)
  {
    forall d | HandedOver(s, t, d)
      ensures d in Before(s.handles, c) && d !in Before(t.handles, c)
    {
      assert HandedOver(s, u, d) || HandedOver(u, t, d);
    }
  }

  /** The connection that came first is handed over first. */
  lemma HandoffInLine(s: State, w: Worker, c: Conn)
    requires w in s.peers && Distinct(s.handles) && c in s.handles && c in Handoff(s, w).handles
    ensures InLine(s, Handoff(s, w), c)
    ensures var t := Handoff(s, w); t.handles == s.handles || t.handles == s.handles[1..]
  {
    var t := Handoff(s, w);
    if w in s.all {
      if s.handles[0] != c {
        BeforeTail(s.handles, c);
      }
    } else {
      NoneHanded(s, t, c);
    }
  }

  lemma QueuedMeans(s: State, c: Conn)
    requires Inv(s) && c in s.handles
    ensures s.free == [] && !s.shut && Distinct(s.handles) && c < s.arrived && c in s.places && s.places[c] == Queued
    ensures forall q :: q in s.callbacks ==> s.callbacks[q].conn in s.places && s.places[s.callbacks[q].conn] == Outstanding(q)
    ensures forall d :: d in s.handles ==> d < s.arrived && d in s.places && s.places[d] == Queued
  {
    hide Shapes, Tokens, Calls;
  }

  lemma ArrivalInLine(s: State, c: Conn)
    requires Inv(s) && c in s.handles && Enabled(s, EvConnection) && Ready(s)
    ensures InLine(s, Apply(s, EvConnection), c)
  {
    QueuedMeans(s, c);
    BeforeAppended(s.handles, s.arrived, c);
    hide Inv;
    NoneHanded(s, Apply(s, EvConnection), c);
  }

  lemma AddInLine(s: State, w: Worker, c: Conn)
    requires Inv(s) && c in s.handles && w in s.peers && s.peers[w].up != [] && c in Add(s, w).handles
    ensures InLine(s, Add(s, w), c)
  {
    QueuedMeans(s, c);
    hide Inv, Handoff;
    if s.binding {
      NoneHanded(s, Add(s, w), c);
    } else {
      var u := s.(peers := Tell(Taken(s.peers, w), w, Reply), all := s.all + {w}, failed := s.failed || w in s.all);
      HandoffInLine(u, w, c);
      InLineVia(s, u, Handoff(u, w), c);
    }
  }

  /** Nothing but the queue and the places matter. */
  lemma InLineVia(s: State, u: State, t: State, c: Conn)
    requires u.handles == s.handles && u.places == s.places && InLine(u, t, c)
    ensures InLine(s, t, c)
  {
    forall d | HandedOver(s, t, d)
      ensures d in Before(s.handles, c) && d !in Before(t.handles, c)
    {
      assert HandedOver(u, t, d);
    }
  }

  lemma RemoveLeaves(s: State, w: Worker)
    requires w in s.peers && s.peers[w].up != []
    ensures var t := Remove(s, w); t.handles != [] ==> t.handles == s.handles && t.places == s.places
  {
    hide CloseAll, Without, Taken;
  }

  lemma RemoveInLine(s: State, w: Worker, c: Conn)
    requires w in s.peers && s.peers[w].up != [] && c in s.handles && c in Remove(s, w).handles
    ensures InLine(s, Remove(s, w), c)
  {
    hide Remove;
    RemoveLeaves(s, w);
    NoneHanded(s, Remove(s, w), c);
  }

  /** The connection of an acknowledgement is somewhere else now, perhaps at the end of the queue. */
  lemma ElsewhereInLine(s: State, u: State, c: Conn, x: Conn, p: Place)
    requires c in s.handles && (u.handles == s.handles || u.handles == s.handles + [x])
    requires u.places == s.places[x := p] && !p.Outstanding?
    ensures InLine(s, u, c)
  {
    BeforeAppended(s.handles, x, c);
    NoneHanded(s, u, c);
  }

  lemma ReplyInLine(s: State, u: State, w: Worker, c: Conn)
    requires InLine(s, u, c) && c in u.handles && w in u.peers && Distinct(u.handles) && c in Handoff(u, w).handles
    ensures InLine(s, Handoff(u, w), c)
  {
    hide Handoff;
    HandoffInLine(u, w, c);
    LineJoins(s, u, Handoff(u, w), c);
  }

  lemma DistributeQueues(s: State, c: Conn)
    requires s.free == []
    ensures Distribute(s, c) == s.(handles := s.handles + [c], places := s.places[c := Queued])
  {
  }

  lemma AnswerInLine(s: State, u: State, w: Worker, call: Call, accepted: bool, c: Conn)
    requires u.handles == s.handles && u.places == s.places && u.free == [] && w in u.peers && Ready(u)
    requires Distinct(s.handles) && c in s.handles && call.conn !in s.handles && c in OnReply(u, w, call, accepted).handles
    ensures InLine(s, OnReply(u, w, call, accepted), c)
  {
    hide Handoff, Distribute, InLine;
    if accepted {
      var accept := u.(places := u.places[call.conn := Accepted]);
      ElsewhereInLine(s, accept, c, call.conn, Accepted);
      if call.gen == u.gen && !u.shut {
        ReplyInLine(s, accept, w, c);
      }
    } else if call.gen == u.gen && !u.shut {
      DistributeQueues(u, call.conn);
      DistributeKeepsPeers(u, call.conn);
      ElsewhereInLine(s, Distribute(u, call.conn), c, call.conn, Queued);
      ReplyInLine(s, Distribute(u, call.conn), w, c);
    } else {
      ElsewhereInLine(s, u.(places := u.places[call.conn := Stranded]), c, call.conn, Stranded);
    }
  }

  lemma AckInLine(s: State, w: Worker, q: nat, accepted: bool, c: Conn)
    requires Inv(s) && c in s.handles && w in s.peers && s.peers[w].up != [] && q in s.callbacks && Ready(s)
    requires c in OnReply(Popped(s, w, q), w, s.callbacks[q], accepted).handles
    ensures InLine(s, OnReply(Popped(s, w, q), w, s.callbacks[q], accepted), c)
  {
    QueuedMeans(s, c);
    PoppedIs(s, w, q);
    hide Inv, OnReply, InLine, Popped;
    AnswerInLine(s, Popped(s, w, q), w, s.callbacks[q], accepted, c);
  }

  lemma HandlesShrink(s: State, w: Worker)
    requires w in s.peers
    ensures Handoff(s, w).handles == s.handles || (s.handles != [] && Handoff(s, w).handles == s.handles[1..])
  {
  }

  lemma {:induction false} ListeningShrinks(s: State)
    requires forall w :: w in s.waiting ==> w in s.peers
    ensures forall c :: c in Listening(s).handles ==> c in s.handles
    decreases |s.waiting|
  {
    if s.waiting != [] {
      DoneKeepsWaiting(s);
      var u := s.(waiting := s.waiting[1..]);
      HandlesShrink(u.(peers := Tell(u.peers, s.waiting[0], Reply)), s.waiting[0]);
      hide Handoff;
      ListeningShrinks(Done(u, s.waiting[0]));
    }
  }

  lemma {:induction false} ListeningInLine(s: State, c: Conn)
    requires (forall w :: w in s.waiting ==> w in s.peers) && Distinct(s.handles) && c in s.handles && c in Listening(s).handles
    ensures InLine(s, Listening(s), c)
    decreases |s.waiting|
  {
    hide InLine, Handoff;
    if s.waiting == [] {
      NoneHanded(s, Listening(s), c);
    } else {
      DoneKeepsWaiting(s);
      var u := s.(waiting := s.waiting[1..]);
      var v := u.(peers := Tell(u.peers, s.waiting[0], Reply));
      var t := Done(u, s.waiting[0]);
      ListeningShrinks(t);
      HandlesShrink(v, s.waiting[0]);
      HandoffInLine(v, s.waiting[0], c);
      InLineVia(s, v, t, c);
      ListeningInLine(t, c);
      LineJoins(s, t, Listening(t), c);
    }
  }

  lemma StepInLine(s: State, e: Event, c: Conn)
    requires Inv(s) && Enabled(s, e) && Ready(s) && c in s.handles && c in Apply(s, e).handles
    ensures InLine(s, Apply(s, e), c)
  {
    QueuedMeans(s, c);
    hide Inv, Add, Remove, OnReply, Distribute, Listening, InLine;
    match e {
      case EvConnection => ArrivalInLine(s, c);
      case EvListening => ListeningInLine(s, c);
      case EvMaster(w) =>
        match s.peers[w].up[0] {
          case QueryServer => AddInLine(s, w, c);
          case Close => RemoveInLine(s, w, c);
          case Ack(q, accepted) =>
            if q in s.callbacks {
              AckInLine(s, w, q, accepted, c);
            } else {
              NoneHanded(s, Apply(s, e), c);
            }
        }
      case EvWorker(w) => NoneHanded(s, Apply(s, e), c);
      case EvAsk(w) => NoneHanded(s, Apply(s, e), c);
      case EvClose(w) => NoneHanded(s, Apply(s, e), c);
    }
  }

  /** c is queued before and after every step. */
  ghost predicate QueuedThroughout(s: State, es: seq<Event>, c: Conn)
    decreases |es|
  {
    c in s.handles && (es == [] || (Enabled(s, es[0]) && Ready(s) && QueuedThroughout(Apply(s, es[0]), es[1..], c)))
  }

  /** How often d is handed to a worker. */
  ghost function Handings(s: State, es: seq<Event>, d: Conn): nat
    decreases |es|
  {
    if es == [] || !Enabled(s, es[0]) || !Ready(s) then 0
    else (if HandedOver(s, Apply(s, es[0]), d) then 1 else 0) + Handings(Apply(s, es[0]), es[1..], d)
  }

  lemma {:induction false} HandingsWhileQueued(s: State, es: seq<Event>, c: Conn, d: Conn)
    requires Inv(s) && QueuedThroughout(s, es, c)
    ensures Handings(s, es, d) <= if d in Before(s.handles, c) then 1 else 0
    decreases |es|
  {
    hide Inv, Apply, Enabled, Ready, HandedOver, Before;
    if es != [] {
      StepKeeps(s, es[0]);
      StepInLine(s, es[0], c);
      HandingsWhileQueued(Apply(s, es[0]), es[1..], c, d);
    }
  }

  /** First come, first served: in every run, as long as a connection is queued none is handed over but those queued before
      it, once each. */
  lemma FirstComeFirstServed(workers: set<Worker>, before: seq<Event>, s: State, es: seq<Event>, c: Conn, d: Conn)
    requires Run(Init(workers), before, s) && QueuedThroughout(s, es, c)
    ensures Handings(s, es, d) <= if d in Before(s.handles, c) then 1 else 0
  {
    hide Run, QueuedThroughout, Handings, Inv;
    InitHolds(workers);
    RunKeeps(Init(workers), before, s);
    HandingsWhileQueued(s, es, c, d);
  }
}
