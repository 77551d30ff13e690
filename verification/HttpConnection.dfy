/** The closure variables of `connectionListener` in lib/_http_server.js as an object: the responses on the heap, the
    requests not answered yet, the responses waiting, and the one that owns the socket. */
module HttpConnection {
  import opened Wrappers
  import opened Bytes
  import opened HttpSpec
  import opened HttpRuns
  import opened HttpMessage

  ghost function Value(m: OutgoingMessage): Response
    reads m
  {
    m.View()
  }

  ghost function Values(ms: seq<OutgoingMessage>): (r: seq<Response>)
    reads ms
    ensures |r| == |ms| && forall i :: 0 <= i < |ms| ==> r[i] == Value(ms[i])
  {
    seq(|ms|, i requires 0 <= i < |ms| reads ms => Value(ms[i]))
  }

  ghost predicate Distinct(ms: seq<OutgoingMessage>) {
    forall i, j :: 0 <= i < j < |ms| ==> ms[i] != ms[j]
  }

  /** The fields of a message that the connection looks at. */
  lemma ValueIs(m: OutgoingMessage)
    ensures var r := Value(m); r.head == m.header && r.finished == m.finished && r.output == m.output && r.wired == m.wired
  {
  }

  /** `resOnFinish` without a response that could flush. */
  function Left(s: State, last: bool): State {
    var incoming := if s.incoming == [] then [] else s.incoming[1..];
    var done := if s.writable then s.done + 1 else s.done;
    if last then s.(incoming := incoming, current := None, writable := false, done := done)
    else if s.outgoing == [] then s.(incoming := incoming, current := None, done := done)
    else s.(incoming := incoming, current := Some(s.outgoing[0]), outgoing := s.outgoing[1..], done := done)
  }

  class Connection {
    var res: seq<OutgoingMessage>
    var incoming: seq<nat>
    var outgoing: seq<nat>
    var current: Option<nat>
    var writable: bool
    var destroyed: bool
    var aborted: bool
    var wire: Bytes
    ghost var done: nat
    ghost var failed: bool

    ghost function View(): State
      reads this, res
    {
      State(Values(res), incoming, outgoing, current, writable, destroyed, aborted, wire, done, failed)
    }

    constructor ()
      ensures View() == INIT && res == []
    {
      res, incoming, outgoing, current, writable, destroyed, aborted, wire := [], [], [], None, true, false, false, [];
      done, failed := 0, false;
    }

    /** `parserOnIncoming`. */
    method OnIncoming()
      requires Distinct(res)
      modifies this
      ensures Distinct(res) && View() == Request(old(View()))
      ensures fresh(set m | m in res && m !in old(res))
    {
      hide Value, Values;
      var req := |res|;
      incoming := incoming + [req];
      Add();
      if current.Some? {
        outgoing := outgoing + [req];
      } else {
        current := Some(req);
      }
    }

    method Add()
      requires Distinct(res)
      modifies this`res
      ensures Distinct(res) && fresh(set m | m in res && m !in old(res)) && |res| == |old(res)| + 1
      ensures Values(res) == old(Values(res)) + [NEW]
    {
      hide Value, Values;
      var m := NewMessage();
      res := res + [m];
    }

    method NewMessage() returns (m: OutgoingMessage)
      ensures fresh(m) && Value(m) == NEW
    {
      m := new OutgoingMessage();
    }

    /** Where `_writeRaw` sends what response i writes. */
    method ModeNow(i: nat) returns (mode: Mode)
      ensures mode == ModeOf(View(), i)
    {
      mode := if current != Some(i) then Buffered else if writable then Direct else if destroyed then Dropped else Buffered;
    }

    /** What response i has written since is on the socket. */
    method Pass(i: nat, from: nat, ghost before: seq<Response>)
      requires i < |res| && i < |before| == |res| && from == |before[i].wired| && before[i].wired <= res[i].wired
      requires forall j :: 0 <= j < |res| && j != i ==> Value(res[j]) == before[j]
      modifies this`wire
      ensures View() == Put(old(View()).(res := before), i, Value(res[i]))
    {
      ValueIs(res[i]);
      hide Value;
      wire := wire + res[i].wired[from..];
      assert Values(res) == before[i := Value(res[i])];
    }

    /** `_implicitHeader` or `writeHead` of response i. */
    method HeadTo(i: nat, head: Head)
      requires Distinct(res) && i < |res|
      modifies res[i]
      ensures View() == Put(old(View()), i, WithHead(old(View()).res[i], head))
    {
      var m := res[i];
      if m.header.None? {
        m.header := Some(head);
      }
      assert Value(m) == old(WithHead(Value(m), head));
      hide Value;
      assert Values(res) == old(Values(res))[i := Value(m)];
    }

    method WriteTo(i: nat, data: Bytes, isText: bool, head: Head)
      requires Distinct(res) && i < |res|
      modifies this`wire, res[i]
      ensures View() == Put(old(View()), i, HttpSpec.Write(old(View()).res[i], old(ModeOf(View(), i)), data, isText, head))
    {
      hide HttpSpec.Write;
      ghost var before := Values(res);
      ValueIs(res[i]);
      var from := |res[i].wired|;
      var mode := ModeNow(i);
      res[i].Write(data, isText, mode, head);
      Pass(i, from, before);
    }

    method EndTo(i: nat, data: Bytes, isText: bool, trailer: seq<Bytes>, head: Head)
      requires Distinct(res) && i < |res| && !res[i].finished
      modifies this`wire, res[i]
      ensures View() == Put(old(View()), i, HttpSpec.End(old(View()).res[i], old(ModeOf(View(), i)), data, isText, trailer, head))
    {
      hide HttpSpec.End;
      ghost var before := Values(res);
      ValueIs(res[i]);
      var from := |res[i].wired|;
      var mode := ModeNow(i);
      res[i].End(data, isText, trailer, mode, head);
      Pass(i, from, before);
    }

    /** `end` of response i, with all that follows when nothing of it is held back. */
    method EndOf(i: nat, data: Bytes, isText: bool, trailer: seq<Bytes>, head: Head)
      requires Distinct(res) && i < |res| && InRange(View()) && !res[i].finished
      modifies this, res
      ensures res == old(res)
      ensures View() == EndResponse(old(View()), i, HttpSpec.End(old(View()).res[i], old(ModeOf(View(), i)), data, isText, trailer, head))
    {
      hide HttpSpec.End, Finish, Value, Values, ModeOf;
      ValueIs(res[i]);
      EndTo(i, data, isText, trailer, head);
      ValueIs(res[i]);
      if |res[i].output| == 0 {
        Finishes(i);
      }
    }

    /** `_finish`, for the response that owns the socket. */
    method Finishes(i: nat)
      requires Distinct(res) && InRange(View())
      modifies this, res
      ensures res == old(res)
      ensures View() == if old(current) == Some(i) then Finish(old(View())) else old(View()).(failed := true)
    {
      hide Finish, Value, Values;
      if current == Some(i) {
        var _ := ResOnFinish();
      } else {
        failed := true;
      }
    }

    /** `resOnFinish`: the next response gets the socket and flushes, and may be finished itself. False when the
        assertion on the order of requests fails. */
    method ResOnFinish() returns (ok: bool)
      requires Distinct(res) && InRange(View()) && current.Some?
      modifies this, res
      ensures res == old(res) && View() == Finish(old(View()))
      ensures ok ==> failed == old(failed)
      decreases |outgoing|
    {
      hide Value, Values, Assigned;
      var i := current.value;
      if incoming != [] && incoming[0] != i {
        failed := true;
        return false;
      }
      ok := true;
      ValueIs(res[i]);
      var last := res[i].header.Some? && res[i].header.value.last;
      if last || outgoing == [] || !writable {
        Leave(last);
        return;
      }
      var m := outgoing[0];
      AssignNext();
      ValueIs(res[m]);
      if res[m].finished {
        ok := ResOnFinish();
      }
    }

    /** Nobody gets the socket, or the next response gets a closed one. */
    method Leave(last: bool)
      modifies this`incoming, this`outgoing, this`current, this`writable, this`done
      ensures View() == Left(old(View()), last)
    {
      Detach();
      if last {
        writable := false;
      } else if outgoing != [] {
        current := Some(outgoing[0]);
        outgoing := outgoing[1..];
      }
    }

    /** `incoming.shift()` and `detachSocket`. */
    method Detach()
      modifies this`incoming, this`current, this`done
      ensures incoming == (if old(incoming) == [] then [] else old(incoming)[1..]) && current == None
      ensures done == (if writable then old(done) + 1 else old(done))
    {
      if incoming != [] {
        incoming := incoming[1..];
      }
      current := None;
      done := if writable then done + 1 else done;
    }

    /** `assignSocket` and `_flush` of the next response. */
    method AssignNext()
      requires Distinct(res) && InRange(View()) && outgoing != [] && writable
      modifies this, res
      ensures res == old(res) && failed == old(failed) && View() == Assigned(old(View()))
    {
      hide Value, Flushed;
      ghost var before := Values(res);
      Detach();
      var m := outgoing[0];
      outgoing := outgoing[1..];
      current := Some(m);
      Flush(m);
    }

    method Flush(i: nat)
      requires Distinct(res) && i < |res|
      modifies this`wire, res[i]
      ensures View() == Put(old(View()), i, Flushed(old(View()).res[i]))
    {
      hide Flushed;
      ghost var before := Values(res);
      ValueIs(res[i]);
      var from := |res[i].wired|;
      res[i].FlushOutput();
      Pass(i, from, before);
    }

    /** One event, from the request to the socket. */
    method Act(e: Event)
      requires Distinct(res) && Enabled(View(), e) && InRange(View())
      modifies this, res
      ensures Distinct(res) && View() == Apply(old(View()), e)
      ensures fresh(set m | m in res && m !in old(res))
    {
      hide HttpSpec.Write, HttpSpec.End, EndResponse, Put, WithHead, Request, Value;
      match e {
        case EvRequest => OnIncoming();
        case EvHead(i, head) => HeadTo(i, head);
        case EvWrite(i, data, isText, head) => WriteTo(i, data, isText, head);
        case EvEnd(i, data, isText, trailer, head) =>
          ValueIs(res[i]);
          if !res[i].finished {
            EndOf(i, data, isText, trailer, head);
          }
        case EvDestroy => destroyed, writable := true, false;
        case EvAbort => aborted, incoming, writable := true, [], false;
      }
    }
  }

  /** The connection is in a state of a run. */
  ghost predicate InStep(c: Connection)
    reads c, c.res
  {
    Distinct(c.res) && Inv(c.View())
  }

  /** An event in a state of a run leaves one, and an assertion fails exactly when Fails says. */
  method Step(c: Connection, e: Event)
    requires InStep(c) && Enabled(c.View(), e)
    modifies c, c.res
    ensures InStep(c) && InRange(old(c.View())) && c.View() == Apply(old(c.View()), e)
    ensures c.failed <==> Fails(old(c.View()), e)
    ensures fresh(set m | m in c.res && m !in old(c.res))
  {
    hide Inv, Enabled, Apply, Fails, Values;
    StepKeeps(c.View(), e);
    c.Act(e);
  }

  /** Every run: the objects go where the run goes. */
  method Drive(c: Connection, events: seq<Event>, ghost t: State)
    requires InStep(c) && Run(c.View(), events, t)
    modifies c, c.res
    ensures InStep(c) && c.View() == t
  {
    hide InStep, Enabled, Apply, Values, Run, InRange;
    assert events[0..] == events;
    for k := 0 to |events|
      invariant InStep(c) && Run(c.View(), events[k..], t)
      invariant forall i :: 0 <= i < |c.res| ==> c.res[i] in old(c.res) || fresh(c.res[i])
    {
      RunGoesOn(c.View(), events, k, t);
      Step(c, events[k]);
    }
    RunEnds(c.View(), events, t);
  }

  lemma RunGoesOn(s: State, events: seq<Event>, k: nat, t: State)
    requires k < |events| && Run(s, events[k..], t)
    ensures Enabled(s, events[k]) && InRange(s) && Run(Apply(s, events[k]), events[k + 1..], t)
  {
    hide Enabled, Apply, InRange;
    assert events[k..][0] == events[k] && events[k..][1..] == events[k + 1..];
  }

  lemma RunEnds(s: State, events: seq<Event>, t: State)
    requires Run(s, events[|events|..], t)
    ensures s == t
  {
    assert events[|events|..] == [];
  }

  /** The end of the response that owns the socket keeps the invariant, and the assertion fails exactly when it overtook
      another. */
  method Finished(c: Connection)
    requires InStep(c) && InRange(c.View()) && c.current.Some? && c.res[c.current.value].finished && !c.failed
    modifies c, c.res
    ensures InStep(c) && (c.failed <==> old(Overtaken(c.View())))
  {
    hide Inv, Finish, Values, Value;
    ValueIs(c.res[c.current.value]);
    FinishKeeps(c.View());
    var _ := c.ResOnFinish();
  }
}
