/** Pipelined responses on one connection: what every run keeps. */
module HttpRuns {
  import opened Wrappers
  import opened Bytes
  import opened HttpChunked
  import opened HttpSpec
  import opened HttpProofs

  // ---- the invariant ----

  /** What the first k responses put on the socket, and their whole texts. */
  function Wired(res: seq<Response>, k: nat): Bytes
    requires k <= |res|
  {
    if k == 0 then [] else Wired(res, k - 1) + res[k - 1].wired
  }

  function Texts(res: seq<Response>, k: nat): Bytes
    requires k <= |res|
  {
    if k == 0 then [] else Texts(res, k - 1) + res[k - 1].text
  }

  ghost predicate AllKept(res: seq<Response>, open: bool) {
    forall i :: 0 <= i < |res| ==> Framed(res[i]) && Flows(res[i], open)
  }

  /** Responses reach the socket one after the other, each as a whole before the next begins. */
  ghost predicate InOrder(res: seq<Response>, done: nat, wire: Bytes) {
    && done <= |res| && wire == Wired(res, |res|)
    && (forall i :: 0 <= i < done ==> res[i].wired == res[i].text && res[i].finished)
    && (forall i :: done < i < |res| ==> res[i].wired == [])
  }

  /** Nothing follows a response that closes the connection. */
  ghost predicate LastIsLast(res: seq<Response>, done: nat, open: bool) {
    && done <= |res|
    && (forall i :: 0 <= i < done && IsLast(res[i]) ==> i == done - 1 && !open)
    && (0 < done < |res| && IsLast(res[done - 1]) ==> res[done].wired == [])
  }

  predicate Increasing(s: seq<nat>) {
    forall i, j :: 0 <= i < j < |s| ==> s[i] < s[j]
  }

  /** The requests not answered yet are those of the owner of the socket and of the responses waiting for it. */
  ghost predicate Queued(n: nat, incoming: seq<nat>, outgoing: seq<nat>, current: Option<nat>, aborted: bool) {
    && Increasing(outgoing) && (forall x :: x in outgoing ==> x < n) && (current.Some? ==> current.value < n && current.value !in outgoing)
    && (aborted ==> incoming == [])
    && (!aborted ==> Increasing(incoming) && forall x :: x in incoming <==> (x in outgoing || current == Some(x)))
  }

  /** Every response waits, owns the socket or is finished; one that waits and has begun holds something back. */
  ghost predicate Accounted(res: seq<Response>, outgoing: seq<nat>, current: Option<nat>) {
    && (forall i :: 0 <= i < |res| ==> i in outgoing || current == Some(i) || res[i].finished)
    && (forall i :: 0 <= i < |res| && i in outgoing ==> Backed(res[i]))
  }

  /** While the socket is open its owner is the oldest response not done, and holds nothing back. */
  ghost predicate Open(res: seq<Response>, done: nat, outgoing: seq<nat>, current: Option<nat>) {
    && done <= |res|
    && current == (if done < |res| then Some(done) else None)
    && |outgoing| == (if done < |res| then |res| - done - 1 else 0)
    && (forall k :: 0 <= k < |outgoing| ==> outgoing[k] == done + 1 + k)
    && (done < |res| ==> res[done].output == [])
  }

  /** The owner of a socket that a last response closed began after that, and holds back all it has sent. */
  ghost predicate OwnerBacked(res: seq<Response>, current: Option<nat>, writable: bool, destroyed: bool, aborted: bool) {
    !writable && !destroyed && !aborted && current.Some? && current.value < |res| ==> Backed(res[current.value])
  }

  ghost predicate Parts(res: seq<Response>, incoming: seq<nat>, outgoing: seq<nat>, current: Option<nat>, writable: bool,
                        destroyed: bool, aborted: bool, wire: Bytes, done: nat)
  {
    && AllKept(res, writable)
    && InOrder(res, done, wire)
    && LastIsLast(res, done, writable)
    && Queued(|res|, incoming, outgoing, current, aborted)
    && Accounted(res, outgoing, current)
    && OwnerBacked(res, current, writable, destroyed, aborted)
    && (writable ==> Open(res, done, outgoing, current) && !aborted && !destroyed)
  }

  ghost predicate Inv(s: State) {
    Parts(s.res, s.incoming, s.outgoing, s.current, s.writable, s.destroyed, s.aborted, s.wire, s.done)
  }

  lemma InvInRange(s: State)
    requires Inv(s)
    ensures InRange(s)
  {
    assert forall k :: 0 <= k < |s.outgoing| ==> s.outgoing[k] in s.outgoing;
    hide AllKept, InOrder, LastIsLast, Accounted, Open;
  }

  // ---- the socket's text ----

  lemma {:induction false} WiredBefore(res: seq<Response>, i: nat, r: Response, k: nat)
    requires k <= i < |res|
    ensures Wired(res[i := r], k) == Wired(res, k)
  {
    if k > 0 {
      WiredBefore(res, i, r, k - 1);
    }
  }

  lemma {:induction false} WiredAfter(res: seq<Response>, i: nat, k: nat)
    requires i <= k <= |res| && forall j :: i <= j < k ==> res[j].wired == []
    ensures Wired(res, k) == Wired(res, i)
  {
    if i < k {
      WiredAfter(res, i, k - 1);
    }
  }

  /** What response i adds is added to the socket's text, if no later one has begun. */
  lemma WiredPut(res: seq<Response>, i: nat, r: Response)
    requires i < |res| && res[i].wired <= r.wired && forall j :: i < j < |res| ==> res[j].wired == []
    ensures Wired(res[i := r], |res|) == Wired(res, |res|) + r.wired[|res[i].wired|..]
  {
    hide Wired;
    WiredBefore(res, i, r, i);
    WiredAfter(res[i := r], i + 1, |res|);
    WiredAfter(res, i + 1, |res|);
    WiredNext(res, i);
    WiredNext(res[i := r], i);
    var before, added := res[i].wired, r.wired[|res[i].wired|..];
    assert r.wired == before + added;
    assert Wired(res, i) + (before + added) == (Wired(res, i) + before) + added;
  }

  lemma WiredNext(res: seq<Response>, i: nat)
    requires i < |res|
    ensures Wired(res, i + 1) == Wired(res, i) + res[i].wired
  {
  }

  lemma {:induction false} WiredSame(res: seq<Response>, i: nat, r: Response, k: nat)
    requires i < |res| && r.wired == res[i].wired && k <= |res|
    ensures Wired(res[i := r], k) == Wired(res, k)
  {
    if k > 0 {
      WiredSame(res, i, r, k - 1);
    }
  }

  // ---- an operation on one response ----

  lemma OrderPut(res: seq<Response>, i: nat, r: Response, done: nat, wire: Bytes, mode: Mode, open: bool)
    requires InOrder(res, done, wire) && i < |res| && Kept(res[i], r, mode, open) && (mode.Direct? ==> i == done)
    requires i < done ==> r.wired == res[i].wired
    ensures InOrder(res[i := r], done, wire + r.wired[|res[i].wired|..])
  {
    if i == done {
      WiredPut(res, i, r);
    } else {
      WiredSame(res, i, r, |res|);
      assert r.wired[|res[i].wired|..] == [];
    }
    hide Framed, Flows, Wired;
  }

  lemma LastPut(res: seq<Response>, i: nat, r: Response, done: nat, mode: Mode, open: bool)
    requires LastIsLast(res, done, open) && i < |res| && Kept(res[i], r, mode, open) && (mode.Direct? ==> i == done && open)
    requires i < done ==> res[i].head.Some?
    ensures LastIsLast(res[i := r], done, open)
  {
    hide Framed, Flows;
  }

  lemma AccountedPut(res: seq<Response>, i: nat, r: Response, outgoing: seq<nat>, current: Option<nat>, mode: Mode, open: bool)
    requires Accounted(res, outgoing, current) && i < |res| && Kept(res[i], r, mode, open) && (i in outgoing ==> mode.Buffered?)
    ensures Accounted(res[i := r], outgoing, current)
  {
    hide Framed, Flows, Backed;
  }

  /** What an operation needs to know about its response. */
  lemma Facts(s: State, i: nat)
    requires Inv(s) && i < |s.res|
    ensures Usable(s.res[i], ModeOf(s, i), s.writable)
    ensures ModeOf(s, i).Direct? ==> i == s.done && s.writable && s.res[i].output == []
    ensures i < s.done ==> s.res[i].finished && s.res[i].head.Some?
    ensures i in s.outgoing ==> ModeOf(s, i).Buffered? && Backed(s.res[i])
    ensures !s.res[i].finished ==> i in s.outgoing || s.current == Some(i)
    ensures s.current == Some(i) && !s.writable && !s.destroyed && !s.aborted ==> ModeOf(s, i).Buffered? && Backed(s.res[i])
  {
    hide Wired, Text, Flows, LastIsLast;
  }

  lemma OwnerPut(s: State, i: nat, r: Response)
    requires OwnerBacked(s.res, s.current, s.writable, s.destroyed, s.aborted) && i < |s.res|
    requires Kept(s.res[i], r, ModeOf(s, i), s.writable)
    ensures OwnerBacked(s.res[i := r], s.current, s.writable, s.destroyed, s.aborted)
  {
    hide Framed, Flows, Backed;
  }

  lemma PutKeeps(s: State, i: nat, r: Response)
    requires Inv(s) && i < |s.res| && Kept(s.res[i], r, ModeOf(s, i), s.writable)
    ensures Inv(Put(s, i, r))
  {
    PutParts(s, i, r);
    OpenPut(s, i, r);
    hide AllKept, InOrder, LastIsLast, Queued, Accounted, OwnerBacked, Open, Kept;
  }

  lemma AllKeptPut(res: seq<Response>, i: nat, r: Response, mode: Mode, open: bool)
    requires AllKept(res, open) && i < |res| && Kept(res[i], r, mode, open)
    ensures AllKept(res[i := r], open)
  {
    hide Framed, Flows;
  }

  lemma OpenPut(s: State, i: nat, r: Response)
    requires Inv(s) && i < |s.res| && Kept(s.res[i], r, ModeOf(s, i), s.writable)
    ensures s.writable ==> Open(s.res[i := r], s.done, s.outgoing, s.current)
  {
    hide AllKept, InOrder, LastIsLast, Queued, Accounted, OwnerBacked, Framed, Flows;
  }

  /** The parts that name a response. */
  lemma PutParts(s: State, i: nat, r: Response)
    requires Inv(s) && i < |s.res| && Kept(s.res[i], r, ModeOf(s, i), s.writable)
    ensures var res := s.res[i := r];
            && AllKept(res, s.writable) && InOrder(res, s.done, s.wire + r.wired[|s.res[i].wired|..])
            && LastIsLast(res, s.done, s.writable) && Accounted(res, s.outgoing, s.current)
            && OwnerBacked(res, s.current, s.writable, s.destroyed, s.aborted)
  {
    hide AllKept, InOrder, LastIsLast, Queued, Accounted, OwnerBacked, Open, Kept, Usable;
    Facts(s, i);
    KeptMeans(s.res[i], r, ModeOf(s, i), s.writable);
    AllKeptPut(s.res, i, r, ModeOf(s, i), s.writable);
    OrderPut(s.res, i, r, s.done, s.wire, ModeOf(s, i), s.writable);
    LastPut(s.res, i, r, s.done, ModeOf(s, i), s.writable);
    AccountedPut(s.res, i, r, s.outgoing, s.current, ModeOf(s, i), s.writable);
    OwnerPut(s, i, r);
  }

  lemma KeptMeans(r: Response, r': Response, mode: Mode, open: bool)
    requires Kept(r, r', mode, open)
    ensures r.wired <= r'.wired && (!mode.Direct? ==> r'.wired == r.wired)
  {
  }

  // ---- finishing ----

  /** An older response still waits for the socket that a younger one owns. */
  predicate Overtaken(s: State) {
    !s.aborted && s.current.Some? && s.outgoing != [] && s.outgoing[0] < s.current.value
  }

  /** The assertion of `resOnFinish` in terms of the queue. */
  lemma HeadOfLine(s: State)
    requires Queued(|s.res|, s.incoming, s.outgoing, s.current, s.aborted) && s.current.Some?
    ensures s.incoming != [] && s.incoming[0] != s.current.value <==> Overtaken(s)
  {
    var c := s.current.value;
    if !s.aborted {
      assert c in s.incoming;
      var k :| 0 <= k < |s.incoming| && s.incoming[k] == c;
      assert s.incoming[0] in s.incoming;
      if s.incoming[0] != c {
        assert s.incoming[0] in s.outgoing;
        var j :| 0 <= j < |s.outgoing| && s.outgoing[j] == s.incoming[0];
      } else if s.outgoing != [] {
        assert s.outgoing[0] in s.outgoing;
        assert s.outgoing[0] in s.incoming;
        var j :| 0 <= j < |s.incoming| && s.incoming[j] == s.outgoing[0];
      }
    }
  }

  function Rest(incoming: seq<nat>): seq<nat> {
    if incoming == [] then [] else incoming[1..]
  }

  lemma QueueLeaves(n: nat, incoming: seq<nat>, outgoing: seq<nat>, c: nat, aborted: bool)
    requires Queued(n, incoming, outgoing, Some(c), aborted) && (incoming == [] || incoming[0] == c)
    ensures Queued(n, Rest(incoming), outgoing, None, aborted)
  {
    assert !aborted ==> c in incoming;
    if incoming != [] {
      assert incoming == [c] + incoming[1..];
      assert forall k :: 0 < k < |incoming| ==> incoming[k] != c;
      assert c !in incoming[1..];
      assert forall x :: x in incoming[1..] <==> x in incoming && x != c;
      assert Increasing(incoming[1..]);
    }
  }

  lemma QueueMoves(n: nat, incoming: seq<nat>, outgoing: seq<nat>, aborted: bool)
    requires Queued(n, incoming, outgoing, None, aborted) && outgoing != []
    ensures outgoing[0] < n && Queued(n, incoming, outgoing[1..], Some(outgoing[0]), aborted)
  {
    assert outgoing == [outgoing[0]] + outgoing[1..];
    assert outgoing[0] in outgoing && outgoing[0] !in outgoing[1..];
    assert forall x :: x in outgoing[1..] ==> x in outgoing;
  }

  lemma Closes(res: seq<Response>)
    requires AllKept(res, true)
    ensures AllKept(res, false)
  {
    hide Framed;
  }

  /** The owner of the open socket is on it as a whole. */
  lemma DoneOne(res: seq<Response>, done: nat, wire: Bytes)
    requires InOrder(res, done, wire) && done < |res| && Flows(res[done], true) && res[done].output == [] && res[done].finished
    ensures InOrder(res, done + 1, wire)
  {
    assert Concat([]) == [];
    hide Wired, Concat;
  }

  lemma AccountedLeaves(res: seq<Response>, outgoing: seq<nat>, c: nat)
    requires Accounted(res, outgoing, Some(c)) && c < |res| && res[c].finished
    ensures Accounted(res, outgoing, None)
    ensures outgoing != [] ==> Accounted(res, outgoing[1..], Some(outgoing[0])) && (outgoing[0] < |res| ==> Backed(res[outgoing[0]]))
  {
    if outgoing != [] {
      assert outgoing == [outgoing[0]] + outgoing[1..];
    }
    hide Backed;
  }

  /** The owner of the open socket is done: what the socket carries, and what it may carry next. */
  lemma DoneTexts(s: State)
    requires Inv(s) && s.writable && s.current.Some? && s.current.value < |s.res| && s.res[s.current.value].finished
    ensures s.current == Some(s.done) && InOrder(s.res, s.done + 1, s.wire)
    ensures LastIsLast(s.res, s.done + 1, false) && (!IsLast(s.res[s.done]) ==> LastIsLast(s.res, s.done + 1, true))
    ensures AllKept(s.res, false)
  {
    assert s.current == Some(s.done) && Flows(s.res[s.done], true) && s.res[s.done].output == [];
    DoneOne(s.res, s.done, s.wire);
    Closes(s.res);
    DoneLast(s.res, s.done, s.wire);
    hide AllKept, InOrder, LastIsLast, Queued, Accounted, OwnerBacked, Open;
  }

  lemma DoneLast(res: seq<Response>, done: nat, wire: Bytes)
    requires LastIsLast(res, done, true) && InOrder(res, done, wire) && done < |res|
    ensures LastIsLast(res, done + 1, false) && (!IsLast(res[done]) ==> LastIsLast(res, done + 1, true))
  {
    hide Wired;
  }

  /** The queue side of a response that leaves. */
  lemma LeavesQueue(s: State)
    requires Inv(s) && s.current.Some? && s.current.value < |s.res| && s.res[s.current.value].finished && !Overtaken(s)
    ensures Queued(|s.res|, Rest(s.incoming), s.outgoing, None, s.aborted) && Accounted(s.res, s.outgoing, None)
  {
    HeadOfLine(s);
    QueueLeaves(|s.res|, s.incoming, s.outgoing, s.current.value, s.aborted);
    AccountedLeaves(s.res, s.outgoing, s.current.value);
    hide AllKept, InOrder, LastIsLast, Queued, Accounted, OwnerBacked, Open;
  }

  /** The last response: the socket closes behind it. */
  lemma FinishLast(s: State)
    requires Inv(s) && s.current.Some? && s.current.value < |s.res| && s.res[s.current.value].finished && !Overtaken(s) && IsLast(s.res[s.current.value])
    ensures Inv(s.(incoming := Rest(s.incoming), current := None, writable := false, done := if s.writable then s.done + 1 else s.done))
  {
    hide AllKept, InOrder, LastIsLast, Queued, Accounted, Open, Overtaken, IsLast;
    LeavesQueue(s);
    if s.writable {
      DoneTexts(s);
    }
  }

  lemma FinishAlone(s: State)
    requires Inv(s) && s.current.Some? && s.current.value < |s.res| && s.res[s.current.value].finished && s.outgoing == [] && !IsLast(s.res[s.current.value])
    ensures Inv(s.(incoming := Rest(s.incoming), current := None, done := if s.writable then s.done + 1 else s.done))
  {
    hide AllKept, InOrder, LastIsLast, Queued, Accounted, IsLast;
    LeavesQueue(s);
    if s.writable {
      DoneTexts(s);
    }
  }

  lemma FinishClosed(s: State)
    requires Inv(s) && s.current.Some? && s.current.value < |s.res| && s.res[s.current.value].finished && !Overtaken(s) && s.outgoing != [] && !s.writable
    ensures Inv(s.(incoming := Rest(s.incoming), current := Some(s.outgoing[0]), outgoing := s.outgoing[1..]))
  {
    HeadOfLine(s);
    QueueLeaves(|s.res|, s.incoming, s.outgoing, s.current.value, s.aborted);
    QueueMoves(|s.res|, Rest(s.incoming), s.outgoing, s.aborted);
    AccountedLeaves(s.res, s.outgoing, s.current.value);
    hide Queued, Accounted, AllKept, InOrder, LastIsLast;
  }

  /** The next response flushes what it held back. */
  lemma FlushedKept(r: Response)
    requires Framed(r) && Flows(r, true) && r.wired == []
    ensures Framed(Flushed(r)) && Flows(Flushed(r), true) && Flushed(r).output == [] && Flushed(r).wired == r.text
  {
    assert Concat([]) == [];
    hide Text;
  }

  lemma OrderFlush(res: seq<Response>, done: nat, wire: Bytes, r: Response)
    requires InOrder(res, done, wire) && done < |res| && r.wired[..0] == []
    requires res[done].wired == [] && r.finished == res[done].finished
    ensures InOrder(res[done := r], done, wire + r.wired[|res[done].wired|..])
  {
    WiredPut(res, done, r);
    hide Wired;
  }

  lemma AccountedFlush(res: seq<Response>, outgoing: seq<nat>, c: nat, r: Response)
    requires Accounted(res, outgoing, Some(c)) && c < |res| && c !in outgoing
    ensures Accounted(res[c := r], outgoing, Some(c))
  {
    hide Backed;
  }

  /** The queue side of moving on. */
  lemma NextQueue(res: seq<Response>, incoming: seq<nat>, outgoing: seq<nat>, c: nat, aborted: bool, r: Response)
    requires Queued(|res|, incoming, outgoing, Some(c), aborted) && Accounted(res, outgoing, Some(c)) && res[c].finished
    requires outgoing != [] && (incoming == [] || incoming[0] == c)
    ensures outgoing[0] < |res| && Queued(|res|, Rest(incoming), outgoing[1..], Some(outgoing[0]), aborted)
    ensures Accounted(res[outgoing[0] := r], outgoing[1..], Some(outgoing[0]))
  {
    QueueLeaves(|res|, incoming, outgoing, c, aborted);
    QueueMoves(|res|, Rest(incoming), outgoing, aborted);
    AccountedLeaves(res, outgoing, c);
    assert outgoing[0] !in outgoing[1..];
    hide Queued, Accounted;
    AccountedFlush(res, outgoing[1..], outgoing[0], r);
  }

  /** The socket side of moving on. */
  lemma NextText(res: seq<Response>, done: nat, wire: Bytes, m: nat)
    requires AllKept(res, true) && InOrder(res, done, wire) && LastIsLast(res, done, true)
    requires m == done + 1 < |res| && res[done].finished && res[done].output == [] && !IsLast(res[done])
    ensures var r := Flushed(res[m]);
            && AllKept(res[m := r], true) && InOrder(res[m := r], m, wire + r.wired[|res[m].wired|..])
            && LastIsLast(res[m := r], m, true) && r.output == []
  {
    var r := Flushed(res[m]);
    assert Framed(res[m]) && Flows(res[m], true) && Flows(res[done], true);
    assert res[m].wired == [];
    hide Framed, Flows, Flushed, Wired;
    FlushedKept(res[m]);
    DoneOne(res, done, wire);
    FlushedFields(res[m]);
    OrderFlush(res, m, wire, r);
    AllKeptFlush(res, m, r);
    LastFlush(res, done, r);
    hide AllKept, InOrder, LastIsLast;
  }

  lemma FlushedFields(r: Response)
    ensures Flushed(r).finished == r.finished && Flushed(r).head == r.head
  {
  }

  lemma AllKeptFlush(res: seq<Response>, m: nat, r: Response)
    requires AllKept(res, true) && m < |res| && Framed(r) && Flows(r, true)
    ensures AllKept(res[m := r], true)
  {
    hide Framed, Flows;
  }

  lemma LastFlush(res: seq<Response>, done: nat, r: Response)
    requires LastIsLast(res, done, true) && done + 1 < |res| && !IsLast(res[done])
    ensures LastIsLast(res[done + 1 := r], done + 1, true)
  {
  }

  lemma OpenMoves(res: seq<Response>, done: nat, outgoing: seq<nat>, current: Option<nat>, r: Response)
    requires Open(res, done, outgoing, current) && outgoing != [] && r.output == []
    ensures outgoing[0] == done + 1 < |res| && current == Some(done)
    ensures Open(res[done + 1 := r], done + 1, outgoing[1..], Some(done + 1))
  {
  }

  lemma NextParts(res: seq<Response>, incoming: seq<nat>, outgoing: seq<nat>, wire: Bytes, done: nat)
    requires Parts(res, incoming, outgoing, Some(done), true, false, false, wire, done)
    requires outgoing != [] && done < |res| && res[done].finished && !IsLast(res[done]) && (incoming == [] || incoming[0] == done)
    ensures outgoing[0] == done + 1 < |res|
    ensures var r := Flushed(res[done + 1]);
            Parts(res[done + 1 := r], Rest(incoming), outgoing[1..], Some(done + 1), true, false, false, wire + r.wired[|res[done + 1].wired|..], done + 1)
  {
    var r := Flushed(res[outgoing[0]]);
    OpenMoves(res, done, outgoing, Some(done), r);
    assert res[done].output == [];
    hide AllKept, InOrder, LastIsLast, Queued, Accounted, Open, Flushed;
    NextQueue(res, incoming, outgoing, done, false, r);
    NextText(res, done, wire, done + 1);
  }

  lemma OpenFacts(s: State)
    requires Inv(s) && s.writable
    ensures !s.aborted && !s.destroyed && s.current == (if s.done < |s.res| then Some(s.done) else None) && !Overtaken(s)
  {
    hide AllKept, InOrder, LastIsLast, Queued, Accounted;
  }

  lemma FinishNext(s: State)
    requires Inv(s) && InRange(s) && s.current.Some? && s.res[s.current.value].finished && s.outgoing != [] && s.writable && !IsLast(s.res[s.current.value])
    requires s.incoming == [] || s.incoming[0] == s.current.value
    ensures Inv(Assigned(s)) && Assigned(s).writable && Assigned(s).failed == s.failed
  {
    hide Parts, Flushed, IsLast, Overtaken;
    OpenFacts(s);
    NextParts(s.res, s.incoming, s.outgoing, s.wire, s.done);
  }

  lemma {:induction false} FinishKeeps(s: State)
    requires Inv(s) && InRange(s) && s.current.Some? && s.res[s.current.value].finished
    ensures Inv(Finish(s)) && (Finish(s).failed <==> s.failed || Overtaken(s))
    decreases |s.outgoing|
  {
    HeadOfLine(s);
    hide Inv, Assigned;
    if Overtaken(s) {
      FailedKeeps(s);
    } else if IsLast(s.res[s.current.value]) {
      FinishLast(s);
    } else if s.outgoing == [] {
      FinishAlone(s);
    } else if !s.writable {
      FinishClosed(s);
    } else {
      FinishNext(s);
      var t := Assigned(s);
      if t.res[s.outgoing[0]].finished {
        OpenFacts(t);
        FinishKeeps(t);
      }
    }
  }

  lemma FailedKeeps(s: State)
    requires Inv(s)
    ensures Inv(s.(failed := true))
  {
    hide AllKept, InOrder, LastIsLast, Queued, Accounted, Open;
  }

  // ---- the steps ----

  /** A response without the socket never finishes there: `end` finds its output, so nothing is asked of a socket it
      does not have. */
  lemma EndResponseKeeps(s: State, i: nat, r: Response)
    requires Inv(s) && InRange(s) && i < |s.res| && !s.res[i].finished && r.finished && r.headerSent && !s.failed
    requires Kept(s.res[i], r, ModeOf(s, i), s.writable)
    ensures Inv(EndResponse(s, i, r))
    ensures EndResponse(s, i, r).failed <==> s.current == Some(i) && r.output == [] && Overtaken(s)
  {
    Facts(s, i);
    PutKeeps(s, i, r);
    assert s.current != Some(i) ==> r.output != [];
    hide Inv, Kept;
    if r.output == [] {
      FinishKeeps(Put(s, i, r));
    }
    hide Finish;
  }

  lemma EndEventKeeps(s: State, e: Event)
    requires Inv(s) && Enabled(s, e) && e.EvEnd?
    ensures InRange(s) && Inv(Apply(s, e))
    ensures Apply(s, e).failed <==> Fails(s, e)
  {
    InvInRange(s);
    hide Inv;
    Facts(s, e.i);
    if !s.res[e.i].finished {
      EndKeeps(s.res[e.i], ModeOf(s, e.i), e.data, e.isText, e.trailer, e.head, s.writable);
      EndResponseKeeps(s, e.i, End(s.res[e.i], ModeOf(s, e.i), e.data, e.isText, e.trailer, e.head));
      EndLeaves(s, e);
    }
    hide EndResponse, End, Usable, Kept, Overtaken, Unheld;
  }

  /** Nothing of the response is held back and `end` will not hold back its header, as it does for a buffer that is the
      first data of a body that is not chunked. */
  predicate Unheld(r: Response, data: Bytes, isText: bool, head: Head) {
    var h := if r.head.Some? then r.head.value else head;
    r.output == [] && (r.headerSent || data == [] || isText || !h.hasBody || h.chunked)
  }

  /** Exactly when an assertion fails: the socket is destroyed, and the response that ends on it owns it ahead of an older
      one and holds nothing back. */
  predicate Fails(s: State, e: Event)
    requires Enabled(s, e)
  {
    && e.EvEnd? && !s.res[e.i].finished && s.current == Some(e.i) && Overtaken(s)
    && s.destroyed && Unheld(s.res[e.i], e.data, e.isText, e.head)
  }

  lemma SendDropped(r: Response, data: Bytes, isText: bool)
    requires r.head.Some?
    ensures var r' := Send(r, Dropped, data, isText);
            r'.headerSent && r'.head == r.head && (r'.output == [] <==> r.output == [] && (r.headerSent || isText))
  {
  }

  lemma ChunkDropped(r: Response, data: Bytes, isText: bool)
    requires r.head.Some?
    ensures var r' := SendChunk(r, Dropped, data, isText);
            r'.headerSent && r'.head == r.head && (r'.output == [] <==> r.output == [] && (r.headerSent || isText || r.head.value.chunked))
  {
    hide Send;
    if !r.head.value.chunked {
      SendDropped(r, data, isText);
    } else if isText {
      SendDropped(r, Chunk(data), true);
    } else {
      var r1 := Send(r, Dropped, Hex(|data|), true);
      var r2 := Send(r1, Dropped, CRLF, false);
      var r3 := Send(r2, Dropped, data, false);
      SendDropped(r, Hex(|data|), true);
      SendDropped(r1, CRLF, false);
      SendDropped(r2, data, false);
      SendDropped(r3, CRLF, false);
    }
  }

  /** What `end` holds back on a destroyed socket. */
  lemma EndDropped(r: Response, data: Bytes, isText: bool, trailer: seq<Bytes>, head: Head)
    requires !r.finished && (!r.headerSent ==> r.output == [])
    ensures End(r, Dropped, data, isText, trailer, head).output == [] <==> Unheld(r, data, isText, head)
  {
    hide Send, SendChunk, Last;
    var r1 := WithHead(r, head);
    var w := Write(r, Dropped, data, isText, head);
    if r1.head.value.hasBody && data != [] {
      ChunkDropped(r1.(chunks := r1.chunks + [data]), data, isText);
    }
    var r2 := WithHead(w, head);
    SendDropped(r2.(trailer := trailer, finished := true), Terminator(r2.head.value, trailer), true);
  }

  /** So `end` leaves nothing held back of an overtaking owner exactly when Fails says. */
  lemma EndLeaves(s: State, e: Event)
    requires Inv(s) && Enabled(s, e) && e.EvEnd? && !s.res[e.i].finished
    ensures s.current == Some(e.i) && Overtaken(s) && End(s.res[e.i], ModeOf(s, e.i), e.data, e.isText, e.trailer, e.head).output == []
            <==> Fails(s, e)
  {
    hide Inv;
    Facts(s, e.i);
    UsableOutput(s.res[e.i], ModeOf(s, e.i), s.writable);
    if s.current == Some(e.i) && Overtaken(s) {
      if s.writable {
        OpenFacts(s);
      } else if s.destroyed {
        EndDropped(s.res[e.i], e.data, e.isText, e.trailer, e.head);
      } else {
        EndKeeps(s.res[e.i], ModeOf(s, e.i), e.data, e.isText, e.trailer, e.head, s.writable);
        EndBacked(s.res[e.i], ModeOf(s, e.i), e, s.writable);
      }
    }
    hide End, Usable, Kept;
  }

  lemma UsableOutput(r: Response, mode: Mode, open: bool)
    requires Usable(r, mode, open)
    ensures !r.headerSent ==> r.output == []
  {
    hide Text, Flows;
  }

  lemma EndBacked(r: Response, mode: Mode, e: Event, open: bool)
    requires Usable(r, mode, open) && e.EvEnd? && e.head.text != [] && !r.finished && mode.Buffered? && Backed(r)
    ensures End(r, mode, e.data, e.isText, e.trailer, e.head).output != []
  {
    EndKeeps(r, mode, e.data, e.isText, e.trailer, e.head, open);
    hide End, Usable, Framed, Flows;
  }

  lemma WriteEventKeeps(s: State, e: Event)
    requires Inv(s) && Enabled(s, e) && (e.EvWrite? || e.EvHead?)
    ensures InRange(s) && Inv(Apply(s, e)) && !Apply(s, e).failed
  {
    InvInRange(s);
    hide Inv;
    Facts(s, e.i);
    if e.EvWrite? {
      WriteKeeps(s.res[e.i], ModeOf(s, e.i), e.data, e.isText, e.head, s.writable);
      PutKeeps(s, e.i, Write(s.res[e.i], ModeOf(s, e.i), e.data, e.isText, e.head));
    } else {
      HeadKeeps(s.res[e.i], ModeOf(s, e.i), e.head, s.writable);
      PutKeeps(s, e.i, WithHead(s.res[e.i], e.head));
    }
    hide Write, Usable, Kept;
  }

  lemma QueueGrows(n: nat, incoming: seq<nat>, outgoing: seq<nat>, current: Option<nat>)
    requires Queued(n, incoming, outgoing, current, false)
    ensures current.Some? ==> Queued(n + 1, incoming + [n], outgoing + [n], current, false)
    ensures current.None? ==> Queued(n + 1, incoming + [n], outgoing, Some(n), false)
  {
    assert forall k :: 0 <= k < |outgoing| ==> outgoing[k] in outgoing;
    forall k | 0 <= k < |incoming|
      ensures incoming[k] < n
    {
      assert incoming[k] in incoming;
    }
  }

  lemma AccountedGrows(res: seq<Response>, outgoing: seq<nat>, current: Option<nat>)
    requires Accounted(res, outgoing, current) && (forall x :: x in outgoing ==> x < |res|)
    ensures Accounted(res + [NEW], outgoing + [|res|], current)
    ensures current.None? ==> Accounted(res + [NEW], outgoing, Some(|res|))
  {
    assert forall i :: i in outgoing ==> i in outgoing + [|res|];
    assert |res| in outgoing + [|res|];
    assert Backed(NEW);
    hide Backed;
  }

  lemma {:induction false} WiredGrows(res: seq<Response>, k: nat)
    requires k <= |res|
    ensures Wired(res + [NEW], k) == Wired(res, k)
  {
    if k > 0 {
      WiredGrows(res, k - 1);
    }
  }

  lemma AllKeptGrows(res: seq<Response>, open: bool)
    requires AllKept(res, open)
    ensures AllKept(res + [NEW], open)
  {
    assert Framed(NEW) && Flows(NEW, open);
    hide Framed, Flows;
  }

  lemma OrderGrows(res: seq<Response>, done: nat, wire: Bytes)
    requires InOrder(res, done, wire)
    ensures InOrder(res + [NEW], done, wire)
  {
    WiredGrows(res, |res|);
    assert Wired(res + [NEW], |res| + 1) == Wired(res + [NEW], |res|) + NEW.wired;
    hide Wired;
  }

  lemma LastGrows(res: seq<Response>, done: nat, open: bool)
    requires LastIsLast(res, done, open)
    ensures LastIsLast(res + [NEW], done, open)
  {
  }

  lemma OpenGrows(res: seq<Response>, done: nat, outgoing: seq<nat>, current: Option<nat>)
    requires Open(res, done, outgoing, current)
    ensures current.Some? ==> Open(res + [NEW], done, outgoing + [|res|], current)
    ensures current.None? ==> Open(res + [NEW], done, outgoing, Some(|res|))
  {
  }

  lemma OwnerGrows(res: seq<Response>, current: Option<nat>, writable: bool, destroyed: bool)
    requires OwnerBacked(res, current, writable, destroyed, false) && (current.Some? ==> current.value < |res|)
    ensures current.Some? ==> OwnerBacked(res + [NEW], current, writable, destroyed, false)
    ensures current.None? ==> OwnerBacked(res + [NEW], Some(|res|), writable, destroyed, false)
  {
    assert Backed(NEW);
  }

  lemma QueuedBounds(n: nat, incoming: seq<nat>, outgoing: seq<nat>, current: Option<nat>, aborted: bool)
    requires Queued(n, incoming, outgoing, current, aborted)
    ensures (forall x :: x in outgoing ==> x < n) && (current.Some? ==> current.value < n)
  {
  }

  lemma RequestParts(res: seq<Response>, incoming: seq<nat>, outgoing: seq<nat>, current: Option<nat>, writable: bool,
                     destroyed: bool, wire: Bytes, done: nat)
    requires Parts(res, incoming, outgoing, current, writable, destroyed, false, wire, done)
    ensures current.Some? ==> Parts(res + [NEW], incoming + [|res|], outgoing + [|res|], current, writable, destroyed, false, wire, done)
    ensures current.None? ==> Parts(res + [NEW], incoming + [|res|], outgoing, Some(|res|), writable, destroyed, false, wire, done)
  {
    hide AllKept, InOrder, LastIsLast, Queued, Accounted, Open, OwnerBacked;
    QueuedBounds(|res|, incoming, outgoing, current, false);
    OwnerGrows(res, current, writable, destroyed);
    QueueGrows(|res|, incoming, outgoing, current);
    AccountedGrows(res, outgoing, current);
    AllKeptGrows(res, writable);
    OrderGrows(res, done, wire);
    LastGrows(res, done, writable);
    if writable {
      OpenGrows(res, done, outgoing, current);
    }
  }

  lemma RequestKeeps(s: State)
    requires Inv(s) && !s.aborted
    ensures Inv(Request(s))
  {
    hide Parts;
    RequestParts(s.res, s.incoming, s.outgoing, s.current, s.writable, s.destroyed, s.wire, s.done);
  }

  lemma CloseKeeps(s: State, e: Event)
    requires Inv(s) && Enabled(s, e) && (e.EvDestroy? || e.EvAbort?)
    ensures InRange(s) && Inv(Apply(s, e)) && !Apply(s, e).failed
  {
    InvInRange(s);
    if s.writable {
      Closes(s.res);
    }
    assert LastIsLast(s.res, s.done, false) by { hide AllKept, InOrder, Queued, Accounted, Open; }
    assert Queued(|s.res|, [], s.outgoing, s.current, true) by { hide AllKept, InOrder, LastIsLast, Accounted, Open; }
    hide AllKept, InOrder, LastIsLast, Queued, Accounted, Open;
  }

  lemma StepKeeps(s: State, e: Event)
    requires Inv(s) && Enabled(s, e)
    ensures InRange(s) && Inv(Apply(s, e)) && (Apply(s, e).failed <==> Fails(s, e))
  {
    hide Inv;
    InvInRange(s);
    match e {
      case EvRequest => RequestKeeps(s);
      case EvHead(_, _) => WriteEventKeeps(s, e);
      case EvWrite(_, _, _, _) => WriteEventKeeps(s, e);
      case EvEnd(_, _, _, _, _) => EndEventKeeps(s, e);
      case EvDestroy => CloseKeeps(s, e);
      case EvAbort => CloseKeeps(s, e);
    }
    hide EndResponse, Write, End, InRange;
  }

  // ---- runs ----

  /** t is reached from s by the steps es. That the states are InRange is no restriction: StepKeeps shows it of each. */
  ghost predicate Run(s: State, es: seq<Event>, t: State)
    decreases |es|
  {
    if es == [] then t == s else Enabled(s, es[0]) && InRange(s) && Run(Apply(s, es[0]), es[1..], t)
  }

  lemma {:induction false} RunKeeps(s: State, es: seq<Event>, t: State)
    requires Inv(s) && Run(s, es, t)
    ensures Inv(t)
    decreases |es|
  {
    if es != [] {
      hide Inv, Apply;
      StepKeeps(s, es[0]);
      RunKeeps(Apply(s, es[0]), es[1..], t);
    }
  }

  lemma InitHolds()
    ensures Inv(INIT)
  {
  }

  // ---- what holds in every run ----

  lemma {:induction false} WiredIsPrefix(res: seq<Response>, done: nat, k: nat)
    requires done <= k <= |res|
    requires forall i :: 0 <= i < done ==> res[i].wired == res[i].text
    requires forall i :: done < i < |res| ==> res[i].wired == []
    requires forall i :: 0 <= i < |res| ==> res[i].wired <= res[i].text
    ensures Wired(res, k) <= Texts(res, k)
    ensures Wired(res, done) == Texts(res, done)
    decreases k
  {
    if k > done {
      WiredIsPrefix(res, done, k - 1);
      if k - 1 == done {
        assert Wired(res, k) == Texts(res, done) + res[done].wired;
      }
    } else if done > 0 {
      WiredToDone(res, done);
    }
  }

  lemma {:induction false} WiredToDone(res: seq<Response>, done: nat)
    requires done <= |res| && forall i :: 0 <= i < done ==> res[i].wired == res[i].text
    ensures Wired(res, done) == Texts(res, done)
  {
    if done > 0 {
      WiredToDone(res, done - 1);
    }
  }

  lemma Reached(es: seq<Event>, t: State)
    requires Run(INIT, es, t)
    ensures Inv(t)
  {
    hide Inv;
    InitHolds();
    RunKeeps(INIT, es, t);
  }

  lemma OrderFacts(res: seq<Response>, done: nat, wire: Bytes, open: bool)
    requires InOrder(res, done, wire) && AllKept(res, open)
    ensures wire <= Texts(res, |res|) && wire == Texts(res, done) + (if done < |res| then res[done].wired else [])
  {
    hide Framed, Texts, Wired;
    assert forall i :: 0 <= i < |res| ==> res[i].wired <= res[i].text;
    hide Flows, AllKept;
    WiredIsPrefix(res, done, |res|);
    if done < |res| {
      WiredAfter(res, done + 1, |res|);
      WiredStep(res, done);
    }
  }

  lemma WiredStep(res: seq<Response>, k: nat)
    requires k < |res|
    ensures Wired(res, k + 1) == Wired(res, k) + res[k].wired
  {
  }

  /** For every order in which handlers write to and end their responses, the socket carries a prefix of the texts of
      the responses in the order of their requests: the first `done` as a whole, then part of the next. */
  lemma ResponsesInRequestOrder(es: seq<Event>, t: State)
    requires Run(INIT, es, t)
    ensures t.done <= |t.res| && t.wire <= Texts(t.res, |t.res|)
    ensures forall i :: 0 <= i < t.done ==> t.res[i].finished && t.res[i].wired == t.res[i].text
    ensures t.wire == Texts(t.res, t.done) + (if t.done < |t.res| then t.res[t.done].wired else [])
  {
    hide Run, AllKept, LastIsLast, Queued, Accounted, Open, Wired, Texts;
    Reached(es, t);
    OrderFacts(t.res, t.done, t.wire, t.writable);
  }

  /** Nothing follows a response that closes the connection. */
  lemma NothingAfterTheLast(es: seq<Event>, t: State, i: nat, j: nat)
    requires Run(INIT, es, t) && i < j < |t.res| && IsLast(t.res[i])
    ensures t.res[j].wired == []
  {
    hide Run, AllKept, Queued, Accounted, Open, Wired;
    Reached(es, t);
  }

  lemma FramedReadsBack(r: Response, tail: Bytes)
    requires Framed(r) && r.finished && forall k :: 0 <= k < |r.trailer| ==> Plain(r.trailer[k])
    ensures r.head.Some? && r.head.value.text <= r.text
    ensures var body := r.text[|r.head.value.text|..];
            if r.head.value.hasBody && r.head.value.chunked then ReadChunked(body + tail) == Some((Concat(r.chunks), tail))
            else body == Concat(r.chunks)
  {
    var h := r.head.value;
    After(h.text, Body(h, r.chunks), Terminator(h, r.trailer));
    if h.hasBody && h.chunked {
      ReadChunks(r.chunks, r.trailer, tail);
    } else {
      assert Concat(r.chunks) + [] == Concat(r.chunks);
    }
    hide ReadChunked, Chunks, Last, Concat;
  }

  lemma After(a: Bytes, b: Bytes, c: Bytes)
    ensures a <= a + b + c && (a + b + c)[|a|..] == b + c
  {
  }

  /** A finished response is its header, its chunks and the terminator; when chunked, its body reads back as the
      chunks written and ends where the response ends. */
  lemma ChunkedBodyReadsBack(es: seq<Event>, t: State, i: nat, tail: Bytes)
    requires Run(INIT, es, t) && i < |t.res| && t.res[i].finished
    requires forall k :: 0 <= k < |t.res[i].trailer| ==> Plain(t.res[i].trailer[k])
    ensures t.res[i].head.Some? && t.res[i].head.value.text <= t.res[i].text
    ensures var r := t.res[i]; var body := r.text[|r.head.value.text|..];
            if r.head.value.hasBody && r.head.value.chunked then ReadChunked(body + tail) == Some((Concat(r.chunks), tail))
            else body == Concat(r.chunks)
  {
    hide Run, InOrder, LastIsLast, Queued, Accounted, Open, Framed, Flows, ReadChunked;
    Reached(es, t);
    FramedReadsBack(t.res[i], tail);
  }

  /** No assertion of the two files fails but the one on the order of requests, and that exactly when Fails holds; never
      while the socket is open. */
  lemma FailsExactlyWhen(es: seq<Event>, t: State, e: Event)
    requires Run(INIT, es, t) && Enabled(t, e)
    ensures InRange(t) && (Apply(t, e).failed <==> Fails(t, e))
    ensures Fails(t, e) ==> !t.writable
  {
    hide Inv, Run;
    Reached(es, t);
    StepKeeps(t, e);
    if t.writable {
      OpenFacts(t);
    }
    hide Apply;
  }

  // ---- a run that fails ----

  const CLOSE: Head := Head([67], true, false, true)
  const KEEP: Head := Head([75], false, false, true)

  function Ended(): Response {
    Response(Some(CLOSE), true, [], true, [], [], [67], [67])
  }

  /** The first response closes the connection while the second waits; a third request then gets the socket. */
  function Late(destroyed: bool): State {
    State([Ended(), NEW, NEW], [1, 2], [1], Some(2), false, destroyed, false, [67], 1, false)
  }

  function Two(): State {
    State([NEW, NEW], [0, 1], [1], Some(0), true, false, false, [], 0, false)
  }

  lemma TwoRequests()
    ensures Request(Request(INIT)) == Two()
  {
    assert [NEW] + [NEW] == [NEW, NEW];
  }

  lemma FirstEnds()
    ensures InRange(Two()) && Apply(Two(), EvEnd(0, [], true, [], CLOSE)) ==
      State([Ended(), NEW], [1], [1], None, false, false, false, [67], 1, false)
  {
    assert End(NEW, Direct, [], true, [], CLOSE) == Ended();
    assert Two().res[0 := Ended()] == [Ended(), NEW];
    assert [] + [67][0..] == [67];
    assert Put(Two(), 0, Ended()) == Two().(res := [Ended(), NEW], wire := [67]);
  }

  lemma LateEnds()
    ensures InRange(Late(true)) && Apply(Late(true), EvEnd(2, [], true, [], KEEP)).failed
  {
    var r := End(NEW, Dropped, [], true, [], KEEP);
    assert r.output == [];
    var t := Put(Late(true), 2, r);
    assert t.current == Some(2) && t.incoming[0] == 1;
  }

  ghost predicate Reaches(s: State, t: State) {
    exists es :: Run(s, es, t)
  }

  lemma Prepend(s: State, e: Event, t: State)
    requires Enabled(s, e) && InRange(s) && Reaches(Apply(s, e), t)
    ensures Reaches(s, t)
  {
    var es :| Run(Apply(s, e), es, t);
    assert ([e] + es)[1..] == es;
    hide Apply, Enabled, InRange;
    assert Run(s, [e] + es, t);
  }

  lemma ThirdArrives()
    ensures var s := State([Ended(), NEW], [1], [1], None, false, false, false, [67], 1, false);
            && InRange(s) && Apply(s, EvRequest) == Late(false) && InRange(Late(false)) && Apply(Late(false), EvDestroy) == Late(true)
  {
    assert [Ended(), NEW] + [NEW] == [Ended(), NEW, NEW] && [1] + [2] == [1, 2];
  }

  /** The order of requests can be broken: the response to the third request is finished, on a socket that is being
      destroyed, while the second waits behind the first, which closed the connection. */
  lemma RequestsCanBeOvertaken()
    ensures exists t :: Reaches(INIT, t) && t.failed
  {
    var first, third := EvEnd(0, [], true, [], CLOSE), EvEnd(2, [], true, [], KEEP);
    var s := State([Ended(), NEW], [1], [1], None, false, false, false, [67], 1, false);
    LateEnds();
    ThirdArrives();
    FirstEnds();
    TwoRequests();
    assert InRange(Request(INIT)) && InRange(INIT);
    assert Apply(INIT, EvRequest) == Request(INIT) && Apply(Request(INIT), EvRequest) == Two();
    var t := Apply(Late(true), third);
    assert Run(t, [], t);
    assert Reaches(t, t);
    hide Apply, InRange, Reaches, Run;
    Prepend(Late(true), third, t);
    Prepend(Late(false), EvDestroy, t);
    Prepend(s, EvRequest, t);
    Prepend(Two(), first, t);
    Prepend(Request(INIT), EvRequest, t);
    Prepend(INIT, EvRequest, t);
  }

  // ---- nothing finished waits ----

  /** The owner of an open socket is not finished. */
  predicate OwnerBusy(s: State) {
    s.current.Some? && s.current.value < |s.res| && s.writable && !s.failed ==> !s.res[s.current.value].finished
  }

  lemma {:induction false} FinishBusy(s: State)
    requires InRange(s) && s.current.Some?
    ensures OwnerBusy(Finish(s))
    decreases |s.outgoing|
  {
    hide Assigned;
    if !(s.incoming != [] && s.incoming[0] != s.current.value) && !IsLast(s.res[s.current.value]) && s.outgoing != [] && s.writable {
      var t := Assigned(s);
      if t.res[s.outgoing[0]].finished {
        FinishBusy(t);
      }
    }
  }

  lemma PutBusy(s: State, i: nat, r: Response)
    requires i < |s.res| && s.res[i].wired <= r.wired && OwnerBusy(s) && (r.finished ==> s.res[i].finished || s.current != Some(i))
    ensures OwnerBusy(Put(s, i, r))
  {
  }

  lemma WriteFinished(r: Response, mode: Mode, data: Bytes, isText: bool, head: Head)
    ensures Write(r, mode, data, isText, head).finished == r.finished
  {
    hide Concat;
  }

  /** An open socket's owner has nothing held back when a step is done. */
  lemma OwnerEmpty(s: State)
    requires Inv(s) && s.writable && s.current.Some?
    ensures s.current.value < |s.res| && s.res[s.current.value].output == []
  {
    hide AllKept, InOrder, LastIsLast, Queued, Accounted;
  }

  lemma EndBusy(s: State, i: nat, r: Response)
    requires InRange(s) && i < |s.res| && s.res[i].wired <= r.wired && OwnerBusy(s) && Inv(EndResponse(s, i, r))
    ensures OwnerBusy(EndResponse(s, i, r))
  {
    var t := Put(s, i, r);
    if r.output != [] {
      if s.current == Some(i) && s.writable {
        OwnerEmpty(t);
        assert false;
      }
    } else if s.current == Some(i) {
      FinishBusy(t);
    }
    hide Inv, Finish;
  }

  lemma StepBusy(s: State, e: Event)
    requires Inv(s) && OwnerBusy(s) && Enabled(s, e) && InRange(s)
    ensures OwnerBusy(Apply(s, e))
  {
    hide Inv, Write, End, EndResponse, Put;
    StepKeeps(s, e);
    match e {
      case EvRequest =>
      case EvHead(i, head) => PutBusy(s, i, WithHead(s.res[i], head));
      case EvWrite(i, data, isText, head) =>
        WriteFinished(s.res[i], ModeOf(s, i), data, isText, head);
        PutBusy(s, i, Write(s.res[i], ModeOf(s, i), data, isText, head));
      case EvEnd(i, data, isText, trailer, head) =>
        if !s.res[i].finished {
          EndBusy(s, i, End(s.res[i], ModeOf(s, i), data, isText, trailer, head));
        }
      case EvDestroy =>
      case EvAbort =>
    }
  }

  lemma {:induction false} RunBusy(s: State, es: seq<Event>, t: State)
    requires Inv(s) && OwnerBusy(s) && Run(s, es, t)
    ensures Inv(t) && OwnerBusy(t)
    decreases |es|
  {
    if es != [] {
      hide Inv, Apply, OwnerBusy;
      StepKeeps(s, es[0]);
      StepBusy(s, es[0]);
      RunBusy(Apply(s, es[0]), es[1..], t);
    }
  }

  /** In every run, while the socket is open a response that is finished, like all before it, is on the socket as a
      whole. */
  lemma NothingFinishedWaits(es: seq<Event>, t: State, i: nat)
    requires Run(INIT, es, t) && t.writable && !t.failed && i < |t.res| && forall j :: 0 <= j <= i ==> t.res[j].finished
    ensures t.res[i].wired == t.res[i].text
  {
    InitHolds();
    RunBusy(INIT, es, t);
    hide Run;
  }
}
