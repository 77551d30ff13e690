/** What every run of the writable state machine keeps. */
module WritableProofs {
  import opened Wrappers
  import opened WritableSpec

  function OwedBy(tasks: seq<Task>): multiset<Req> {
    if tasks == [] then multiset{} else multiset(tasks[0].Owed()) + OwedBy(tasks[1..])
  }

  function DecrementsOf(tasks: seq<Task>): nat {
    if tasks == [] then 0 else tasks[0].Decrements() + DecrementsOf(tasks[1..])
  }

  function Sizes(reqs: seq<Req>, objectMode: bool): nat {
    if reqs == [] then 0 else Size(reqs[0], objectMode) + Sizes(reqs[1..], objectMode)
  }

  // ---- the invariant, in parts ----

  /** `length` is the size in flight plus the size buffered. */
  ghost predicate Measured(length: int, writelen: int, writecb: seq<Req>, queue: seq<Req>, objectMode: bool) {
    writelen == Sizes(writecb, objectMode) && length == writelen + Sizes(queue, objectMode)
  }

  /** `pendingcb` counts the callbacks that have not run, plus one per outstanding batch. */
  ghost predicate Counted(pendingcb: int, tasks: seq<Task>, writecb: seq<Req>, batch: bool, queue: seq<Req>) {
    pendingcb == DecrementsOf(tasks) + |writecb| + (if batch then 1 else 0) + |queue|
  }

  /** Every accepted write is handed on or queued, exactly once. */
  ghost predicate Handed(handed: seq<Req>, queue: seq<Req>, accepted: seq<Req>) {
    multiset(handed) + multiset(queue) == multiset(accepted)
  }

  /** The callback of every accepted write has run or is still owed, exactly once. */
  ghost predicate Called(ran: seq<Req>, tasks: seq<Task>, writecb: seq<Req>, queue: seq<Req>, accepted: seq<Req>) {
    multiset(ran) + OwedBy(tasks) + multiset(writecb) + multiset(queue) == multiset(accepted)
  }

  ghost predicate Numbered(accepted: seq<Req>) {
    forall i :: 0 <= i < |accepted| ==> accepted[i].id == i
  }

  ghost predicate Sums(s: State) {
    && Measured(s.length, s.writelen, s.writecb, s.queue, s.objectMode)
    && Counted(s.pendingcb, s.tasks + s.resume, s.writecb, s.writeBatch, s.queue)
    && Handed(s.handed, s.queue, s.accepted)
    && Called(s.ran, s.tasks + s.resume, s.writecb, s.queue, s.accepted)
    && Numbered(s.accepted)
  }

  ghost predicate Flags(s: State) {
    && (s.writing <==> s.writecb != [])
    && (!s.writing ==> !s.writeBatch)
    && s.ended == s.ending
    && (s.inWrite ==> !s.ended)
    && (s.endPhase != NotEnding ==> s.inWrite || !s.clearing.Idle?)
    && (s.clearing.Idle? ==> s.resume == [])
    && (s.clearing.Batch? ==> s.queue == [])
    && s.prefinishes == (if s.prefinished then 1 else 0)
    && s.finishes == (if s.finished then 1 else 0)
    && (s.prefinished ==> s.ended && s.queue == [] && !s.writing && s.clearing.Idle?)
    && (s.finished ==> s.prefinished && s.pendingcb == 0)
  }

  /** Until a write fails the order is that of acceptance, and nothing is buffered without a reason. */
  ghost predicate Ordered(s: State) {
    !s.failed ==>
      && s.handed + s.queue == s.accepted
      && (s.clearing.Idle? && !s.writing && s.corked == 0 ==> s.queue == [])
      && (s.inWrite ==> s.queue == [] && s.clearing.Idle?)
  }

  ghost predicate Looks(t: Task) {
    t.AfterWrite? && !t.finished
  }

  ghost predicate SomeLooks(tasks: seq<Task>) {
    exists i :: 0 <= i < |tasks| && Looks(tasks[i])
  }

  /** While a 'drain' is owed, some completion is still to come that will look at `needDrain`; and
      'drain' is only ever emitted with nothing in flight or buffered. */
  ghost predicate Drained(s: State) {
    && (!s.failed && s.needDrain && !s.ending ==> s.writing || s.queue != [] || SomeLooks(s.tasks + s.resume))
    && (forall i :: 0 <= i < |s.drains| ==> s.drains[i] == 0)
  }

  ghost predicate Inv(s: State) {
    Sums(s) && Flags(s) && Ordered(s) && Drained(s)
  }

  // ---- sums over sequences ----

  lemma SizesConcat(a: seq<Req>, b: seq<Req>, objectMode: bool)
    ensures Sizes(a + b, objectMode) == Sizes(a, objectMode) + Sizes(b, objectMode)
  {
    if a == [] {
      assert a + b == b;
    } else {
      assert (a + b)[1..] == a[1..] + b;
      SizesConcat(a[1..], b, objectMode);
    }
  }

  lemma TasksConcat(a: seq<Task>, b: seq<Task>)
    ensures OwedBy(a + b) == OwedBy(a) + OwedBy(b)
    ensures DecrementsOf(a + b) == DecrementsOf(a) + DecrementsOf(b)
  {
    if a == [] {
      assert a + b == b;
    } else {
      assert (a + b)[1..] == a[1..] + b;
      TasksConcat(a[1..], b);
    }
  }

  lemma OneReq(req: Req, objectMode: bool)
    ensures Sizes([req], objectMode) == Size(req, objectMode)
  {
    assert [req][1..] == [];
  }

  lemma OneTask(t: Task)
    ensures OwedBy([t]) == multiset(t.Owed()) && DecrementsOf([t]) == t.Decrements()
  {
    assert [t][1..] == [];
  }

  /** Replacing the middle of a task list. */
  lemma ReplaceTask(a: seq<Task>, t: Task, left: seq<Task>, b: seq<Task>)
    ensures OwedBy(a + left + b) + multiset(t.Owed()) == OwedBy(a + [t] + b) + OwedBy(left)
    ensures DecrementsOf(a + left + b) + t.Decrements() == DecrementsOf(a + [t] + b) + DecrementsOf(left)
  {
    OneTask(t);
    TasksConcat(a, left);
    TasksConcat(a + left, b);
    TasksConcat(a, [t]);
    TasksConcat(a + [t], b);
  }

  lemma NothingOwed(tasks: seq<Task>)
    requires DecrementsOf(tasks) == 0
    ensures OwedBy(tasks) == multiset{}
  {
  }

  // ---- how the parts change ----

  lemma Shift<T>(a: multiset<T>, b: multiset<T>, c: multiset<T>, x: multiset<T>)
    requires a + b == c
    ensures a + (b + x) == c + x
    ensures (a + x) + b == c + x
  {
  }

  /** A write that is buffered. */
  lemma AcceptQueued(s: State, req: Req)
    requires Sums(s) && req.id == |s.accepted|
    ensures Sums(Enqueue(s, req))
  {
    SizesConcat(s.queue, [req], s.objectMode);
    OneReq(req, s.objectMode);
    hide Sizes, OwedBy, DecrementsOf;
    assert multiset(s.queue + [req]) == multiset(s.queue) + multiset([req]);
    assert multiset(s.accepted + [req]) == multiset(s.accepted) + multiset([req]);
    Shift(multiset(s.handed), multiset(s.queue), multiset(s.accepted), multiset([req]));
    Shift(multiset(s.ran) + OwedBy(s.tasks + s.resume) + multiset(s.writecb), multiset(s.queue), multiset(s.accepted), multiset([req]));
  }

  /** A write that goes straight to the hook. */
  lemma AcceptDirect(s: State, req: Req)
    requires Sums(s) && req.id == |s.accepted| && s.writecb == [] && !s.writeBatch
    ensures Sums(Direct(s, req))
  {
    OneReq(req, s.objectMode);
    assert Sizes([], s.objectMode) == 0;
    hide Sizes, OwedBy, DecrementsOf;
    assert multiset(s.handed + [req]) == multiset(s.handed) + multiset([req]);
    assert multiset(s.accepted + [req]) == multiset(s.accepted) + multiset([req]);
    Shift(multiset(s.handed), multiset(s.queue), multiset(s.accepted), multiset([req]));
    var a := multiset(s.ran) + OwedBy(s.tasks + s.resume);
    assert a + multiset(s.writecb) == a;
    Shift(a, multiset(s.queue), multiset(s.accepted), multiset([req]));
  }

  lemma Regroup<T>(a: multiset<T>, x: multiset<T>, b: multiset<T>)
    ensures (a + x) + b == a + (x + b) == (a + b) + x
  {
  }

  /** The first k buffered writes are handed on. */
  lemma TakeMeasured(length: int, queue: seq<Req>, k: nat, objectMode: bool)
    requires Measured(length, 0, [], queue, objectMode) && k <= |queue|
    ensures length == Sizes(queue, objectMode) && Measured(length, Sizes(queue[..k], objectMode), queue[..k], queue[k..], objectMode)
  {
    assert queue == queue[..k] + queue[k..];
    SizesConcat(queue[..k], queue[k..], objectMode);
  }

  lemma TakeHanded(handed: seq<Req>, queue: seq<Req>, k: nat, accepted: seq<Req>)
    requires Handed(handed, queue, accepted) && k <= |queue|
    ensures Handed(handed + queue[..k], queue[k..], accepted)
  {
    var a, b := queue[..k], queue[k..];
    assert queue == a + b;
    assert multiset(handed + a) == multiset(handed) + multiset(a);
    Regroup(multiset(handed), multiset(a), multiset(b));
  }

  lemma TakeCalled(ran: seq<Req>, tasks: seq<Task>, queue: seq<Req>, k: nat, accepted: seq<Req>)
    requires Called(ran, tasks, [], queue, accepted) && k <= |queue|
    ensures Called(ran, tasks, queue[..k], queue[k..], accepted)
  {
    var a, b := queue[..k], queue[k..];
    var none: seq<Req> := [];
    assert queue == a + b;
    var c := multiset(ran) + OwedBy(tasks);
    assert c + multiset(none) == c;
    Regroup(c, multiset(a), multiset(b));
    hide OwedBy;
  }

  lemma Take(s: State, k: nat, batch: bool)
    requires Sums(s) && s.writecb == [] && !s.writeBatch && k <= |s.queue|
    ensures Sums(s.(queue := s.queue[k..], writecb := s.queue[..k], writelen := Sizes(s.queue[..k], s.objectMode),
                    writeBatch := batch, handed := s.handed + s.queue[..k],
                    pendingcb := s.pendingcb + if batch then 1 else 0))
    ensures s.length == Sizes(s.queue, s.objectMode)
  {
    assert Sizes([], s.objectMode) == 0;
    TakeMeasured(s.length, s.queue, k, s.objectMode);
    TakeHanded(s.handed, s.queue, k, s.accepted);
    TakeCalled(s.ran, s.tasks + s.resume, s.queue, k, s.accepted);
    hide Measured, Handed, Called, Numbered, Sizes, DecrementsOf;
  }

  lemma CalledLater(ran: seq<Req>, all: seq<Task>, all': seq<Task>, writecb: seq<Req>, queue: seq<Req>, accepted: seq<Req>)
    requires Called(ran, all, writecb, queue, accepted)
    requires OwedBy(all') == OwedBy(all) + multiset(writecb)
    ensures Called(ran, all', [], queue, accepted)
  {
    hide OwedBy;
    var c := multiset(ran) + OwedBy(all');
    assert c == multiset(ran) + OwedBy(all) + multiset(writecb);
    var none: seq<Req> := [];
    assert c + multiset(none) == c;
  }

  lemma CalledNow(ran: seq<Req>, all: seq<Task>, all': seq<Task>, calls: seq<Req>, writecb: seq<Req>, queue: seq<Req>, accepted: seq<Req>)
    requires Called(ran, all, writecb, queue, accepted)
    requires multiset(calls) + OwedBy(all') == OwedBy(all)
    ensures Called(ran + calls, all', writecb, queue, accepted)
  {
    hide OwedBy;
    Regroup(multiset(ran), multiset(calls), OwedBy(all'));
    assert multiset(ran + calls) == multiset(ran) + multiset(calls);
  }

  /** A completed write becomes a task. */
  lemma Complete(s: State, task: Task, tasks: seq<Task>, resume: seq<Task>)
    requires Sums(s) && task.Owed() == s.writecb && task.Decrements() == |s.writecb| + if s.writeBatch then 1 else 0
    requires (tasks == s.tasks + [task] && resume == s.resume) || (tasks == s.tasks && resume == [task] && s.resume == [])
    ensures Sums(s.(writecb := [], writeBatch := false, length := s.length - s.writelen, writelen := 0,
                    tasks := tasks, resume := resume))
  {
    hide Sizes, OwedBy, DecrementsOf, Called, Handed, Numbered;
    var all := s.tasks + s.resume;
    assert tasks + resume == s.tasks + [task] + s.resume;
    ReplaceTask(s.tasks, task, [], s.resume);
    assert s.tasks + [] + s.resume == all;
    EmptySums(s.objectMode);
    CalledLater(s.ran, all, tasks + resume, s.writecb, s.queue, s.accepted);
  }

  lemma EmptySums(objectMode: bool)
    ensures OwedBy([]) == multiset{} && DecrementsOf([]) == 0 && Sizes([], objectMode) == 0
  {
  }

  /** A task runs one phase: it calls some callbacks and leaves the rest. */
  lemma Progress(s: State, i: nat, left: seq<Task>, dec: nat, calls: seq<Req>)
    requires Sums(s) && i < |s.tasks|
    requires s.tasks[i].Decrements() == dec + DecrementsOf(left)
    requires multiset(s.tasks[i].Owed()) == multiset(calls) + OwedBy(left)
    ensures Sums(Advance(s, i, left, dec, calls))
  {
    hide Sizes, OwedBy, DecrementsOf, Handed, Numbered, Measured, Called;
    var t, a, b := s.tasks[i], s.tasks[..i], s.tasks[i + 1..] + s.resume;
    assert s.tasks + s.resume == a + [t] + b;
    assert Replace(s.tasks, i, left) + s.resume == a + left + b;
    ReplaceTask(a, t, left, b);
    Cancel(OwedBy(a + left + b), multiset(t.Owed()), OwedBy(a + [t] + b), OwedBy(left), multiset(calls));
    CalledNow(s.ran, a + [t] + b, a + left + b, calls, s.writecb, s.queue, s.accepted);
  }

  lemma Cancel<T>(now: multiset<T>, t: multiset<T>, before: multiset<T>, left: multiset<T>, calls: multiset<T>)
    requires now + t == before + left && t == calls + left
    ensures calls + now == before
  {
    forall x
      ensures (calls + now)[x] == before[x]
    {
      assert (now + t)[x] == (before + left)[x];
    }
  }

  // ---- every step keeps the invariant ----

  lemma WriteKeeps(s: State, chunk: Chunk)
    requires Inv(s) && s.Ready()
    ensures Inv(Write(s, chunk))
  {
    hide Inv, Enqueue, Direct;
    if !s.ended {
      var req := Req(|s.accepted|, chunk);
      if s.writing || s.corked != 0 {
        EnqueueKeeps(s, req);
      } else {
        DirectKeeps(s, req);
      }
    }
  }

  lemma EnqueueKeeps(s: State, req: Req)
    requires Inv(s) && s.Ready() && req.id == |s.accepted| && !s.ended && (s.writing || s.corked != 0)
    ensures Inv(Enqueue(s, req))
  {
    var t := Enqueue(s, req);
    AcceptQueued(s, req);
    hide Sums, SomeLooks;
    assert Flags(t) && Drained(t);
    assert Ordered(t) by { assert s.handed + (s.queue + [req]) == (s.handed + s.queue) + [req]; }
    hide Flags, Ordered, Drained, Enqueue;
  }

  lemma DirectKeeps(s: State, req: Req)
    requires Inv(s) && s.Ready() && req.id == |s.accepted| && !s.ended && !s.writing && s.corked == 0
    ensures Inv(Direct(s, req))
  {
    var t := Direct(s, req);
    AcceptDirect(s, req);
    hide Sums, SomeLooks;
    assert Flags(t) && Drained(t);
    assert Ordered(t) by {
      if !s.failed {
        assert s.queue == [] && s.handed + s.queue == s.handed;
      }
    }
    hide Flags, Ordered, Drained, Direct;
  }

  /** A state from which the buffer may be written out. */
  ghost predicate Clearable(s: State) {
    && Sums(s) && Flags(s.(clearing := One)) && !s.writing && !s.finished && s.queue != []
    && (!s.failed ==> s.handed + s.queue == s.accepted && !s.inWrite)
    && (forall i :: 0 <= i < |s.drains| ==> s.drains[i] == 0)
  }

  lemma ClearOneKeeps(s: State)
    requires Clearable(s)
    ensures Inv(ClearOne(s))
  {
    var t := ClearOne(s);
    hide Measured, Counted, Handed, Called, Numbered, SomeLooks;
    assert Sums(t) by {
      Take(s, 1, false);
      assert s.queue[..1] == [s.queue[0]];
      OneReq(s.queue[0], s.objectMode);
    }
    assert Flags(t) && Drained(t) by { hide Sums; }
    assert Ordered(t) by {
      hide Sums;
      assert t.handed + t.queue == s.handed + s.queue;
    }
    hide Sums, Flags, Ordered, Drained, Clearable, ClearOne;
  }

  lemma ClearBatchKeeps(s: State, resume: seq<Task>)
    requires Clearable(s.(resume := resume)) && s.hasWritev && |s.queue| > 1
    ensures Inv(ClearBuffer(s, resume))
  {
    var t := ClearBuffer(s, resume);
    hide Measured, Counted, Handed, Called, Numbered, SomeLooks;
    assert Sums(t) by {
      Take(s.(resume := resume), |s.queue|, true);
      assert s.queue[..|s.queue|] == s.queue && s.queue[|s.queue|..] == [];
    }
    assert Flags(t) && Drained(t) by { hide Sums; }
    assert Ordered(t) by {
      hide Sums;
      assert t.handed + t.queue == s.handed + s.queue;
    }
    hide Sums, Flags, Ordered, Drained, Clearable, ClearBuffer;
  }

  lemma ClearBufferKeeps(s: State, resume: seq<Task>)
    requires s.queue != [] && Clearable(s.(resume := resume))
    ensures Inv(ClearBuffer(s, resume))
  {
    hide Clearable, Inv, ClearOne;
    if s.hasWritev && |s.queue| > 1 {
      ClearBatchKeeps(s, resume);
    } else {
      ClearOneKeeps(s.(resume := resume));
    }
  }

  lemma SetCorked(s: State, corked: nat)
    requires Inv(s) && (s.corked == 0 || s.writing || s.queue == [] || !s.clearing.Idle? || corked != 0)
    ensures Inv(s.(corked := corked))
  {
    hide Measured, Counted, Handed, Called, Numbered, SomeLooks;
  }

  lemma SetEndPhase(s: State, phase: Ending)
    requires Inv(s) && (phase != NotEnding ==> s.inWrite || !s.clearing.Idle?)
    ensures Inv(s.(endPhase := phase))
  {
    hide Measured, Counted, Handed, Called, Numbered, SomeLooks;
  }

  lemma BecomesClearable(s: State)
    requires Inv(s) && s.Ready() && !s.writing && !s.finished && s.queue != [] && s.corked == 1
    ensures Clearable(s.(corked := s.corked - 1).(resume := []))
  {
    hide Measured, Counted, Handed, Called, Numbered, SomeLooks;
  }

  lemma UncorkKeeps(s: State)
    requires Inv(s) && s.Ready()
    ensures Inv(Uncork(s))
  {
    hide Inv, Clearable, ClearBuffer;
    if s.corked != 0 {
      ReadyFlags(s);
      if !s.writing && s.corked == 1 && !s.finished && s.queue != [] {
        BecomesClearable(s);
        ClearBufferKeeps(s.(corked := s.corked - 1), []);
      } else {
        SetCorked(s, s.corked - 1);
      }
    }
  }

  lemma ReadyFlags(s: State)
    requires Inv(s)
    ensures s.clearing.Idle? ==> s.resume == []
    ensures s.finished ==> s.queue == [] && !s.writing
  {
  }

  lemma FinishKeeps(s: State)
    requires Inv(s)
    ensures Inv(Finish(s))
  {
    hide Measured, Counted, Handed, Called, Numbered, SomeLooks;
  }

  lemma SetEnded(s: State)
    requires Inv(s) && s.Ready() && !s.ending
    ensures Inv(s.(ending := true, ended := true))
  {
    hide Measured, Counted, Handed, Called, Numbered, SomeLooks;
  }

  lemma EndTailKeeps(s: State)
    requires Inv(s) && s.Ready()
    ensures Inv(EndTail(s))
  {
    hide Inv, Finish;
    if !s.ending && !s.finished {
      SetEnded(s);
      FinishKeeps(s.(ending := true, ended := true));
    }
  }

  lemma ClearBufferStays(s: State, resume: seq<Task>)
    requires s.queue != []
    ensures ClearBuffer(s, resume).inWrite == s.inWrite && ClearBuffer(s, resume).endPhase == s.endPhase
  {
  }

  lemma UncorkStays(s: State)
    requires s.Ready()
    ensures !Uncork(s).inWrite && Uncork(s).endPhase == NotEnding
  {
    hide ClearBuffer;
    if s.corked != 0 && s.queue != [] {
      ClearBufferStays(s.(corked := s.corked - 1), []);
    }
  }

  lemma EndUncorkKeeps(s: State)
    requires Inv(s) && s.Ready()
    ensures Inv(EndUncork(s))
  {
    hide Inv, Uncork, EndTail;
    var s' := s;
    if s.corked != 0 {
      SetCorked(s, 1);
      UncorkKeeps(s.(corked := 1));
      UncorkStays(s.(corked := 1));
      s' := Uncork(s.(corked := 1));
    }
    if s'.clearing.Idle? {
      EndTailKeeps(s');
    } else {
      SetEndPhase(s', EndAfterUncork);
    }
  }

  lemma EnqueueGoesOn(s: State, req: Req)
    ensures Enqueue(s, req).clearing == s.clearing && Enqueue(s, req).endPhase == s.endPhase
  {
    hide Size;
  }

  lemma DirectGoesOn(s: State, req: Req)
    ensures Direct(s, req).clearing == s.clearing && Direct(s, req).endPhase == s.endPhase
  {
    hide Size;
  }

  lemma WriteGoesOn(s: State, chunk: Chunk)
    ensures Write(s, chunk).clearing == s.clearing && Write(s, chunk).endPhase == s.endPhase
  {
    hide Enqueue, Direct;
    EnqueueGoesOn(s, Req(|s.accepted|, chunk));
    DirectGoesOn(s, Req(|s.accepted|, chunk));
  }

  lemma EndKeeps(s: State, last: Option<Chunk>)
    requires Inv(s) && s.Ready()
    ensures Inv(End(s, last))
  {
    hide Inv, Write, EndUncork;
    var s' := s;
    if last.Some? {
      WriteGoesOn(s, last.value);
      WriteKeeps(s, last.value);
      s' := Write(s, last.value);
    }
    if s'.inWrite {
      SetEndPhase(s', EndAfterWrite);
    } else {
      EndUncorkKeeps(s');
    }
  }

  lemma ContinueEndKeeps(s: State)
    requires s.clearing.Idle? && (if s.inWrite then Inv(s) else Inv(s.(endPhase := NotEnding)))
    ensures Inv(ContinueEnd(s))
  {
    hide Inv, EndUncork, EndTail;
    if !s.inWrite {
      match s.endPhase {
        case NotEnding => SameEndPhase(s);
        case EndAfterWrite => EndUncorkKeeps(s.(endPhase := NotEnding));
        case EndAfterUncork => EndTailKeeps(s.(endPhase := NotEnding));
      }
    }
  }

  lemma SameEndPhase(s: State)
    requires s.endPhase == NotEnding && Inv(s.(endPhase := NotEnding))
    ensures Inv(s)
  {
    hide Measured, Counted, Handed, Called, Numbered, SomeLooks;
  }

  lemma WriteReturns(s: State)
    requires Inv(s) && s.clearing.Idle? && s.inWrite
    ensures Inv(s.(sync := false, inWrite := false).(endPhase := NotEnding))
  {
    hide Measured, Counted, Handed, Called, Numbered, SomeLooks;
  }

  lemma ClearDoneKeeps(s: State)
    requires Inv(s) && !s.clearing.Idle? && (s.writing || s.queue == [])
    ensures if s.inWrite then Inv(ClearDone(s)) else Inv(ClearDone(s).(endPhase := NotEnding))
  {
    var t := ClearDone(s);
    assert t.tasks + t.resume == s.tasks + s.resume;
    hide Measured, Counted, Handed, Called, Numbered, SomeLooks;
  }

  lemma LoopGoesOn(s: State)
    requires Inv(s) && s.clearing.One? && !s.writing && s.queue != []
    ensures Clearable(s.(sync := false))
  {
    hide Measured, Counted, Handed, Called, Numbered, SomeLooks;
  }

  lemma HookReturnedKeeps(s: State)
    requires Inv(s) && !s.Ready()
    ensures Inv(HookReturned(s))
  {
    assert s.clearing.Idle? ==> s.inWrite;
    assert s.clearing.Batch? ==> s.queue == [];
    hide Inv, ClearOne, ClearDone, ContinueEnd, Clearable;
    if s.clearing.Idle? {
      WriteReturns(s);
      ContinueEndKeeps(s.(sync := false, inWrite := false));
    } else if s.clearing.One? && !s.writing && s.queue != [] {
      LoopGoesOn(s);
      ClearOneKeeps(s.(sync := false));
    } else {
      ClearDoneKeeps(s);
      ClearDoneIdle(s);
      ContinueEndKeeps(ClearDone(s));
    }
  }

  lemma ClearDoneIdle(s: State)
    ensures ClearDone(s).clearing.Idle? && ClearDone(s).inWrite == s.inWrite
  {
  }

  lemma OnWriteFailedKeeps(s: State)
    requires Inv(s) && s.writing
    ensures Inv(OnWrite(s, true))
  {
    var task := Callbacks(s.writecb, s.writeBatch, true);
    var t := OnWrite(s, true);
    hide Measured, Counted, Handed, Called, Numbered, SomeLooks;
    assert Sums(t) by { Complete(s, task, s.tasks + [task], s.resume); }
    assert Flags(t) && Ordered(t) && Drained(t) by { hide Sums; }
    hide Sums, Flags, Ordered, Drained, OnWrite;
  }

  lemma LastLooks(a: seq<Task>, task: Task, b: seq<Task>)
    requires Looks(task)
    ensures SomeLooks(a + [task] + b)
  {
    assert (a + [task] + b)[|a|] == task;
  }

  lemma OnWriteScheduledKeeps(s: State)
    requires Inv(s) && s.writing
    requires var s' := OnWriteStateUpdate(s); NeedFinish(s') || s.corked != 0 || !s.clearing.Idle? || s.queue == []
    ensures var s' := OnWriteStateUpdate(s);
            Inv(Schedule(s', AfterWrite(NeedFinish(s'), s.writecb, s.writeBatch)))
  {
    var s' := OnWriteStateUpdate(s);
    var task := AfterWrite(NeedFinish(s'), s.writecb, s.writeBatch);
    var t := Schedule(s', task);
    hide Measured, Counted, Handed, Called, Numbered, SomeLooks;
    assert Sums(t) by { Complete(s, task, s.tasks + [task], s.resume); }
    assert Drained(t) by {
      if Looks(task) {
        LastLooks(s.tasks, task, s.resume);
      }
    }
    assert Flags(t) && Ordered(t);
    hide Sums, Flags, Ordered, Drained, Schedule;
  }

  lemma OnWriteClearable(s: State, task: Task)
    requires Inv(s) && s.writing && s.clearing.Idle? && s.queue != []
    requires task == AfterWrite(false, s.writecb, s.writeBatch)
    ensures Clearable(OnWriteStateUpdate(s).(resume := [task]))
  {
    var t := OnWriteStateUpdate(s).(resume := [task]);
    hide Measured, Counted, Handed, Called, Numbered, SomeLooks;
    assert Sums(t) by { Complete(s, task, s.tasks, [task]); }
    hide Sums;
  }

  lemma OnWriteKeeps(s: State, failed: bool)
    requires Inv(s) && s.writing
    ensures Inv(OnWrite(s, failed))
  {
    hide Inv, Schedule, ClearBuffer, Clearable;
    if failed {
      OnWriteFailedKeeps(s);
    } else {
      var s' := OnWriteStateUpdate(s);
      var task := AfterWrite(NeedFinish(s'), s.writecb, s.writeBatch);
      if !task.finished && s.corked == 0 && s.clearing.Idle? && s.queue != [] {
        OnWriteClearable(s, task);
        ClearBufferKeeps(s', [task]);
      } else {
        OnWriteScheduledKeeps(s);
      }
    }
  }

  lemma LooksStay(tasks: seq<Task>, i: nat, left: seq<Task>, resume: seq<Task>)
    requires i < |tasks| && !Looks(tasks[i]) && SomeLooks(tasks + resume)
    ensures SomeLooks(Replace(tasks, i, left) + resume)
  {
    var j :| 0 <= j < |tasks + resume| && Looks((tasks + resume)[j]);
    var j' := if j < i then j else j - 1 + |left|;
    assert (Replace(tasks, i, left) + resume)[j'] == (tasks + resume)[j];
  }

  /** A finished stream has no task with anything left to count down. */
  lemma FinishedIdle(s: State, i: nat)
    requires Sums(s) && Flags(s) && s.finished && i < |s.tasks|
    ensures s.tasks[i].Decrements() == 0
  {
    var t, a, b := s.tasks[i], s.tasks[..i], s.tasks[i + 1..] + s.resume;
    assert s.tasks + s.resume == a + [t] + b;
    ReplaceTask(a, t, [], b);
  }

  /** The general shape of a phase: a task may only stop looking at `needDrain` when that is clear or
      something else will look. */
  lemma AdvanceKeeps(s: State, i: nat, left: seq<Task>, dec: nat, calls: seq<Req>)
    requires Inv(s) && i < |s.tasks| && (!Looks(s.tasks[i]) || !s.needDrain || s.writing || s.queue != [])
    requires s.tasks[i].Decrements() == dec + DecrementsOf(left)
    requires multiset(s.tasks[i].Owed()) == multiset(calls) + OwedBy(left)
    ensures Inv(Advance(s, i, left, dec, calls))
  {
    var t := Advance(s, i, left, dec, calls);
    assert Sums(t) by { Progress(s, i, left, dec, calls); }
    assert Flags(t) by {
      hide Ordered, Drained, Replace;
      if s.finished {
        FinishedIdle(s, i);
      }
      hide Sums;
    }
    hide Sums, SomeLooks, Replace;
    assert Ordered(t);
    assert Drained(t) by {
      if !Looks(s.tasks[i]) && SomeLooks(s.tasks + s.resume) {
        LooksStay(s.tasks, i, left, s.resume);
      }
    }
    hide Flags, Ordered, Drained;
  }

  lemma CallbacksKeep(s: State, i: nat)
    requires Inv(s) && i < |s.tasks| && s.tasks[i].Callbacks?
    ensures Inv(RunTask(s, i))
  {
    var task := s.tasks[i];
    EmptySums(s.objectMode);
    hide Inv, Advance, OwedBy, DecrementsOf;
    if task.batch {
      OneTask(Callbacks(task.reqs, false, task.failed));
      AdvanceKeeps(s, i, [Callbacks(task.reqs, false, task.failed)], 1, []);
    } else if task.reqs != [] {
      OneTask(Callbacks(task.reqs[1..], false, task.failed));
      assert task.reqs == [task.reqs[0]] + task.reqs[1..];
      AdvanceKeeps(s, i, [Callbacks(task.reqs[1..], false, task.failed)], 1, [task.reqs[0]]);
    } else {
      OneTask(FinishMaybe);
      AdvanceKeeps(s, i, if task.failed then [] else [FinishMaybe], 0, []);
    }
  }

  lemma FinishTaskKeeps(s: State, i: nat)
    requires Inv(s) && i < |s.tasks| && s.tasks[i].FinishMaybe?
    ensures Inv(RunTask(s, i))
  {
    EmptySums(s.objectMode);
    hide Inv, Advance, Finish;
    AdvanceKeeps(s, i, [], 0, []);
    FinishKeeps(Advance(s, i, [], 0, []));
  }

  lemma NothingLeft(s: State)
    requires Sums(s) && Flags(s) && !s.writing && s.queue == []
    ensures s.length == 0
  {
  }

  /** After the drain test nothing is owed any more, or something is still in flight or buffered. */
  lemma OnWriteDrainKeeps(s: State)
    requires Inv(s)
    ensures var t := OnWriteDrain(s);
            Inv(t) && t.tasks == s.tasks && (t.needDrain ==> t.writing || t.queue != [])
  {
    if !s.writing && s.queue == [] {
      NothingLeft(s);
    }
    if s.length == 0 && s.needDrain {
      DrainKeeps(s);
      hide Inv;
    } else {
      assert OnWriteDrain(s) == s;
      hide Inv;
    }
  }

  lemma DrainKeeps(s: State)
    requires Inv(s) && s.length == 0
    ensures Inv(s.(needDrain := false, drains := s.drains + [s.length]))
  {
    var t := s.(needDrain := false, drains := s.drains + [s.length]);
    hide Measured, Counted, Handed, Called, Numbered, SomeLooks;
    assert Drained(t) by { hide Sums, Flags, Ordered; }
    assert Sums(t) by { hide Flags, Ordered, Drained; }
    assert Flags(t) && Ordered(t) by { hide Sums, Drained; }
    hide Sums, Flags, Ordered, Drained;
  }

  lemma AfterWriteKeeps(s: State, i: nat)
    requires Inv(s) && i < |s.tasks| && s.tasks[i].AfterWrite?
    ensures Inv(RunTask(s, i))
  {
    var task := s.tasks[i];
    OneTask(Callbacks(task.reqs, task.batch, false));
    hide Inv, Advance, OnWriteDrain, OwedBy, DecrementsOf;
    OnWriteDrainKeeps(s);
    AdvanceKeeps(if task.finished then s else OnWriteDrain(s), i, [Callbacks(task.reqs, task.batch, false)], 0, []);
  }

  /** Every step of the stream, its user and its hook keeps the invariant. */
  lemma StepKeeps(s: State, e: Event)
    requires Inv(s) && Enabled(s, e)
    ensures Inv(Apply(s, e))
  {
    hide Inv, Write, Uncork, End, HookReturned, OnWrite, RunTask;
    match e {
      case EvWrite(chunk) => WriteKeeps(s, chunk);
      case EvCork => SetCorked(s, s.corked + 1);
      case EvUncork => UncorkKeeps(s);
      case EvEnd(last) => EndKeeps(s, last);
      case EvHookReturned => HookReturnedKeeps(s);
      case EvOnWrite(failed) => OnWriteKeeps(s, failed);
      case EvTask(i) =>
        match s.tasks[i] {
          case AfterWrite(_, _, _) => AfterWriteKeeps(s, i);
          case Callbacks(_, _, _) => CallbacksKeep(s, i);
          case FinishMaybe => FinishTaskKeeps(s, i);
        }
    }
  }

  lemma {:induction false} RunKeeps(s: State, events: seq<Event>, t: State)
    requires Inv(s) && Run(s, events, t)
    ensures Inv(t)
    decreases |events|
  {
    hide Inv, Apply, Enabled;
    if events != [] {
      StepKeeps(s, events[0]);
      RunKeeps(Apply(s, events[0]), events[1..], t);
    }
  }

  lemma InitHolds(objectMode: bool, highWaterMark: int, hasWritev: bool)
    ensures Inv(Init(objectMode, highWaterMark, hasWritev))
  {
    EmptySums(objectMode);
    var none: seq<Task> := [];
    assert none + none == none;
  }

  // ---- what the invariant means for users of the stream ----

  /** In every run without a write error, what was handed to the hook followed by the buffer is what was
      accepted, in order; at most one batch is in flight; and `length` is the size of both. */
  lemma WritesKeepTheirOrder(objectMode: bool, highWaterMark: int, hasWritev: bool, events: seq<Event>, t: State)
    requires Run(Init(objectMode, highWaterMark, hasWritev), events, t)
    ensures !t.failed ==> t.handed + t.queue == t.accepted
    ensures multiset(t.handed) + multiset(t.queue) == multiset(t.accepted)
    ensures t.length == Sizes(t.writecb, t.objectMode) + Sizes(t.queue, t.objectMode)
  {
    InitHolds(objectMode, highWaterMark, hasWritev);
    RunKeeps(Init(objectMode, highWaterMark, hasWritev), events, t);
    hide Run;
  }

  lemma Distinct(accepted: seq<Req>, req: Req)
    requires Numbered(accepted)
    ensures multiset(accepted)[req] <= 1
  {
    if accepted != [] {
      var n := |accepted| - 1;
      assert accepted == accepted[..n] + [accepted[n]];
      Distinct(accepted[..n], req);
      if req == accepted[n] {
        assert req !in accepted[..n];
      }
    }
  }

  /** In every run, errors or not: no callback runs twice, and 'finish' is emitted at most once and only
      when every accepted write was handed on and its callback ran. */
  lemma CallbacksAndFinish(objectMode: bool, highWaterMark: int, hasWritev: bool, events: seq<Event>, t: State)
    requires Run(Init(objectMode, highWaterMark, hasWritev), events, t)
    ensures forall req :: multiset(t.ran)[req] <= 1
    ensures t.finishes <= 1 && t.prefinishes <= 1
    ensures t.finishes == 1 ==> multiset(t.handed) == multiset(t.accepted) == multiset(t.ran)
  {
    InitHolds(objectMode, highWaterMark, hasWritev);
    RunKeeps(Init(objectMode, highWaterMark, hasWritev), events, t);
    hide Run, Ordered, Drained, OwedBy, DecrementsOf, Measured;
    forall req
      ensures multiset(t.ran)[req] <= 1
    {
      Distinct(t.accepted, req);
      var others := OwedBy(t.tasks + t.resume) + multiset(t.writecb) + multiset(t.queue);
      assert multiset(t.ran) + others == multiset(t.accepted) by {
        Regroup(multiset(t.ran) + OwedBy(t.tasks + t.resume), multiset(t.writecb), multiset(t.queue));
        Regroup(multiset(t.ran), OwedBy(t.tasks + t.resume), multiset(t.writecb) + multiset(t.queue));
        Regroup(OwedBy(t.tasks + t.resume), multiset(t.writecb), multiset(t.queue));
      }
      assert (multiset(t.ran) + others)[req] <= 1;
    }
    if t.finishes == 1 {
      NothingOwed(t.tasks + t.resume);
      assert multiset(t.queue) == multiset{} && multiset(t.writecb) == multiset{};
    }
  }

  /** The batches whose own decrement of `pendingcb` is still to come. */
  function BatchesOf(tasks: seq<Task>): nat {
    if tasks == [] then 0 else (if !tasks[0].FinishMaybe? && tasks[0].batch then 1 else 0) + BatchesOf(tasks[1..])
  }

  lemma {:induction false} DecrementsAre(tasks: seq<Task>)
    ensures DecrementsOf(tasks) == |OwedBy(tasks)| + BatchesOf(tasks)
  {
    if tasks != [] {
      DecrementsAre(tasks[1..]);
    }
  }

  lemma PendingOf(s: State)
    requires Sums(s)
    ensures s.pendingcb == |s.accepted| - |s.ran| + BatchesOf(s.tasks + s.resume) + (if s.writeBatch then 1 else 0)
  {
    DecrementsAre(s.tasks + s.resume);
    assert |multiset(s.accepted)| == |s.accepted| && |multiset(s.ran)| == |s.ran|;
    hide DecrementsOf, OwedBy, BatchesOf, Measured, Handed;
  }

  /** In every run, errors or not, `pendingcb` counts the accepted writes whose callback has not run, plus one per
      outstanding batch. */
  lemma PendingCallbacksAreCounted(objectMode: bool, highWaterMark: int, hasWritev: bool, events: seq<Event>, t: State)
    requires Run(Init(objectMode, highWaterMark, hasWritev), events, t)
    ensures t.pendingcb == |t.accepted| - |t.ran| + BatchesOf(t.tasks + t.resume) + (if t.writeBatch then 1 else 0)
  {
    InitHolds(objectMode, highWaterMark, hasWritev);
    RunKeeps(Init(objectMode, highWaterMark, hasWritev), events, t);
    hide Run, Sums;
    PendingOf(t);
  }

  /** No lost drain: when nothing is in flight, no completion is pending and the stream is not corked, an
      error-free stream that is not ending owes no 'drain'. And every 'drain' came with `length` 0. */
  lemma QuiescentOwesNoDrain(objectMode: bool, highWaterMark: int, hasWritev: bool, events: seq<Event>, t: State)
    requires Run(Init(objectMode, highWaterMark, hasWritev), events, t)
    ensures !t.failed && !t.ending && !t.writing && t.corked == 0 && t.clearing.Idle? && t.tasks == [] ==> !t.needDrain
    ensures !t.failed && !t.ending && t.needDrain ==> t.writing || t.queue != [] || SomeLooks(t.tasks + t.resume)
    ensures forall i :: 0 <= i < |t.drains| ==> t.drains[i] == 0
  {
    InitHolds(objectMode, highWaterMark, hasWritev);
    RunKeeps(Init(objectMode, highWaterMark, hasWritev), events, t);
    hide Run, Sums;
  }
}
