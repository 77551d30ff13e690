/** `WritableState` of lib/_stream_writable.js as the object it is: each method does to the fields what the function of
    the same name in WritableSpec does to the value. The request list is given by its contents; WritableStreams adds the list. */
module WritableObject {
  import opened WritableSpec

  lemma DirectInSteps(s: State, req: Req)
    ensures Direct(s, req) == WritableSpec.DoWrite(Counted(s, req), false, Size(req, s.objectMode), [req]).(inWrite := true)
  {
  }

  lemma NothingToFinish(s: State)
    requires !NeedFinish(s)
    ensures Finish(s) == s
  {
  }

  /** What a completed write leaves once it is out of the way. */
  function GoesOn(t: State, task: Task): State
    requires task.AfterWrite?
  {
    if !task.finished && t.corked == 0 && t.clearing.Idle? && t.queue != [] then WritableSpec.ClearBuffer(t, [task])
    else WritableSpec.Schedule(t, task)
  }

  /** A write that has ended, out of the way. */
  function Settled(t: State, failed: bool, cb: seq<Req>, batch: bool): State {
    if failed then WritableSpec.Schedule(t, Callbacks(cb, batch, true)).(failed := true)
    else GoesOn(t, AfterWrite(WritableSpec.NeedFinish(t), cb, batch))
  }

  lemma OnWriteIs(s: State, failed: bool)
    ensures WritableSpec.OnWrite(s, failed) == Settled(WritableSpec.OnWriteStateUpdate(s), failed, s.writecb, s.writeBatch)
  {
    hide WritableSpec.ClearBuffer;
  }

  /** What `clearBuffer` leaves when its first hook is called. */
  function Left(queue: seq<Req>, hasWritev: bool): seq<Req>
    requires queue != []
  {
    if hasWritev && |queue| > 1 then [] else queue[1..]
  }

  /** The value of the fields and of what is around them. */
  function Assemble(around: State, objectMode: bool, highWaterMark: int, hasWritev: bool, needDrain: bool, ending: bool, ended: bool,
                    finished: bool, length: int, writing: bool, corked: nat, sync: bool, writelen: int, pendingcb: int,
                    prefinished: bool, queue: seq<Req>, clearing: Clearing): State
  {
    around.(objectMode := objectMode, highWaterMark := highWaterMark, hasWritev := hasWritev,
            needDrain := needDrain, ending := ending, ended := ended, finished := finished, length := length, writing := writing,
            corked := corked, sync := sync, writelen := writelen, pendingcb := pendingcb, prefinished := prefinished,
            queue := queue, clearing := clearing)
  }

  class WritableState {
    const objectMode: bool
    const highWaterMark: int
    const hasWritev: bool
    var needDrain: bool
    var ending: bool
    var ended: bool
    var finished: bool
    var length: int
    var writing: bool
    var corked: nat
    var sync: bool
    var writelen: int
    var pendingcb: int
    var prefinished: bool
    var queue: seq<Req>
    /** `bufferProcessing`, with the kind of write that `clearBuffer` is in. */
    var clearing: Clearing
    /** The suspended calls, the pending ticks and the history; its other fields are not looked at. */
    var around: State

    ghost function View(): State
      reads this
    {
      Assemble(around, objectMode, highWaterMark, hasWritev, needDrain, ending, ended, finished, length, writing, corked, sync,
               writelen, pendingcb, prefinished, queue, clearing)
    }

    constructor (objectMode: bool, highWaterMark: int, hasWritev: bool)
      ensures View() == Init(objectMode, highWaterMark, hasWritev)
    {
      this.objectMode, this.highWaterMark, this.hasWritev := objectMode, highWaterMark, hasWritev;
      needDrain, ending, ended, finished, length, writing, corked, sync := false, false, false, false, 0, false, 0, true;
      writelen, pendingcb, prefinished, queue, clearing := 0, 0, false, [], Idle;
      around := Init(objectMode, highWaterMark, hasWritev);
    }

    method DoWrite(batch: bool, len: int, reqs: seq<Req>)
      modifies `writelen, `writing, `sync, `around
      ensures View() == WritableSpec.DoWrite(old(View()), batch, len, reqs)
    {
      writelen := len;
      writing := true;
      sync := true;
      around := around.(writecb := reqs, writeBatch := batch, handed := around.handed + reqs);
    }

    /** What `write` and `writeOrBuffer` count before they decide where the chunk goes. */
    method Count(req: Req) returns (len: int)
      modifies this`pendingcb, this`length, this`needDrain
      ensures len == Size(req, objectMode) && length == old(length) + len
      ensures View() == old(View()).(pendingcb := old(pendingcb) + 1, length := length,
                                     needDrain := old(needDrain) || length >= highWaterMark)
    {
      hide Assemble;
      Pend();
      len := if objectMode then 1 else |req.chunk|;
      Grow(len);
    }

    method Pend()
      modifies `pendingcb
      ensures View() == old(View()).(pendingcb := old(pendingcb) + 1)
    {
      pendingcb := pendingcb + 1;
    }

    method Grow(len: int)
      modifies `length, `needDrain
      ensures length == old(length) + len
      ensures View() == old(View()).(length := length, needDrain := old(needDrain) || length >= highWaterMark)
    {
      length := length + len;
      var ret := length < highWaterMark;
      if !ret {
        needDrain := true;
      }
    }

    /** `writeOrBuffer` behind a write in flight or a cork. */
    method Buffer(req: Req)
      modifies `pendingcb, `length, `needDrain, `queue, `around
      ensures View() == Enqueue(old(View()), req) && queue == old(queue) + [req]
    {
      hide Assemble, Counted;
      Seen();
      var _ := Accept(req);
      Append(req);
    }

    method Append(req: Req)
      modifies `queue
      ensures queue == old(queue) + [req] && View() == old(View()).(queue := queue)
    {
      queue := queue + [req];
    }

    /** The fields are those of the value. */
    lemma Seen()
      ensures var s := View();
              && s.queue == queue && s.corked == corked && s.clearing == clearing && s.ending == ending && s.length == length
              && s.finished == finished && s.writing == writing && s.pendingcb == pendingcb && s.prefinished == prefinished
              && s.needDrain == needDrain && s.highWaterMark == highWaterMark && s.writelen == writelen && s.hasWritev == hasWritev && s.objectMode == objectMode && s.ended == ended
              && s.writecb == around.writecb && s.writeBatch == around.writeBatch && s.failed == around.failed
              && s.prefinishes == around.prefinishes && s.finishes == around.finishes && s.accepted == around.accepted
    {
    }

    /** `writeOrBuffer` straight to the hook. */
    method Pass(req: Req)
      modifies `pendingcb, `length, `needDrain, `writelen, `writing, `sync, `around
      ensures View() == Direct(old(View()), req)
    {
      DirectInSteps(View(), req);
      hide Size, Direct, WritableSpec.DoWrite;
      var len := Accept(req);
      DoWrite(false, len, [req]);
      Suspend();
    }

    method Accept(req: Req) returns (len: int)
      modifies `pendingcb, `length, `needDrain, `around
      ensures len == Size(req, objectMode) && View() == Counted(old(View()), req)
    {
      hide Size, Assemble;
      Seen();
      len := Count(req);
      Record(req);
    }

    method Record(req: Req)
      modifies `around
      ensures View() == old(View()).(accepted := old(around).accepted + [req])
    {
      around := around.(accepted := around.accepted + [req]);
    }

    /** The caller waits for the hook to return. */
    method Suspend()
      modifies this`around
      ensures View() == old(View()).(inWrite := true)
    {
      around := around.(inWrite := true);
    }

    /** `write`; false asks the caller to wait for 'drain'. */
    method Write(chunk: Chunk, id: nat) returns (ret: bool)
      requires id == |around.accepted|
      modifies `pendingcb, `length, `needDrain, `queue, `writelen, `writing, `sync, `around
      ensures View() == WritableSpec.Write(old(View()), chunk)
      ensures ret <==> !old(ended) && length < highWaterMark
      ensures queue == old(queue) + if old(!ended && (writing || corked > 0)) then [Req(id, chunk)] else []
    {
      hide Enqueue, Direct;
      if ended {
        return false;
      }
      if writing || corked > 0 {
        Buffer(Req(id, chunk));
      } else {
        Pass(Req(id, chunk));
      }
      ret := length < highWaterMark;
    }

    method Cork()
      modifies `corked
      ensures View() == WritableSpec.Cork(old(View()))
    {
      corked := corked + 1;
    }

    /** `started` when it calls `clearBuffer`. */
    method Uncork() returns (started: bool)
      modifies `corked, `pendingcb, `queue, `clearing, `writelen, `writing, `sync, `around
      ensures View() == WritableSpec.Uncork(old(View()))
      ensures (started ==> old(queue) != []) && queue == if started then Left(old(queue), hasWritev) else old(queue)
    {
      hide WritableSpec.ClearBuffer;
      started := false;
      if corked > 0 {
        corked := corked - 1;
        if !writing && corked == 0 && !finished && clearing.Idle? && queue != [] {
          ClearBuffer([]);
          started := true;
        }
      }
    }

    /** `clearBuffer` up to its first call of a hook; `resume` is what goes on after it. */
    method ClearBuffer(resume: seq<Task>)
      requires queue != []
      modifies `pendingcb, `queue, `clearing, `writelen, `writing, `sync, `around
      ensures View() == WritableSpec.ClearBuffer(old(View()), resume) && queue == Left(old(queue), hasWritev)
    {
      hide WritableSpec.DoWrite, WritableSpec.ClearOne, Gathered;
      if hasWritev && |queue| > 1 {
        var reqs := Gather(resume);
        DoWrite(true, length, reqs);
      } else {
        Resume(resume);
        ClearOne();
      }
    }

    /** What goes on after `clearBuffer`. */
    method Resume(resume: seq<Task>)
      modifies `around
      ensures View() == old(View()).(resume := resume)
    {
      around := around.(resume := resume);
    }

    /** The entries of the batch are taken off the list. */
    method Gather(resume: seq<Task>) returns (reqs: seq<Req>)
      modifies `pendingcb, `queue, `clearing, `around
      ensures reqs == old(queue) && queue == [] && View() == Gathered(old(View()), resume)
    {
      clearing := Batch;
      pendingcb := pendingcb + 1;
      reqs := queue;
      queue := [];
      around := around.(resume := resume);
    }

    /** One round of the slow loop of `clearBuffer`. */
    method ClearOne()
      requires queue != []
      modifies `queue, `clearing, `writelen, `writing, `sync, `around
      ensures View() == WritableSpec.ClearOne(old(View())) && queue == old(queue)[1..]
    {
      hide WritableSpec.DoWrite;
      clearing := One;
      var entry := queue[0];
      var len := if objectMode then 1 else |entry.chunk|;
      queue := queue[1..];
      DoWrite(false, len, [entry]);
    }

    /** A hook that called back at once returns to the slow loop of `clearBuffer`, which goes on. */
    method GoOn()
      requires queue != [] && clearing.One? && !writing
      modifies `queue, `clearing, `writelen, `writing, `sync, `around
      ensures View() == HookReturned(old(View())) && queue == old(queue)[1..]
    {
      hide WritableSpec.ClearOne, Assemble;
      Seen();
      Returned();
      ClearOne();
    }

    /** `doWrite` ends. */
    method Returned()
      modifies `sync
      ensures View() == old(View()).(sync := false)
    {
      sync := false;
    }

    method OnWriteStateUpdate()
      modifies `writing, `length, `writelen, `around
      ensures View() == WritableSpec.OnWriteStateUpdate(old(View()))
    {
      hide Assemble;
      Seen();
      Forget();
      Free();
    }

    method Free()
      modifies `writing, `length, `writelen
      ensures View() == old(View()).(writing := false, length := old(length) - old(writelen), writelen := 0)
    {
      length := length - writelen;
      writing, writelen := false, 0;
    }

    /** `writecb` is cleared. */
    method Forget()
      modifies `around
      ensures View() == old(View()).(writecb := [], writeBatch := false)
    {
      around := around.(writecb := [], writeBatch := false);
    }

    /** The completion is left to a tick, or to the end of the write's own call. */
    method Schedule(task: Task)
      modifies `around
      ensures View() == WritableSpec.Schedule(old(View()), task)
    {
      around := around.(tasks := around.tasks + [task]);
    }

    /** 'error'. */
    method Fail()
      modifies `around
      ensures View() == old(View()).(failed := true)
    {
      around := around.(failed := true);
    }

    /** `onwrite`. */
    method OnWrite(failed: bool) returns (started: bool)
      modifies `writing, `length, `writelen, `pendingcb, `queue, `clearing, `sync, `around
      ensures View() == WritableSpec.OnWrite(old(View()), failed)
      ensures (started ==> old(queue) != []) && queue == if started then Left(old(queue), hasWritev) else old(queue)
    {
      hide WritableSpec.OnWriteStateUpdate, WritableSpec.OnWrite, Settled, Assemble, Left;
      Seen();
      OnWriteIs(View(), failed);
      var cb, batch := around.writecb, around.writeBatch;
      OnWriteStateUpdate();
      started := Settle(failed, cb, batch);
    }

    /** The callbacks of the write are left to a tick, or to the end of its own call. */
    method Settle(failed: bool, cb: seq<Req>, batch: bool) returns (started: bool)
      modifies `writing, `writelen, `pendingcb, `queue, `clearing, `sync, `around
      ensures View() == Settled(old(View()), failed, cb, batch)
      ensures (started ==> old(queue) != []) && queue == if started then Left(old(queue), hasWritev) else old(queue)
    {
      hide WritableSpec.NeedFinish, WritableSpec.Schedule, GoesOn, Assemble, Left;
      started := false;
      if failed {
        Schedule(Callbacks(cb, batch, true));
        Fail();
      } else {
        var need := NeedFinish();
        started := Complete(AfterWrite(need, cb, batch));
      }
    }

    /** A completed write starts on the buffer unless the stream is corked, finishing or already at it. */
    method Complete(task: Task) returns (started: bool)
      requires task.AfterWrite?
      modifies `writing, `writelen, `pendingcb, `queue, `clearing, `sync, `around
      ensures View() == GoesOn(old(View()), task)
      ensures (started ==> old(queue) != []) && queue == if started then Left(old(queue), hasWritev) else old(queue)
    {
      hide WritableSpec.ClearBuffer, WritableSpec.Schedule, Assemble;
      Seen();
      started := !task.finished && corked == 0 && clearing.Idle? && queue != [];
      if started {
        ClearBuffer([task]);
      } else {
        Schedule(task);
      }
    }

    /** `needFinish`. */
    method NeedFinish() returns (need: bool)
      ensures need == WritableSpec.NeedFinish(View())
    {
      hide Assemble;
      Seen();
      need := ending && length == 0 && queue == [] && clearing.Idle? && !finished && !writing;
    }

    method OnWriteDrain()
      modifies `needDrain, `around
      ensures View() == WritableSpec.OnWriteDrain(old(View())) && around.tasks == old(around.tasks)
    {
      if length == 0 && needDrain {
        needDrain := false;
        around := around.(drains := around.drains + [length]);
      }
    }

    method FinishMaybe() returns (need: bool)
      modifies `prefinished, `finished, `around
      ensures need == WritableSpec.NeedFinish(old(View())) && View() == Finish(old(View()))
    {
      hide Assemble, Finish, WritableSpec.NeedFinish;
      Seen();
      need := NeedFinish();
      if need && pendingcb == 0 {
        EmitFinish();
      } else if need {
        EmitPrefinish();
      } else {
        NothingToFinish(View());
      }
    }

    /** 'prefinish' once. */
    method EmitPrefinish()
      requires WritableSpec.NeedFinish(View()) && pendingcb != 0
      modifies `prefinished, `around
      ensures View() == Finish(old(View()))
    {
      var n := if prefinished then 0 else 1;
      prefinished := true;
      around := around.(prefinishes := around.prefinishes + n);
    }

    /** The same, and 'finish'. */
    method EmitFinish()
      requires WritableSpec.NeedFinish(View()) && pendingcb == 0
      modifies `prefinished, `finished, `around
      ensures View() == Finish(old(View()))
    {
      var n := if prefinished then 0 else 1;
      prefinished, finished := true, true;
      around := around.(prefinishes := around.prefinishes + n, finishes := around.finishes + 1);
    }

    method EndWritable()
      modifies `ending, `ended, `prefinished, `finished, `around
      ensures View() == WritableSpec.EndWritable(old(View()))
    {
      hide Finish;
      ending, ended := true, true;
      var _ := FinishMaybe();
    }

    /** The end of `end`. */
    method EndTail()
      modifies `ending, `ended, `prefinished, `finished, `around
      ensures View() == WritableSpec.EndTail(old(View()))
    {
      hide WritableSpec.EndWritable, Assemble;
      Seen();
      if !ending && !finished {
        EndWritable();
      }
    }

    /** What is left of a suspended `end`. */
    method SetPhase(phase: Ending)
      modifies `around
      ensures View() == old(View()).(endPhase := phase)
    {
      around := around.(endPhase := phase);
    }

    /** `end` corks once. */
    method CorkOnce()
      modifies `corked
      ensures View() == old(View()).(corked := 1)
    {
      corked := 1;
    }

    /** The hook of a write's own call returns. */
    method WriteReturned()
      modifies `sync, `around
      ensures View() == old(View()).(sync := false, inWrite := false)
    {
      sync := false;
      around := around.(inWrite := false);
    }

    /** `clearBuffer` ends, and the completion that called it goes on. */
    method ClearDone()
      modifies `sync, `clearing, `around
      ensures View() == WritableSpec.ClearDone(old(View()))
    {
      sync, clearing := false, Idle;
      around := around.(resume := [], tasks := around.tasks + around.resume);
    }

    method Advance(i: nat, left: seq<Task>, dec: nat, calls: seq<Req>)
      requires i < |around.tasks|
      modifies `pendingcb, `around
      ensures View() == WritableSpec.Advance(old(View()), i, left, dec, calls)
    {
      hide Replace;
      pendingcb := pendingcb - dec;
      around := around.(tasks := Replace(around.tasks, i, left), ran := around.ran + calls);
    }

    /** One phase of a pending task: `afterWrite` or what follows a failed write. */
    method RunTask(i: nat)
      requires i < |around.tasks|
      modifies `needDrain, `pendingcb, `prefinished, `finished, `around
      ensures View() == WritableSpec.RunTask(old(View()), i)
    {
      hide WritableSpec.Advance, WritableSpec.OnWriteDrain, Finish, Assemble;
      SeenTasks();
      match around.tasks[i] {
        case AfterWrite(done, reqs, batch) =>
          if !done {
            OnWriteDrain();
          }
          Advance(i, [Callbacks(reqs, batch, false)], 0, []);
        case Callbacks(reqs, batch, failed) =>
          if batch {
            Advance(i, [Callbacks(reqs, false, failed)], 1, []);
          } else if reqs != [] {
            Advance(i, [Callbacks(reqs[1..], false, failed)], 1, [reqs[0]]);
          } else {
            Advance(i, if failed then [] else [Task.FinishMaybe], 0, []);
          }
        case FinishMaybe =>
          Advance(i, [], 0, []);
          var _ := FinishMaybe();
      }
    }

    lemma SeenTasks()
      ensures View().tasks == around.tasks && View().inWrite == around.inWrite && View().endPhase == around.endPhase
    {
    }
  }
}
