/** lib/_stream_transform.js on top of the writable state machine. The readable side is the environment:
    it may ask for more (`_read`) at any time. `_transform` is the user's: it may push and calls back once. */
module TransformSpec {
  import opened Wrappers
  import opened WritableSpec

  /** What reaches `push`. */
  datatype Out = Data(chunk: Chunk) | Eof

  datatype Transform = Transform(
    w: State, hasFlush: bool,
    // TransformState; `writechunk` and `writecb` are set and cleared together
    needTransform: bool, transforming: bool, writechunk: Option<Req>,
    flushing: bool,
    // history: chunks given to `_transform`, chunks it called back for, and what was pushed
    calls: seq<Req>, called: seq<Req>, pushed: seq<Out>, threw: bool,
    // the user's `_flush` ended in an error
    flushFailed: bool)

  function Init(objectMode: bool, highWaterMark: int, hasFlush: bool): Transform {
    Transform(WritableSpec.Init(objectMode, highWaterMark, false), hasFlush, false, false, None, false, [], [], [], false, false)
  }

  function Push(t: Transform, out: Out): Transform {
    t.(needTransform := false, pushed := t.pushed + [out])
  }

  /** `done` behind the two guards that throw. */
  function Done(t: Transform): Transform {
    if t.w.length != 0 || t.transforming then t.(threw := true, flushing := false) else Push(t.(flushing := false), Eof)
  }

  /** `done` with the error of a flush, which is emitted. */
  function FlushFails(t: Transform): Transform {
    t.(flushing := false, flushFailed := true)
  }

  /** `_write`: the call of `_read` at its end is a step of the environment. */
  function HookWrite(t: Transform, req: Req): Transform {
    t.(writechunk := Some(req))
  }

  /** `_read`. */
  function Read(t: Transform): Transform {
    if t.writechunk.Some? && !t.transforming then t.(transforming := true, calls := t.calls + [t.writechunk.value])
    else t.(needTransform := true)
  }

  /** The writable side moved to w: a chunk handed on reaches `_write`, a 'prefinish' reaches the listener. */
  function Moved(t: Transform, w: State): Transform {
    var t' := t.(w := w);
    if |w.handed| > |t.w.handed| then HookWrite(t', w.handed[|w.handed| - 1])
    else if w.prefinishes > t.w.prefinishes then (if t.hasFlush then t'.(flushing := true) else Done(t'))
    else t'
  }

  /** `afterTransform` up to the call of the write's callback. */
  function Answered(t: Transform, data: Option<Chunk>): Transform
    requires t.writechunk.Some?
  {
    t.(transforming := false, writechunk := None, called := t.called + [t.writechunk.value],
       needTransform := if data.Some? then false else t.needTransform,
       pushed := if data.Some? then t.pushed + [Data(data.value)] else t.pushed)
  }

  /** `afterTransform`: the call of `_read` at its end is a step of the environment. */
  function AfterTransform(t: Transform, failed: bool, data: Option<Chunk>): Transform {
    if t.writechunk.None? then t.(transforming := false) else Moved(Answered(t, data), OnWrite(t.w, failed))
  }

  datatype Step =
    | OnWritable(e: Event)
    | Ask
    | UserPush(chunk: Chunk)
    | Answer(failed: bool, data: Option<Chunk>)
    | FlushDone(failed: bool)

  predicate Enabled(t: Transform, step: Step) {
    match step
    case OnWritable(e) => !e.EvOnWrite? && WritableSpec.Enabled(t.w, e)
    case Ask => true
    case UserPush(_) => t.transforming || t.flushing
    case Answer(_, _) => t.transforming
    case FlushDone(_) => t.flushing
  }

  function Apply(t: Transform, step: Step): Transform
    requires Enabled(t, step)
  {
    match step
    case OnWritable(e) => Moved(t, WritableSpec.Apply(t.w, e))
    case Ask => Read(t)
    case UserPush(chunk) => Push(t, Data(chunk))
    case Answer(failed, data) => AfterTransform(t, failed, data)
    case FlushDone(failed) => if failed then FlushFails(t) else Done(t)
  }

  ghost predicate Run(t: Transform, steps: seq<Step>, u: Transform)
    decreases |steps|
  {
    if steps == [] then t == u
    else Enabled(t, steps[0]) && Run(Apply(t, steps[0]), steps[1..], u)
  }
}

module TransformProofs {
  import opened Wrappers
  import W = WritableSpec
  import WP = WritableProofs
  import opened TransformSpec

  // ---- how the writable side hands chunks on ----

  /** Either nothing was handed on and nothing completed, or one write went from idle to in flight. */
  ghost predicate HandsOn(w: W.State, v: W.State) {
    && v.hasWritev == w.hasWritev && v.failed == w.failed
    && if |v.handed| > |w.handed| then
         v.writing && |v.writecb| == 1 && v.handed == w.handed + v.writecb && !w.writing && v.prefinishes == w.prefinishes
       else v.handed == w.handed && v.writing == w.writing && v.writecb == w.writecb
            && w.prefinishes <= v.prefinishes <= w.prefinishes + 1
  }

  lemma ClearHandsOn(w: W.State, resume: seq<W.Task>)
    requires !w.hasWritev && !w.writing && w.queue != []
    ensures HandsOn(w, W.ClearBuffer(w, resume)) && |W.ClearBuffer(w, resume).handed| == |w.handed| + 1
  {
  }

  /** A change of anything else in front does not matter. */
  lemma HandsOnVia(w: W.State, u: W.State, v: W.State)
    requires HandsOn(u, v) && u.handed == w.handed && u.writing == w.writing && u.writecb == w.writecb
    requires u.prefinishes == w.prefinishes && u.hasWritev == w.hasWritev && u.failed == w.failed
    ensures HandsOn(w, v)
  {
  }

  lemma SelfHandsOn(w: W.State)
    ensures HandsOn(w, w)
  {
  }

  lemma UncorkHandsOn(w: W.State)
    requires !w.hasWritev
    ensures HandsOn(w, W.Uncork(w))
  {
    hide W.ClearBuffer, HandsOn;
    SelfHandsOn(w);
    if w.corked != 0 {
      var u := w.(corked := w.corked - 1);
      SelfHandsOn(u);
      HandsOnVia(w, u, u);
      if !w.writing && w.queue != [] {
        ClearHandsOn(u, []);
        HandsOnVia(w, u, W.ClearBuffer(u, []));
      }
    }
  }

  lemma FinishHandsOn(w: W.State)
    ensures HandsOn(w, W.Finish(w))
  {
  }

  lemma EndTailHandsOn(w: W.State)
    ensures HandsOn(w, W.EndTail(w))
  {
    hide W.Finish;
    FinishHandsOn(w.(ending := true, ended := true));
  }

  lemma EndUncorkHandsOn(w: W.State)
    requires !w.hasWritev && w.clearing.Idle?
    ensures HandsOn(w, W.EndUncork(w))
  {
    hide W.EndTail;
    if w.corked != 0 {
      var u := W.Uncork(w.(corked := 1));
      UncorkHandsOn(w.(corked := 1));
      UncorkIdle(w.(corked := 1));
      hide W.Uncork;
      EndTailHandsOn(u);
    } else {
      EndTailHandsOn(w);
    }
  }

  /** If uncorking leaves no clearing behind, it handed nothing on. */
  lemma UncorkIdle(w: W.State)
    requires w.clearing.Idle?
    ensures W.Uncork(w).clearing.Idle? ==> W.Uncork(w).handed == w.handed && W.Uncork(w).writing == w.writing
  {
  }

  lemma EndHandsOn(w: W.State, last: Option<W.Chunk>)
    requires !w.hasWritev && w.Ready()
    ensures HandsOn(w, W.End(w, last))
  {
    hide W.EndUncork;
    if last.Some? {
      var u := W.Write(w, last.value);
      WriteHandsOn(w, last.value);
      hide W.Write;
      if !u.inWrite {
        EndUncorkHandsOn(u);
      }
    } else {
      EndUncorkHandsOn(w);
    }
  }

  lemma EnqueueHandsOn(w: W.State, req: W.Req)
    ensures HandsOn(w, W.Enqueue(w, req)) && W.Enqueue(w, req).clearing == w.clearing
    ensures W.Enqueue(w, req).handed == w.handed
  {
  }

  lemma DirectHandsOn(w: W.State, req: W.Req)
    requires !w.writing
    ensures HandsOn(w, W.Direct(w, req)) && W.Direct(w, req).inWrite && W.Direct(w, req).clearing == w.clearing
  {
  }

  lemma WriteHandsOn(w: W.State, chunk: W.Chunk)
    requires w.Ready()
    ensures HandsOn(w, W.Write(w, chunk)) && W.Write(w, chunk).clearing == w.clearing
    ensures !W.Write(w, chunk).inWrite ==> W.Write(w, chunk).handed == w.handed
  {
    hide W.Enqueue, W.Direct;
    var req := W.Req(|w.accepted|, chunk);
    EnqueueHandsOn(w, req);
    if !w.writing {
      DirectHandsOn(w, req);
    }
  }

  lemma ContinueEndHandsOn(w: W.State)
    requires !w.hasWritev
    ensures HandsOn(w, W.ContinueEnd(w))
  {
    hide W.EndUncork, W.EndTail, HandsOn;
    SelfHandsOn(w);
    if !w.inWrite && w.clearing.Idle? {
      var u := w.(endPhase := W.NotEnding);
      match w.endPhase {
        case NotEnding =>
        case EndAfterWrite =>
          EndUncorkHandsOn(u);
          HandsOnVia(w, u, W.EndUncork(u));
        case EndAfterUncork =>
          EndTailHandsOn(u);
          HandsOnVia(w, u, W.EndTail(u));
      }
    }
  }

  lemma ClearOneHandsOn(w: W.State)
    requires !w.writing && w.queue != []
    ensures HandsOn(w, W.ClearOne(w))
  {
  }

  lemma ClearDoneHandsOn(w: W.State)
    ensures HandsOn(w, W.ClearDone(w)) && W.ClearDone(w).handed == w.handed && W.ClearDone(w).prefinishes == w.prefinishes
  {
  }

  lemma HookReturnedHandsOn(w: W.State)
    requires !w.hasWritev
    ensures HandsOn(w, W.HookReturned(w))
  {
    hide W.ContinueEnd, W.ClearOne, W.ClearDone;
    if w.clearing.Idle? {
      ContinueEndHandsOn(w.(sync := false, inWrite := false));
    } else if w.clearing.One? && !w.writing && w.queue != [] {
      ClearOneHandsOn(w.(sync := false));
    } else {
      ClearDoneHandsOn(w);
      ContinueEndHandsOn(W.ClearDone(w));
    }
  }

  lemma AdvanceHandsOn(w: W.State, i: nat, left: seq<W.Task>, dec: nat, calls: seq<W.Req>)
    requires i < |w.tasks|
    ensures HandsOn(w, W.Advance(w, i, left, dec, calls)) && W.Advance(w, i, left, dec, calls).handed == w.handed
    ensures W.Advance(w, i, left, dec, calls).prefinishes == w.prefinishes
  {
    hide W.Replace;
  }

  lemma DrainHandsOn(w: W.State)
    ensures HandsOn(w, W.OnWriteDrain(w)) && W.OnWriteDrain(w).handed == w.handed && W.OnWriteDrain(w).tasks == w.tasks
  {
  }

  lemma RunTaskHandsOn(w: W.State, i: nat)
    requires i < |w.tasks|
    ensures HandsOn(w, W.RunTask(w, i))
  {
    hide W.Finish, W.Advance, W.OnWriteDrain;
    match w.tasks[i] {
      case AfterWrite(finished, reqs, batch) =>
        DrainHandsOn(w);
        AdvanceHandsOn(if finished then w else W.OnWriteDrain(w), i, [W.Callbacks(reqs, batch, false)], 0, []);
      case Callbacks(reqs, batch, failed) =>
        if batch {
          AdvanceHandsOn(w, i, [W.Callbacks(reqs, false, failed)], 1, []);
        } else if reqs != [] {
          AdvanceHandsOn(w, i, [W.Callbacks(reqs[1..], false, failed)], 1, [reqs[0]]);
        } else {
          AdvanceHandsOn(w, i, if failed then [] else [W.FinishMaybe], 0, []);
        }
      case FinishMaybe =>
        AdvanceHandsOn(w, i, [], 0, []);
        FinishHandsOn(W.Advance(w, i, [], 0, []));
    }
  }

  lemma EventHandsOn(w: W.State, e: W.Event)
    requires !w.hasWritev && W.Enabled(w, e) && !e.EvOnWrite?
    ensures HandsOn(w, W.Apply(w, e))
  {
    hide W.Write, W.Uncork, W.End, W.HookReturned, W.RunTask;
    match e {
      case EvWrite(chunk) => WriteHandsOn(w, chunk);
      case EvCork =>
      case EvUncork => UncorkHandsOn(w);
      case EvEnd(last) => EndHandsOn(w, last);
      case EvHookReturned => HookReturnedHandsOn(w);
      case EvTask(i) => RunTaskHandsOn(w, i);
    }
  }

  /** A completion hands on at most the next chunk, and emits no 'prefinish' itself. */
  lemma OnWriteHandsOn(w: W.State, failed: bool)
    requires !w.hasWritev && w.writing
    ensures var v := W.OnWrite(w, failed);
            && v.hasWritev == w.hasWritev && v.prefinishes == w.prefinishes && v.failed == (w.failed || failed)
            && if |v.handed| > |w.handed| then v.writing && |v.writecb| == 1 && v.handed == w.handed + v.writecb
               else v.handed == w.handed && !v.writing
  {
    hide W.ClearBuffer, W.NeedFinish;
    var u := W.OnWriteStateUpdate(w);
    assert u.handed == w.handed && u.queue == w.queue && !u.writing && u.prefinishes == w.prefinishes
           && u.hasWritev == w.hasWritev && u.failed == w.failed;
    hide W.OnWriteStateUpdate;
    if w.queue != [] {
      ClearHandsOn(u, [W.AfterWrite(W.NeedFinish(u), w.writecb, w.writeBatch)]);
    }
    if !failed {
      ScheduleHandsOn(u, W.AfterWrite(W.NeedFinish(u), w.writecb, w.writeBatch));
    } else {
      ScheduleHandsOn(u, W.Callbacks(w.writecb, w.writeBatch, true));
    }
    hide W.Schedule;
  }

  lemma ScheduleHandsOn(w: W.State, task: W.Task)
    ensures var v := W.Schedule(w, task);
            v.handed == w.handed && v.writing == w.writing && v.prefinishes == w.prefinishes && v.hasWritev == w.hasWritev
            && v.failed == w.failed
  {
  }

  // ---- the invariant ----

  ghost predicate OnlyLastIsEof(pushed: seq<Out>) {
    forall i :: 0 <= i < |pushed| - 1 ==> pushed[i].Data?
  }

  predicate Ended(t: Transform) {
    t.pushed != [] && t.pushed[|t.pushed| - 1].Eof?
  }

  function Waiting(t: Transform): seq<W.Req> {
    if t.writechunk.Some? && !t.transforming then [t.writechunk.value] else []
  }

  function Current(t: Transform): seq<W.Req> {
    if t.writechunk.Some? && t.transforming then [t.writechunk.value] else []
  }

  /** The chunks handed on are those given to `_transform` and at most one that waits; those are the
      chunks it called back for and at most the current one. */
  ghost predicate Processing(t: Transform) {
    && (t.w.writing <==> t.writechunk.Some?)
    && (t.transforming ==> t.writechunk.Some?)
    && t.calls + Waiting(t) == t.w.handed
    && t.called + Current(t) == t.calls
  }

  ghost predicate Ending(t: Transform) {
    && !t.threw && OnlyLastIsEof(t.pushed)
    && (t.flushing ==> !Ended(t))
    && t.w.prefinishes == (if t.flushing then 1 else 0) + (if Ended(t) then 1 else 0) + (if t.flushFailed then 1 else 0)
  }

  ghost predicate Inv(t: Transform) {
    WP.Inv(t.w) && !t.w.hasWritev && Processing(t) && Ending(t)
  }

  lemma InitHolds(objectMode: bool, highWaterMark: int, hasFlush: bool)
    ensures Inv(Init(objectMode, highWaterMark, hasFlush))
  {
    WP.InitHolds(objectMode, highWaterMark, false);
    hide WP.Inv;
  }

  /** Once 'prefinish' was emitted nothing is in flight and nothing is buffered, for good. */
  lemma AfterPrefinish(w: W.State)
    requires WP.Inv(w) && w.prefinishes > 0
    ensures w.length == 0 && !w.writing && w.queue == []
  {
    WP.NothingLeft(w);
  }

  lemma PrefinishesOnce(w: W.State)
    requires WP.Inv(w)
    ensures w.prefinishes <= 1
  {
  }

  /** A chunk that reaches `_write` waits there. */
  lemma HandedKeeps(t: Transform, v: W.State)
    requires Inv(t) && WP.Inv(v) && HandsOn(t.w, v) && |v.handed| > |t.w.handed|
    ensures Inv(HookWrite(t.(w := v), v.handed[|v.handed| - 1]))
  {
    hide WP.Inv, OnlyLastIsEof;
    assert t.calls + [] == t.calls && v.handed == t.calls + v.writecb;
  }

  lemma UnhandedKeeps(t: Transform, v: W.State)
    requires Inv(t) && WP.Inv(v) && HandsOn(t.w, v) && |v.handed| <= |t.w.handed| && v.prefinishes == t.w.prefinishes
    ensures Inv(t.(w := v))
  {
    hide WP.Inv, OnlyLastIsEof;
  }

  lemma AtPrefinish(t: Transform, v: W.State)
    requires Inv(t) && WP.Inv(v) && HandsOn(t.w, v) && v.prefinishes > t.w.prefinishes
    ensures v.length == 0 && !v.writing && v.prefinishes == 1 && t.w.prefinishes == 0 && !v.hasWritev
    ensures v.handed == t.w.handed && !t.transforming && t.writechunk.None?
  {
    PrefinishesOnce(v);
    AfterPrefinish(v);
    hide WP.Inv, Ending;
  }

  lemma FlushStarts(t: Transform, v: W.State)
    requires Inv(t) && WP.Inv(v) && HandsOn(t.w, v) && v.prefinishes > t.w.prefinishes
    ensures Inv(t.(w := v).(flushing := true))
  {
    AtPrefinish(t, v);
    hide WP.Inv, HandsOn, OnlyLastIsEof;
  }

  lemma DoneKeeps(t: Transform)
    requires WP.Inv(t.w) && !t.w.hasWritev && Processing(t) && !t.threw && OnlyLastIsEof(t.pushed) && !Ended(t) && !t.flushFailed
    requires t.w.prefinishes == 1 && t.w.length == 0 && !t.transforming
    ensures Inv(Done(t))
  {
    hide WP.Inv;
  }

  /** At 'prefinish' the guards of `done` hold. */
  lemma DoneAtPrefinish(t: Transform, v: W.State)
    requires Inv(t) && WP.Inv(v) && HandsOn(t.w, v) && v.prefinishes > t.w.prefinishes
    ensures Inv(Done(t.(w := v)))
  {
    AtPrefinish(t, v);
    hide WP.Inv, HandsOn, Done, OnlyLastIsEof;
    DoneKeeps(t.(w := v));
    hide Inv;
  }

  lemma MovedKeeps(t: Transform, v: W.State)
    requires Inv(t) && WP.Inv(v) && HandsOn(t.w, v)
    ensures Inv(Moved(t, v))
  {
    hide Inv, HookWrite, Done, WP.Inv;
    if |v.handed| > |t.w.handed| {
      HandedKeeps(t, v);
    } else if v.prefinishes > t.w.prefinishes {
      FlushStarts(t, v);
      DoneAtPrefinish(t, v);
    } else {
      UnhandedKeeps(t, v);
    }
  }

  /** The middle of `afterTransform`: the chunk is answered and the completion is still to come. */
  lemma AnsweredKeeps(t: Transform, data: Option<W.Chunk>)
    requires Inv(t) && t.transforming
    ensures var u := Answered(t, data);
            u.w == t.w && u.writechunk.None? && !u.transforming && u.calls == t.w.handed && u.called == u.calls && Ending(u)
  {
    hide WP.Inv;
    AnsweredCalls(t, data);
    AnsweredEnding(t, data);
    hide Inv, Ending, Processing;
  }

  lemma AnsweredCalls(t: Transform, data: Option<W.Chunk>)
    requires Processing(t) && t.transforming
    ensures var u := Answered(t, data); u.calls == t.w.handed && u.called == u.calls
  {
    assert t.calls + [] == t.calls;
  }

  lemma AnsweredEnding(t: Transform, data: Option<W.Chunk>)
    requires Inv(t) && t.transforming
    ensures Ending(Answered(t, data))
  {
    Busy(t);
    NotEndedWhileBusy(t);
    assert t.writechunk.Some? && Ending(t) && t.w.prefinishes == 0 by {
      if t.w.prefinishes > 0 {
        AfterPrefinish(t.w);
      }
    }
    hide Inv;
  }

  lemma Busy(t: Transform)
    requires Inv(t) && t.transforming
    ensures t.writechunk.Some? && t.w.writing && WP.Inv(t.w) && !t.w.hasWritev
  {
    hide WP.Inv;
  }

  lemma AnswerKeeps(t: Transform, failed: bool, data: Option<W.Chunk>)
    requires Inv(t) && t.transforming
    ensures Inv(AfterTransform(t, failed, data))
  {
    hide WP.Inv, W.OnWrite, Ending, Answered, Moved, Inv;
    Busy(t);
    WP.OnWriteKeeps(t.w, failed);
    OnWriteHandsOn(t.w, failed);
    AnsweredKeeps(t, data);
    CompletedKeeps(Answered(t, data), W.OnWrite(t.w, failed));
  }

  lemma CompletedKeeps(u: Transform, v: W.State)
    requires u.writechunk.None? && !u.transforming && Ending(u) && u.calls == u.w.handed && u.called == u.calls
    requires WP.Inv(v) && !v.hasWritev && v.prefinishes == u.w.prefinishes
    requires if |v.handed| > |u.w.handed| then v.writing && |v.writecb| == 1 && v.handed == u.w.handed + v.writecb
             else v.handed == u.w.handed && !v.writing
    ensures Inv(Moved(u, v))
  {
    hide WP.Inv, OnlyLastIsEof;
  }

  lemma FlushDoneKeeps(t: Transform)
    requires Inv(t) && t.flushing
    ensures Inv(Done(t)) && Inv(FlushFails(t))
  {
    AfterPrefinish(t.w);
    PrefinishesOnce(t.w);
    hide WP.Inv;
  }

  /** While a flush runs the guards of `done` hold, so it ends with the end of file, or with its error and without. */
  lemma FlushEndsIn(t: Transform)
    requires Inv(t) && t.flushing
    ensures t.w.length == 0 && !t.transforming && Ended(Done(t)) && !Ended(FlushFails(t))
  {
    AfterPrefinish(t.w);
    hide WP.Inv;
  }

  lemma ReadKeeps(t: Transform)
    requires Inv(t)
    ensures Inv(Read(t))
  {
    hide WP.Inv, OnlyLastIsEof;
    if t.writechunk.Some? && !t.transforming {
      assert t.called + [t.writechunk.value] == t.calls + [t.writechunk.value];
    }
  }

  lemma PushKeeps(t: Transform, chunk: W.Chunk)
    requires Inv(t) && (t.transforming || t.flushing)
    ensures Inv(Push(t, Data(chunk)))
  {
    if t.w.prefinishes > 0 {
      AfterPrefinish(t.w);
    }
    hide WP.Inv;
  }

  lemma StepKeeps(t: Transform, step: Step)
    requires Inv(t) && Enabled(t, step)
    ensures Inv(Apply(t, step))
  {
    assert WP.Inv(t.w) && !t.w.hasWritev;
    hide Inv, WP.Inv, W.Apply, W.Enabled, Moved, AfterTransform, Done, FlushFails, Read, Push, HandsOn;
    match step {
      case OnWritable(e) =>
        WP.StepKeeps(t.w, e);
        EventHandsOn(t.w, e);
        MovedKeeps(t, W.Apply(t.w, e));
      case Ask => ReadKeeps(t);
      case UserPush(chunk) => PushKeeps(t, chunk);
      case Answer(failed, data) => AnswerKeeps(t, failed, data);
      case FlushDone(_) => FlushDoneKeeps(t);
    }
  }

  lemma {:induction false} RunKeeps(t: Transform, steps: seq<Step>, u: Transform)
    requires Inv(t) && Run(t, steps, u)
    ensures Inv(u)
    decreases |steps|
  {
    hide Inv, Apply, Enabled;
    if steps != [] {
      StepKeeps(t, steps[0]);
      RunKeeps(Apply(t, steps[0]), steps[1..], u);
    }
  }

  // ---- what a user of a Transform sees ----

  /** In every run: the chunks given to `_transform` are a prefix of what the writable side handed on, in
      order and each once; neither throw of `done` is reached; nothing is pushed behind the end of file, which comes
      at 'prefinish' or when the flush ends, unless that failed; and
      once the end of file is pushed every accepted chunk was transformed and answered, in write order
      unless a write failed. */
  lemma TransformsEveryChunkOnce(objectMode: bool, highWaterMark: int, hasFlush: bool, steps: seq<Step>, t: Transform)
    requires Run(Init(objectMode, highWaterMark, hasFlush), steps, t)
    ensures t.calls <= t.w.handed && |t.w.handed| <= |t.calls| + 1
    ensures !t.w.failed ==> t.w.handed <= t.w.accepted
    ensures !t.threw && OnlyLastIsEof(t.pushed)
    ensures t.w.prefinishes > 0 && !t.flushing ==> (Ended(t) <==> !t.flushFailed)
    ensures Ended(t) ==> t.called == t.calls == t.w.handed && multiset(t.called) == multiset(t.w.accepted)
    ensures Ended(t) && !t.w.failed ==> t.called == t.w.accepted
  {
    InitHolds(objectMode, highWaterMark, hasFlush);
    RunKeeps(Init(objectMode, highWaterMark, hasFlush), steps, t);
    PrefinishesOnce(t.w);
    hide Run, OnlyLastIsEof;
    if Ended(t) {
      AfterPrefinish(t.w);
      var none: seq<W.Req> := [];
      assert t.w.queue == none && multiset(none) == multiset{};
      assert t.calls + none == t.calls && t.called + none == t.called && t.w.handed + none == t.w.handed;
    }
  }

  /** What a step hands to `push` itself. */
  function PushedBy(t: Transform, step: Step): seq<Out> {
    match step
    case UserPush(chunk) => [Data(chunk)]
    case Answer(_, Some(data)) => if t.writechunk.Some? then [Data(data)] else []
    case FlushDone(failed) => if failed then [] else [Eof]
    case _ => []
  }

  /** Whether a step emits 'prefinish'. */
  predicate Prefinishes(t: Transform, u: Transform) {
    u.w.prefinishes > t.w.prefinishes
  }

  /** At 'prefinish' the flush begins if there is one, or the end of file is pushed; otherwise what is pushed is what the user's
      transform gave; and a request stays open from when it finds nothing to transform until something is pushed. */
  ghost predicate Lawful(t: Transform, step: Step, u: Transform) {
    && u.hasFlush == t.hasFlush
    && u.pushed == t.pushed + PushedBy(t, step) + (if Prefinishes(t, u) && !t.hasFlush then [Eof] else [])
    && (Prefinishes(t, u) && t.hasFlush ==> u.flushing)
    && (u.needTransform <==> u.pushed == t.pushed && (t.needTransform || (step.Ask? && !(t.writechunk.Some? && !t.transforming))))
  }

  lemma MovedLawful(t: Transform, v: W.State, step: Step)
    requires Inv(t) && WP.Inv(v) && HandsOn(t.w, v) && PushedBy(t, step) == [] && !step.Ask?
    ensures Lawful(t, step, Moved(t, v))
  {
    hide Inv, WP.Inv, Done, HandsOn, Lawful, PushedBy;
    if |v.handed| > |t.w.handed| || v.prefinishes <= t.w.prefinishes {
      HandsMeans(t.w, v);
      MovedCalm(t, v);
      CalmLawful(t, step, Moved(t, v));
    } else {
      AtPrefinish(t, v);
      PrefinishLawful(t, v, step);
    }
  }

  lemma HandsMeans(w: W.State, v: W.State)
    requires HandsOn(w, v)
    ensures |v.handed| > |w.handed| || v.prefinishes <= w.prefinishes ==> v.prefinishes == w.prefinishes
  {
  }

  lemma CalmLawful(t: Transform, step: Step, u: Transform)
    requires u.hasFlush == t.hasFlush && u.pushed == t.pushed && u.needTransform == t.needTransform && u.w.prefinishes == t.w.prefinishes
    requires PushedBy(t, step) == [] && !step.Ask?
    ensures Lawful(t, step, u)
  {
    assert t.pushed + [] + [] == t.pushed;
  }

  lemma PrefinishLawful(t: Transform, v: W.State, step: Step)
    requires |v.handed| <= |t.w.handed| && v.prefinishes > t.w.prefinishes && v.length == 0 && !t.transforming
    requires PushedBy(t, step) == [] && !step.Ask?
    ensures Lawful(t, step, Moved(t, v))
  {
    hide PushedBy;
    assert t.pushed + [] + [Eof] == t.pushed + [Eof] && t.pushed + [] + [] == t.pushed;
  }

  lemma MovedCalm(t: Transform, v: W.State)
    requires v.prefinishes == t.w.prefinishes
    ensures var u := Moved(t, v);
            u.hasFlush == t.hasFlush && u.pushed == t.pushed && u.needTransform == t.needTransform && u.w.prefinishes == v.prefinishes
  {
    hide Done;
  }

  lemma AnsweredLawful(t: Transform, data: Option<W.Chunk>)
    requires t.writechunk.Some?
    ensures var u := Answered(t, data);
            && u.hasFlush == t.hasFlush && u.w == t.w && u.pushed == t.pushed + (if data.Some? then [Data(data.value)] else [])
            && u.needTransform == (t.needTransform && data.None?)
  {
    assert t.pushed + [] == t.pushed;
  }

  lemma AnswerLawful(t: Transform, failed: bool, data: Option<W.Chunk>)
    requires Inv(t) && t.transforming
    ensures Lawful(t, Answer(failed, data), AfterTransform(t, failed, data))
  {
    hide Inv, WP.Inv, W.OnWrite, Moved, Answered;
    Busy(t);
    OnWriteHandsOn(t.w, failed);
    AnsweredLawful(t, data);
    MovedCalm(Answered(t, data), W.OnWrite(t.w, failed));
    assert t.pushed + [] + [] == t.pushed;
  }

  lemma FlushLawful(t: Transform, failed: bool)
    requires Inv(t) && t.flushing
    ensures Lawful(t, FlushDone(failed), if failed then FlushFails(t) else Done(t))
  {
    FlushEndsIn(t);
    hide Inv, WP.Inv, Ended;
    assert t.pushed + [] + [] == t.pushed;
  }

  lemma PushLawful(t: Transform, chunk: W.Chunk)
    ensures Lawful(t, UserPush(chunk), Push(t, Data(chunk)))
  {
    assert t.pushed + [Data(chunk)] + [] == t.pushed + [Data(chunk)];
  }

  lemma ReadLawful(t: Transform)
    ensures Lawful(t, Ask, Read(t))
  {
    assert t.pushed + [] + [] == t.pushed;
  }

  /** In every state of a run every step obeys these laws. */
  lemma StepLawful(t: Transform, step: Step)
    requires Inv(t) && Enabled(t, step)
    ensures Lawful(t, step, Apply(t, step))
  {
    assert WP.Inv(t.w) && !t.w.hasWritev;
    hide Inv, WP.Inv, W.Apply, W.Enabled, Moved, AfterTransform, Done, FlushFails, Read, Push, HandsOn, Lawful;
    match step {
      case OnWritable(e) =>
        WP.StepKeeps(t.w, e);
        EventHandsOn(t.w, e);
        MovedLawful(t, W.Apply(t.w, e), step);
      case Ask => ReadLawful(t);
      case UserPush(chunk) => PushLawful(t, chunk);
      case Answer(failed, data) => AnswerLawful(t, failed, data);
      case FlushDone(failed) => FlushLawful(t, failed);
    }
  }

  // ---- PassThrough ----

  /** PassThrough answers with the chunk it was given and never pushes by itself. */
  ghost predicate PassThroughRun(t: Transform, steps: seq<Step>, u: Transform)
    decreases |steps|
  {
    if steps == [] then t == u
    else
      && Enabled(t, steps[0]) && !steps[0].UserPush?
      && (steps[0].Answer? ==> t.writechunk.Some? && steps[0] == Answer(false, Some(t.writechunk.value.chunk)))
      && PassThroughRun(Apply(t, steps[0]), steps[1..], u)
  }

  function Datas(reqs: seq<W.Req>): (r: seq<Out>)
    ensures |r| == |reqs|
    ensures forall i :: 0 <= i < |r| ==> r[i] == Data(reqs[i].chunk)
  {
    seq(|reqs|, i requires 0 <= i < |reqs| => Data(reqs[i].chunk))
  }

  /** What was pushed is what was answered, and the end of file if it came. */
  ghost predicate Copies(t: Transform) {
    t.pushed == Datas(t.called) + if Ended(t) then [Eof] else []
  }

  lemma DoneCopies(t: Transform)
    requires Copies(t) && !Ended(t)
    ensures Copies(Done(t)) && Done(t).w == t.w
  {
    hide Datas;
    assert Datas(t.called) + [] == Datas(t.called);
  }

  lemma SameCopies(t: Transform, u: Transform)
    requires Copies(t) && u.pushed == t.pushed && u.called == t.called
    ensures Copies(u)
  {
    hide Datas;
  }

  lemma MovedCopies(t: Transform, v: W.State)
    requires Copies(t) && (v.prefinishes > t.w.prefinishes && |v.handed| <= |t.w.handed| ==> !Ended(t))
    ensures Copies(Moved(t, v)) && Moved(t, v).w == v
  {
    hide Copies, Done;
    SameCopies(t, t.(w := v));
    if |v.handed| > |t.w.handed| {
      SameCopies(t, HookWrite(t.(w := v), v.handed[|v.handed| - 1]));
    } else if v.prefinishes > t.w.prefinishes {
      SameCopies(t, t.(w := v).(flushing := true));
      DoneCopies(t.(w := v));
    }
  }

  lemma AnsweredCopies(t: Transform)
    requires Copies(t) && !Ended(t) && t.writechunk.Some?
    ensures var u := Answered(t, Some(t.writechunk.value.chunk));
            Copies(u) && !Ended(u) && u.w == t.w
  {
    var u := Answered(t, Some(t.writechunk.value.chunk));
    assert Datas(t.called) + [] == Datas(t.called);
    assert Datas(u.called) == Datas(t.called) + [Data(t.writechunk.value.chunk)];
    assert u.pushed == Datas(u.called) + [];
  }

  lemma NotEndedWhileBusy(t: Transform)
    requires Inv(t) && (t.transforming || t.flushing)
    ensures !Ended(t)
  {
    if t.w.prefinishes > 0 {
      AfterPrefinish(t.w);
    }
    hide WP.Inv;
  }

  lemma EndedMeansPrefinished(t: Transform, v: W.State)
    requires Inv(t) && WP.Inv(v) && v.prefinishes > t.w.prefinishes
    ensures !Ended(t)
  {
    PrefinishesOnce(v);
    hide WP.Inv;
  }

  lemma WritableCopies(t: Transform, e: W.Event)
    requires Inv(t) && Copies(t) && !t.w.failed && Enabled(t, OnWritable(e))
    ensures Copies(Apply(t, OnWritable(e))) && !Apply(t, OnWritable(e)).w.failed
  {
    assert WP.Inv(t.w) && !t.w.hasWritev;
    hide Inv, WP.Inv, W.Apply, W.Enabled, Moved, Copies, Ended;
    var v := W.Apply(t.w, e);
    WP.StepKeeps(t.w, e);
    EventHandsOn(t.w, e);
    if v.prefinishes > t.w.prefinishes {
      EndedMeansPrefinished(t, v);
    }
    MovedCopies(t, v);
  }

  lemma AnswerCopies(t: Transform)
    requires Inv(t) && Copies(t) && !t.w.failed && t.transforming && t.writechunk.Some?
    ensures var u := Apply(t, Answer(false, Some(t.writechunk.value.chunk))); Copies(u) && !u.w.failed
  {
    hide Inv, WP.Inv, W.OnWrite, Moved, Copies, Ended, Answered, W.Apply;
    Busy(t);
    NotEndedWhileBusy(t);
    AnsweredCopies(t);
    OnWriteHandsOn(t.w, false);
    MovedCopies(Answered(t, Some(t.writechunk.value.chunk)), W.OnWrite(t.w, false));
  }

  lemma AskCopies(t: Transform)
    requires Copies(t) && !t.w.failed
    ensures Copies(Read(t)) && !Read(t).w.failed
  {
    hide Datas;
  }

  lemma FlushCopies(t: Transform)
    requires Inv(t) && Copies(t) && !t.w.failed && t.flushing
    ensures Copies(Done(t)) && !Done(t).w.failed && Copies(FlushFails(t)) && !FlushFails(t).w.failed
  {
    hide Inv, Datas;
    NotEndedWhileBusy(t);
    DoneCopies(t);
  }

  lemma StepCopies(t: Transform, step: Step)
    requires Inv(t) && Copies(t) && !t.w.failed && Enabled(t, step) && !step.UserPush?
    requires step.Answer? ==> t.writechunk.Some? && step == Answer(false, Some(t.writechunk.value.chunk))
    ensures Copies(Apply(t, step)) && !Apply(t, step).w.failed
  {
    hide Inv, Copies, W.Enabled, Moved, AfterTransform, Read, Done;
    match step {
      case OnWritable(e) => WritableCopies(t, e);
      case Answer(_, _) => AnswerCopies(t);
      case Ask => AskCopies(t);
      case FlushDone(_) => FlushCopies(t);
    }
  }

  lemma {:induction false} PassThroughKeeps(t: Transform, steps: seq<Step>, u: Transform)
    requires Inv(t) && Copies(t) && !t.w.failed && PassThroughRun(t, steps, u)
    ensures Inv(u) && Copies(u) && !u.w.failed
    decreases |steps|
  {
    hide Inv, Copies, Apply, Enabled;
    if steps != [] {
      StepKeeps(t, steps[0]);
      StepCopies(t, steps[0]);
      PassThroughKeeps(Apply(t, steps[0]), steps[1..], u);
    }
  }

  /** PassThrough: at every moment the chunks pushed are the first chunks written, and at the end of file
      they are all of them. */
  lemma PassThroughCopies(objectMode: bool, highWaterMark: int, steps: seq<Step>, t: Transform)
    requires PassThroughRun(Init(objectMode, highWaterMark, false), steps, t)
    ensures t.pushed == Datas(t.called) + if Ended(t) then [Eof] else []
    ensures t.called <= t.w.accepted
    ensures Ended(t) ==> t.pushed == Datas(t.w.accepted) + [Eof]
  {
    var init := Init(objectMode, highWaterMark, false);
    assert Copies(init);
    hide PassThroughRun, Inv;
    InitHolds(objectMode, highWaterMark, false);
    PassThroughKeeps(init, steps, t);
    CalledAreAccepted(t);
  }

  lemma CalledAreAccepted(t: Transform)
    requires Inv(t) && !t.w.failed
    ensures t.called <= t.w.accepted && (Ended(t) ==> t.called == t.w.accepted)
  {
    hide OnlyLastIsEof;
    if Ended(t) {
      AfterPrefinish(t.w);
      var none: seq<W.Req> := [];
      assert t.w.queue == none;
      assert t.calls + none == t.calls && t.called + none == t.called && t.w.handed + none == t.w.handed;
    }
  }
}
