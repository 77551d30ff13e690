/** lib/_stream_writable.js as a state machine on values. `_write`/`_writev` are the environment: a
    call of the hook suspends the caller until `HookReturned`, and the hook's callback is `OnWrite`,
    before or after that return. User callbacks and 'drain' handlers may call the stream again, so the
    phases of `afterWrite` are separate tasks that other steps may interleave with. */
module WritableSpec {
  import opened Wrappers
  import Bytes

  type Chunk = Bytes.Bytes

  /** An accepted write; `id` tells apart writes of equal chunks and names the write's callback. */
  datatype Req = Req(id: nat, chunk: Chunk)

  /** What is left of a completed write: `afterWrite` before and after its drain test, the callbacks of
      a failed write, and the final `finishMaybe`. A batch owes one extra decrement of `pendingcb`. */
  datatype Task =
    | AfterWrite(finished: bool, reqs: seq<Req>, batch: bool)
    | Callbacks(reqs: seq<Req>, batch: bool, failed: bool)
    | FinishMaybe
  {
    function Owed(): seq<Req> {
      if FinishMaybe? then [] else reqs
    }

    function Decrements(): nat {
      if FinishMaybe? then 0 else |reqs| + if batch then 1 else 0
    }
  }

  /** Whether a `clearBuffer` is suspended in its hook: in the slow loop or in the batched write. */
  datatype Clearing = Idle | One | Batch

  /** Whether an `end` is suspended: in the hook of its own write or of its uncork. */
  datatype Ending = NotEnding | EndAfterWrite | EndAfterUncork

  datatype State = State(
    objectMode: bool, highWaterMark: int, hasWritev: bool,
    needDrain: bool, ending: bool, ended: bool, finished: bool, length: int, writing: bool, corked: nat, sync: bool,
    writecb: seq<Req>, writeBatch: bool, writelen: int, queue: seq<Req>, pendingcb: int, prefinished: bool,
    inWrite: bool, clearing: Clearing, resume: seq<Task>, endPhase: Ending, tasks: seq<Task>,
    // history
    accepted: seq<Req>, handed: seq<Req>, ran: seq<Req>, failed: bool, prefinishes: nat, finishes: nat, drains: seq<int>)
  {
    /** No hook is on the stack: the user may call the stream. */
    predicate Ready() {
      !inWrite && clearing.Idle? && endPhase == NotEnding
    }
  }

  function Init(objectMode: bool, highWaterMark: int, hasWritev: bool): State {
    State(objectMode, highWaterMark, hasWritev, false, false, false, false, 0, false, 0, true,
          [], false, 0, [], 0, false, false, Idle, [], NotEnding, [], [], [], [], false, 0, 0, [])
  }

  function Size(req: Req, objectMode: bool): nat {
    if objectMode then 1 else |req.chunk|
  }

  // ---- the functions of the source ----

  function DoWrite(s: State, batch: bool, len: int, reqs: seq<Req>): State {
    s.(writelen := len, writecb := reqs, writeBatch := batch, writing := true, sync := true, handed := s.handed + reqs)
  }

  /** An accepted write, before it goes anywhere. */
  function Counted(s: State, req: Req): State {
    var len := Size(req, s.objectMode);
    s.(pendingcb := s.pendingcb + 1, length := s.length + len, accepted := s.accepted + [req],
       needDrain := s.needDrain || s.length + len >= s.highWaterMark)
  }

  /** `writeOrBuffer` behind a write in flight or a cork. */
  function Enqueue(s: State, req: Req): State {
    Counted(s, req).(queue := s.queue + [req])
  }

  /** `writeOrBuffer` straight to the hook. */
  function Direct(s: State, req: Req): State {
    var len := Size(req, s.objectMode);
    s.(pendingcb := s.pendingcb + 1, length := s.length + len, accepted := s.accepted + [req],
       needDrain := s.needDrain || s.length + len >= s.highWaterMark,
       writelen := len, writecb := [req], writeBatch := false, writing := true, sync := true, handed := s.handed + [req],
       inWrite := true)
  }

  function Write(s: State, chunk: Chunk): State {
    var req := Req(|s.accepted|, chunk);
    if s.ended then s else if s.writing || s.corked != 0 then Enqueue(s, req) else Direct(s, req)
  }

  function ClearOne(s: State): State
    requires s.queue != []
  {
    DoWrite(s.(queue := s.queue[1..], clearing := One), false, Size(s.queue[0], s.objectMode), [s.queue[0]])
  }

  function ClearBuffer(s: State, resume: seq<Task>): State
    requires s.queue != []
  {
    if s.hasWritev && |s.queue| > 1 then DoWrite(Gathered(s, resume), true, s.length, s.queue)
    else ClearOne(s.(resume := resume))
  }

  /** The whole buffer is taken for a batch. */
  function Gathered(s: State, resume: seq<Task>): State {
    s.(pendingcb := s.pendingcb + 1, queue := [], clearing := Batch, resume := resume)
  }

  function Cork(s: State): State {
    s.(corked := s.corked + 1)
  }

  function Uncork(s: State): State {
    if s.corked == 0 then s
    else
      var s' := s.(corked := s.corked - 1);
      if !s'.writing && s'.corked == 0 && !s'.finished && s'.clearing.Idle? && s'.queue != [] then ClearBuffer(s', [])
      else s'
  }

  predicate NeedFinish(s: State) {
    s.ending && s.length == 0 && s.queue == [] && s.clearing.Idle? && !s.finished && !s.writing
  }

  /** `finishMaybe`. */
  function Finish(s: State): State {
    if !NeedFinish(s) then s
    else s.(prefinished := true, prefinishes := s.prefinishes + if s.prefinished then 0 else 1,
            finished := s.pendingcb == 0, finishes := s.finishes + if s.pendingcb == 0 then 1 else 0)
  }

  /** The source sets `ended` last, but `finishMaybe` does not look at it. */
  function EndWritable(s: State): State {
    Finish(s.(ending := true, ended := true))
  }

  function EndUncork(s: State): State {
    var s' := if s.corked != 0 then Uncork(s.(corked := 1)) else s;
    if !s'.clearing.Idle? then s'.(endPhase := EndAfterUncork) else EndTail(s')
  }

  function EndTail(s: State): State {
    if !s.ending && !s.finished then EndWritable(s) else s
  }

  function End(s: State, chunk: Option<Chunk>): State {
    var s' := if chunk.Some? then Write(s, chunk.value) else s;
    if s'.inWrite then s'.(endPhase := EndAfterWrite) else EndUncork(s')
  }

  /** What a suspended `end` goes on with once no hook is on the stack. */
  function ContinueEnd(s: State): State {
    if s.inWrite || !s.clearing.Idle? then s
    else match s.endPhase
      case NotEnding => s
      case EndAfterWrite => EndUncork(s.(endPhase := NotEnding))
      case EndAfterUncork => EndTail(s.(endPhase := NotEnding))
  }

  /** `clearBuffer` is done; the completion that called it goes on. */
  function ClearDone(s: State): State {
    s.(sync := false, clearing := Idle, resume := [], tasks := s.tasks + s.resume)
  }

  /** The hook on top of the stack returns to `doWrite` and its caller goes on. */
  function HookReturned(s: State): State {
    if s.clearing.Idle? then ContinueEnd(s.(sync := false, inWrite := false))
    else if s.clearing.One? && !s.writing && s.queue != [] then ClearOne(s.(sync := false))
    else ContinueEnd(ClearDone(s))
  }

  function OnWriteStateUpdate(s: State): State {
    s.(writing := false, writecb := [], writeBatch := false, length := s.length - s.writelen, writelen := 0)
  }

  function Schedule(s: State, task: Task): State {
    s.(tasks := s.tasks + [task])
  }

  /** The hook's callback. */
  function OnWrite(s: State, failed: bool): State {
    var s' := OnWriteStateUpdate(s);
    if failed then Schedule(s', Callbacks(s.writecb, s.writeBatch, true)).(failed := true)
    else
      var task := AfterWrite(NeedFinish(s'), s.writecb, s.writeBatch);
      if !task.finished && s.corked == 0 && s.clearing.Idle? && s.queue != [] then ClearBuffer(s', [task])
      else Schedule(s', task)
  }

  function OnWriteDrain(s: State): State {
    if s.length == 0 && s.needDrain then s.(needDrain := false, drains := s.drains + [s.length]) else s
  }

  function Replace(tasks: seq<Task>, i: nat, left: seq<Task>): seq<Task>
    requires i < |tasks|
  {
    tasks[..i] + left + tasks[i + 1..]
  }

  /** Task i counts down, calls its next callbacks and leaves the rest. */
  function Advance(s: State, i: nat, left: seq<Task>, dec: nat, calls: seq<Req>): State
    requires i < |s.tasks|
  {
    s.(tasks := Replace(s.tasks, i, left), pendingcb := s.pendingcb - dec, ran := s.ran + calls)
  }

  /** One phase of a pending task. */
  function RunTask(s: State, i: nat): State
    requires i < |s.tasks|
  {
    match s.tasks[i]
    case AfterWrite(finished, reqs, batch) =>
      Advance(if finished then s else OnWriteDrain(s), i, [Callbacks(reqs, batch, false)], 0, [])
    case Callbacks(reqs, batch, failed) =>
      if batch then Advance(s, i, [Callbacks(reqs, false, failed)], 1, [])
      else if reqs != [] then Advance(s, i, [Callbacks(reqs[1..], false, failed)], 1, [reqs[0]])
      else Advance(s, i, if failed then [] else [FinishMaybe], 0, [])
    case FinishMaybe =>
      Finish(Advance(s, i, [], 0, []))
  }

  // ---- runs ----

  datatype Event =
    | EvWrite(chunk: Chunk) | EvCork | EvUncork | EvEnd(last: Option<Chunk>)
    | EvHookReturned | EvOnWrite(failed: bool) | EvTask(i: nat)

  /** The user does not call from inside a hook, and a hook's callback is called once. */
  predicate Enabled(s: State, e: Event) {
    match e
    case EvHookReturned => !s.Ready()
    case EvOnWrite(_) => s.writing
    case EvTask(i) => i < |s.tasks|
    case _ => s.Ready()
  }

  function Apply(s: State, e: Event): State
    requires Enabled(s, e)
  {
    match e
    case EvWrite(chunk) => Write(s, chunk)
    case EvCork => Cork(s)
    case EvUncork => Uncork(s)
    case EvEnd(last) => End(s, last)
    case EvHookReturned => HookReturned(s)
    case EvOnWrite(failed) => OnWrite(s, failed)
    case EvTask(i) => RunTask(s, i)
  }

  ghost predicate Run(s: State, events: seq<Event>, t: State)
    decreases |events|
  {
    if events == [] then s == t
    else Enabled(s, events[0]) && Run(Apply(s, events[0]), events[1..], t)
  }
}
