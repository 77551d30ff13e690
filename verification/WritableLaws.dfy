/** What a user of a writable stream can count on, step by step and over every run: which writes are accepted, when 'drain'
    and 'finish' are emitted, and when the hooks are called. */
module WritableLaws {
  import opened Wrappers
  import opened WritableSpec
  import opened WritableProofs
  import B = Bytes

  // ---- what the steps inside a call leave alone ----

  ghost predicate SameOptions(s: State, t: State) {
    t.objectMode == s.objectMode && t.highWaterMark == s.highWaterMark && t.hasWritev == s.hasWritev
  }

  /** No write is accepted, no 'drain' is owed or emitted, and the hook is called only by a stream that is not corked. */
  ghost predicate Calm(s: State, t: State) {
    && SameOptions(s, t)
    && t.accepted == s.accepted && t.drains == s.drains && t.needDrain == s.needDrain
    && (t.handed == s.handed || t.corked == 0)
  }

  lemma CalmSelf(s: State)
    ensures Calm(s, s)
  {
  }

  lemma CalmClear(s: State, resume: seq<Task>)
    requires s.queue != [] && s.corked == 0
    ensures Calm(s, ClearBuffer(s, resume))
  {
    hide Calm, DoWrite, Gathered, Size;
    if s.hasWritev && |s.queue| > 1 {
      CalmGathered(s, resume);
      CalmDoWrite(Gathered(s, resume), true, s.length, s.queue);
      CalmJoin(s, Gathered(s, resume), ClearBuffer(s, resume));
    } else {
      var u := s.(resume := resume);
      CalmTaken(s, resume);
      CalmDoWrite(u.(queue := u.queue[1..], clearing := One), false, Size(u.queue[0], u.objectMode), [u.queue[0]]);
      CalmJoin(s, u.(queue := u.queue[1..], clearing := One), ClearBuffer(s, resume));
    }
  }

  lemma CalmGathered(s: State, resume: seq<Task>)
    ensures Calm(s, Gathered(s, resume)) && Gathered(s, resume).corked == s.corked
  {
  }

  lemma CalmTaken(s: State, resume: seq<Task>)
    requires s.queue != []
    ensures var u := s.(resume := resume); var t := u.(queue := u.queue[1..], clearing := One); Calm(s, t) && t.corked == s.corked
  {
  }

  lemma CalmDoWrite(s: State, batch: bool, len: int, reqs: seq<Req>)
    requires s.corked == 0
    ensures Calm(s, DoWrite(s, batch, len, reqs)) && DoWrite(s, batch, len, reqs).corked == 0
  {
  }

  /** Another setting of what Calm does not look at. */
  lemma CalmVia(s: State, u: State, t: State)
    requires Calm(u, t) && SameOptions(s, u)
    requires u.accepted == s.accepted && u.drains == s.drains && u.needDrain == s.needDrain && u.handed == s.handed
    ensures Calm(s, t)
  {
  }

  lemma CalmUncork(s: State)
    ensures Calm(s, Uncork(s))
  {
    hide ClearBuffer, Calm;
    CalmSelf(s);
    if s.corked > 0 {
      var u := s.(corked := s.corked - 1);
      CalmSelf(u);
      CalmVia(s, u, u);
      if u.queue != [] && u.corked == 0 {
        CalmClear(u, []);
        CalmVia(s, u, ClearBuffer(u, []));
      }
    }
  }

  lemma CalmFinish(s: State)
    ensures Calm(s, Finish(s)) && Finish(s).corked == s.corked && Finish(s).handed == s.handed
  {
  }

  lemma CalmEndTail(s: State)
    ensures Calm(s, EndTail(s)) && EndTail(s).corked == s.corked && EndTail(s).handed == s.handed
  {
    hide Finish, Calm;
    CalmSelf(s);
    var u := s.(ending := true, ended := true);
    CalmFinish(u);
    CalmVia(s, u, Finish(u));
  }

  lemma CalmJoin(s: State, u: State, t: State)
    requires Calm(s, u) && Calm(u, t) && (t.corked == u.corked || t.corked == 0)
    ensures Calm(s, t)
  {
  }

  lemma CalmEndUncork(s: State)
    ensures Calm(s, EndUncork(s))
  {
    hide Uncork, EndTail, Calm;
    var u := s;
    CalmSelf(s);
    if s.corked != 0 {
      CalmUncork(s.(corked := 1));
      u := Uncork(s.(corked := 1));
      CalmVia(s, s.(corked := 1), u);
    }
    CalmEndTail(u);
    CalmJoin(s, u, EndTail(u));
    CalmPhase(u, EndAfterUncork);
    CalmJoin(s, u, u.(endPhase := EndAfterUncork));
  }

  lemma CalmPhase(s: State, phase: Ending)
    ensures Calm(s, s.(endPhase := phase))
  {
  }

  lemma CalmContinueEnd(s: State)
    ensures Calm(s, ContinueEnd(s))
  {
    hide EndUncork, EndTail, Calm;
    CalmSelf(s);
    var u := s.(endPhase := NotEnding);
    match s.endPhase {
      case NotEnding =>
      case EndAfterWrite =>
        CalmEndUncork(u);
        CalmVia(s, u, EndUncork(u));
      case EndAfterUncork =>
        CalmEndTail(u);
        CalmVia(s, u, EndTail(u));
    }
  }

  /** The same of a hook's return, unless `clearBuffer` is in its loop, which goes on when the stream is corked meanwhile. */
  ghost predicate CalmBut(s: State, t: State) {
    && SameOptions(s, t)
    && t.accepted == s.accepted && t.drains == s.drains && t.needDrain == s.needDrain
    && (t.handed == s.handed || t.corked == 0 || s.clearing.One?)
  }

  lemma ButCalm(s: State, t: State)
    requires Calm(s, t)
    ensures CalmBut(s, t)
  {
  }

  lemma CalmReturn(s: State)
    ensures Calm(s, s.(sync := false, inWrite := false)) && Calm(s, ClearDone(s)) && ClearDone(s).handed == s.handed
  {
  }

  lemma CalmLoop(s: State)
    requires s.clearing.One? && s.queue != []
    ensures CalmBut(s, ClearOne(s.(sync := false)))
  {
    hide Size;
  }

  lemma CalmHookReturned(s: State)
    ensures CalmBut(s, HookReturned(s))
  {
    hide ContinueEnd, ClearOne, ClearDone, Calm, CalmBut;
    CalmReturn(s);
    if s.clearing.Idle? {
      var u := s.(sync := false, inWrite := false);
      CalmContinueEnd(u);
      CalmThen(s, u, ContinueEnd(u));
    } else if s.clearing.One? && !s.writing && s.queue != [] {
      CalmLoop(s);
    } else {
      CalmContinueEnd(ClearDone(s));
      CalmThen(s, ClearDone(s), ContinueEnd(ClearDone(s)));
    }
  }

  /** Nothing is handed on in front. */
  lemma CalmThen(s: State, u: State, t: State)
    requires Calm(s, u) && u.handed == s.handed && Calm(u, t)
    ensures Calm(s, t) && CalmBut(s, t)
  {
  }

  lemma CalmUpdate(s: State)
    ensures Calm(s, OnWriteStateUpdate(s)) && OnWriteStateUpdate(s).handed == s.handed
    ensures OnWriteStateUpdate(s).queue == s.queue && OnWriteStateUpdate(s).corked == s.corked
  {
  }

  lemma CalmSchedule(s: State, task: Task)
    ensures Calm(s, Schedule(s, task)) && Schedule(s, task).handed == s.handed
  {
  }

  lemma CalmFailed(s: State)
    ensures Calm(s, s.(failed := true))
  {
  }

  lemma CalmOnWrite(s: State, failed: bool)
    ensures CalmBut(s, OnWrite(s, failed))
  {
    hide OnWriteStateUpdate, ClearBuffer, NeedFinish, Schedule, Calm, CalmBut;
    CalmUpdate(s);
    var u := OnWriteStateUpdate(s);
    var task := AfterWrite(NeedFinish(u), s.writecb, s.writeBatch);
    var f := Schedule(u, Callbacks(s.writecb, s.writeBatch, true));
    CalmSchedule(u, Callbacks(s.writecb, s.writeBatch, true));
    CalmFailed(f);
    CalmThen(u, f, f.(failed := true));
    CalmSchedule(u, task);
    if s.queue != [] && s.corked == 0 {
      CalmClear(u, [task]);
    }
    CalmThen(s, u, OnWrite(s, failed));
  }

  lemma CalmCork(s: State)
    ensures CalmBut(s, Cork(s))
  {
  }

  // ---- writes ----

  /** The chunk that an event writes. */
  function Written(e: Event): Option<Chunk> {
    match e
    case EvWrite(chunk) => Some(chunk)
    case EvEnd(last) => last
    case _ => None
  }

  /** The event writes a chunk that the stream accepts, and that takes it to the mark while no 'drain' is owed. */
  predicate Reaches(s: State, e: Event) {
    Written(e).Some? && !s.ended && !s.needDrain
    && s.length + (if s.objectMode then 1 else |Written(e).value|) >= s.highWaterMark
  }

  function Owed(s: State): nat {
    |s.drains| + if s.needDrain then 1 else 0
  }

  /** A step accepts the chunk that it writes, unless the stream was ended, and no other; every 'drain' emitted or owed has
      a write that reached the mark; and a hook is not called while the stream is corked, but by a loop that is under way. */
  ghost predicate Lawful(s: State, e: Event, t: State) {
    && SameOptions(s, t)
    && t.accepted == s.accepted + (if Written(e).Some? && !s.ended then [Req(|s.accepted|, Written(e).value)] else [])
    && Owed(t) == Owed(s) + (if Reaches(s, e) then 1 else 0)
    && (t.handed == s.handed || t.corked == 0 || s.clearing.One?)
  }

  lemma LawfulCalm(s: State, e: Event, t: State)
    requires CalmBut(s, t) && Written(e).None?
    ensures Lawful(s, e, t)
  {
    assert s.accepted + [] == s.accepted;
  }

  /** What `write` counts. */
  ghost predicate Counts(s: State, req: Req, t: State) {
    && SameOptions(s, t)
    && t.accepted == s.accepted + [req] && t.drains == s.drains
    && (t.needDrain <==> s.needDrain || s.length + (if s.objectMode then 1 else |req.chunk|) >= s.highWaterMark)
    && (t.handed == s.handed || s.corked == 0) && t.corked == s.corked
  }

  lemma EnqueueCounts(s: State, req: Req)
    ensures Counts(s, req, Enqueue(s, req))
  {
  }

  lemma DirectCounts(s: State, req: Req)
    requires s.corked == 0
    ensures Counts(s, req, Direct(s, req))
  {
  }

  lemma LawfulWrite(s: State, chunk: Chunk)
    ensures Lawful(s, EvWrite(chunk), Write(s, chunk)) && Write(s, chunk).corked == s.corked
  {
    hide Enqueue, Direct;
    assert s.accepted + [] == s.accepted;
    EnqueueCounts(s, Req(|s.accepted|, chunk));
    if s.corked == 0 {
      DirectCounts(s, Req(|s.accepted|, chunk));
    }
  }

  /** What comes after the write of an `end`. */
  lemma LawfulEnd(s: State, chunk: Chunk, u: State, t: State)
    requires Lawful(s, EvWrite(chunk), u) && Calm(u, t) && (t.corked == u.corked || t.corked == 0)
    ensures Lawful(s, EvEnd(Some(chunk)), t)
  {
  }

  lemma EndUncorked(s: State)
    ensures EndUncork(s).corked == 0
  {
    hide Uncork, EndTail;
    var u := s;
    if s.corked != 0 {
      StillUncork(s.(corked := 1));
      u := Uncork(s.(corked := 1));
    }
    CorkedTail(u);
    CorkedPhase(u);
    assert EndUncork(s) == if u.clearing.Idle? then EndTail(u) else u.(endPhase := EndAfterUncork);
    hide EndUncork;
  }

  lemma CorkedTail(s: State)
    ensures EndTail(s).corked == s.corked
  {
    CalmEndTail(s);
    hide EndTail, Calm;
  }

  lemma CorkedPhase(s: State)
    ensures s.(endPhase := EndAfterUncork).corked == s.corked
  {
  }

  lemma EndLaws(s: State, last: Option<Chunk>)
    ensures Lawful(s, EvEnd(last), End(s, last))
  {
    hide Write, EndUncork, Lawful, Calm, CalmBut;
    if last.Some? {
      var u := Write(s, last.value);
      LawfulWrite(s, last.value);
      CalmPhase(u, EndAfterWrite);
      CalmEndUncork(u);
      EndUncorked(u);
      LawfulEnd(s, last.value, u, End(s, last));
    } else {
      CalmPhase(s, EndAfterWrite);
      CalmEndUncork(s);
      ButCalm(s, End(s, last));
      LawfulCalm(s, EvEnd(last), End(s, last));
    }
  }

  /** The drain test emits a 'drain' for one that was owed. */
  ghost predicate Drains(s: State, t: State) {
    SameOptions(s, t) && t.accepted == s.accepted && Owed(t) == Owed(s) && t.handed == s.handed
  }

  lemma DrainOwed(s: State)
    ensures Drains(s, OnWriteDrain(s))
  {
  }

  lemma AdvanceDrains(s: State, i: nat, left: seq<Task>, dec: nat, calls: seq<Req>)
    requires i < |s.tasks|
    ensures Drains(s, Advance(s, i, left, dec, calls))
  {
    hide Replace;
  }

  lemma FinishDrains(s: State)
    ensures Drains(s, Finish(s))
  {
  }

  lemma DrainsJoin(s: State, u: State, t: State)
    requires Drains(s, u) && Drains(u, t)
    ensures Drains(s, t)
  {
  }

  lemma LawfulDrains(s: State, e: Event, t: State)
    requires Drains(s, t) && Written(e).None?
    ensures Lawful(s, e, t)
  {
    assert s.accepted + [] == s.accepted;
  }

  lemma TaskLaws(s: State, i: nat)
    requires i < |s.tasks|
    ensures Lawful(s, EvTask(i), RunTask(s, i))
  {
    hide OnWriteDrain, Advance, Finish, Drains, Lawful;
    var t := RunTask(s, i);
    match s.tasks[i] {
      case AfterWrite(finished, reqs, batch) =>
        var left := [Callbacks(reqs, batch, false)];
        DrainTasks(s);
        DrainOwed(s);
        AdvanceDrains(s, i, left, 0, []);
        AdvanceDrains(OnWriteDrain(s), i, left, 0, []);
        if !finished {
          DrainsJoin(s, OnWriteDrain(s), t);
        }
      case Callbacks(reqs, batch, failed) =>
        if batch {
          AdvanceDrains(s, i, [Callbacks(reqs, false, failed)], 1, []);
        } else if reqs != [] {
          AdvanceDrains(s, i, [Callbacks(reqs[1..], false, failed)], 1, [reqs[0]]);
        } else {
          AdvanceDrains(s, i, if failed then [] else [FinishMaybe], 0, []);
        }
      case FinishMaybe =>
        AdvanceDrains(s, i, [], 0, []);
        FinishDrains(Advance(s, i, [], 0, []));
        DrainsJoin(s, Advance(s, i, [], 0, []), t);
    }
    LawfulDrains(s, EvTask(i), t);
  }

  lemma DrainTasks(s: State)
    ensures OnWriteDrain(s).tasks == s.tasks
  {
  }

  /** Every step obeys them. */
  lemma StepObeys(s: State, e: Event)
    requires Enabled(s, e)
    ensures Lawful(s, e, Apply(s, e))
  {
    hide Write, Cork, Uncork, End, HookReturned, OnWrite, RunTask, Lawful, Calm, CalmBut;
    match e {
      case EvWrite(chunk) => LawfulWrite(s, chunk);
      case EvCork =>
        CalmCork(s);
        LawfulCalm(s, e, Cork(s));
      case EvUncork =>
        CalmUncork(s);
        ButCalm(s, Uncork(s));
        LawfulCalm(s, e, Uncork(s));
      case EvEnd(last) => EndLaws(s, last);
      case EvHookReturned =>
        CalmHookReturned(s);
        LawfulCalm(s, e, HookReturned(s));
      case EvOnWrite(failed) =>
        CalmOnWrite(s, failed);
        LawfulCalm(s, e, OnWrite(s, failed));
      case EvTask(i) => TaskLaws(s, i);
    }
  }

  // ---- over a run ----

  /** How many accepted writes took the stream to the mark while no 'drain' was owed. */
  ghost function Reached(s: State, events: seq<Event>): nat
    decreases |events|
  {
    if events == [] then 0
    else (if Reaches(s, events[0]) then 1 else 0) + if Enabled(s, events[0]) then Reached(Apply(s, events[0]), events[1..]) else 0
  }

  lemma {:induction false} RunDrains(s: State, events: seq<Event>, t: State)
    requires Run(s, events, t)
    ensures Owed(t) == Owed(s) + Reached(s, events)
    decreases |events|
  {
    hide Apply, Enabled, Reaches, SameOptions;
    if events != [] {
      StepObeys(s, events[0]);
      RunDrains(Apply(s, events[0]), events[1..], t);
    }
  }

  /** In every run there is one 'drain', emitted or still owed, for each write that took the stream to the mark while none was
      owed. */
  lemma EveryDrainIsEmittedOrOwed(objectMode: bool, highWaterMark: int, hasWritev: bool, events: seq<Event>, t: State)
    requires Run(Init(objectMode, highWaterMark, hasWritev), events, t)
    ensures |t.drains| + (if t.needDrain then 1 else 0) == Reached(Init(objectMode, highWaterMark, hasWritev), events)
  {
    RunDrains(Init(objectMode, highWaterMark, hasWritev), events, t);
    hide Run, Reached;
  }

  // ---- corks ----

  /** Corks and what `end` has done so far stay as they are. */
  ghost predicate Still(s: State, t: State) {
    t.corked == s.corked && t.ended == s.ended && t.ending == s.ending && t.endPhase == s.endPhase
  }

  lemma StillJoin(s: State, u: State, t: State)
    requires Still(s, u) && Still(u, t)
    ensures Still(s, t)
  {
  }

  lemma StillClear(s: State, resume: seq<Task>)
    requires s.queue != []
    ensures Still(s, ClearBuffer(s, resume)) && ClearBuffer(s, resume).finished == s.finished
  {
    hide Still, DoWrite, Gathered, Size;
    if s.hasWritev && |s.queue| > 1 {
      StillGathered(s, resume);
      StillDoWrite(Gathered(s, resume), true, s.length, s.queue);
      StillJoin(s, Gathered(s, resume), ClearBuffer(s, resume));
    } else {
      var u := s.(resume := resume);
      StillTaken(s, resume);
      StillDoWrite(u.(queue := u.queue[1..], clearing := One), false, Size(u.queue[0], u.objectMode), [u.queue[0]]);
      StillJoin(s, u.(queue := u.queue[1..], clearing := One), ClearBuffer(s, resume));
    }
  }

  lemma StillGathered(s: State, resume: seq<Task>)
    ensures Still(s, Gathered(s, resume)) && Gathered(s, resume).finished == s.finished
  {
  }

  lemma StillTaken(s: State, resume: seq<Task>)
    requires s.queue != []
    ensures var u := s.(resume := resume); var t := u.(queue := u.queue[1..], clearing := One); Still(s, t) && t.finished == s.finished
  {
  }

  lemma StillDoWrite(s: State, batch: bool, len: int, reqs: seq<Req>)
    ensures Still(s, DoWrite(s, batch, len, reqs)) && DoWrite(s, batch, len, reqs).finished == s.finished
  {
  }

  lemma StillUncork(s: State)
    ensures Uncork(s).corked == (if s.corked == 0 then 0 else s.corked - 1)
    ensures var t := Uncork(s); t.ended == s.ended && t.ending == s.ending && t.endPhase == s.endPhase && t.finished == s.finished
  {
    hide ClearBuffer;
    if s.corked != 0 && s.queue != [] {
      StillClear(s.(corked := s.corked - 1), []);
    }
  }

  lemma StillUpdate(s: State)
    ensures Still(s, OnWriteStateUpdate(s)) && OnWriteStateUpdate(s).queue == s.queue
  {
  }

  lemma StillSchedule(s: State, task: Task)
    ensures Still(s, Schedule(s, task))
  {
  }

  lemma StillFailed(s: State)
    ensures Still(s, s.(failed := true))
  {
  }

  lemma StillOnWrite(s: State, failed: bool)
    ensures Still(s, OnWrite(s, failed))
  {
    hide OnWriteStateUpdate, ClearBuffer, NeedFinish, Schedule, Still;
    StillUpdate(s);
    var u := OnWriteStateUpdate(s);
    var task := AfterWrite(NeedFinish(u), s.writecb, s.writeBatch);
    var f := Schedule(u, Callbacks(s.writecb, s.writeBatch, true));
    StillSchedule(u, Callbacks(s.writecb, s.writeBatch, true));
    StillFailed(f);
    StillJoin(u, f, f.(failed := true));
    StillSchedule(u, task);
    if s.queue != [] {
      StillClear(u, [task]);
    }
    StillJoin(s, u, OnWrite(s, failed));
  }

  lemma StillAdvance(s: State, i: nat, left: seq<Task>, dec: nat, calls: seq<Req>)
    requires i < |s.tasks|
    ensures Still(s, Advance(s, i, left, dec, calls))
  {
    hide Replace;
  }

  lemma StillFinish(s: State)
    ensures Still(s, Finish(s))
  {
  }

  lemma StillDrain(s: State)
    ensures Still(s, OnWriteDrain(s)) && OnWriteDrain(s).tasks == s.tasks
  {
  }

  lemma StillTask(s: State, i: nat)
    requires i < |s.tasks|
    ensures Still(s, RunTask(s, i))
  {
    hide OnWriteDrain, Advance, Finish, Still;
    StillDrain(s);
    match s.tasks[i] {
      case AfterWrite(finished, reqs, batch) =>
        var left := [Callbacks(reqs, batch, false)];
        StillAdvance(s, i, left, 0, []);
        StillAdvance(OnWriteDrain(s), i, left, 0, []);
        StillJoin(s, OnWriteDrain(s), Advance(OnWriteDrain(s), i, left, 0, []));
      case Callbacks(reqs, batch, failed) =>
        if batch {
          StillAdvance(s, i, [Callbacks(reqs, false, failed)], 1, []);
        } else if reqs != [] {
          StillAdvance(s, i, [Callbacks(reqs[1..], false, failed)], 1, [reqs[0]]);
        } else {
          StillAdvance(s, i, if failed then [] else [FinishMaybe], 0, []);
        }
      case FinishMaybe =>
        StillAdvance(s, i, [], 0, []);
        StillFinish(Advance(s, i, [], 0, []));
        StillJoin(s, Advance(s, i, [], 0, []), RunTask(s, i));
    }
  }

  lemma StillWrite(s: State, chunk: Chunk)
    ensures Still(s, Write(s, chunk)) && Write(s, chunk).finished == s.finished
  {
    hide Enqueue, Direct;
    StillEnqueue(s, Req(|s.accepted|, chunk));
    StillDirect(s, Req(|s.accepted|, chunk));
  }

  lemma StillEnqueue(s: State, req: Req)
    ensures Still(s, Enqueue(s, req)) && Enqueue(s, req).finished == s.finished
  {
    hide Size;
  }

  lemma StillDirect(s: State, req: Req)
    ensures Still(s, Direct(s, req)) && Direct(s, req).finished == s.finished
  {
    hide Size;
  }

  /** Corks nest: a cork holds until it is taken off, by `uncork` or by `end`. */
  lemma CorksNest(s: State, e: Event)
    requires Enabled(s, e) && (e.EvWrite? || e.EvCork? || e.EvUncork? || e.EvOnWrite? || e.EvTask?)
    ensures Apply(s, e).corked ==
            if e.EvCork? then s.corked + 1 else if e.EvUncork? && s.corked > 0 then s.corked - 1 else s.corked
  {
    hide Write, Uncork, OnWrite, RunTask;
    match e {
      case EvWrite(chunk) => StillWrite(s, chunk);
      case EvCork =>
      case EvUncork => StillUncork(s);
      case EvOnWrite(failed) => StillOnWrite(s, failed);
      case EvTask(i) => StillTask(s, i);
    }
  }

  // ---- what is accepted ----

  /** The chunks written up to the first `end`. */
  function WrittenFirst(events: seq<Event>): seq<Chunk> {
    if events == [] then []
    else
      match events[0]
      case EvWrite(chunk) => [chunk] + WrittenFirst(events[1..])
      case EvEnd(last) => if last.Some? then [last.value] else []
      case _ => WrittenFirst(events[1..])
  }

  function Chunks(reqs: seq<Req>): (r: seq<Chunk>)
    ensures |r| == |reqs| && forall i :: 0 <= i < |reqs| ==> r[i] == reqs[i].chunk
  {
    seq(|reqs|, i requires 0 <= i < |reqs| => reqs[i].chunk)
  }

  /** `end` was called: the stream is ended, or will be when the hook on the stack returns. */
  predicate EndCalled(s: State) {
    s.ended || s.endPhase != NotEnding
  }

  lemma EndTailEnds(s: State)
    requires s.ended == s.ending && (s.finished ==> s.ended)
    ensures EndTail(s).ended
  {
  }

  lemma EndUncorkEnds(s: State)
    requires s.ended == s.ending && (s.finished ==> s.ended)
    ensures EndCalled(EndUncork(s))
  {
    hide Uncork, EndTail;
    StillUncork(s.(corked := 1));
    EndTailEnds(if s.corked != 0 then Uncork(s.(corked := 1)) else s);
  }

  lemma EndEnds(s: State, last: Option<Chunk>)
    requires s.ended == s.ending && (s.finished ==> s.ended)
    ensures EndCalled(End(s, last))
  {
    hide Write, EndUncork, EndCalled;
    if last.Some? {
      StillWrite(s, last.value);
      EndUncorkEnds(Write(s, last.value));
      assert EndCalled(Write(s, last.value).(endPhase := EndAfterWrite)) by { PhaseIsCalled(Write(s, last.value)); }
    } else {
      EndUncorkEnds(s);
      PhaseIsCalled(s);
    }
  }

  lemma PhaseIsCalled(s: State)
    ensures EndCalled(s.(endPhase := EndAfterWrite))
  {
  }

  lemma ContinueEnds(s: State)
    requires s.ended == s.ending && (s.finished ==> s.ended)
    ensures EndCalled(ContinueEnd(s)) <==> EndCalled(s)
  {
    hide EndUncork, EndTail, EndCalled;
    var u := s.(endPhase := NotEnding);
    EndUncorkEnds(u);
    EndTailEnds(u);
    CalledIs(s);
    CalledIs(EndTail(u));
  }

  lemma CalledIs(s: State)
    ensures EndCalled(s) <==> s.ended || s.endPhase != NotEnding
  {
  }

  lemma LoopCalled(s: State)
    requires s.queue != []
    ensures EndCalled(ClearOne(s.(sync := false))) == EndCalled(s)
  {
    hide Size;
  }

  lemma ReturnCalled(s: State)
    ensures var u := s.(sync := false, inWrite := false); EndCalled(u) == EndCalled(s) && u.ended == s.ended && u.ending == s.ending && u.finished == s.finished
    ensures var u := ClearDone(s); EndCalled(u) == EndCalled(s) && u.ended == s.ended && u.ending == s.ending && u.finished == s.finished
  {
  }

  lemma HookReturnedEnds(s: State)
    requires s.ended == s.ending && (s.finished ==> s.ended)
    ensures EndCalled(HookReturned(s)) <==> EndCalled(s)
  {
    hide ContinueEnd, ClearOne, ClearDone, EndCalled;
    ReturnCalled(s);
    if s.clearing.Idle? {
      ContinueEnds(s.(sync := false, inWrite := false));
    } else if s.clearing.One? && !s.writing && s.queue != [] {
      LoopCalled(s);
    } else {
      ContinueEnds(ClearDone(s));
    }
  }

  /** `end` is called by EvEnd and by nothing else, and it is never taken back. */
  lemma EndCalledIs(s: State, e: Event)
    requires Enabled(s, e) && s.ended == s.ending && (s.finished ==> s.ended)
    ensures EndCalled(Apply(s, e)) <==> EndCalled(s) || e.EvEnd?
  {
    hide Write, Uncork, End, HookReturned, OnWrite, RunTask;
    match e {
      case EvWrite(chunk) => StillWrite(s, chunk);
      case EvCork =>
      case EvUncork => StillUncork(s);
      case EvEnd(last) => EndEnds(s, last);
      case EvHookReturned => HookReturnedEnds(s);
      case EvOnWrite(failed) => StillOnWrite(s, failed);
      case EvTask(i) => StillTask(s, i);
    }
  }

  lemma EndFlags(s: State)
    requires Inv(s)
    ensures s.ended == s.ending && (s.finished ==> s.ended) && (EndCalled(s) && s.Ready() ==> s.ended)
    ensures s.ended ==> EndCalled(s)
  {
    hide Sums, Ordered, Drained;
  }

  lemma ChunksMore(accepted: seq<Req>, req: Req)
    ensures Chunks(accepted + [req]) == Chunks(accepted) + [req.chunk]
  {
  }

  lemma {:induction false} RunAccepts(s: State, events: seq<Event>, t: State)
    requires Inv(s) && Run(s, events, t)
    ensures Chunks(t.accepted) == Chunks(s.accepted) + if EndCalled(s) then [] else WrittenFirst(events)
    decreases |events|
  {
    hide Inv, Apply, Enabled, Reaches, SameOptions, EndCalled, Chunks;
    if events == [] {
      assert Chunks(s.accepted) + [] == Chunks(s.accepted);
    } else {
      var e, rest := events[0], events[1..];
      var u := Apply(s, e);
      StepObeys(s, e);
      StepKeeps(s, e);
      EndFlags(s);
      EndCalledIs(s, e);
      RunAccepts(u, rest, t);
      Accepting(s, e, rest, u, t);
    }
  }

  lemma WritesWhenReady(s: State, e: Event)
    requires Enabled(s, e) && Written(e).Some?
    ensures s.Ready()
  {
  }

  lemma Accepting(s: State, e: Event, rest: seq<Event>, u: State, t: State)
    requires Lawful(s, e, u) && Enabled(s, e) && (EndCalled(s) && s.Ready() ==> s.ended) && (s.ended ==> EndCalled(s))
    requires EndCalled(u) <==> EndCalled(s) || e.EvEnd?
    requires Chunks(t.accepted) == Chunks(u.accepted) + if EndCalled(u) then [] else WrittenFirst(rest)
    ensures Chunks(t.accepted) == Chunks(s.accepted) + if EndCalled(s) then [] else WrittenFirst([e] + rest)
  {
    hide Enabled, Reaches, SameOptions, EndCalled, Chunks;
    assert ([e] + rest)[1..] == rest;
    if Written(e).Some? {
      WritesWhenReady(s, e);
      ChunksMore(s.accepted, Req(|s.accepted|, Written(e).value));
    }
    assert s.accepted + [] == s.accepted;
  }

  /** In every run the chunks accepted are those written up to the first `end`, with the one it writes itself, in order. */
  lemma AcceptsUntilEnd(objectMode: bool, highWaterMark: int, hasWritev: bool, events: seq<Event>, t: State)
    requires Run(Init(objectMode, highWaterMark, hasWritev), events, t)
    ensures Chunks(t.accepted) == WrittenFirst(events)
  {
    hide Run, Inv;
    InitHolds(objectMode, highWaterMark, hasWritev);
    RunAccepts(Init(objectMode, highWaterMark, hasWritev), events, t);
    assert Chunks([]) == [];
    assert [] + WrittenFirst(events) == WrittenFirst(events);
  }

  // ---- 'finish' comes ----

  /** No task is that of a failed write. */
  ghost predicate NoneFailed(tasks: seq<Task>) {
    forall i :: 0 <= i < |tasks| ==> !(tasks[i].Callbacks? && tasks[i].failed)
  }

  /** A stream that was ended and has nothing to write any more is finished, or some task will look again. */
  ghost predicate Finishes(s: State) {
    !s.failed ==>
      && NoneFailed(s.tasks + s.resume)
      && (s.ending && !s.finished && !s.writing && s.queue == [] ==> s.tasks + s.resume != [])
  }

  /** A tick runs when no hook is on the stack. */
  predicate Orderly(s: State, e: Event) {
    e.EvTask? ==> s.Ready()
  }

  ghost predicate Alike(s: State, t: State) {
    && t.failed == s.failed && t.tasks + t.resume == s.tasks + s.resume
    && t.ending == s.ending && t.finished == s.finished && t.writing == s.writing && t.queue == s.queue
  }

  lemma FinishesAlike(s: State, t: State)
    requires Finishes(s) && Alike(s, t)
    ensures Finishes(t)
  {
  }

  /** As long as something is in flight or buffered, or the stream was not ended, only the tasks matter. */
  lemma FinishesLater(s: State, t: State)
    requires Finishes(s) && (!t.failed ==> !s.failed) && t.tasks + t.resume == s.tasks + s.resume && (t.writing || !t.ending)
    ensures Finishes(t)
  {
  }

  /** A further task that did not fail. */
  lemma FinishesTask(s: State, task: Task, t: State)
    requires Finishes(s) && (!t.failed ==> !s.failed && !(task.Callbacks? && task.failed))
    requires t.tasks + t.resume == s.tasks + [task] + s.resume
    ensures Finishes(t)
  {
    var all := s.tasks + [task] + s.resume;
    if !t.failed {
      forall i | 0 <= i < |all|
        ensures !(all[i].Callbacks? && all[i].failed)
      {
        var j := if i < |s.tasks| then i else i - 1;
        assert i != |s.tasks| ==> all[i] == (s.tasks + s.resume)[j];
      }
    }
  }

  /** `finishMaybe` finishes a stream with nothing left to write, or leaves it to a task that counts down. */
  lemma FinishLooks(u: State)
    requires Inv(Finish(u)) && u.clearing.Idle? && u.ending && (!u.failed ==> NoneFailed(u.tasks + u.resume))
    ensures Finishes(Finish(u))
  {
    var t := Finish(u);
    NoDecrements();
    if !t.writing && t.queue == [] {
      NothingLeft(t);
    }
    hide Ordered, Drained, DecrementsOf;
  }

  lemma NoDecrements()
    ensures DecrementsOf([]) == 0
  {
  }

  lemma TailFinishes(s: State)
    requires Inv(EndTail(s)) && s.clearing.Idle? && Finishes(s)
    ensures Finishes(EndTail(s))
  {
    hide Inv, Finish, NoneFailed;
    if !s.ending && !s.finished {
      FinishLooks(s.(ending := true, ended := true));
    }
  }

  lemma ClearTasks(s: State, resume: seq<Task>)
    requires s.queue != []
    ensures var t := ClearBuffer(s, resume); t.tasks == s.tasks && t.resume == resume && t.failed == s.failed && t.writing && !t.clearing.Idle?
  {
    hide Size;
  }

  lemma UncorkFinishes(s: State)
    requires Finishes(s) && s.resume == []
    ensures Finishes(Uncork(s)) && (Uncork(s).clearing.Idle? ==> s.clearing.Idle?)
  {
    hide ClearBuffer, Finishes, Alike;
    if s.corked != 0 {
      var u := s.(corked := s.corked - 1);
      AlikeCorked(s, s.corked - 1);
      FinishesAlike(s, u);
      if u.queue != [] {
        ClearTasks(u, []);
        if !u.writing {
          FinishesLater(u, ClearBuffer(u, []));
        }
      }
    }
  }

  lemma AlikeCorked(s: State, corked: nat)
    ensures Alike(s, s.(corked := corked))
  {
  }

  lemma AlikePhase(s: State, phase: Ending)
    ensures Alike(s, s.(endPhase := phase))
  {
  }

  lemma EndUncorkFinishes(s: State)
    requires Finishes(s) && s.resume == [] && s.clearing.Idle? && Inv(EndUncork(s))
    ensures Finishes(EndUncork(s))
  {
    hide Uncork, EndTail, Finishes, Alike, Inv;
    var u := s;
    if s.corked != 0 {
      AlikeCorked(s, 1);
      FinishesAlike(s, s.(corked := 1));
      UncorkFinishes(s.(corked := 1));
      u := Uncork(s.(corked := 1));
    }
    if u.clearing.Idle? {
      TailFinishes(u);
    } else {
      AlikePhase(u, EndAfterUncork);
      FinishesAlike(u, u.(endPhase := EndAfterUncork));
    }
  }

  lemma ContinueFinishes(s: State)
    requires Finishes(s) && (s.clearing.Idle? ==> s.resume == []) && Inv(ContinueEnd(s))
    ensures Finishes(ContinueEnd(s))
  {
    hide EndUncork, EndTail, Finishes, Alike, Inv;
    var u := s.(endPhase := NotEnding);
    AlikePhase(s, NotEnding);
    FinishesAlike(s, u);
    if !s.inWrite && s.clearing.Idle? {
      match s.endPhase {
        case NotEnding =>
        case EndAfterWrite => EndUncorkFinishes(u);
        case EndAfterUncork => TailFinishes(u);
      }
    }
  }

  lemma WriteTasks(s: State, chunk: Chunk)
    ensures var t := Write(s, chunk);
            t.tasks == s.tasks && t.resume == s.resume && t.failed == s.failed && t.clearing == s.clearing && t.ending == s.ending
  {
    hide Enqueue, Direct;
    EnqueueTasks(s, Req(|s.accepted|, chunk));
    DirectTasks(s, Req(|s.accepted|, chunk));
  }

  lemma EnqueueTasks(s: State, req: Req)
    ensures var t := Enqueue(s, req);
            t.tasks == s.tasks && t.resume == s.resume && t.failed == s.failed && t.clearing == s.clearing && t.ending == s.ending
  {
    hide Size;
  }

  lemma DirectTasks(s: State, req: Req)
    ensures var t := Direct(s, req);
            t.tasks == s.tasks && t.resume == s.resume && t.failed == s.failed && t.clearing == s.clearing && t.ending == s.ending
  {
    hide Size;
  }

  lemma WriteFinishes(s: State, chunk: Chunk)
    requires Finishes(s) && s.ended == s.ending
    ensures Finishes(Write(s, chunk))
  {
    hide Finishes;
    WriteTasks(s, chunk);
    if !s.ended {
      FinishesLater(s, Write(s, chunk));
    }
  }

  lemma EndFinishes(s: State, last: Option<Chunk>)
    requires Finishes(s) && s.ended == s.ending && s.resume == [] && s.clearing.Idle? && Inv(End(s, last))
    ensures Finishes(End(s, last))
  {
    hide Write, EndUncork, Finishes, Alike, Inv;
    var u := s;
    if last.Some? {
      WriteFinishes(s, last.value);
      WriteTasks(s, last.value);
      u := Write(s, last.value);
    }
    if u.inWrite {
      AlikePhase(u, EndAfterWrite);
      FinishesAlike(u, u.(endPhase := EndAfterWrite));
    } else {
      EndUncorkFinishes(u);
    }
  }

  lemma UpdateTasks(s: State)
    ensures var t := OnWriteStateUpdate(s); t.tasks == s.tasks && t.resume == s.resume && t.failed == s.failed && t.queue == s.queue
  {
  }

  lemma ScheduleTasks(s: State, task: Task)
    ensures var t := Schedule(s, task); t.tasks == s.tasks + [task] && t.resume == s.resume && t.failed == s.failed
  {
  }

  lemma OnWriteFinishes(s: State, failed: bool)
    requires Finishes(s) && (s.clearing.Idle? ==> s.resume == [])
    ensures Finishes(OnWrite(s, failed))
  {
    hide OnWriteStateUpdate, ClearBuffer, NeedFinish, Schedule, Finishes;
    UpdateTasks(s);
    var u, t := OnWriteStateUpdate(s), OnWrite(s, failed);
    if failed {
      HasFailed(t);
    } else {
      var task := AfterWrite(NeedFinish(u), s.writecb, s.writeBatch);
      ScheduleTasks(u, task);
      if s.queue != [] {
        ClearTasks(u, [task]);
      }
      assert s.resume == [] ==> s.tasks + [task] + s.resume == s.tasks + [task];
      FinishesTask(s, task, t);
    }
  }

  lemma HasFailed(t: State)
    requires t.failed
    ensures Finishes(t)
  {
  }

  lemma AdvanceFinishes(s: State, i: nat, left: seq<Task>, dec: nat, calls: seq<Req>)
    requires i < |s.tasks| && Finishes(s) && NoneFailed(left) && left != []
    ensures Finishes(Advance(s, i, left, dec, calls))
  {
    var t := Advance(s, i, left, dec, calls);
    NoneFailedReplaced(s.tasks, s.resume, i, left);
    assert |t.tasks + t.resume| > 0;
    hide NoneFailed, Replace;
  }

  lemma NoneFailedReplaced(tasks: seq<Task>, resume: seq<Task>, i: nat, left: seq<Task>)
    requires i < |tasks| && NoneFailed(left)
    ensures NoneFailed(tasks + resume) ==> NoneFailed(Replace(tasks, i, left) + resume)
    ensures |Replace(tasks, i, left)| == |tasks| - 1 + |left|
  {
    var all, now := tasks + resume, Replace(tasks, i, left) + resume;
    if NoneFailed(all) {
      forall j | 0 <= j < |now|
        ensures !(now[j].Callbacks? && now[j].failed)
      {
        var k := if j < i then j else j + 1 - |left|;
        assert j < i || j >= i + |left| ==> now[j] == all[k];
        assert i <= j < i + |left| ==> now[j] == left[j - i];
      }
    }
  }

  lemma DrainAlike(s: State)
    ensures Alike(s, OnWriteDrain(s)) && OnWriteDrain(s).tasks == s.tasks
  {
  }

  lemma TaskIsNoFailure(s: State, i: nat)
    requires i < |s.tasks| && Finishes(s)
    ensures s.failed || !(s.tasks[i].Callbacks? && s.tasks[i].failed)
  {
    assert s.tasks[i] == (s.tasks + s.resume)[i];
  }

  lemma TaskFinishes(s: State, i: nat)
    requires i < |s.tasks| && Finishes(s) && s.clearing.Idle? && Inv(RunTask(s, i)) && !s.failed
    ensures Finishes(RunTask(s, i))
  {
    hide OnWriteDrain, Advance, Finish, Finishes, Alike, Inv;
    TaskIsNoFailure(s, i);
    match s.tasks[i] {
      case AfterWrite(finished, reqs, batch) =>
        var u := if finished then s else OnWriteDrain(s);
        DrainAlike(s);
        FinishesAlike(s, OnWriteDrain(s));
        AdvanceFinishes(u, i, [Callbacks(reqs, batch, false)], 0, []);
      case Callbacks(reqs, batch, failed) =>
        if batch {
          AdvanceFinishes(s, i, [Callbacks(reqs, false, false)], 1, []);
        } else if reqs != [] {
          AdvanceFinishes(s, i, [Callbacks(reqs[1..], false, false)], 1, [reqs[0]]);
        } else {
          AdvanceFinishes(s, i, [FinishMaybe], 0, []);
        }
      case FinishMaybe => LastFinishes(s, i);
    }
  }

  lemma LastFinishes(s: State, i: nat)
    requires i < |s.tasks| && Finishes(s) && s.clearing.Idle? && Inv(Finish(Advance(s, i, [], 0, []))) && !s.failed
    ensures Finishes(Finish(Advance(s, i, [], 0, [])))
  {
    var u := Advance(s, i, [], 0, []);
    NoneFailedReplaced(s.tasks, s.resume, i, []);
    assert u.clearing.Idle? && u.tasks + u.resume == Replace(s.tasks, i, []) + s.resume;
    hide Inv, Finish, NoneFailed, Replace;
    if u.ending {
      FinishLooks(u);
    } else {
      FinishStays(u);
    }
  }

  /** `finishMaybe` does nothing to a stream that was not ended. */
  lemma FinishStays(u: State)
    requires !u.ending && (!u.failed ==> NoneFailed(u.tasks + u.resume))
    ensures Finishes(Finish(u))
  {
    hide NoneFailed;
  }

  lemma AlikeReturned(s: State)
    ensures Alike(s, s.(sync := false, inWrite := false))
  {
  }

  lemma AlikeCleared(s: State)
    ensures Alike(s, ClearDone(s)) && ClearDone(s).clearing.Idle? && ClearDone(s).resume == []
  {
    assert s.tasks + s.resume + [] == s.tasks + s.resume;
  }

  lemma LoopFinishes(s: State)
    requires Finishes(s) && s.queue != []
    ensures Finishes(ClearOne(s.(sync := false)))
  {
    var t := ClearOne(s.(sync := false));
    hide Size, Finishes;
    FinishesLater(s, t);
  }

  lemma ReturnFinishes(s: State)
    requires Finishes(s) && (s.clearing.Idle? ==> s.resume == []) && Inv(HookReturned(s))
    ensures Finishes(HookReturned(s))
  {
    hide ContinueEnd, ClearOne, ClearDone, Finishes, Alike, Inv;
    AlikeReturned(s);
    AlikeCleared(s);
    if s.clearing.Idle? {
      FinishesAlike(s, s.(sync := false, inWrite := false));
      ContinueFinishes(s.(sync := false, inWrite := false));
    } else if s.clearing.One? && !s.writing && s.queue != [] {
      LoopFinishes(s);
    } else {
      FinishesAlike(s, ClearDone(s));
      ContinueFinishes(ClearDone(s));
    }
  }

  lemma CorkAlike(s: State)
    ensures Alike(s, Cork(s))
  {
  }

  lemma FailedStays(s: State, i: nat)
    requires i < |s.tasks|
    ensures RunTask(s, i).failed == s.failed
  {
    hide OnWriteDrain, Advance, Finish;
    DrainFailed(s);
    FinishFailed(Advance(s, i, [], 0, []));
    forall u: State, left, dec, calls | i < |u.tasks|
      ensures Advance(u, i, left, dec, calls).failed == u.failed
    {
      AdvanceFailed(u, i, left, dec, calls);
    }
  }

  lemma AdvanceFailed(s: State, i: nat, left: seq<Task>, dec: nat, calls: seq<Req>)
    requires i < |s.tasks|
    ensures Advance(s, i, left, dec, calls).failed == s.failed
  {
    hide Replace;
  }

  lemma DrainFailed(s: State)
    ensures OnWriteDrain(s).failed == s.failed && OnWriteDrain(s).tasks == s.tasks
  {
  }

  lemma FinishFailed(s: State)
    ensures Finish(s).failed == s.failed
  {
  }

  lemma IdleFlags(s: State)
    requires Inv(s)
    ensures s.ended == s.ending && (s.clearing.Idle? ==> s.resume == [])
  {
    hide Sums, Ordered, Drained;
  }

  lemma StepFinishes(s: State, e: Event)
    requires Inv(s) && Finishes(s) && Enabled(s, e) && Orderly(s, e)
    ensures Finishes(Apply(s, e))
  {
    hide Inv, Finishes, Alike, Write, Cork, Uncork, End, HookReturned, OnWrite, RunTask;
    StepKeeps(s, e);
    IdleFlags(s);
    match e {
      case EvWrite(chunk) => WriteFinishes(s, chunk);
      case EvCork =>
        CorkAlike(s);
        FinishesAlike(s, Cork(s));
      case EvUncork => UncorkFinishes(s);
      case EvEnd(last) => EndFinishes(s, last);
      case EvHookReturned => ReturnFinishes(s);
      case EvOnWrite(failed) => OnWriteFinishes(s, failed);
      case EvTask(i) =>
        if s.failed {
          FailedStays(s, i);
          HasFailed(RunTask(s, i));
        } else {
          TaskFinishes(s, i);
        }
    }
  }

  /** A run in which ticks wait for the stack to be empty. */
  ghost predicate OrderlyRun(s: State, events: seq<Event>)
    decreases |events|
  {
    events == [] || (Enabled(s, events[0]) && Orderly(s, events[0]) && OrderlyRun(Apply(s, events[0]), events[1..]))
  }

  lemma {:induction false} RunFinishes(s: State, events: seq<Event>, t: State)
    requires Inv(s) && Finishes(s) && Run(s, events, t) && OrderlyRun(s, events)
    ensures Inv(t) && Finishes(t)
    decreases |events|
  {
    hide Inv, Finishes, Apply, Enabled, Orderly;
    if events != [] {
      StepKeeps(s, events[0]);
      StepFinishes(s, events[0]);
      RunFinishes(Apply(s, events[0]), events[1..], t);
    }
  }

  lemma AllDone(t: State)
    requires Inv(t) && Finishes(t) && !t.failed && t.ended && t.corked == 0 && !t.writing && t.clearing.Idle? && t.tasks == []
    ensures t.finishes == 1 && t.prefinishes == 1
  {
    hide Sums, Drained, NoneFailed;
  }

  /** 'finish' is not lost: in every run in which ticks wait for the stack to be empty, once a stream without errors was ended
      and nothing is in flight or pending, it was emitted, and 'prefinish' too. */
  lemma FinishIsEmitted(objectMode: bool, highWaterMark: int, hasWritev: bool, events: seq<Event>, t: State)
    requires Run(Init(objectMode, highWaterMark, hasWritev), events, t)
    requires OrderlyRun(Init(objectMode, highWaterMark, hasWritev), events)
    ensures !t.failed && t.ended && t.corked == 0 && !t.writing && t.clearing.Idle? && t.tasks == [] ==>
              t.finishes == 1 && t.prefinishes == 1
  {
    hide Run, OrderlyRun, Inv, Finishes;
    var s := Init(objectMode, highWaterMark, hasWritev);
    InitHolds(objectMode, highWaterMark, hasWritev);
    assert Finishes(s) by { FinishesInit(objectMode, highWaterMark, hasWritev); }
    RunFinishes(s, events, t);
    if !t.failed && t.ended && t.corked == 0 && !t.writing && t.clearing.Idle? && t.tasks == [] {
      AllDone(t);
    }
  }

  lemma FinishesInit(objectMode: bool, highWaterMark: int, hasWritev: bool)
    ensures Finishes(Init(objectMode, highWaterMark, hasWritev))
  {
  }

  // ---- the length ----

  /** The bytes of the buffered writes. */
  function Bytes(reqs: seq<Req>): B.Bytes {
    B.Concat(Chunks(reqs))
  }

  lemma {:induction false} SizesAre(reqs: seq<Req>)
    ensures Sizes(reqs, true) == |reqs| && Sizes(reqs, false) == |Bytes(reqs)|
  {
    if reqs == [] {
      assert Chunks(reqs) == [];
    } else {
      assert Chunks(reqs)[1..] == Chunks(reqs[1..]);
      SizesAre(reqs[1..]);
    }
  }

  lemma RunOptions(s: State, events: seq<Event>, t: State)
    requires Run(s, events, t)
    ensures SameOptions(s, t)
    decreases |events|
  {
    hide Apply, Enabled, Reaches;
    if events != [] {
      StepObeys(s, events[0]);
      RunOptions(Apply(s, events[0]), events[1..], t);
    }
  }

  /** In every run `length` is the number of bytes in flight and buffered, or of writes in object mode; and without an error
      nothing stays buffered but behind a cork, a write in flight or the loop that writes it. */
  lemma LengthAndBuffer(objectMode: bool, highWaterMark: int, hasWritev: bool, events: seq<Event>, t: State)
    requires Run(Init(objectMode, highWaterMark, hasWritev), events, t)
    ensures t.length == if objectMode then |t.writecb| + |t.queue| else |Bytes(t.writecb)| + |Bytes(t.queue)|
    ensures !t.failed && t.queue != [] ==> t.corked > 0 || t.writing || !t.clearing.Idle?
  {
    InitHolds(objectMode, highWaterMark, hasWritev);
    RunKeeps(Init(objectMode, highWaterMark, hasWritev), events, t);
    RunOptions(Init(objectMode, highWaterMark, hasWritev), events, t);
    LengthOf(t);
    hide Run, Bytes, Inv;
  }

  lemma LengthOf(t: State)
    requires Inv(t)
    ensures t.length == if t.objectMode then |t.writecb| + |t.queue| else |Bytes(t.writecb)| + |Bytes(t.queue)|
    ensures !t.failed && t.queue != [] ==> t.corked > 0 || t.writing || !t.clearing.Idle?
  {
    SizesAre(t.writecb);
    SizesAre(t.queue);
    hide Sizes, Bytes, Flags, Drained, WritableProofs.Counted, Handed, Called, Numbered;
  }

  // ---- batches ----

  /** Nothing is handed on, or what the start of `clearBuffer` takes. */
  ghost predicate HandsBuffer(s: State, t: State) {
    t.handed == s.handed || (s.queue != [] && t.handed == s.handed + if s.hasWritev && |s.queue| > 1 then s.queue else s.queue[..1])
  }

  lemma GatheredHands(s: State, resume: seq<Task>)
    ensures Gathered(s, resume).handed == s.handed
  {
  }

  lemma TakenHands(s: State, resume: seq<Task>)
    requires s.queue != []
    ensures var u := s.(resume := resume); u.(queue := u.queue[1..], clearing := One).handed == s.handed
  {
  }

  lemma ClearHands(s: State, resume: seq<Task>)
    requires s.queue != []
    ensures HandsBuffer(s, ClearBuffer(s, resume))
  {
    hide Size, DoWrite, Gathered;
    if s.hasWritev && |s.queue| > 1 {
      GatheredHands(s, resume);
      DoWriteHands(Gathered(s, resume), true, s.length, s.queue);
    } else {
      var u := s.(resume := resume);
      TakenHands(s, resume);
      DoWriteHands(u.(queue := u.queue[1..], clearing := One), false, Size(u.queue[0], u.objectMode), [u.queue[0]]);
      assert s.queue[..1] == [s.queue[0]];
    }
  }

  lemma DoWriteHands(s: State, batch: bool, len: int, reqs: seq<Req>)
    ensures DoWrite(s, batch, len, reqs).handed == s.handed + reqs
  {
  }

  lemma UpdateHands(s: State)
    ensures var u := OnWriteStateUpdate(s); u.handed == s.handed && u.queue == s.queue && u.hasWritev == s.hasWritev
  {
  }

  lemma ScheduleHands(s: State, task: Task)
    ensures Schedule(s, task).handed == s.handed
  {
  }

  lemma UncorkHands(s: State)
    ensures HandsBuffer(s, Uncork(s))
  {
    hide ClearBuffer;
    if s.corked != 0 && s.queue != [] {
      ClearHands(s.(corked := s.corked - 1), []);
    }
  }

  lemma OnWriteHands(s: State, failed: bool)
    ensures HandsBuffer(s, OnWrite(s, failed))
  {
    hide ClearBuffer, OnWriteStateUpdate, NeedFinish, Schedule;
    var u := OnWriteStateUpdate(s);
    var task := AfterWrite(NeedFinish(u), s.writecb, s.writeBatch);
    UpdateHands(s);
    ScheduleHands(u, task);
    ScheduleHands(u, Callbacks(s.writecb, s.writeBatch, true));
    if s.queue != [] {
      ClearHands(u, [task]);
    }
  }

  /** Where an uncork or a completion starts on the buffer, all of it goes to `_writev` if that is there and there are
      several, and else the first to `_write`. */
  lemma BufferGoesAtOnce(s: State, e: Event)
    requires Enabled(s, e) && (e.EvUncork? || e.EvOnWrite?)
    ensures HandsBuffer(s, Apply(s, e))
  {
    hide Write, Cork, Uncork, End, HookReturned, OnWrite, RunTask, HandsBuffer;
    UncorkHands(s);
    if e.EvOnWrite? {
      OnWriteHands(s, e.failed);
    }
  }

  // ---- `sync` ----

  predicate OnStack(s: State) {
    s.inWrite || !s.clearing.Idle?
  }

  /** `sync` says whether a hook is on the stack, once one was called. */
  ghost predicate Synced(s: State) {
    !s.failed && s.handed != [] ==> (s.sync <==> OnStack(s))
  }

  ghost predicate SameStack(s: State, t: State) {
    t.sync == s.sync && t.inWrite == s.inWrite && t.clearing == s.clearing && t.handed == s.handed && t.failed == s.failed
  }

  lemma SyncedVia(s: State, t: State)
    requires Synced(s) && SameStack(s, t)
    ensures Synced(t)
  {
  }

  lemma ClearSynced(s: State, resume: seq<Task>)
    requires s.queue != []
    ensures Synced(ClearBuffer(s, resume))
  {
    hide Size, Gathered;
    if s.hasWritev && |s.queue| > 1 {
      GatheredStack(s, resume);
    }
  }

  lemma GatheredStack(s: State, resume: seq<Task>)
    ensures !Gathered(s, resume).clearing.Idle?
  {
  }

  lemma UncorkSynced(s: State)
    requires Synced(s)
    ensures Synced(Uncork(s))
  {
    hide ClearBuffer;
    if s.corked != 0 && s.queue != [] {
      ClearSynced(s.(corked := s.corked - 1), []);
    }
  }

  lemma FinishStack(s: State)
    ensures SameStack(s, Finish(s))
  {
  }

  lemma TailSynced(s: State)
    requires Synced(s)
    ensures Synced(EndTail(s))
  {
    hide Finish;
    var u := s.(ending := true, ended := true);
    FinishStack(u);
    SyncedVia(s, s);
    hide Synced;
    if !s.ending && !s.finished {
      SyncedVia(s, EndTail(s));
    }
  }

  lemma PhaseStack(s: State, phase: Ending)
    ensures SameStack(s, s.(endPhase := phase))
  {
  }

  lemma CorkStack(s: State, corked: nat)
    ensures SameStack(s, s.(corked := corked))
  {
  }

  lemma EndUncorkSynced(s: State)
    requires Synced(s)
    ensures Synced(EndUncork(s))
  {
    hide Uncork, EndTail, Synced, SameStack;
    var u := s;
    if s.corked != 0 {
      CorkStack(s, 1);
      SyncedVia(s, s.(corked := 1));
      UncorkSynced(s.(corked := 1));
      u := Uncork(s.(corked := 1));
    }
    TailSynced(u);
    PhaseStack(u, EndAfterUncork);
    SyncedVia(u, u.(endPhase := EndAfterUncork));
  }

  lemma WriteSynced(s: State, chunk: Chunk)
    requires Synced(s)
    ensures Synced(Write(s, chunk))
  {
    hide Enqueue, Direct;
    EnqueueStack(s, Req(|s.accepted|, chunk));
    DirectStack(s, Req(|s.accepted|, chunk));
  }

  lemma EnqueueStack(s: State, req: Req)
    ensures SameStack(s, Enqueue(s, req))
  {
    hide Size;
  }

  lemma DirectStack(s: State, req: Req)
    ensures Direct(s, req).sync && Direct(s, req).inWrite
  {
    hide Size;
  }

  lemma EndSynced(s: State, last: Option<Chunk>)
    requires Synced(s)
    ensures Synced(End(s, last))
  {
    hide Write, EndUncork, Synced, SameStack;
    var u := s;
    if last.Some? {
      WriteSynced(s, last.value);
      u := Write(s, last.value);
    }
    PhaseStack(u, EndAfterWrite);
    SyncedVia(u, u.(endPhase := EndAfterWrite));
    EndUncorkSynced(u);
  }

  lemma ContinueSynced(s: State)
    requires Synced(s)
    ensures Synced(ContinueEnd(s))
  {
    hide EndUncork, EndTail, Synced, SameStack;
    var u := s.(endPhase := NotEnding);
    PhaseStack(s, NotEnding);
    SyncedVia(s, u);
    EndUncorkSynced(u);
    TailSynced(u);
  }

  lemma ReturnedSynced(s: State)
    requires s.clearing.Idle?
    ensures Synced(s.(sync := false, inWrite := false))
  {
  }

  lemma ClearDoneSynced(s: State)
    requires !s.failed ==> !s.inWrite
    ensures Synced(ClearDone(s))
  {
  }

  lemma LoopSynced(s: State)
    requires s.queue != []
    ensures Synced(ClearOne(s.(sync := false)))
  {
    hide Size;
  }

  lemma StackFlags(s: State)
    requires Inv(s) && !s.clearing.Idle?
    ensures !s.failed ==> !s.inWrite
  {
    hide Sums, Flags, Drained;
  }

  lemma HookSynced(s: State)
    requires Inv(s)
    ensures Synced(HookReturned(s))
  {
    hide Inv, ContinueEnd, ClearOne, ClearDone, Synced;
    if s.clearing.Idle? {
      ReturnedSynced(s);
      ContinueSynced(s.(sync := false, inWrite := false));
    } else if s.clearing.One? && !s.writing && s.queue != [] {
      LoopSynced(s);
    } else {
      StackFlags(s);
      ClearDoneSynced(s);
      ContinueSynced(ClearDone(s));
    }
  }

  lemma UpdateStack(s: State)
    ensures SameStack(s, OnWriteStateUpdate(s)) && OnWriteStateUpdate(s).queue == s.queue
  {
  }

  lemma ScheduleStack(s: State, task: Task)
    ensures SameStack(s, Schedule(s, task))
  {
  }

  lemma OnWriteSynced(s: State, failed: bool)
    requires Synced(s)
    ensures Synced(OnWrite(s, failed))
  {
    hide OnWriteStateUpdate, ClearBuffer, NeedFinish, Schedule;
    var u := OnWriteStateUpdate(s);
    var task := AfterWrite(NeedFinish(u), s.writecb, s.writeBatch);
    UpdateStack(s);
    ScheduleStack(u, task);
    if s.queue != [] {
      ClearSynced(u, [task]);
    }
  }

  lemma AdvanceStack(s: State, i: nat, left: seq<Task>, dec: nat, calls: seq<Req>)
    requires i < |s.tasks|
    ensures SameStack(s, Advance(s, i, left, dec, calls))
  {
    hide Replace;
  }

  lemma DrainStack(s: State)
    ensures SameStack(s, OnWriteDrain(s)) && OnWriteDrain(s).tasks == s.tasks
  {
  }

  lemma StackJoin(s: State, u: State, t: State)
    requires SameStack(s, u) && SameStack(u, t)
    ensures SameStack(s, t)
  {
  }

  lemma TaskStack(s: State, i: nat)
    requires i < |s.tasks|
    ensures SameStack(s, RunTask(s, i))
  {
    hide OnWriteDrain, Advance, Finish, SameStack;
    DrainStack(s);
    match s.tasks[i] {
      case AfterWrite(finished, reqs, batch) =>
        var left := [Callbacks(reqs, batch, false)];
        AdvanceStack(s, i, left, 0, []);
        AdvanceStack(OnWriteDrain(s), i, left, 0, []);
        StackJoin(s, OnWriteDrain(s), Advance(OnWriteDrain(s), i, left, 0, []));
      case Callbacks(reqs, batch, failed) =>
        if batch {
          AdvanceStack(s, i, [Callbacks(reqs, false, failed)], 1, []);
        } else if reqs != [] {
          AdvanceStack(s, i, [Callbacks(reqs[1..], false, failed)], 1, [reqs[0]]);
        } else {
          AdvanceStack(s, i, if failed then [] else [FinishMaybe], 0, []);
        }
      case FinishMaybe =>
        AdvanceStack(s, i, [], 0, []);
        FinishStack(Advance(s, i, [], 0, []));
        StackJoin(s, Advance(s, i, [], 0, []), RunTask(s, i));
    }
  }

  lemma StepSynced(s: State, e: Event)
    requires Inv(s) && Synced(s) && Enabled(s, e)
    ensures Synced(Apply(s, e))
  {
    hide Inv, Synced, SameStack, Write, Uncork, End, HookReturned, OnWrite, RunTask;
    match e {
      case EvWrite(chunk) => WriteSynced(s, chunk);
      case EvCork =>
        CorkStack(s, s.corked + 1);
        SyncedVia(s, Cork(s));
      case EvUncork => UncorkSynced(s);
      case EvEnd(last) => EndSynced(s, last);
      case EvHookReturned => HookSynced(s);
      case EvOnWrite(failed) => OnWriteSynced(s, failed);
      case EvTask(i) =>
        TaskStack(s, i);
        SyncedVia(s, RunTask(s, i));
    }
  }

  lemma {:induction false} RunSynced(s: State, events: seq<Event>, t: State)
    requires Inv(s) && Synced(s) && Run(s, events, t)
    ensures Synced(t)
    decreases |events|
  {
    hide Inv, Synced, Apply, Enabled;
    if events != [] {
      StepKeeps(s, events[0]);
      StepSynced(s, events[0]);
      RunSynced(Apply(s, events[0]), events[1..], t);
    }
  }

  /** In every run without errors, once a hook was called `sync` says whether one is on the stack. */
  lemma SyncIsOnStack(objectMode: bool, highWaterMark: int, hasWritev: bool, events: seq<Event>, t: State)
    requires Run(Init(objectMode, highWaterMark, hasWritev), events, t) && !t.failed && t.handed != []
    ensures t.sync <==> t.inWrite || !t.clearing.Idle?
  {
    hide Run, Inv;
    InitHolds(objectMode, highWaterMark, hasWritev);
    RunSynced(Init(objectMode, highWaterMark, hasWritev), events, t);
  }
}
