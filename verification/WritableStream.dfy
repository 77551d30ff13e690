/** A writable stream of lib/_stream_writable.js: its state and its linked request list, changed together. */
module WritableStreams {
  import opened Wrappers
  import opened WritableSpec
  import opened WritableBuffer
  import opened WritableObject
  import WP = WritableProofs

  class Writable {
    const state: WritableState
    const list: RequestList

    constructor (objectMode: bool, highWaterMark: int, hasWritev: bool)
      ensures Valid() && state.View() == Init(objectMode, highWaterMark, hasWritev)
      ensures fresh(state) && fresh(list) && fresh(list.nodes)
    {
      state := new WritableState(objectMode, highWaterMark, hasWritev);
      list := new RequestList();
      new;
      WP.InitHolds(objectMode, highWaterMark, hasWritev);
    }

    /** The list holds the buffered writes, with its tail in `lastBufferedRequest`. */
    ghost predicate Linked()
      reads this, state, list, list.nodes
    {
      list.Valid() && list.Contents() == state.queue
    }

    /** The same, and the state is one of a run. */
    ghost predicate Valid()
      reads this, state, list, list.nodes
    {
      Linked() && WP.Inv(state.View())
    }

    method Write(chunk: Chunk) returns (ret: bool)
      requires Linked()
      modifies state, list, list.nodes
      ensures Linked() && state.View() == WritableSpec.Write(old(state.View()), chunk)
      ensures fresh(set n | n in list.nodes && n !in old(list.nodes))
    {
      hide WritableSpec.Write, Assemble;
      var buffers := !state.ended && (state.writing || state.corked > 0);
      var id := |state.around.accepted|;
      ret := state.Write(chunk, id);
      if buffers {
        list.Append(Req(id, chunk));
      }
    }

    /** The list is left as `clearBuffer` leaves it when its first hook is called. */
    method TakeOff(batch: bool)
      requires list.Valid() && list.Contents() != []
      modifies list
      ensures list.Valid() && list.Contents() == if batch then [] else old(list.Contents())[1..]
      ensures forall n :: n in list.nodes ==> n in old(list.nodes)
    {
      if batch {
        var _ := list.TakeBatch();
      } else {
        var taken := list.TakeInTurn([]);
      }
    }

    method Uncork()
      requires Linked()
      modifies state, list
      ensures Linked() && state.View() == WritableSpec.Uncork(old(state.View()))
      ensures forall n :: n in list.nodes ==> n in old(list.nodes)
    {
      hide WritableSpec.Uncork, Assemble;
      var batch := state.hasWritev && |state.queue| > 1;
      var started := state.Uncork();
      if started {
        TakeOff(batch);
      }
    }

    /** `end`, whose own write or uncork may suspend it. */
    method End(last: Option<Chunk>)
      requires Linked()
      modifies state, list, list.nodes
      ensures Linked() && state.View() == WritableSpec.End(old(state.View()), last)
      ensures fresh(set n | n in list.nodes && n !in old(list.nodes))
    {
      hide WritableSpec.Write, WritableSpec.EndUncork, Assemble;
      if last.Some? {
        var _ := Write(last.value);
      }
      state.SeenTasks();
      if state.around.inWrite {
        state.SetPhase(EndAfterWrite);
      } else {
        EndUncork();
      }
    }

    /** `end` behind its own write. */
    method EndUncork()
      requires Linked()
      modifies state, list
      ensures Linked() && state.View() == WritableSpec.EndUncork(old(state.View()))
      ensures forall n :: n in list.nodes ==> n in old(list.nodes)
    {
      hide WritableSpec.Uncork, WritableSpec.EndTail, Assemble;
      state.Seen();
      if state.corked > 0 {
        state.CorkOnce();
        Uncork();
      }
      state.Seen();
      if !state.clearing.Idle? {
        state.SetPhase(EndAfterUncork);
      } else {
        state.EndTail();
      }
    }

    /** A suspended `end` goes on once no hook is on the stack. */
    method ContinueEnd()
      requires Linked()
      modifies state, list
      ensures Linked() && state.View() == WritableSpec.ContinueEnd(old(state.View()))
      ensures forall n :: n in list.nodes ==> n in old(list.nodes)
    {
      hide WritableSpec.EndUncork, WritableSpec.EndTail, Assemble;
      state.Seen();
      state.SeenTasks();
      if state.around.inWrite || !state.clearing.Idle? {
        return;
      }
      match state.around.endPhase {
        case NotEnding =>
        case EndAfterWrite =>
          state.SetPhase(NotEnding);
          EndUncork();
        case EndAfterUncork =>
          state.SetPhase(NotEnding);
          state.EndTail();
      }
    }

    /** The hook on top of the stack returns, and its caller goes on. */
    method HookReturned()
      requires Linked()
      modifies state, list
      ensures Linked() && state.View() == WritableSpec.HookReturned(old(state.View()))
      ensures forall n :: n in list.nodes ==> n in old(list.nodes)
    {
      hide WritableSpec.ContinueEnd, WritableSpec.ClearOne, WritableSpec.ClearDone, Assemble;
      state.Seen();
      if state.clearing.Idle? {
        state.WriteReturned();
        ContinueEnd();
      } else if state.clearing.One? && !state.writing && state.queue != [] {
        GoOn();
      } else {
        state.ClearDone();
        ContinueEnd();
      }
    }

    /** The hook's callback. */
    method OnWrite(failed: bool)
      requires Linked()
      modifies state, list
      ensures Linked() && state.View() == WritableSpec.OnWrite(old(state.View()), failed)
      ensures forall n :: n in list.nodes ==> n in old(list.nodes)
    {
      hide WritableSpec.OnWrite, Assemble;
      var batch := state.hasWritev && |state.queue| > 1;
      var started := state.OnWrite(failed);
      if started {
        TakeOff(batch);
      }
    }

    /** The slow loop of `clearBuffer` goes on. */
    method GoOn()
      requires Linked() && state.queue != [] && state.clearing.One? && !state.writing
      modifies state, list
      ensures Linked() && state.View() == WritableSpec.HookReturned(old(state.View()))
      ensures forall n :: n in list.nodes ==> n in old(list.nodes)
    {
      hide WritableSpec.HookReturned, Assemble;
      state.GoOn();
      TakeOff(false);
    }

    /** One event, taken by the state and the list together. */
    method Act(e: Event)
      requires Linked() && Enabled(state.View(), e)
      modifies state, list, list.nodes
      ensures Linked() && state.View() == Apply(old(state.View()), e)
      ensures fresh(set n | n in list.nodes && n !in old(list.nodes))
    {
      hide WritableSpec.Write, WritableSpec.Uncork, WritableSpec.End, WritableSpec.HookReturned, WritableSpec.OnWrite,
        WritableSpec.RunTask, Assemble;
      state.SeenTasks();
      match e {
        case EvWrite(chunk) => var _ := Write(chunk);
        case EvCork => state.Cork();
        case EvUncork => Uncork();
        case EvEnd(last) => End(last);
        case EvHookReturned => HookReturned();
        case EvOnWrite(failed) => OnWrite(failed);
        case EvTask(i) => state.RunTask(i);
      }
    }
  }

  /** The list holds the buffered writes and the state is one of a run. */
  ghost predicate InStep(w: Writable)
    reads w, w.state, w.list, w.list.nodes
  {
    w.Valid()
  }

  method Step(w: Writable, e: Event)
    requires InStep(w) && Enabled(w.state.View(), e)
    modifies w.state, w.list, w.list.nodes
    ensures InStep(w) && w.state.View() == Apply(old(w.state.View()), e)
    ensures fresh(set n | n in w.list.nodes && n !in old(w.list.nodes))
  {
    hide WP.Inv, Enabled, Apply, Assemble;
    WP.StepKeeps(w.state.View(), e);
    w.Act(e);
  }

  /** Every run: the object goes where the run goes, with the invariant kept and the list in step. */
  method Drive(w: Writable, events: seq<Event>, ghost t: State)
    requires InStep(w) && Run(w.state.View(), events, t)
    modifies w.state, w.list, w.list.nodes
    ensures InStep(w) && w.state.View() == t
  {
    hide InStep, Enabled, Apply, Assemble, Run;
    assert events[0..] == events;
    for k := 0 to |events|
      invariant InStep(w) && Run(w.state.View(), events[k..], t)
      invariant forall i :: 0 <= i < |w.list.nodes| ==> w.list.nodes[i] in old(w.list.nodes) || fresh(w.list.nodes[i])
    {
      RunGoesOn(w.state.View(), events, k, t);
      Step(w, events[k]);
    }
    RunEnds(w.state.View(), events, t);
  }

  lemma RunGoesOn(s: State, events: seq<Event>, k: nat, t: State)
    requires k < |events| && Run(s, events[k..], t)
    ensures Enabled(s, events[k]) && Run(Apply(s, events[k]), events[k + 1..], t)
  {
    hide Enabled, Apply;
    assert events[k..][0] == events[k] && events[k..][1..] == events[k + 1..];
  }

  lemma RunEnds(s: State, events: seq<Event>, t: State)
    requires Run(s, events[|events|..], t)
    ensures s == t
  {
    assert events[|events|..] == [];
  }
}
