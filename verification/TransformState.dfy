/** `TransformState` of lib/_stream_transform.js as the object it is. */
module TransformObject {
  import opened Wrappers
  import opened WritableSpec
  import opened TransformSpec
  import TP = TransformProofs

  class TransformState {
    var needTransform: bool
    var transforming: bool
    var writechunk: Option<Req>
    /** The writable side, the flush under way and the history. */
    ghost var around: Transform

    ghost function View(): Transform
      reads this
    {
      around.(needTransform := needTransform, transforming := transforming, writechunk := writechunk)
    }

    constructor (objectMode: bool, highWaterMark: int, hasFlush: bool)
      ensures View() == TransformSpec.Init(objectMode, highWaterMark, hasFlush)
    {
      needTransform, transforming, writechunk := false, false, None;
      around := TransformSpec.Init(objectMode, highWaterMark, hasFlush);
    }

    method Push(out: Out)
      modifies this
      ensures View() == TransformSpec.Push(old(View()), out)
    {
      needTransform := false;
      around := around.(pushed := around.pushed + [out]);
    }

    /** `_write`, up to its call of `_read`. */
    method Write(req: Req)
      modifies this
      ensures View() == HookWrite(old(View()), req)
    {
      writechunk := Some(req);
    }

    /** `_read`; `call` is the chunk that goes to `_transform`. */
    method Read() returns (call: Option<Req>)
      modifies this
      ensures View() == TransformSpec.Read(old(View()))
      ensures call == if old(writechunk.Some? && !transforming) then old(writechunk) else None
    {
      if writechunk.Some? && !transforming {
        transforming := true;
        call := writechunk;
        around := around.(calls := around.calls + [writechunk.value]);
      } else {
        call := None;
        needTransform := true;
      }
    }

    /** `afterTransform` up to the call of the write's callback; false when there is none. */
    method Answer(data: Option<Chunk>) returns (ok: bool)
      modifies this
      ensures ok == old(writechunk.Some?)
      ensures ok ==> View() == Answered(old(View()), data)
      ensures !ok ==> View() == old(View()).(transforming := false)
    {
      transforming := false;
      ok := writechunk.Some?;
      if !ok {
        return;
      }
      around := around.(called := around.called + [writechunk.value]);
      writechunk := None;
      if data.Some? {
        Push(Data(data.value));
      }
    }

    /** `done`, given the length of the writable side; false for one of its two throws. */
    method Done(failed: bool, length: int) returns (ok: bool)
      requires length == around.w.length
      modifies this
      ensures ok <==> failed || (length == 0 && !transforming)
      ensures View() == if failed then FlushFails(old(View())) else TransformSpec.Done(old(View()))
    {
      ok := failed || (length == 0 && !transforming);
      around := around.(flushing := false, flushFailed := around.flushFailed || failed, threw := around.threw || !ok);
      if !failed && ok {
        Push(Eof);
      }
    }
  }

  /** The readable side asks a Transform in a state of a run, and leaves it in one. */
  method Ask(t: TransformState) returns (call: Option<Req>)
    requires TP.Inv(t.View())
    modifies t
    ensures TP.Inv(t.View()) && t.View() == TransformSpec.Read(old(t.View()))
  {
    hide TP.Inv, TransformSpec.Read;
    TP.ReadKeeps(t.View());
    call := t.Read();
  }

  /** So does a push of the user's transform. */
  method UserPush(t: TransformState, chunk: Chunk)
    requires TP.Inv(t.View()) && (t.transforming || t.around.flushing)
    modifies t
    ensures TP.Inv(t.View()) && t.View() == TransformSpec.Push(old(t.View()), Data(chunk))
  {
    TP.PushKeeps(t.View(), chunk);
    hide TP.Inv, TransformSpec.Push;
    t.Push(Data(chunk));
  }

  /** So does the end of a flush, which reaches neither throw; the end of file is then pushed or the error emitted. */
  method FlushEnds(t: TransformState, failed: bool, length: int) returns (ok: bool)
    requires TP.Inv(t.View()) && t.around.flushing && length == t.around.w.length
    modifies t
    ensures TP.Inv(t.View()) && ok && (TP.Ended(t.View()) <==> !failed)
  {
    TP.FlushDoneKeeps(t.View());
    TP.FlushEndsIn(t.View());
    hide TP.Inv, TP.Ended, TransformSpec.Done, FlushFails;
    ok := t.Done(failed, length);
  }
}
