/** `OutgoingMessage` of lib/_http_outgoing.js as the object it is. */
module HttpMessage {
  import opened Wrappers
  import opened Bytes
  import opened HttpChunked
  import opened HttpSpec
  import HP = HttpProofs

  class OutgoingMessage {
    var header: Option<Head>
    var headerSent: bool
    var output: seq<Bytes>
    var finished: bool
    /** What the socket has got from this message. */
    var wired: Bytes
    /** What was accepted and sent so far. */
    ghost var history: Response

    ghost function View(): Response
      reads this
    {
      history.(head := header, headerSent := headerSent, output := output, finished := finished, wired := wired)
    }

    constructor ()
      ensures View() == NEW
    {
      header, headerSent, output, finished, wired := None, false, [], false, [];
      history := NEW;
    }

    /** Everything held back goes to the socket, in order. */
    method FlushOutput()
      modifies this
      ensures View() == Flushed(old(View()))
    {
      assert output[0..] == output;
      for i := 0 to |output|
        invariant output == old(output) && wired + Concat(output[i..]) == old(wired) + Concat(output)
        invariant View() == old(View()).(wired := wired)
      {
        assert output[i..][1..] == output[i + 1..];
        wired := wired + output[i];
      }
      assert output[|output|..] == [];
      output := [];
    }

    /** `_writeRaw`, for data that is not empty: to the socket, behind what was held back, or nowhere, or to the buffer. */
    method WriteRaw(data: Bytes, mode: Mode)
      modifies this
      ensures View() == old(View()).(
                output := match mode case Direct => [] case Dropped => old(output) case Buffered => old(output) + [data],
                wired := if mode.Direct? then old(wired) + Concat(old(output)) + data else old(wired))
    {
      if mode.Direct? {
        FlushOutput();
        wired := wired + data;
      } else if mode.Buffered? {
        output := output + [data];
      }
    }

    /** `_send`. */
    method Send(data: Bytes, isText: bool, mode: Mode)
      requires header.Some?
      modifies this
      ensures View() == HttpSpec.Send(old(View()), mode, data, isText)
    {
      hide Concat;
      var piece := data;
      ghost var text := if headerSent then [] else header.value.text;
      history := history.(text := history.text + text + data);
      if !headerSent {
        if isText {
          piece := header.value.text + data;
        } else {
          output := [header.value.text] + output;
        }
        headerSent := true;
      } else {
        assert [] + data == data;
      }
      if |piece| > 0 {
        WriteRaw(piece, mode);
      }
    }

    method SendPair(a: Bytes, aText: bool, b: Bytes, mode: Mode)
      requires header.Some?
      modifies this
      ensures View() == HttpSpec.SendPair(old(View()), mode, a, aText, b)
    {
      hide HttpSpec.Send;
      Send(a, aText, mode);
      Send(b, false, mode);
    }

    /** The body part of `write`. */
    method SendChunk(chunk: Bytes, isText: bool, mode: Mode)
      requires header.Some?
      modifies this
      ensures View() == HttpSpec.SendChunk(old(View()), mode, chunk, isText)
    {
      hide HttpSpec.Send, HttpSpec.SendPair;
      if header.value.chunked {
        if isText {
          Send(Hex(|chunk|) + CRLF + chunk + CRLF, true, mode);
        } else {
          SendPair(Hex(|chunk|), true, CRLF, mode);
          SendPair(chunk, false, CRLF, mode);
        }
      } else {
        Send(chunk, isText, mode);
      }
    }

    /** `write`; `head` is what `_implicitHeader` would store. */
    method Write(chunk: Bytes, isText: bool, mode: Mode, head: Head)
      modifies this
      ensures View() == HttpSpec.Write(old(View()), mode, chunk, isText, head)
    {
      hide HttpSpec.SendChunk;
      if finished {
        return;
      }
      if header.None? {
        header := Some(head);
      }
      if !header.value.hasBody || |chunk| == 0 {
        return;
      }
      history := history.(chunks := history.chunks + [chunk]);
      SendChunk(chunk, isText, mode);
    }

    /** `end`, up to the question whether the message is finished with. */
    method End(data: Bytes, isText: bool, trailer: seq<Bytes>, mode: Mode, head: Head)
      requires !finished
      modifies this
      ensures View() == HttpSpec.End(old(View()), mode, data, isText, trailer, head)
    {
      hide HttpSpec.Write, HttpSpec.Send;
      Write(data, isText, mode, head);
      if header.None? {
        header := Some(head);
      }
      history := history.(trailer := trailer);
      finished := true;
      Send(if header.value.hasBody && header.value.chunked then Last(trailer) else [], true, mode);
    }
  }

  /** `write` keeps a message framed, and loses nothing of it while the socket is open. */
  method WriteOn(m: OutgoingMessage, chunk: Bytes, isText: bool, mode: Mode, head: Head, ghost open: bool)
    requires HP.Usable(m.View(), mode, open) && head.text != []
    modifies m
    ensures HP.Kept(old(m.View()), m.View(), mode, open) && HP.Usable(m.View(), mode, open)
  {
    hide HP.Usable, HP.Kept, HttpSpec.Write;
    HP.WriteKeeps(m.View(), mode, chunk, isText, head, open);
    m.Write(chunk, isText, mode, head);
  }

  method EndOn(m: OutgoingMessage, data: Bytes, isText: bool, trailer: seq<Bytes>, mode: Mode, head: Head, ghost open: bool)
    requires HP.Usable(m.View(), mode, open) && head.text != [] && !m.finished
    modifies m
    ensures HP.Kept(old(m.View()), m.View(), mode, open) && m.finished
  {
    hide HP.Usable, HP.Kept, HttpSpec.End;
    HP.EndKeeps(m.View(), mode, data, isText, trailer, head, open);
    m.End(data, isText, trailer, mode, head);
  }
}
