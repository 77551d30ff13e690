/** Outgoing messages of lib/_http_outgoing.js and their pipelining in lib/_http_server.js. A response buffers its
    output until it owns the socket; responses own the socket in the order of their requests. */
module HttpSpec {
  import opened Wrappers
  import opened Bytes
  import opened HttpChunked

  /** What `_storeHeader` decides. */
  datatype Head = Head(text: Bytes, last: bool, chunked: bool, hasBody: bool)

  /** Where `_writeRaw` sends data. */
  datatype Mode = Direct | Dropped | Buffered

  datatype Response = Response(
    head: Option<Head>, headerSent: bool, output: seq<Bytes>, finished: bool,
    // history: accepted chunks, everything passed to `_send`, and what of it reached the socket
    chunks: seq<Bytes>, trailer: seq<Bytes>, text: Bytes, wired: Bytes)

  const NEW: Response := Response(None, false, [], false, [], [], [], [])

  // ---- one message ----

  /** `_send` and `_writeRaw`. The header goes in front of the first data, as text or as a buffer of its own. */
  function Send(r: Response, mode: Mode, data: Bytes, isText: bool): (r': Response)
    requires r.head.Some?
    ensures r.wired <= r'.wired && r'.head == r.head
  {
    var header := if r.headerSent then [] else r.head.value.text;
    var output := if r.headerSent || isText then r.output else [header] + r.output;
    var piece := if isText then header + data else data;
    if piece == [] then r.(headerSent := true, output := output, text := r.text + header + data)
    else match mode
      case Direct =>
        r.(headerSent := true, output := [], text := r.text + header + data, wired := r.wired + Concat(output) + piece)
      case Dropped => r.(headerSent := true, output := output, text := r.text + header + data)
      case Buffered => r.(headerSent := true, output := output + [piece], text := r.text + header + data)
  }

  /** The body part of `write`, for a chunk that is not empty. */
  function SendChunk(r: Response, mode: Mode, data: Bytes, isText: bool): (r': Response)
    requires r.head.Some?
    ensures r.wired <= r'.wired && r'.head == r.head
  {
    if !r.head.value.chunked then Send(r, mode, data, isText)
    else if isText then Send(r, mode, Chunk(data), true)
    else SendPair(SendPair(r, mode, Hex(|data|), true, CRLF), mode, data, false, CRLF)
  }

  function SendPair(r: Response, mode: Mode, a: Bytes, aText: bool, b: Bytes): (r': Response)
    requires r.head.Some?
    ensures r.wired <= r'.wired && r'.head == r.head
  {
    Send(Send(r, mode, a, aText), mode, b, false)
  }

  function WithHead(r: Response, head: Head): (r': Response)
    ensures r'.wired == r.wired && r'.head.Some?
  {
    if r.head.Some? then r else r.(head := Some(head))
  }

  /** `write`. */
  function Write(r: Response, mode: Mode, data: Bytes, isText: bool, head: Head): (r': Response)
    ensures r.wired <= r'.wired
  {
    if r.finished then r
    else
      var r1 := WithHead(r, head);
      if !r1.head.value.hasBody || data == [] then r1
      else SendChunk(r1.(chunks := r1.chunks + [data]), mode, data, isText)
  }

  function Terminator(head: Head, trailer: seq<Bytes>): Bytes {
    if head.hasBody && head.chunked then Last(trailer) else []
  }

  /** `end`, up to the question whether the message is finished with. */
  function End(r: Response, mode: Mode, data: Bytes, isText: bool, trailer: seq<Bytes>, head: Head): (r': Response)
    requires !r.finished
    ensures r.wired <= r'.wired
  {
    var r1 := WithHead(Write(r, mode, data, isText, head), head);
    Send(r1.(trailer := trailer, finished := true), mode, Terminator(r1.head.value, trailer), true)
  }

  // ---- the connection ----

  datatype State = State(
    res: seq<Response>, incoming: seq<nat>, outgoing: seq<nat>, current: Option<nat>,
    writable: bool, destroyed: bool, aborted: bool, wire: Bytes,
    // history: how many responses are on the socket as a whole
    done: nat, failed: bool)

  const INIT: State := State([], [], [], None, true, false, false, [], 0, false)

  function ModeOf(s: State, i: nat): Mode {
    if s.current != Some(i) then Buffered
    else if s.writable then Direct
    else if s.destroyed then Dropped
    else Buffered
  }

  /** Response i has changed; what it wrote is on the socket. */
  function Put(s: State, i: nat, r: Response): State
    requires i < |s.res| && s.res[i].wired <= r.wired
  {
    s.(res := s.res[i := r], wire := s.wire + r.wired[|s.res[i].wired|..])
  }

  function Flushed(r: Response): (r': Response)
    ensures r.wired <= r'.wired
  {
    r.(output := [], wired := r.wired + Concat(r.output))
  }

  predicate InRange(s: State) {
    && (s.current.Some? ==> s.current.value < |s.res|)
    && (forall k :: 0 <= k < |s.outgoing| ==> s.outgoing[k] < |s.res|)
  }

  predicate IsLast(r: Response) {
    r.head.Some? && r.head.value.last
  }

  /** `resOnFinish`, and the next response's `assignSocket` and `_flush`, which may finish that one in turn. */
  function Finish(s: State): State
    requires InRange(s) && s.current.Some?
    decreases |s.outgoing|
  {
    var i := s.current.value;
    var incoming := if s.incoming == [] then [] else s.incoming[1..];
    var done := if s.writable then s.done + 1 else s.done;
    if s.incoming != [] && s.incoming[0] != i then s.(failed := true)
    else if IsLast(s.res[i]) then s.(incoming := incoming, current := None, writable := false, done := done)
    else if s.outgoing == [] then s.(incoming := incoming, current := None, done := done)
    else if !s.writable then s.(incoming := incoming, current := Some(s.outgoing[0]), outgoing := s.outgoing[1..])
    else
      var t := Assigned(s);
      if t.res[s.outgoing[0]].finished then Finish(t) else t
  }

  /** The next response owns the socket and has written what it held back. */
  function Assigned(s: State): (t: State)
    requires InRange(s) && s.outgoing != []
    ensures InRange(t) && t.current == Some(s.outgoing[0]) && t.outgoing == s.outgoing[1..] && |t.res| == |s.res|
  {
    var m := s.outgoing[0];
    var r := Flushed(s.res[m]);
    s.(incoming := if s.incoming == [] then [] else s.incoming[1..], current := Some(m), outgoing := s.outgoing[1..],
       done := s.done + 1, res := s.res[m := r], wire := s.wire + r.wired[|s.res[m].wired|..])
  }

  // ---- runs ----

  datatype Event =
    | EvRequest
    | EvHead(i: nat, head: Head)
    | EvWrite(i: nat, data: Bytes, isText: bool, head: Head)
    | EvEnd(i: nat, data: Bytes, isText: bool, trailer: seq<Bytes>, head: Head)
    | EvDestroy
    | EvAbort

  /** A header text is never empty. No request is read once the client's end of the connection is gone. */
  predicate Enabled(s: State, e: Event) {
    && !s.failed
    && match e
       case EvRequest => !s.aborted
       case EvHead(i, head) => i < |s.res| && head.text != [] && !s.res[i].finished
       case EvWrite(i, _, _, head) => i < |s.res| && head.text != []
       case EvEnd(i, _, _, _, head) => i < |s.res| && head.text != []
       case EvDestroy => true
       case EvAbort => true
  }

  /** `parserOnIncoming`. */
  function Request(s: State): State {
    var i := |s.res|;
    if s.current.Some? then s.(res := s.res + [NEW], incoming := s.incoming + [i], outgoing := s.outgoing + [i])
    else s.(res := s.res + [NEW], incoming := s.incoming + [i], current := Some(i))
  }

  /** `end`: the response is finished with when nothing of it is held back. A response without a socket has no
      `_httpMessage` to ask for. */
  function EndResponse(s: State, i: nat, r: Response): State
    requires InRange(s) && i < |s.res| && s.res[i].wired <= r.wired
  {
    var t := Put(s, i, r);
    if r.output != [] then t
    else if s.current == Some(i) then Finish(t)
    else t.(failed := true)
  }

  function Apply(s: State, e: Event): State
    requires Enabled(s, e) && InRange(s)
  {
    match e
    case EvRequest => Request(s)
    case EvHead(i, head) => Put(s, i, WithHead(s.res[i], head))
    case EvWrite(i, data, isText, head) => Put(s, i, Write(s.res[i], ModeOf(s, i), data, isText, head))
    case EvEnd(i, data, isText, trailer, head) =>
      if s.res[i].finished then s else EndResponse(s, i, End(s.res[i], ModeOf(s, i), data, isText, trailer, head))
    case EvDestroy => s.(destroyed := true, writable := false)
    case EvAbort => s.(aborted := true, incoming := [], writable := false)
  }
}

module HttpProofs {
  import opened Wrappers
  import opened Bytes
  import opened HttpChunked
  import opened HttpSpec

  // ---- one message ----

  /** The text of a message in terms of the chunks it accepted. */
  function Body(head: Head, chunks: seq<Bytes>): Bytes {
    if head.hasBody && head.chunked then Chunks(chunks) else Concat(chunks)
  }

  function Text(r: Response): Bytes
    requires r.head.Some?
  {
    r.head.value.text + Body(r.head.value, r.chunks) + (if r.finished then Terminator(r.head.value, r.trailer) else [])
  }

  ghost predicate Framed(r: Response) {
    && (r.head.None? ==> !r.headerSent)
    && (!r.headerSent ==> r.text == [] && r.wired == [] && r.output == [] && r.chunks == [] && !r.finished)
    && (r.headerSent ==> r.text == Text(r))
    && (r.head.Some? ==> r.head.value.text != [] && (!r.head.value.hasBody ==> r.chunks == []))
    && (forall k :: 0 <= k < |r.chunks| ==> r.chunks[k] != [])
  }

  /** While the socket is open nothing is lost. */
  ghost predicate Flows(r: Response, open: bool) {
    r.wired <= r.text && (open ==> r.wired + Concat(r.output) == r.text)
  }

  /** A response without the socket holds something back once it has begun. */
  predicate Backed(r: Response) {
    r.headerSent ==> r.output != []
  }

  /** The pieces behind a header add up to the header and the data. */
  lemma Pieces(output: seq<Bytes>, header: Bytes, data: Bytes, isText: bool, headerSent: bool)
    requires headerSent ==> header == []
    requires !headerSent ==> output == []
    ensures var out := if headerSent || isText then output else [header] + output;
            var piece := if isText then header + data else data;
            && Concat(out) + piece == Concat(output) + header + data
            && Concat(out + [piece]) == Concat(output) + header + data
  {
    var out := if headerSent || isText then output else [header] + output;
    var piece := if isText then header + data else data;
    hide Concat;
    ConcatConcat(out, [piece]);
    ConcatOne(piece);
    if !headerSent && !isText {
      ConcatOne(header);
      assert [header] + [] == [header];
      ConcatConcat([header], []);
    }
  }

  lemma SendFields(r: Response, mode: Mode, data: Bytes, isText: bool)
    requires r.head.Some? && r.head.value.text != [] && (data == [] ==> isText) && (!r.headerSent ==> r.output == [])
    ensures var r' := Send(r, mode, data, isText);
            && r'.headerSent && r'.head == r.head && r'.chunks == r.chunks && r'.finished == r.finished && r'.trailer == r.trailer
            && (!mode.Direct? ==> r'.wired == r.wired)
            && (mode.Direct? && r.output == [] ==> r'.output == [])
            && (mode.Buffered? && Backed(r) ==> Backed(r'))
  {
    hide Concat;
  }

  /** What is held back and what was written add up, in each mode. */
  lemma SendAdds(r: Response, mode: Mode, data: Bytes, isText: bool)
    requires r.head.Some? && (data == [] ==> isText) && (!r.headerSent ==> r.output == [])
    ensures var r', header := Send(r, mode, data, isText), if r.headerSent then [] else r.head.value.text;
            && r'.text == r.text + header + data
            && (mode.Direct? ==>
                  || (r'.output == [] && r'.wired == r.wired + (Concat(r.output) + header + data))
                  || (header + data == [] && r'.output == r.output && r'.wired == r.wired))
            && (!mode.Direct? ==> r'.wired == r.wired)
            && (mode.Buffered? ==> Concat(r'.output) == Concat(r.output) + header + data)
  {
    var header := if r.headerSent then [] else r.head.value.text;
    Pieces(r.output, header, data, isText, r.headerSent);
    hide Concat;
    var output := if r.headerSent || isText then r.output else [header] + r.output;
    var piece := if isText then header + data else data;
    assert (r.wired + Concat(output)) + piece == r.wired + (Concat(output) + piece);
    if piece == [] {
      assert header + data == [] && output == r.output;
      assert Concat(r.output) + header + data == Concat(r.output);
    }
  }

  lemma SendFlows(r: Response, mode: Mode, data: Bytes, isText: bool, open: bool)
    requires r.head.Some? && Flows(r, open) && (data == [] ==> isText)
    requires (mode.Direct? ==> open) && (mode.Dropped? ==> !open) && (!r.headerSent ==> r.output == [] && r.text == [])
    ensures var r' := Send(r, mode, data, isText);
            Flows(r', open) && r'.text == (if r.headerSent then r.text else r.head.value.text) + data
  {
    assert Concat([]) == [];
    hide Concat, Send;
    SendAdds(r, mode, data, isText);
    Append(r.wired, Concat(r.output), r.text, if r.headerSent then [] else r.head.value.text, data, open);
  }

  lemma Append(wired: Bytes, held: Bytes, text: Bytes, header: Bytes, data: Bytes, open: bool)
    requires open ==> wired + held == text
    ensures wired <= text ==> wired <= text + header + data
    ensures open ==> wired + (held + header + data) == text + header + data
    ensures text == [] ==> text + header + data == header + data
  {
    assert wired + (held + header + data) == (wired + held) + header + data;
  }

  /** What every way to send keeps, and the fields it leaves. */
  ghost predicate Sent(r: Response, r': Response, mode: Mode, open: bool) {
    && Flows(r', open)
    && r'.head == r.head && r'.chunks == r.chunks && r'.finished == r.finished && r'.trailer == r.trailer && r'.headerSent
    && (!mode.Direct? ==> r'.wired == r.wired)
    && (mode.Direct? && r.output == [] ==> r'.output == [])
    && (mode.Buffered? && Backed(r) ==> Backed(r'))
  }

  /** The text of a message so far. */
  function Begun(r: Response): Bytes
    requires r.head.Some?
  {
    if r.headerSent then r.text else r.head.value.text
  }

  ghost predicate Sendable(r: Response, mode: Mode, open: bool) {
    && r.head.Some? && r.head.value.text != [] && Flows(r, open)
    && (mode.Direct? ==> open) && (mode.Dropped? ==> !open) && (!r.headerSent ==> r.output == [] && r.text == [])
  }

  lemma SendSends(r: Response, mode: Mode, data: Bytes, isText: bool, open: bool)
    requires Sendable(r, mode, open) && (data == [] ==> isText)
    ensures var r' := Send(r, mode, data, isText); Sent(r, r', mode, open) && r'.text == Begun(r) + data && Begun(r') == r'.text && Sendable(r', mode, open)
  {
    SendFields(r, mode, data, isText);
    SendFlows(r, mode, data, isText, open);
    hide Send, Flows;
  }

  lemma SentTrans(r: Response, r1: Response, r2: Response, mode: Mode, open: bool)
    requires Sent(r, r1, mode, open) && Sent(r1, r2, mode, open)
    ensures Sent(r, r2, mode, open)
  {
  }

  lemma PairSends(r: Response, mode: Mode, a: Bytes, aText: bool, b: Bytes, open: bool)
    requires Sendable(r, mode, open) && a != [] && b != []
    ensures var r' := SendPair(r, mode, a, aText, b);
            Sent(r, r', mode, open) && r'.text == Begun(r) + (a + b) && Begun(r') == r'.text && Sendable(r', mode, open)
  {
    assert r.head.Some?;
    hide Send, Sendable, Sent, Begun;
    var r1 := Send(r, mode, a, aText);
    SendSends(r, mode, a, aText, open);
    SendSends(r1, mode, b, false, open);
    SentTrans(r, r1, Send(r1, mode, b, false), mode, open);
  }

  lemma HexSome(n: nat)
    ensures Hex(n) != []
  {
  }

  /** A chunk sent in four pieces. */
  lemma PiecesSend(r: Response, mode: Mode, data: Bytes, open: bool)
    requires Sendable(r, mode, open) && r.head.value.chunked && data != []
    ensures var r' := SendChunk(r, mode, data, false); Sent(r, r', mode, open) && r'.text == Begun(r) + Chunk(data)
  {
    assert r.head.Some?;
    hide SendPair, Sendable, Sent, Begun, Hex;
    HexSome(|data|);
    var r2 := SendPair(r, mode, Hex(|data|), true, CRLF);
    PairSends(r, mode, Hex(|data|), true, CRLF, open);
    PairSends(r2, mode, data, false, CRLF, open);
    SentTrans(r, r2, SendPair(r2, mode, data, false, CRLF), mode, open);
    Regroup(Begun(r), Hex(|data|), CRLF, data);
  }

  lemma Regroup(x: Bytes, a: Bytes, b: Bytes, c: Bytes)
    ensures x + (a + b) + (c + b) == x + (a + b + c + b)
  {
  }

  lemma ChunkSends(r: Response, mode: Mode, data: Bytes, isText: bool, open: bool)
    requires Sendable(r, mode, open) && data != []
    ensures var r' := SendChunk(r, mode, data, isText);
            Sent(r, r', mode, open) && r'.text == Begun(r) + (if r.head.value.chunked then Chunk(data) else data)
  {
    if !r.head.value.chunked {
      SendSends(r, mode, data, isText, open);
    } else if isText {
      SendSends(r, mode, Chunk(data), true, open);
    } else {
      PiecesSend(r, mode, data, open);
    }
    hide Send, Chunk, Sent;
  }

  /** What an operation of the user on a message keeps. */
  ghost predicate Kept(r: Response, r': Response, mode: Mode, open: bool) {
    && Framed(r') && Flows(r', open)
    && r.wired <= r'.wired && (!mode.Direct? ==> r'.wired == r.wired)
    && (mode.Direct? && r.output == [] ==> r'.output == [])
    && (mode.Buffered? && Backed(r) ==> Backed(r'))
    && (r.head.Some? ==> r'.head == r.head) && (r.finished ==> r'.finished && r'.text == r.text)
  }

  ghost predicate Usable(r: Response, mode: Mode, open: bool) {
    Framed(r) && Flows(r, open) && (mode.Direct? ==> open) && (mode.Dropped? ==> !open)
  }

  lemma HeadKeeps(r: Response, mode: Mode, head: Head, open: bool)
    requires Usable(r, mode, open) && head.text != [] && !r.finished
    ensures Kept(r, WithHead(r, head), mode, open) && Usable(WithHead(r, head), mode, open)
  {
    hide Concat, Text;
  }

  /** The text grows by the next chunk. */
  lemma BodyGrows(head: Head, chunks: seq<Bytes>, data: Bytes)
    requires head.hasBody
    ensures Body(head, chunks + [data]) == Body(head, chunks) + (if head.chunked then Chunk(data) else data)
  {
    ConcatConcat(chunks, [data]);
    ConcatOne(data);
    ChunksConcat(chunks, [data]);
    assert Chunks([data]) == Chunk(data) + Chunks([]);
  }

  lemma BodyFramed(r: Response, r': Response, data: Bytes)
    requires Framed(r) && !r.finished && r.head.Some? && r.head.value.hasBody && data != []
    requires r'.head == r.head && r'.chunks == r.chunks + [data] && !r'.finished && r'.headerSent
    requires r'.text == Begun(r) + (if r.head.value.chunked then Chunk(data) else data)
    ensures Framed(r')
  {
    BodyGrows(r.head.value, r.chunks, data);
    if !r.headerSent {
      assert Body(r.head.value, []) == [];
    }
    assert Begun(r) == r.head.value.text + Body(r.head.value, r.chunks);
    hide Body, Chunk, Begun;
    Grouped(r.head.value.text, Body(r.head.value, r.chunks), if r.head.value.chunked then Chunk(data) else data);
    forall k | 0 <= k < |r'.chunks|
      ensures r'.chunks[k] != []
    {
      assert k < |r.chunks| ==> r'.chunks[k] == r.chunks[k];
    }
  }

  lemma Grouped(a: Bytes, b: Bytes, c: Bytes)
    ensures (a + b) + c == a + (b + c) + []
  {
  }

  lemma BodyKeeps(r: Response, mode: Mode, data: Bytes, isText: bool, open: bool)
    requires Usable(r, mode, open) && !r.finished && r.head.Some? && r.head.value.hasBody && data != []
    ensures Kept(r, SendChunk(r.(chunks := r.chunks + [data]), mode, data, isText), mode, open)
  {
    var r1 := r.(chunks := r.chunks + [data]);
    assert Sendable(r1, mode, open) && Begun(r1) == Begun(r) by { hide Concat, Text; }
    hide SendChunk, Body, Chunk, Flows, Sendable, Framed, Begun;
    ChunkSends(r1, mode, data, isText, open);
    BodyFramed(r, SendChunk(r1, mode, data, isText), data);
  }

  lemma WriteKeeps(r: Response, mode: Mode, data: Bytes, isText: bool, head: Head, open: bool)
    requires Usable(r, mode, open) && head.text != []
    ensures Kept(r, Write(r, mode, data, isText, head), mode, open)
    ensures Usable(Write(r, mode, data, isText, head), mode, open) && Write(r, mode, data, isText, head).finished == r.finished
  {
    if !r.finished {
      var r1 := WithHead(r, head);
      HeadKeeps(r, mode, head, open);
      if r1.head.value.hasBody && data != [] {
        BodyKeeps(r1, mode, data, isText, open);
        BodyUnfinished(r1.(chunks := r1.chunks + [data]), mode, data, isText);
      }
    }
    hide SendChunk, Framed, Flows, Usable;
  }

  lemma BodyUnfinished(r: Response, mode: Mode, data: Bytes, isText: bool)
    requires r.head.Some?
    ensures SendChunk(r, mode, data, isText).finished == r.finished
  {
  }

  lemma EndKeeps(r: Response, mode: Mode, data: Bytes, isText: bool, trailer: seq<Bytes>, head: Head, open: bool)
    requires Usable(r, mode, open) && head.text != [] && !r.finished
    ensures var r' := End(r, mode, data, isText, trailer, head); Kept(r, r', mode, open) && r'.finished && r'.headerSent
  {
    var r0 := Write(r, mode, data, isText, head);
    WriteKeeps(r, mode, data, isText, head, open);
    HeadKeeps(r0, mode, head, open);
    var r1 := WithHead(r0, head);
    var r2 := r1.(trailer := trailer, finished := true);
    assert Sendable(r2, mode, open) by { hide Concat, Text, Write, Kept; }
    SendSends(r2, mode, Terminator(r1.head.value, trailer), true, open);
    EndTexts(r0, r1, r2, head);
    hide Write, Send, Flows, Sendable;
  }

  lemma EndTexts(r0: Response, r1: Response, r2: Response, head: Head)
    requires Framed(r0) && !r0.finished && r1 == WithHead(r0, head) && Framed(r1)
    requires r2 == r1.(trailer := r2.trailer, finished := true)
    ensures Begun(r2) + Terminator(r1.head.value, r2.trailer) == Text(r2)
  {
    if !r1.headerSent {
      assert r1.chunks == [];
      assert Body(r1.head.value, []) == [];
    }
    hide Chunks, Concat, Terminator;
  }
}
