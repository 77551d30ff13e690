# io.js core library: a verified model

The protocols, codecs and state machines of the JavaScript half of the io.js core library, modelled in Dafny, with proofs of
what they promise for every input and every run. `dafny verify dfyconfig.toml` checks the project.

- **Punycode** (`Ucs2`, `Bootstring`, `Punycode`, `PunycodeAnswers`): encoder and decoder of RFC 3492 as loops, refined to
  functions; the decoder follows the encoder step by step, so decoding what was encoded gives the string back; and what whole
  families of texts are written as.
- **Streams** (`WritableSpec`, `WritableProofs`, `WritableLaws`, `WritableState`, `WritableBuffer`, `WritableStream`,
  `Transform`, `TransformState`, `Readable`): writable and transform streams as state machines whose hooks call back now or later, with the
  objects that take the same steps in place, the linked request list on the heap, and the two changed together; the readable
  stream as an object with a log, whose replay gives what was delivered and what is buffered in every run.
- **Cluster and IPC** (`Cluster`, `ClusterOrder`, `ClusterHandle`, `Ipc`, `IpcLaws`): two protocols over FIFO channels as transition systems, with the
  objects of the source refining the steps, and the newline framing for every chunking.
- **Timers** (`LinkList`, `TimerRing`, `Timers`): linked rings on the heap, the ring of unref'd timers as a value with all that a
  pass does to it, and the object that keeps its linked ring in firing order.
- **HTTP pipelining** (`HttpChunked`, `Http`, `HttpRuns`, `HttpMessage`, `HttpConnection`): responses finished in any order,
  written in the order of their requests (section 6.3.2 of RFC 7230), with chunked framing (section 4.1 of RFC 7230).
- **Text and paths** (`Utf8`, `StringDecoder`, `Querystring`, `DotSegments`, `Path`): incremental decoding, escaping, two
  algorithms for dot segments, and relative paths.
- **Buffer integers** (`BufferInts`): the integers of one to six bytes.
- `Wrappers` and `Bytes` hold the option type and the concatenation of buffers.

Conventions. User hooks (`_write`, `_read`, `_transform`, response handlers) are the environment: a hook calls its callback
once, now or later, and does not call the stream from inside. `process.nextTick` is a list of pending steps. Time, chunk
boundaries, the answers of hooks and the native `Buffer#toString` are parameters. JavaScript strings are sequences of 16-bit
units, or `string` where only their characters matter (paths, IPC lines). Numbers are unbounded; 31-bit guards, 32-bit
conversions and byte stores are written out. Bit operations are written as arithmetic where the ranges make them that.

Where the code does not do what its documentation or its own assertions say, the model follows the code, and a lemma says
exactly when:

- `basicToDigit` leaves its documented range 0..36 below 22 and between the digit and letter blocks (`BasicToDigitRange`).
- A connection rejected after the last worker left is put in a queue that nothing empties (`StrandsExactlyWhen`,
  `ConnectionsCanBeStranded`).
- A message with a handle that is read after the receiver's own disconnect makes its acknowledgement fail an assertion
  (`IpcProofs.FailsExactlyWhen`, `DisconnectCanFail`).
- A response that ends on a destroyed socket with nothing held back, while an older one still waits, breaks the assertion on the order of requests
  (`HttpRuns.FailsExactlyWhen`, `RequestsCanBeOvertaken`).
- The dot-segment loops of url.js and path.js differ on empty segments (`UrlAgreesExactlyWhen`,
  `UrlAgreesBelowRootExactlyWhen`, `UrlDiffersOnBlanks`).
- `writeUInt` accepts 256^n and stores 0 (`UIntRoundTrip`); `writeInt` stores a wrong byte for negative multiples of 256 wider
  than one byte (`IntRoundTrip`).

## Model

| member | source | states |
|---|---|---|
| Ucs2.Ucs2Decode | lib/punycode.js:126-150 | the scan with one unit of lookahead gives the code points, unpaired surrogates standing for themselves |
| Ucs2.Ucs2Encode | lib/punycode.js:160-171 | gives the code units of any list of numbers, truncated as `String.fromCharCode` does |
| Ucs2.CodeUnitsOfCodePoints | lib/punycode.js:126-171 | encoding the decoded code points gives every string back |
| Ucs2.CodePointsOfCodeUnits | lib/punycode.js:126-171 | decoding the encoded units gives a list of code points back exactly when no high surrogate is followed by a low one |
| Ucs2.CodePointsOfCodeUnitsLength | lib/punycode.js:126-171 | a string never has more code points than the list it was made from |
| Ucs2.PairIs | lib/punycode.js:126-150 | the value of a surrogate pair |
| Bootstring.BasicToDigitRange | lib/punycode.js:182-193 | the result is in 0..36 exactly outside the three ranges the one-sided comparisons miss |
| Bootstring.DigitToBasic | lib/punycode.js:206-210 | a digit's character is a lower-case letter or a digit, and reads back as the digit |
| Bootstring.Threshold | lib/punycode.js:293-293 | the number from 1 to 26 that is nearest to k - bias |
| Bootstring.Adapt | lib/punycode.js:217-225 | the damping loop computes the bias of section 6.1 of RFC 3492 |
| Bootstring.AdaptedIs | lib/punycode.js:217-225 | the bias in closed form: delta divided by 700 or 2, with its share of the code points, divided by 35 as often as it takes to get to 455 |
| Bootstring.AdaptIgnoresStaleCount | lib/punycode.js:398-432 | the count kept from the start of a pass gives the same bias as the current one |
| Bootstring.ReadVarintInverts | lib/punycode.js:280-306 | reading a written integer gives it back on top of i and consumes nothing more, or reports overflow; no overflow when 35 times it fits |
| Bootstring.ContinuingWeight | lib/punycode.js:280-306 | every weight reached by a continuing digit is at most the integer being written |
| Punycode.Encode | lib/punycode.js:335-440 | the loops over the input, with their delta, bias and overflow guards, compute EncodeString |
| Punycode.EncodeBasics | lib/punycode.js:366-382 | the basic code points are copied in order |
| Punycode.NextValue | lib/punycode.js:387-394 | finds the least code point not yet handled |
| Punycode.EncodePass | lib/punycode.js:406-434 | one pass over the input writes a delta for each occurrence of n, or stops at the overflow guard |
| Punycode.EncodeVarint | lib/punycode.js:414-428 | writes delta as a generalized variable-length integer (section 3.3 of RFC 3492) |
| Punycode.Decode | lib/punycode.js:234-326 | the loop that reads deltas and splices code points computes DecodeString |
| Punycode.DecodeVarint | lib/punycode.js:280-306 | reads one variable-length integer or reports the error the source throws |
| Punycode.DecodeFollowsEncode | lib/punycode.js:234-326 | the simulation: from any point of the encoder's travel, its output makes the decoder end with the whole input, and the biases agree |
| Punycode.PassOver | lib/punycode.js:406-411 | passing a code point below n, or above it, keeps encoder variables and travel in step |
| Punycode.PassWrite | lib/punycode.js:413-433 | writing a delta resets it and keeps them in step, with the stale count in `adapt` |
| Punycode.EnterPass | lib/punycode.js:396-404 | jumping to the next code point adds (m-n)(h+1) to delta; the guard fires exactly when that leaves 31 bits |
| Punycode.PassEnds | lib/punycode.js:434-438 | a pass handles at least one code point and leaves the variables ready for the next |
| Punycode.TooFar | lib/punycode.js:398-411 | once delta is over the maximum with input left, the encoding is an overflow |
| Punycode.DecodeEncodeCodePoints | lib/punycode.js:234-440 | for every list of code points, decoding the encoding gives it back or reports overflow, the latter only above 55 code points |
| Punycode.DecodeEncodeString | lib/punycode.js:234-440 | for every string that `encode` accepts, `decode(encode(s))` is s, or an overflow in `decode` on more than 55 code points |
| Punycode.EncodeFromFits | lib/punycode.js:335-440 | no overflow check fires in `encode` up to 1927 code points |
| Punycode.ShortStringsRoundTrip | lib/punycode.js:234-440 | up to 55 code points no overflow check fires in either direction and the string comes back |
| PunycodeAnswers.BasicText | lib/punycode.js:335-382 | every text of basic code points is written as itself with a delimiter behind it |
| PunycodeAnswers.OneValue | lib/punycode.js:335-440 | every text with one code point that is not basic: the others, the delimiter, and its distance with the initial bias |
| PunycodeAnswers.AscendingText | lib/punycode.js:335-440 | every ascending text without basic code points: the steps from value to value, each with the bias adapted by the one before |
| PunycodeAnswers.Ue | lib/punycode.js:335-440 | "ü" is written tda |
| PunycodeAnswers.Books | lib/punycode.js:335-440 | "Bücher" is written Bcher-kva |
| PunycodeAnswers.Japanese | lib/punycode.js:335-440 | three ideographs are written wgv71a119e |
| PunycodeAnswers.DecodesTo | lib/punycode.js:234-326 | and these come back from the decoder |
| PunycodeAnswers.NotBasicExactlyWhen | lib/punycode.js:257-264 | the decoder complains of a character that is not basic exactly when one stands before some delimiter |
| PunycodeAnswers.BasicTextDecodes | lib/punycode.js:257-326 | a basic text with a delimiter behind it decodes to that text |
| PunycodeAnswers.BrokenOff | lib/punycode.js:280-306 | an integer that breaks off is an error |
| WritableProofs.StepKeeps | lib/_stream_writable.js:189-494 | every step of the stream, its hooks and its ticks keeps the invariant: sums, flags, order, owed drains |
| WritableProofs.RunKeeps | lib/_stream_writable.js:189-494 | so does every run |
| WritableProofs.WritesKeepTheirOrder | lib/_stream_writable.js:258-349 | in every run without a write error what was handed to the hooks followed by the buffer is what was accepted, in order; `length` is the size in flight plus the size buffered |
| WritableProofs.PendingCallbacksAreCounted | lib/_stream_writable.js:189-394 | in every run `pendingcb` is the accepted writes whose callback has not run, plus one per outstanding batch |
| WritableProofs.CallbacksAndFinish | lib/_stream_writable.js:299-494 | in every run, errors or not, each callback runs at most once and 'finish' is emitted at most once, after every write was handed on and called back |
| WritableProofs.QuiescentOwesNoDrain | lib/_stream_writable.js:265-367 | no lost drain: while one is owed and the stream is not ending, a write is in flight, buffered or about to look; 'drain' comes only with `length` 0 |
| WritableLaws.EveryDrainIsEmittedOrOwed | lib/_stream_writable.js:265-367 | in every run there is one 'drain', emitted or still owed, for each accepted write that reached the mark while none was owed |
| WritableLaws.FinishIsEmitted | lib/_stream_writable.js:456-494 | 'finish' is not lost: in every run in which ticks wait for an empty stack, a stream without errors that was ended and has nothing left to do has emitted it, and 'prefinish' |
| WritableLaws.AcceptsUntilEnd | lib/_stream_writable.js:189-214 | in every run the chunks accepted are those written up to the first `end`, in order |
| WritableLaws.LengthAndBuffer | lib/_stream_writable.js:258-283 | in every run `length` is the bytes, or in object mode the writes, in flight and buffered; without errors nothing stays buffered but behind a cork, a write in flight or the loop that writes it |
| WritableLaws.StepObeys | lib/_stream_writable.js:189-494 | in every step a chunk is accepted exactly until the end, a drain is owed exactly by a write that reaches the mark, and no hook is called while the stream is corked but by a loop under way |
| WritableLaws.CorksNest | lib/_stream_writable.js:216-235 | a cork holds until it is taken off |
| WritableLaws.BufferGoesAtOnce | lib/_stream_writable.js:371-421 | an uncork or completion hands the whole buffer to `_writev` if that is there and there are several, else the first to `_write` |
| WritableLaws.SyncIsOnStack | lib/_stream_writable.js:287-349 | in every run without errors, once a hook was called `sync` says whether one is on the stack |
| WritableObject.WritableState.constructor | lib/_stream_writable.js:25-110 | the initial state |
| WritableObject.WritableState.Write | lib/_stream_writable.js:189-214 | the fields take the step Write; the answer is whether `length` is below the mark |
| WritableObject.WritableState.Buffer | lib/_stream_writable.js:258-283 | a write behind another or a cork is counted and queued last |
| WritableObject.WritableState.Pass | lib/_stream_writable.js:258-297 | any other write goes to the hook |
| WritableObject.WritableState.DoWrite | lib/_stream_writable.js:287-297 | one write or batch is in flight |
| WritableObject.WritableState.Cork | lib/_stream_writable.js:216-220 | corks nest |
| WritableObject.WritableState.Uncork | lib/_stream_writable.js:222-235 | the last uncork starts on the buffer if nothing is in flight |
| WritableObject.WritableState.ClearBuffer | lib/_stream_writable.js:371-421 | the buffer goes to `_writev` as one batch, or its first entry to `_write` |
| WritableObject.WritableState.ClearOne | lib/_stream_writable.js:398-412 | the next entry goes to `_write` |
| WritableObject.WritableState.GoOn | lib/_stream_writable.js:397-421 | after a hook that called back at once the slow loop goes on with the next entry |
| WritableObject.WritableState.OnWrite | lib/_stream_writable.js:321-349 | a completion leaves its callbacks to be run and starts on the buffer unless the stream is corked, finishing or already at it |
| WritableObject.WritableState.OnWriteStateUpdate | lib/_stream_writable.js:314-319 | a completed write leaves `length` |
| WritableObject.WritableState.OnWriteDrain | lib/_stream_writable.js:362-367 | takes the step OnWriteDrain, by which 'drain' is emitted if owed and nothing is left (WritableLaws.DrainOwed) |
| WritableObject.WritableState.FinishMaybe | lib/_stream_writable.js:456-482 | 'prefinish' once, 'finish' when no callback is pending |
| WritableObject.WritableState.EndWritable | lib/_stream_writable.js:484-494 | the stream is ending and may finish at once |
| WritableObject.WritableState.RunTask | lib/_stream_writable.js:299-367 | one phase of a tick: the drain test, one callback with its count, or the last `finishMaybe` |
| WritableObject.WritableState.ClearDone | lib/_stream_writable.js:413-421 | `clearBuffer` ends and the completion that called it goes on |
| WritableBuffer.RequestList.Append | lib/_stream_writable.js:272-280 | on the heap: the request becomes the tail, and the list is what it was followed by it |
| WritableBuffer.RequestList.GetBuffer | lib/_stream_writable.js:112-120 | walks the list in order |
| WritableBuffer.RequestList.TakeBatch | lib/_stream_writable.js:371-396 | the batched branch takes the whole list in order and leaves head and tail null |
| WritableBuffer.RequestList.TakeInTurn | lib/_stream_writable.js:397-421 | the slow branch takes entries until one stays in flight; taken and left make up the list, and the tail is null exactly when it is empty |
| WritableStreams.Writable.constructor | lib/_stream_writable.js:25-110 | the initial state with an empty list satisfies the invariant of every run |
| WritableStreams.Writable.Write | lib/_stream_writable.js:189-283 | state and linked list take the step Write together: the list holds the buffered writes, with its tail in `lastBufferedRequest` |
| WritableStreams.Writable.Uncork | lib/_stream_writable.js:222-235 | the same of Uncork |
| WritableStreams.Writable.End | lib/_stream_writable.js:430-453 | the same of End, which its own write or uncork may suspend |
| WritableStreams.Writable.HookReturned | lib/_stream_writable.js:287-421 | the same of the return of a hook, behind which the slow loop or a suspended `end` goes on |
| WritableStreams.Writable.OnWrite | lib/_stream_writable.js:321-349 | the same of a completion, which may take a batch or an entry off the list |
| WritableStreams.Writable.GoOn | lib/_stream_writable.js:397-421 | the same of the next round of the slow loop |
| WritableStreams.Writable.Act | lib/_stream_writable.js:189-494 | the same of every event |
| WritableStreams.Step | lib/_stream_writable.js:189-494 | in a state of a run an event leaves state and list in one |
| WritableStreams.Drive | lib/_stream_writable.js:189-494 | in every run the object goes where the run goes, with the list in step and the invariant kept |
| TransformProofs.StepKeeps | lib/_stream_transform.js:63-192 | every step of a Transform keeps its invariant together with the writable one |
| TransformProofs.TransformsEveryChunkOnce | lib/_stream_transform.js:63-192 | in every run the chunks given to `_transform` are those handed on, once each and in order; neither throw of `done` is reached; end of file is pushed once, last, with every chunk answered, and exactly when the flush ended without an error |
| TransformProofs.StepLawful | lib/_stream_transform.js:63-192 | in every step: at `prefinish` the flush begins if there is one, or end of file is pushed; else what the transform gave is pushed and nothing more; a request stays open from when it finds nothing until something is pushed |
| TransformProofs.PassThroughCopies | lib/_stream_passthrough.js:20-22 | the chunks PassThrough pushed are the first chunks written, and at end of file all of them |
| TransformObject.TransformState.Write | lib/_stream_transform.js:145-157 | `_write` stores the chunk |
| TransformObject.TransformState.Read | lib/_stream_transform.js:162-173 | `_read` gives a stored chunk to `_transform` if none is there, or remembers the request |
| TransformObject.TransformState.Answer | lib/_stream_transform.js:63-86 | `afterTransform` clears the chunk, pushes the data and answers the write; without a write it is an error |
| TransformObject.TransformState.Push | lib/_stream_transform.js:126-129 | a push satisfies the request |
| TransformObject.TransformState.Done | lib/_stream_transform.js:176-192 | an error of the flush is emitted and nothing pushed; else throws on a non-empty writable side or a running transform, or pushes end of file |
| TransformObject.Ask | lib/_stream_transform.js:162-173 | a request of the readable side that comes in a state of a run leaves one |
| TransformObject.UserPush | lib/_stream_transform.js:126-129 | so does a push by the user |
| TransformObject.FlushEnds | lib/_stream_transform.js:176-192 | the end of a flush reaches neither throw and pushes the end of file exactly if it did not fail |
| TransformProofs.FlushEndsIn | lib/_stream_transform.js:176-192 | while a flush runs both guards of `done` hold |
| ReadableStream.FromList | lib/_stream_readable.js:812-874 | plucks exactly n bytes, or all, off the front of the list and leaves the rest |
| ReadableStream.Gather | lib/_stream_readable.js:846-869 | the loop over several buffers loses and reorders nothing |
| ReadableStream.RoundUpToNextPowerOf2 | lib/_stream_readable.js:196-206 | the bit-smearing loop gives the smallest power of two not below n, at most 8 MB |
| ReadableStream.Readable.AddChunk | lib/_stream_readable.js:98-176 | `push` and `unshift`: the call is logged, and the chunk is buffered at its place, handed on at once by an empty flowing stream outside the hook, or rejected |
| ReadableStream.Readable.HowMuchToRead | lib/_stream_readable.js:208-243 | never more than there is; a positive n gets n or the rest after end of file; something exactly when enough waits; without n all, or the first buffer of a flowing stream; a larger n raises the water mark to the power of two above it |
| ReadableStream.Readable.CallHook | lib/_stream_readable.js:316-326 | the hook's synchronous pushes and unshifts are logged in order |
| ReadableStream.Readable.Deliver | lib/_stream_readable.js:333-356 | what is returned is logged and is exactly k bytes off the front of the buffer |
| ReadableStream.Readable.Read | lib/_stream_readable.js:246-359 | `read` logs what the hook supplied if it was asked and then what it returns, and nothing else; it asks only when no call is outstanding and before end of file, returns something whenever enough waits, gives exactly n bytes unless the stream ended with fewer, or without n all that waits unless the stream flows, and never reaches the throw in `endReadable` |
| ReadableStream.Readable.Refill | lib/_stream_readable.js:293-331 | the hook is asked exactly when the stream has not ended, no call is outstanding, and the buffer is empty, low or waited for; what could be returned before can be returned after |
| ReadableStream.Readable.Flow | lib/_stream_readable.js:729-737 | every turn is a `read()` of the stream that the turns before it left, all but the last bring something, and it goes on until one brings nothing; the log grows by those turns only |
| ReadableStream.Readable.EndReadable | lib/_stream_readable.js:876-895 | throws exactly on a non-empty stream, else schedules 'end' |
| ReadableStream.Readable.EndTick | lib/_stream_readable.js:886-893 | 'end' is logged at most once, and only with everything delivered |
| ReadableStream.Take | lib/_stream_readable.js:98-359 | one event logs the supply it brings, the supplies of a hook that it asked and the bytes it delivers, each as the stream before it allows |
| ReadableStream.Drive | lib/_stream_readable.js:98-359 | for every run from any state reached: the log grows event by event by exactly that, its replay is what was delivered, what is buffered, the end of file and 'end', and `length` measures the buffer |
| ReadableStream.DeliveredInOrder | lib/_stream_readable.js:98-359 | in every log that replays and has no `unshift`, delivered followed by buffered is the concatenation of the chunks pushed before end of file |
| ReadableStream.UnshiftedNext | lib/_stream_readable.js:98-176 | what was unshifted last is delivered next, also behind the end of file |
| ReadableStream.NothingAfterEnd | lib/_stream_readable.js:876-895 | in every log that replays 'end' comes once, after end of file with nothing waiting, and nothing is delivered after it |
| ClusterProofs.StepKeeps | lib/cluster.js:120-186 | every step of master, workers and channels keeps the invariant |
| ClusterProofs.HandoffKeeps | lib/cluster.js:168-186 | a worker in nobody's hands gets the next connection or becomes free |
| ClusterProofs.DistributeKeeps | lib/cluster.js:162-166 | a connection is queued or goes to a free worker |
| ClusterProofs.AckKeeps | lib/cluster.js:179-185 | an acknowledgement closes, redistributes or strands its own connection and no other |
| ClusterProofs.AddKeeps | lib/cluster.js:120-148 | a worker that asks waits for the bind or gets its reply, then a connection if one is queued |
| ClusterProofs.RemoveKeeps | lib/cluster.js:150-160 | a worker that leaves is neither listed nor free; with the last one the queue is closed |
| ClusterProofs.RunKeeps | lib/cluster.js:120-186 | so every run keeps the invariant |
| ClusterProofs.EveryConnectionIsInOnePlace | lib/cluster.js:150-186 | in every run each connection that arrived is in exactly one place: in the queue once, outstanding at exactly one worker, accepted, closed at shutdown, or stranded |
| ClusterProofs.QueueAndFreeNeverCoexist | lib/cluster.js:162-175 | in every run queued connections and free workers never coexist, a listed worker is free or busy or waits for its reply, and no assertion fails |
| ClusterProofs.OneOutstandingPerWorker | lib/cluster.js:571-673 | in every run at most one connection is under way with a worker, its acknowledgement carries its number and finds its callback, and a rejection is taken only from a worker no longer listed |
| ClusterOrder.RoundRobin | lib/cluster.js:162-186 | in every run, as long as one worker stays in the line, free or waiting for the bind, no worker is given two connections, and none but those that joined the line before it are given any |
| ClusterOrder.FirstComeFirstServed | lib/cluster.js:162-186 | in every run, as long as a connection is queued none is handed over but those queued before it, once each |
| ClusterOrder.StepTakesTurns | lib/cluster.js:120-186 | in every step nobody joins the line before one that stays there, and who is served stood before it |
| ClusterOrder.StepInLine | lib/cluster.js:162-186 | in every step nothing gets in front of a queued connection |
| ClusterProofs.StrandsExactlyWhen | lib/cluster.js:150-186 | a step strands a connection exactly when it takes its rejection after the listener object that sent it was shut down |
| ClusterProofs.ConnectionsCanBeStranded | lib/cluster.js:150-186 | one worker and one connection suffice |
| ClusterHandle.RoundRobinHandle.Handoff | lib/cluster.js:168-186 | the object takes the step Handoff: the first queued connection goes to the worker, or the worker joins the free ones last |
| ClusterHandle.RoundRobinHandle.Distribute | lib/cluster.js:162-166 | the object takes the step Distribute |
| ClusterHandle.RoundRobinHandle.Replied | lib/cluster.js:179-185 | the callback takes the step OnReply while the object is the listener; after the object was shut down a rejected connection joins the dead queue and is stranded |
| ClusterHandle.RoundRobinHandle.Remove | lib/cluster.js:150-160 | the object takes the step Remove, and says whether the last worker left |
| ClusterHandle.RoundRobinHandle.CloseHandles | lib/cluster.js:156-156 | the closing loop closes exactly the queued connections |
| ClusterHandle.OnConnection | lib/cluster.js:162-166 | a connection that arrives at the object in a state of a run leaves it in one, by the step of the protocol |
| ClusterHandle.OnAnswer | lib/cluster.js:179-185 | so does the callback of the acknowledgement taken next |
| IpcProofs.MessagesKeepTheirOrder | lib/child_process.js:401-477 | in every run the messages written followed by the queue are those given to `send`, in order, and so are those the other side read, those on their way, and the queue |
| IpcProofs.OneHandleOnItsWay | lib/child_process.js:354-477 | in every run one handle or acknowledgement is on its way exactly while there is a queue, so an acknowledgement finds one; a side that failed left its peer with a queue forever |
| IpcProofs.DisconnectsOnceAfterTheQueue | lib/child_process.js:490-510 | in every run the channel is given up at most once, exactly when asked and the queue is gone, with everything given written |
| IpcProofs.FailsExactlyWhen | lib/child_process.js:372-402 | in every run an assertion fails exactly at a message with a handle read after the side's own disconnect was carried out |
| IpcProofs.DisconnectCanFail | lib/child_process.js:372-402 | a run of three steps does that |
| IpcProofs.FlushItems | lib/child_process.js:358-363 | flushing sends or queues again every message, in order |
| IpcProofs.ActKeeps | lib/child_process.js:354-510 | every step of either side keeps the invariant of both |
| IpcLaws.AcceptsUntilDisconnect | lib/child_process.js:385-402 | in every run the messages accepted on a side are those sent there before its disconnect, in order |
| IpcLaws.HandlesGoWhileOpen | lib/child_process.js:405-450 | in every step messages go with their handles exactly if these are open, and only handles that moved are not open after it |
| IpcLaws.NeverAgain | lib/child_process.js:405-450 | a handle that moved, or that the user closed, never goes with a message again |
| IpcTarget.Target.Transmit | lib/child_process.js:401-477 | the object takes the step Transmit, or its assertion fails |
| IpcTarget.Target.Acknowledged | lib/child_process.js:354-370 | the flush loop and the postponed disconnect take the step OnAck; without a queue the assertion fails |
| IpcTarget.Target.Disconnect | lib/child_process.js:490-504 | the object takes the step Disconnect |
| IpcTarget.Reader.OnRead | lib/child_process.js:316-341 | the loop takes every complete line off the buffer and says whether something is left |
| IpcTarget.TakeLines | lib/child_process.js:325-340 | the loop gives the lines of the buffer and what follows the last newline |
| IpcTarget.LinesOfConcat | lib/child_process.js:316-341 | lines do not depend on where the text is cut |
| IpcTarget.ReadAll | lib/child_process.js:316-341 | every chunking of a text gives its lines and the same rest |
| IpcTarget.LinesOfFrame | lib/child_process.js:461-462 | the messages written, each followed by a newline and without one inside, are the messages read |
| LinkList.Init | lib/_linklist.js:3-6 | a ring of its head alone |
| LinkList.Peek | lib/_linklist.js:11-14 | the item that fires first |
| LinkList.IsEmpty | lib/_linklist.js:54-56 | true exactly for an empty ring |
| LinkList.Remove | lib/_linklist.js:28-39 | on the heap: the ring closes behind the item, the other items keep their order, and the item is detached; an item of another list leaves its neighbours linked to each other and changes no ring |
| LinkList.Shift | lib/_linklist.js:19-23 | the item that fires first leaves the ring |
| LinkList.Append | lib/_linklist.js:44-50 | on the heap: the item leaves its place, if it has one, and comes right before the given one in firing order; the rest keep theirs |
| Timers.UnrefTimers.UnrefActive | lib/timers.js:521-579 | on the heap, for an item of this list, of another, of none, or linked to itself as `enroll` leaves it: the linked ring stays well-formed and in order of expiry, and so does every other list; the item comes behind all that expire no later and before the others with its clock restarted; `when` is not left too late |
| Timers.UnrefTimers.FindPlace | lib/timers.js:557-575 | the walk along `_idlePrev` finds the first entry that expires later |
| Timers.UnrefTimers.Observe | lib/timers.js:26-153 | items outside the ring may change lists and clocks between the calls, and nothing is lost |
| Timers.UnrefTimers.Unenroll | lib/timers.js:116-129 | on the heap: the item leaves the list it is in and stops, and what is left of this list and of the others stays linked |
| Timers.UnrefTimers.Enroll | lib/timers.js:133-153 | on the heap: the item leaves the list it is in and is linked to itself, with its timeout kept within 31 bits; what is no number of milliseconds is an error that changes nothing |
| Timers.UnrefTimers.SetTimeout | lib/net.js:308-321 | `enroll` and `_unrefActive` in a row: whatever the item was before, it then waits in the ring for its new timeout; 0 takes it out |
| Timers.UnrefTimers.Remove | lib/_linklist.js:28-39 | an item that leaves its list, be it the ring or another, leaves every other list linked |
| Timers.UnrefTimers.UnrefTimeout | lib/timers.js:478-518 | a pass over the linked ring, for all that callbacks may arm, drop or enroll: only expired entries with a callback fire, once each, in order of expiry; an entry that no callback names fires, or had expired without a callback, or is still there with its clock; and unless a callback throws, when the pass runs again, every expired entry that none names fired, nothing expired is left and `when` is the expiry of the earliest entry |
| Timers.UnrefTimers.Pass | lib/timers.js:484-514 | the loop ends, although callbacks arm entries, with the ring as the turns leave it |
| Timers.UnrefTimers.Conclude | lib/timers.js:488-517 | `when` is left at the expiry of the earliest entry, with the native timer started for it as counted from the start of the pass, or at -1, or the pass is scheduled again |
| Timers.UnrefTimers.Fire | lib/timers.js:495-513 | a turn takes the first entry out of the linked ring, and its callback, if it has one, does its operations and no more |
| Timers.UnrefTimers.RunCallback | lib/timers.js:502-507 | the operations of a callback happen to the linked ring in order |
| Timers.UnrefTimers.TakeOut | lib/_linklist.js:28-39 | `L.remove` of any item, whatever list it is in, keeps the ring and the other lists linked |
| Timers.UnrefTimers.PutBefore | lib/_linklist.js:44-50 | `L.append` puts the item right before the given entry in firing order |
| TimerRing.InsertedOrdered | lib/timers.js:557-578 | inserting at the place found keeps the order |
| TimerRing.AfterAllKeeps | lib/timers.js:116-579 | whatever a callback arms, drops or enrolls, the order is kept, items it does not name stay as they are, and what it arms expires strictly after the pass |
| TimerRing.EnrolledArms | lib/timers.js:133-579 | once enrolled with a positive timeout an item can be armed, and expires that much later |
| TimerRing.DroppedStaysOut | lib/timers.js:116-579 | an item that was unenrolled is not armed until it is enrolled again |
| TimerRing.PassGoesOn | lib/timers.js:478-518 | a turn keeps what a pass promises and leaves strictly fewer expired entries |
| TimerRing.PassCompletes | lib/timers.js:478-518 | when nothing expired is left, every expired entry with a callback that none named was fired |
| HttpChunked.ReadChunks | lib/_http_outgoing.js:441-554 | a chunked body with its trailer reads back, by section 4.1 of RFC 7230, as the concatenation of the chunks, and the reader stops at its end |
| HttpChunked.ReadSizeLine | lib/_http_outgoing.js:447-448 | the hexadecimal size reads back |
| HttpChunked.HexDigits | lib/_http_outgoing.js:447-448 | sizes are written in lower case without leading zeros |
| HttpChunked.Hello | lib/_http_outgoing.js:441-554 | a body of one chunk, byte for byte |
| HttpProofs.WriteKeeps | lib/_http_outgoing.js:408-475 | `write` keeps the text of a message framed and loses nothing while the socket is open |
| HttpProofs.EndKeeps | lib/_http_outgoing.js:501-563 | `end` completes the text with the terminator |
| HttpProofs.PiecesSend | lib/_http_outgoing.js:464-467 | a buffer sent in four pieces is framed as a text sent in one |
| HttpRuns.StepKeeps | lib/_http_server.js:399-458 | every step of requests, handlers and socket keeps the invariant, and fails exactly when Fails says |
| HttpRuns.FinishKeeps | lib/_http_server.js:433-458 | finishing one response hands the socket down the line through every response already finished |
| HttpRuns.HeadOfLine | lib/_http_server.js:437-437 | the assertion on `incoming[0]` fails exactly when an older response still waits |
| HttpRuns.ResponsesInRequestOrder | lib/_http_server.js:128-458 | in every run the socket carries a prefix of the responses' texts in request order: the first ones as a whole, then part of the next |
| HttpRuns.NothingAfterTheLast | lib/_http_server.js:449-451 | in every run nothing of a later response follows one that closes the connection |
| HttpRuns.NothingFinishedWaits | lib/_http_server.js:433-458 | in every run, while the socket is open a response that is finished, like all before it, is on the socket as a whole |
| HttpRuns.ChunkedBodyReadsBack | lib/_http_outgoing.js:441-563 | in every run a finished response is its header and its body, which when chunked reads back as the chunks written |
| HttpRuns.FailsExactlyWhen | lib/_http_server.js:433-458 | in every run an assertion fails exactly when, on a destroyed socket, `end` is called on a response that owns it ahead of an older one, with nothing held back and nothing that `end` would hold back; never while the socket is open |
| HttpRuns.RequestsCanBeOvertaken | lib/_http_server.js:399-458 | a run of six steps does that |
| HttpMessage.OutgoingMessage.FlushOutput | lib/_http_outgoing.js:601-621 | the loop writes all that was held back, in order |
| HttpMessage.OutgoingMessage.WriteRaw | lib/_http_outgoing.js:127-178 | data goes to the socket behind what was held back, or nowhere, or to the buffer |
| HttpMessage.OutgoingMessage.Send | lib/_http_outgoing.js:107-124 | the object takes the step Send: the header goes in front of the first data |
| HttpMessage.OutgoingMessage.Write | lib/_http_outgoing.js:408-475 | the object takes the step Write |
| HttpMessage.OutgoingMessage.End | lib/_http_outgoing.js:501-563 | the object takes the step End |
| HttpMessage.WriteOn | lib/_http_outgoing.js:408-475 | `write` on the object keeps the text framed and loses nothing while the socket is open |
| HttpMessage.EndOn | lib/_http_outgoing.js:501-563 | so does `end`, which completes it |
| HttpConnection.Connection.OnIncoming | lib/_http_server.js:399-428 | a new message object owns a free socket or waits behind the others |
| HttpConnection.Connection.ResOnFinish | lib/_http_server.js:433-458 | the recursion through `assignSocket`, `_flush` and `_finish` takes the step Finish |
| HttpConnection.Connection.WriteTo | lib/_http_outgoing.js:127-475 | `write` on a message of the connection takes the step Write, with where the data goes decided by who owns the socket |
| HttpConnection.Connection.EndOf | lib/_http_outgoing.js:501-573 | `end` on a message of the connection, with `_finish` and the hand-over to the next messages that it may set off, takes the step EndResponse |
| HttpConnection.Connection.Act | lib/_http_server.js:399-458 | message objects and connection take every step of a run together |
| HttpConnection.Step | lib/_http_server.js:399-458 | in a state of a run an event leaves the objects in one, and an assertion fails exactly when Fails says |
| HttpConnection.Drive | lib/_http_server.js:399-458 | in every run the objects go where the run goes |
| HttpConnection.Finished | lib/_http_server.js:433-458 | the end of the response that owns the socket leaves a state of a run; the assertion fails exactly when it overtook another |
| Utf8.Encode | lib/querystring.js:121-144 | the first byte of a character announces its size and no other byte can come first |
| Utf8.EncodeAllInjective | lib/querystring.js:121-144 | valid UTF-8 stands for one text only |
| Base64Text.Base64Concat | lib/string_decoder.js:33-37 | whole groups of three bytes can be converted on their own |
| Base64Text.Vectors | lib/string_decoder.js:33-37 | test vectors of section 10 of RFC 4648 |
| StringDecoders.StringDecoder.DetectIncompleteChar | lib/string_decoder.js:152-190 | the scan of the last three bytes, and the remainder modulo three, give the bytes of the pending character and its size |
| StringDecoders.PendingFinds | lib/string_decoder.js:152-222 | after whole characters, that is exactly the trailing partial character of the source |
| StringDecoders.StringDecoder.Complete | lib/string_decoder.js:71-113 | the loop completes the pending character or keeps waiting for it |
| StringDecoders.StringDecoder.Write | lib/string_decoder.js:62-146 | returns the text of the characters completed and holds exactly the bytes of the next one, for any buffer of the source |
| StringDecoders.StringDecoder.End | lib/string_decoder.js:192-206 | returns the rest, with what is held converted as it is |
| StringDecoders.DecodeChunks | lib/string_decoder.js:62-206 | for every split into chunks the results add up to the text of the whole: base64 of any bytes, or the decoding of valid UTF-8 |
| Querystring.UnescapeBuffer | lib/querystring.js:14-77 | the machine with its extra round past the end gives percent decoding with lookahead, for every string |
| Querystring.Turn | lib/querystring.js:20-72 | one round stores what the state calls for, and stores past the end are ignored |
| Querystring.Escape | lib/querystring.js:92-147 | writes the characters it sees as EscapeAll does |
| Querystring.EscapedScalar | lib/querystring.js:92-147 | exactly letters, digits and ! - . _ ~ ' ( ) * are written as themselves, every other character as a percent sign and two upper-case digits for each byte of its UTF-8 |
| Querystring.EscapesAll | lib/querystring.js:92-147 | so everything written is such a character or such a triple |
| Querystring.EscapesFields | lib/querystring.js:92-147 | "a&b=c" is escaped as a%26b%3Dc |
| Querystring.UnescapeEscape | lib/querystring.js:14-147 | unescaping what was escaped gives the UTF-8 bytes, with spaces decoded or not |
| Querystring.UnescapeForm | lib/querystring.js:14-77 | in a text with a plus sign for every space, these come back as spaces exactly when spaces are decoded |
| Querystring.UnescapeNothing | lib/querystring.js:14-77 | a text without a whole escape comes back as the low bytes of its units |
| Querystring.ScalarsAreCodePoints | lib/querystring.js:132-144 | the characters `escape` sees are the code points of the string exactly when it is well-formed |
| Querystring.RoundTrip | lib/querystring.js:14-147 | `unescapeBuffer(escape(s))` is the UTF-8 of those characters for every string |
| DotSegments.NormalizeArray | lib/path.js:17-38 | the stack loop computes Normal |
| DotSegments.SpliceOne | lib/url.js:720-724 | the array without the element at the index |
| DotSegments.ResolveDots | lib/url.js:632-653 | the loop from the right with its counter computes Climb, with the steps up restored or not |
| DotSegments.UrlAgreesWithPath | lib/url.js:632-653 | on segments that are not empty the two algorithms agree in both modes |
| DotSegments.UrlAgreesExactlyWhen | lib/url.js:632-653 | with the steps up restored they agree exactly on the lists without an empty segment |
| DotSegments.UrlAgreesBelowRootExactlyWhen | lib/url.js:632-646 | with the steps up dropped they agree exactly when no place up to the last empty segment leads deeper, counted to the end of the list, than every place behind it |
| DotSegments.ClimbIsPeak | lib/url.js:632-646 | how many segments survive the loop is the depth of the deepest place in the list |
| DotSegments.UrlDiffersOnBlanks | lib/url.js:632-646 | a list on which they do not |
| DotSegments.FoldConcat | lib/path.js:17-38 | normalizing a concatenation is going on from the first part's result |
| Path.SplitConcat | lib/path.js:428-429 | splitting at slashes distributes over joining with one |
| Path.SplitJoin | lib/path.js:428-429 | splitting undoes joining of slash-free parts |
| Path.NormalIsNormalized | lib/path.js:17-38 | the result has no blanks, no dots, and `..` only in front and only where allowed |
| Path.NormalizedIsFixed | lib/path.js:17-38 | such a list is its own result |
| Path.NormalizeTwice | lib/path.js:436-453 | `normalize` is idempotent, for every string |
| Path.NormalizeMeans | lib/path.js:436-453 | `normalize` keeps whether the path is absolute, where it leads and its last slash, and leaves no blanks and dots but in `.` and `./` |
| Path.Resolve | lib/path.js:406-432 | the loop from the right until a path is absolute computes Resolved |
| Path.TargetFollows | lib/path.js:406-432 | a relative argument leads on from where the others lead |
| Path.AbsoluteRestarts | lib/path.js:406-432 | an absolute argument makes a new start: nothing before it and no working directory counts |
| Path.AbsoluteAlone | lib/path.js:406-432 | an absolute path alone leads to its own segments |
| Path.RelativeAlone | lib/path.js:406-432 | without a working directory so does a relative one, and nowhere is a dot |
| Path.EmptyArgument | lib/path.js:413-418 | an empty argument changes nothing |
| Path.WorkingDirectoryFirst | lib/path.js:406-432 | the working directory counts as a first argument |
| Path.Trim | lib/path.js:490-503 | drops the blanks at both ends |
| Path.TrimStart | lib/path.js:491-494 | the first loop finds the first part that is not empty |
| Path.TrimEnd | lib/path.js:496-502 | the second drops the blanks at the end |
| Path.Relative | lib/path.js:483-525 | the loops compute RelativeTo |
| Path.PartsAreTarget | lib/path.js:487-506 | the parts that `relative` compares are the directory a path leads to |
| Path.ResolveRelative | lib/path.js:406-525 | `resolve(from, relative(from, to))` is `resolve(to)`, for all strings, with an absolute working directory |
| Path.RelativeIsShortest | lib/path.js:483-525 | no relative path that leads from one to the other has fewer segments |
| Path.BetweenIsShortest | lib/path.js:507-525 | and no list of segments is shorter than what `relative` joins |
| BufferInts.ReadUInt | lib/buffer.js:584-612 | the number of the n bytes in either order, or a range error |
| BufferInts.ReadInt | lib/buffer.js:663-700 | the same with its sign |
| BufferInts.WriteUInt | lib/buffer.js:786-827 | stores the digits in either order and touches nothing else, or reports the error and touches nothing |
| BufferInts.WriteInt | lib/buffer.js:888-931 | stores the truncated quotients less one for negative values, and touches nothing else, or reports the error and touches nothing |
| BufferInts.SumLE | lib/buffer.js:590-594 | the loop with its growing multiplier gives the value of the bytes |
| BufferInts.SumBE | lib/buffer.js:606-609 | the same from the other end |
| BufferInts.PutLE | lib/buffer.js:803-807 | the loop stores every digit in its place and nothing else |
| BufferInts.PutBE | lib/buffer.js:820-824 | the same from the other end |
| BufferInts.BigMore | lib/buffer.js:600-612 | most significant byte first: each further byte counts ones and the others 256 times as much |
| BufferInts.LittleMore | lib/buffer.js:584-597 | least significant byte first: each further byte counts 256 times the one before |
| BufferInts.SignedIs | lib/buffer.js:663-700 | the sign splits the range in the middle |
| BufferInts.UIntRoundTrip | lib/buffer.js:584-827 | of the values accepted, exactly those below 256^n come back |
| BufferInts.IntRoundTrip | lib/buffer.js:663-931 | of the values accepted, exactly those come back that are not negative, or one byte wide, or not multiples of 256 |
| BufferInts.WriteReadUInt | lib/buffer.js:584-827 | the same of the two calls in a row, with the rest of the buffer untouched |
| BufferInts.WriteReadInt | lib/buffer.js:663-931 | the same of the signed calls |

## Left out

- Native code (bindings, libuv, V8, OpenSSL, zlib) and the modules that wrap it: net, dgram, dns, tls, crypto, fs, zlib.
- User interface and scripts: repl, readline, debugger, tty, console.
- Punycode.Encode: strings of up to 2^31-1 units, more than a JavaScript string can have; `toASCII` and `toUnicode`, which split domain names, are not modelled.
- WritableBuffer.RequestList.TakeInTurn: the hook's answers come as a list.
- Writes that are refused by `validChunk`, `setDefaultEncoding`, `pipe`, and calls of a stream from inside its own hook.
- ReadableStream.Drive: byte mode only; object mode, the 'readable' events, `setEncoding`, `pipe`, `wrap` and the loop of `maybeReadMore_` are not modelled, the latter being calls of `read(0)`.
- ReadableStream.RoundUpToNextPowerOf2: the argument is a positive 32-bit number.
- WritableLaws.FinishIsEmitted: that a tick runs only when no hook is on the stack is asked for; the other laws hold of every interleaving.
- ClusterProofs.EveryConnectionIsInOnePlace: one key, workers that ask for it once, no bind errors and no worker that exits; shared handles are not modelled.
- IpcProofs.MessagesKeepTheirOrder: writes succeed; end of file on the channel and user messages with a `NODE_` command are not modelled.
- IpcTarget.Target.Acknowledged: asks for the channel to be there, which OneHandleOnItsWay shows of every run.
- IpcTarget.LinesOfFrame: JSON itself is not modelled, only that a message contains no line end.
- Timers.UnrefTimers.UnrefActive: the list is made with the object and not at the first call; an item has a callback or not for good; what happens in the per-duration lists, immediates and domains are not modelled.
- Timers.UnrefTimers.Conclude: the native timer counts from the time of the event loop, which is not modelled.
- Timers.UnrefTimers.UnrefTimeout: what callbacks do comes as lists of operations, at times not before the pass.
- HttpRuns.ResponsesInRequestOrder: header rendering is a parameter fixed by the first `writeHead`; 100-continue, upgrades and half-open sockets are not modelled.
- HttpMessage.OutgoingMessage.End: callbacks, encodings and corking of the socket are not modelled.
- StringDecoders.DecodeChunks: UTF-16LE, invalid UTF-8 and CESU-8 surrogates are handled by the code as in the source, but nothing is claimed about their text.
- Querystring.RoundTrip: `stringify`, `parse` and `decodeURIComponent` are not modelled.
- DotSegments.ResolveDots: the rest of `resolveObject` and `url.parse` are not modelled.
- Path.Resolve: Windows paths, and arguments that are not strings.
- BufferInts.ReadUInt: widths are 1 to 6 bytes as documented and values are integers; `noAssert`, which skips the checks, is not modelled.
