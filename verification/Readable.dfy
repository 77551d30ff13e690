/** lib/_stream_readable.js in byte mode, without a decoder. */
module ReadableStream {
  import opened Wrappers
  import opened Bytes

  // ---- the buffer list ----

  ghost predicate NonEmpty(list: seq<Bytes>) {
    forall i :: 0 <= i < |list| ==> list[i] != []
  }

  lemma NonEmptyConcat(list: seq<Bytes>)
    requires NonEmpty(list)
    ensures |Concat(list)| >= |list|
  {
  }

  function Min(a: int, b: int): int {
    if a < b then a else b
  }

  /** Taking cpy bytes off the first buffer of a list. */
  function Dropped(list: seq<Bytes>, cpy: nat): (rest: seq<Bytes>)
    requires list != [] && cpy <= |list[0]|
  {
    if cpy < |list[0]| then list[0 := list[0][cpy..]] else list[1..]
  }

  lemma DroppedConcat(list: seq<Bytes>, cpy: nat)
    requires list != [] && cpy <= |list[0]|
    ensures Concat(list) == list[0][..cpy] + Concat(Dropped(list, cpy))
    ensures NonEmpty(list) ==> NonEmpty(Dropped(list, cpy))
    ensures |list[0]| <= |Concat(list)|
  {
    var head, tail := list[0], Concat(list[1..]);
    if cpy < |head| {
      var d := Dropped(list, cpy);
      assert d[0] == head[cpy..] && d[1..] == list[1..];
      assert Concat(d) == head[cpy..] + tail;
      assert head + tail == head[..cpy] + (head[cpy..] + tail);
    } else {
      assert head[..cpy] == head;
    }
  }

  /** The loop of `fromList` that gathers n bytes across several buffers. */
  method Gather(n: nat, list: seq<Bytes>) returns (ret: Bytes, rest: seq<Bytes>)
    requires n <= |Concat(list)| && NonEmpty(list)
    ensures ret + Concat(rest) == Concat(list) && |ret| == n && NonEmpty(rest)
  {
    hide Concat;
    ret, rest := [], list;
    var i := 0;
    while i < |list| && |ret| < n
      invariant i <= |list| && |ret| <= n && NonEmpty(rest)
      invariant ret + Concat(rest) == Concat(list)
      invariant |ret| < n ==> rest == list[i..]
      decreases |list| - i
    {
      var cpy := Min(n - |ret|, |rest[0]|);
      DroppedConcat(rest, cpy);
      assert ret + (rest[0][..cpy] + Concat(Dropped(rest, cpy))) == (ret + rest[0][..cpy]) + Concat(Dropped(rest, cpy));
      ret := ret + rest[0][..cpy];
      rest := Dropped(rest, cpy);
      i := i + 1;
    }
    ConcatNone();
    assert |ret| < n ==> rest == [];
  }

  lemma ConcatNone()
    ensures Concat([]) == []
  {
  }

  /** `fromList`: plucks n bytes off the front of the list; `length` is the size of the list. */
  method FromList(n: nat, list: seq<Bytes>, length: nat) returns (ret: Option<Bytes>, rest: seq<Bytes>)
    requires length == |Concat(list)| && NonEmpty(list)
    ensures NonEmpty(rest)
    ensures length == 0 ==> ret.None? && rest == list
    ensures length > 0 ==>
              && ret.Some? && ret.value + Concat(rest) == Concat(list)
              && |ret.value| == if n == 0 || n >= length then length else n
  {
    NonEmptyConcat(list);
    if |list| == 0 {
      return None, list;
    }
    ConcatNone();
    DroppedConcat(list, if n <= |list[0]| then n else 0);
    hide Concat;
    if n == 0 || n >= length {
      ret, rest := Some(Concat(list)), [];
    } else if n < |list[0]| {
      ret, rest := Some(list[0][..n]), list[0 := list[0][n..]];
    } else if n == |list[0]| {
      ret, rest := Some(list[0]), list[1..];
    } else {
      var bytes;
      bytes, rest := Gather(n, list);
      ret := Some(bytes);
    }
  }

  // ---- the water mark ----

  const MAX_HWM: bv32 := 0x800000

  /** One turn of the loop: bits spread p places to the right. */
  function Spread(x: bv32, p: bv6): bv32
    requires p <= 32
  {
    x | (x >> p)
  }

  function Smear(x: bv32): bv32 {
    Spread(Spread(Spread(Spread(Spread(x, 1), 2), 4), 8), 16)
  }

  /** Smearing fills every bit below the highest. */
  lemma SmearRoundsUp(n: bv32)
    requires 0 < n < MAX_HWM
    ensures var r := Smear(n - 1) + 1; r & (r - 1) == 0 && r >= n && r >> 1 < n
  {
  }

  /** The smallest power of two not below n. */
  method RoundUpToNextPowerOf2(n: bv32) returns (r: bv32)
    requires 0 < n < 0x8000_0000
    ensures n >= MAX_HWM ==> r == MAX_HWM
    ensures n < MAX_HWM ==> LeastPower(n, r)
  {
    if n >= MAX_HWM {
      return MAX_HWM;
    }
    SmearRoundsUp(n);
    hide Spread;
    ghost var x := n - 1;
    r := n - 1;
    var p: bv6 := 1;
    while p < 32
      invariant p == 1 || p == 2 || p == 4 || p == 8 || p == 16 || p == 32
      invariant p == 1 ==> r == x
      invariant p == 2 ==> r == Spread(x, 1)
      invariant p == 4 ==> r == Spread(Spread(x, 1), 2)
      invariant p == 8 ==> r == Spread(Spread(Spread(x, 1), 2), 4)
      invariant p == 16 ==> r == Spread(Spread(Spread(Spread(x, 1), 2), 4), 8)
      invariant p == 32 ==> r == Smear(x)
      decreases 32 - p
    {
      r := Spread(r, p);
      p := p << 1;
    }
    r := r + 1;
  }

  // ---- the stream ----

  /** One call of `push` (a chunk, or none for end of file) or of `unshift`. */
  datatype Supply = Pushed(chunk: Option<Bytes>) | Unshifted(back: Bytes)

  /** What happens to a stream: a call of its source, bytes handed to its consumer, or 'end'. */
  datatype Entry = In(supply: Supply) | Out(piece: Bytes) | Over

  /** What a stream is to its users: the bytes delivered, those waiting, the end of file seen, 'end' emitted. */
  datatype Stream = Stream(delivered: Bytes, rest: Bytes, ended: bool, over: bool)

  function Fed(s: Stream, supply: Supply): Stream {
    match supply
    case Pushed(None) => s.(ended := true)
    case Pushed(Some(c)) => if s.ended then s else s.(rest := s.rest + c)
    case Unshifted(b) => if s.over then s else s.(rest := b + s.rest)
  }

  /** Pushes go behind what waits until the end of file, `unshift` before it until 'end'; what is delivered comes off
      its front; and 'end' comes once, when nothing waits any more. */
  function Next(s: Stream, e: Entry): Option<Stream> {
    match e
    case In(supply) => Some(Fed(s, supply))
    case Out(p) => if p != [] && p <= s.rest then Some(s.(delivered := s.delivered + p, rest := s.rest[|p|..])) else None
    case Over => if s.ended && s.rest == [] && !s.over then Some(s.(over := true)) else None
  }

  /** The stream that a log leads to, if it is one a stream can have. */
  function Replay(log: seq<Entry>): Option<Stream> {
    if log == [] then Some(Stream([], [], false, false))
    else
      var s := Replay(log[..|log| - 1]);
      if s.None? then None else Next(s.value, log[|log| - 1])
  }

  lemma ReplayMore(log: seq<Entry>, e: Entry)
    requires Replay(log).Some?
    ensures Replay(log + [e]) == Next(Replay(log).value, e)
  {
    assert (log + [e])[..|log|] == log;
  }

  lemma LogIn(log: seq<Entry>, s: Stream, supply: Supply)
    requires Replay(log) == Some(s)
    ensures Replay(log + [In(supply)]) == Some(Fed(s, supply))
  {
    ReplayMore(log, In(supply));
  }

  lemma LogOut(log: seq<Entry>, s: Stream, p: Bytes, rest: Bytes)
    requires Replay(log) == Some(s) && p != [] && s.rest == p + rest
    ensures Replay(log + [Out(p)]) == Some(s.(delivered := s.delivered + p, rest := rest))
  {
    ReplayMore(log, Out(p));
    assert (p + rest)[|p|..] == rest;
  }

  lemma {:induction false} ReplayPrefix(log: seq<Entry>, k: nat)
    requires k <= |log| && Replay(log).Some?
    ensures Replay(log[..k]).Some?
    decreases |log|
  {
    if k < |log| {
      assert log[..|log| - 1][..k] == log[..k];
      ReplayPrefix(log[..|log| - 1], k);
    } else {
      assert log[..k] == log;
    }
  }

  /** The chunks pushed before the end of file. */
  function PushedBytes(log: seq<Entry>): (Bytes, bool) {
    if log == [] then ([], false)
    else
      var (b, ended) := PushedBytes(log[..|log| - 1]);
      match log[|log| - 1]
      case In(Pushed(None)) => (b, true)
      case In(Pushed(Some(c))) => (if ended then b else b + c, ended)
      case _ => (b, ended)
  }

  /** Without `unshift`, what was delivered followed by what waits is what was pushed before the end of file. */
  lemma {:induction false} DeliveredInOrder(log: seq<Entry>)
    requires Replay(log).Some? && forall i :: 0 <= i < |log| ==> !(log[i].In? && log[i].supply.Unshifted?)
    ensures var s := Replay(log).value; (s.delivered + s.rest, s.ended) == PushedBytes(log)
  {
    var none: Bytes := [];
    assert none + none == none;
    if log != [] {
      var front, last := log[..|log| - 1], log[|log| - 1];
      ReplayPrefix(log, |log| - 1);
      DeliveredInOrder(front);
      var s := Replay(front).value;
      if last.Out? {
        var p, rest := last.piece, s.rest[|last.piece|..];
        assert s.rest == p + rest && (s.delivered + p) + rest == s.delivered + (p + rest);
      }
      if last.In? && last.supply.Pushed? && last.supply.chunk.Some? {
        assert s.delivered + (s.rest + last.supply.chunk.value) == (s.delivered + s.rest) + last.supply.chunk.value;
      }
    }
  }

  /** What was unshifted last is delivered next, also behind the end of file. */
  lemma UnshiftedNext(log: seq<Entry>, b: Bytes, p: Bytes)
    requires Replay(log).Some? && !Replay(log).value.over && Replay(log + [In(Unshifted(b)), Out(p)]).Some?
    ensures p <= b || b <= p
  {
    var s := Replay(log).value;
    LogIn(log, s, Unshifted(b));
    assert log + [In(Unshifted(b)), Out(p)] == (log + [In(Unshifted(b))]) + [Out(p)];
    ReplayMore(log + [In(Unshifted(b))], Out(p));
    hide Replay;
    assert p <= b + s.rest;
    if |p| <= |b| {
      assert p == (b + s.rest)[..|p|] == b[..|p|];
    } else {
      assert b == (b + s.rest)[..|b|] == p[..|b|];
    }
  }

  /** Once 'end' was emitted nothing waits and nothing can come. */
  lemma {:induction false} OverIsOver(log: seq<Entry>)
    requires Replay(log).Some?
    ensures var s := Replay(log).value; s.over ==> s.ended && s.rest == []
  {
    if log != [] {
      ReplayPrefix(log, |log| - 1);
      OverIsOver(log[..|log| - 1]);
    }
  }

  lemma {:induction false} OverStays(log: seq<Entry>, k: nat)
    requires k < |log| && log[k].Over? && Replay(log).Some?
    ensures Replay(log).value.over
    decreases |log|
  {
    ReplayPrefix(log, |log| - 1);
    if k < |log| - 1 {
      OverStays(log[..|log| - 1], k);
    }
  }

  /** 'end' comes at most once, after the end of file with everything delivered, and nothing is delivered after it. */
  lemma NothingAfterEnd(log: seq<Entry>, i: nat, j: nat)
    requires i < j < |log| && log[i].Over? && Replay(log).Some?
    ensures log[j].In? && Replay(log[..i]).Some? && Replay(log[..i]).value.ended && Replay(log[..i]).value.rest == []
  {
    hide Replay;
    ReplayAt(log, i);
    ReplayAt(log, j);
    assert log[..j][i] == log[i];
    OverStays(log[..j], i);
    OverIsOver(log[..j]);
  }

  lemma ReplayAt(log: seq<Entry>, k: nat)
    requires k < |log| && Replay(log).Some?
    ensures Replay(log[..k]).Some? && Next(Replay(log[..k]).value, log[k]).Some?
  {
    hide Replay;
    ReplayPrefix(log, k);
    ReplayPrefix(log, k + 1);
    assert log[..k + 1] == log[..k] + [log[k]];
    ReplayMore(log[..k], log[k]);
  }

  function Ins(reply: seq<Supply>): seq<Entry> {
    seq(|reply|, i requires 0 <= i < |reply| => In(reply[i]))
  }

  /** The entries of a call of `push` or `unshift`: the chunk may be handed on at once. */
  predicate SupplyPart(s: Supply, part: seq<Entry>) {
    || part == [In(s)]
    || (s.Pushed? && s.chunk.Some? && part == [In(s), Out(s.chunk.value)])
    || (s.Unshifted? && part == [In(s), Out(s.back)])
  }

  /** The entries of a `read`: what the hook supplied if it was asked, then what is returned if anything. */
  function ReadPart(reply: seq<Supply>, asked: bool, ret: Option<Bytes>): seq<Entry> {
    (if asked then Ins(reply) else []) + (if ret.Some? then [Out(ret.value)] else [])
  }

  function SupplyOf(chunk: Option<Bytes>, addToFront: bool): Supply {
    if addToFront && chunk.Some? then Unshifted(chunk.value) else Pushed(chunk)
  }

  /** The water mark for n: the least power of two that is not below, up to 8 MB. */
  ghost predicate Rounded(n: int, mark: int) {
    if n >= 0x800000 then mark == 0x800000
    else n > 0 && exists r: bv32 :: IsMark(n, r, mark)
  }

  ghost predicate IsMark(n: int, r: bv32, mark: int)
    requires 0 < n < 0x800000
  {
    LeastPower(n as bv32, r) && r as int == mark
  }

  predicate LeastPower(n: bv32, r: bv32) {
    r & (r - 1) == 0 && r >= n && r >> 1 < n
  }

  /** Whether `length` bytes are enough for a `read(n)` to return some. */
  predicate Enough(n: Option<int>, length: int, ended: bool) {
    length > 0 && (n.None? || (n.value > 0 && (n.value <= length || ended)))
  }

  /** What `read(n)` may do to a stream: the hook is not asked after the end of file, and something is returned whenever
      enough waits, and never for n <= 0. */
  predicate Reads(s: Stream, n: Option<int>, asked: bool, ret: Option<Bytes>) {
    && (asked ==> !s.ended)
    && (Enough(n, |s.rest|, s.ended) ==> ret.Some?)
    && (ret.Some? ==> ret.value != [] && (n.None? || n.value > 0) && !s.over)
  }

  /** The log leads to the stream, whose waiting bytes are the buffer's, and `length` measures the buffer. */
  ghost predicate Sound(buffer: seq<Bytes>, length: int, log: seq<Entry>, s: Stream) {
    && NonEmpty(buffer) && length == |Concat(buffer)| && s.rest == Concat(buffer)
    && Replay(log) == Some(s)
    && (s.over ==> s.ended && length == 0)
  }

  class Readable {
    var highWaterMark: int
    var buffer: seq<Bytes>
    var length: int
    var flowing: bool
    var ended: bool
    var endEmitted: bool
    var reading: bool
    var sync: bool
    var needReadable: bool
    var emittedReadable: bool

    // deferred 'end' emissions
    var endTicks: nat

    // what happened so far, and the bytes delivered
    ghost var log: seq<Entry>
    ghost var delivered: Bytes

    /** The log leads to what was delivered and what is buffered, and `length` measures the buffer. */
    ghost predicate Valid()
      reads this
    {
      && Sound(buffer, length, log, Stream(delivered, Concat(buffer), ended, endEmitted))
      && (endTicks > 0 ==> ended)
    }

    /** The stream that the log leads to. */
    ghost function View(): Stream
      reads this
    {
      Stream(delivered, Concat(buffer), ended, endEmitted)
    }

    constructor (highWaterMark: int)
      ensures Valid() && log == [] && !ended
    {
      this.highWaterMark := highWaterMark;
      buffer, length, flowing, ended, endEmitted, reading := [], 0, false, false, false, false;
      sync, needReadable, emittedReadable, endTicks := true, false, false, 0;
      log, delivered := [], [];
    }

    predicate NeedMoreData()
      reads this
    {
      !ended && (needReadable || length < highWaterMark || length == 0)
    }

    /** `emitReadable`, up to the deferred 'readable'. */
    method EmitReadable()
      modifies `needReadable, `emittedReadable
      ensures !needReadable && emittedReadable
    {
      needReadable := false;
      if !emittedReadable {
        emittedReadable := true;
      }
    }

    /** `endReadable`: the throw is on a non-empty stream. */
    method EndReadable() returns (threw: bool)
      modifies `ended, `endTicks
      ensures threw <==> length > 0
      ensures !threw && !endEmitted ==> ended && endTicks == old(endTicks) + 1
      ensures threw || endEmitted ==> ended == old(ended) && endTicks == old(endTicks)
    {
      threw := length > 0;
      if !threw && !endEmitted {
        ended := true;
        endTicks := endTicks + 1;
      }
    }

    /** The deferred half of `endReadable`. */
    method EndTick()
      requires Valid() && endTicks > 0
      modifies `endTicks, `endEmitted, `log
      ensures Valid()
      ensures endEmitted == (old(endEmitted) || length == 0)
      ensures log == old(log) + if endEmitted && !old(endEmitted) then [Over] else []
    {
      hide Concat, NonEmpty, Replay;
      endTicks := endTicks - 1;
      if !endEmitted && length == 0 {
        endEmitted := true;
        ReplayMore(log, Over);
        log := log + [Over];
      }
    }

    /** The chunk goes to the consumer at once. */
    predicate Direct()
      reads this
    {
      flowing && length == 0 && !sync
    }

    /** `push`, `unshift` and `readableAddChunk`: the call is logged, and the chunk is buffered, handed on at once or
        rejected. The `read(0)` that follows the 'data' handlers is a step of its own. */
    method AddChunk(chunk: Option<Bytes>, addToFront: bool) returns (more: bool)
      requires Valid()
      modifies this
      ensures Valid()
      ensures var rejected := chunk.None? || (if addToFront then old(endEmitted) else old(ended));
              var direct := !rejected && chunk.value != [] && old(Direct());
              && log == old(log) + [In(SupplyOf(chunk, addToFront))] + (if direct then [Out(chunk.value)] else [])
              && (!direct ==> delivered == old(delivered))
      ensures ended == (old(ended) || chunk.None?)
      ensures endEmitted == old(endEmitted) && endTicks == old(endTicks) && sync == old(sync) && flowing == old(flowing)
      ensures highWaterMark == old(highWaterMark) && length >= old(length)
      ensures addToFront && chunk.Some? ==> reading == old(reading)
      ensures more <==> !ended && (needReadable || length < highWaterMark || length == 0)
    {
      hide Concat, NonEmpty, Replay;
      var rejected := chunk.None? || chunk.value == [] || (if addToFront then endEmitted else ended);
      if rejected {
        Reject(chunk, addToFront);
      } else {
        if !addToFront {
          reading := false;
        }
        if flowing && length == 0 && !sync {
          HandOn(chunk.value, addToFront);
        } else {
          Store(chunk.value, addToFront);
          if needReadable {
            EmitReadable();
          }
        }
      }
      more := NeedMoreData();
    }

    /** The end of file, a chunk behind it or behind 'end', and an empty chunk. */
    method Reject(chunk: Option<Bytes>, addToFront: bool)
      requires Valid() && (chunk.None? || chunk.value == [] || (if addToFront then endEmitted else ended))
      modifies `reading, `ended, `needReadable, `emittedReadable, `log
      ensures Valid() && log == old(log) + [In(SupplyOf(chunk, addToFront))]
      ensures ended == (old(ended) || chunk.None?) && (addToFront && chunk.Some? ==> reading == old(reading))
    {
      hide Concat, NonEmpty, Replay;
      LogIn(log, Stream(delivered, Concat(buffer), ended, endEmitted), SupplyOf(chunk, addToFront));
      assert Concat(buffer) + [] == Concat(buffer) && [] + Concat(buffer) == Concat(buffer);
      log := log + [In(SupplyOf(chunk, addToFront))];
      if chunk.None? {
        reading := false;
        if !ended {
          ended := true;
          EmitReadable();
        }
      } else if chunk.value == [] && !addToFront {
        reading := false;
      }
    }

    /** 'data' at once. */
    method HandOn(chunk: Bytes, addToFront: bool)
      requires Valid() && chunk != [] && length == 0 && !(if addToFront then endEmitted else ended)
      modifies `log, `delivered
      ensures Valid() && log == old(log) + [In(SupplyOf(Some(chunk), addToFront))] + [Out(chunk)]
    {
      hide Concat, NonEmpty, Replay;
      var s := Stream(delivered, [], ended, endEmitted);
      LogIn(log, s, SupplyOf(Some(chunk), addToFront));
      assert [] + chunk == chunk && chunk + [] == chunk;
      log := log + [In(SupplyOf(Some(chunk), addToFront))];
      LogOut(log, s.(rest := chunk), chunk, []);
      log := log + [Out(chunk)];
      delivered := delivered + chunk;
    }

    /** The chunk is buffered, behind the others or before them. */
    method Store(chunk: Bytes, addToFront: bool)
      requires Valid() && chunk != [] && !(if addToFront then endEmitted else ended) && !endEmitted
      modifies `buffer, `length, `log
      ensures Valid() && length == old(length) + |chunk| && log == old(log) + [In(SupplyOf(Some(chunk), addToFront))]
    {
      hide Replay;
      LogIn(log, Stream(delivered, Concat(buffer), ended, endEmitted), SupplyOf(Some(chunk), addToFront));
      log := log + [In(SupplyOf(Some(chunk), addToFront))];
      Enlist(chunk, addToFront);
    }

    method Enlist(chunk: Bytes, addToFront: bool)
      requires NonEmpty(buffer) && length == |Concat(buffer)| && chunk != []
      modifies `buffer, `length
      ensures NonEmpty(buffer) && length == |Concat(buffer)| == old(length) + |chunk|
      ensures Concat(buffer) == if addToFront then chunk + old(Concat(buffer)) else old(Concat(buffer)) + chunk
    {
      length := length + |chunk|;
      ConcatOne(chunk);
      if addToFront {
        ConcatConcat([chunk], buffer);
        buffer := [chunk] + buffer;
      } else {
        ConcatConcat(buffer, [chunk]);
        buffer := buffer + [chunk];
      }
    }

    method RaiseWaterMark(n: int)
      requires n > 0
      modifies `highWaterMark
      ensures Rounded(n, highWaterMark)
    {
      if n >= 0x800000 {
        highWaterMark := 0x800000;
      } else {
        var r := RoundUpToNextPowerOf2(n as bv32);
        highWaterMark := r as int;
        assert IsMark(n, r, highWaterMark);
      }
    }

    /** `howMuchToRead`: never more than there is. */
    method HowMuchToRead(n: Option<int>) returns (k: nat)
      requires Valid()
      modifies `highWaterMark, `needReadable
      ensures k <= length
      ensures n.Some? && n.value > 0 && k > 0 ==> k == n.value || (ended && k == length)
      ensures k > 0 <==> Enough(n, length, ended)
      ensures n.None? ==> k == if flowing && buffer != [] then |buffer[0]| else length
      ensures if n.Some? && n.value > 0 && n.value > old(highWaterMark) && !(length == 0 && ended) then Rounded(n.value, highWaterMark)
              else highWaterMark == old(highWaterMark)
    {
      if length == 0 && ended {
        return 0;
      }
      if n.None? {
        if flowing && |buffer| > 0 {
          DroppedConcat(buffer, 0);
          return |buffer[0]|;
        }
        return length;
      }
      if n.value <= 0 {
        return 0;
      }
      if n.value > highWaterMark {
        RaiseWaterMark(n.value);
      }
      if n.value > length {
        if !ended {
          needReadable := true;
          return 0;
        }
        return length;
      }
      return n.value;
    }

    /** The hook `_read` with the calls it makes before it returns. */
    method CallHook(reply: seq<Supply>)
      requires Valid() && !endEmitted
      modifies this
      ensures Valid() && delivered == old(delivered) && endEmitted == old(endEmitted) && flowing == old(flowing)
      ensures log == old(log) + Ins(reply)
      ensures endTicks == old(endTicks) && !sync && length >= old(length) && highWaterMark == old(highWaterMark)
      ensures ended == (old(ended) || Pushed(None) in reply)
    {
      hide Concat, NonEmpty, Replay;
      reading := true;
      sync := true;
      if length == 0 {
        needReadable := true;
      }
      for i := 0 to |reply|
        invariant Valid() && delivered == old(delivered) && !endEmitted && flowing == old(flowing) && sync
        invariant log == old(log) + Ins(reply[..i]) && ended == (old(ended) || Pushed(None) in reply[..i])
        invariant endTicks == old(endTicks) && length >= old(length) && highWaterMark == old(highWaterMark)
      {
        InsMore(reply, i);
        match reply[i] {
          case Pushed(c) => var _ := AddChunk(c, false);
          case Unshifted(b) => var _ := AddChunk(Some(b), true);
        }
      }
      assert reply[..|reply|] == reply;
      sync := false;
    }

    /** The part of `read` below the hook: plucks k bytes, keeps the count, and emits 'data'. */
    method Deliver(k: nat) returns (ret: Option<Bytes>)
      requires Valid() && k <= length
      modifies `buffer, `length, `needReadable, `delivered, `log
      ensures Valid() && length == old(length) - k
      ensures k == 0 ==> ret.None? && log == old(log) && needReadable
      ensures k > 0 ==> ret.Some? && |ret.value| == k && log == old(log) + [Out(ret.value)]
    {
      hide Concat, NonEmpty, Replay;
      ret := None;
      if k > 0 {
        var rest;
        ret, rest := FromList(k, buffer, length);
        LogOut(log, Stream(delivered, Concat(buffer), ended, endEmitted), ret.value, Concat(rest));
        log := log + [Out(ret.value)];
        buffer := rest;
        delivered := delivered + ret.value;
      } else {
        needReadable := true;
      }
      length := length - k;
    }

    /** The middle of `read`: asks the hook for more when that is due, and looks again at what can be returned. */
    method Refill(n: Option<int>, k0: nat, reply: seq<Supply>) returns (k: nat, asked: bool)
      requires Valid() && k0 <= length && (k0 == 0 ==> !ended) && (k0 > 0 <==> Enough(n, length, ended))
      requires n.Some? && n.value > 0 && k0 > 0 ==> k0 == n.value || (ended && k0 == length)
      requires n.None? && !flowing ==> k0 == length
      modifies this
      ensures Valid() && k <= length && endEmitted == old(endEmitted) && flowing == old(flowing)
      ensures asked <==> !old(ended) && !old(reading) && (old(needReadable) || old(length) == 0 || old(length) - k0 < old(highWaterMark))
      ensures log == old(log) + if asked then Ins(reply) else []
      ensures n.Some? && n.value > 0 && k > 0 ==> k == n.value || (ended && k == length)
      ensures (k0 > 0 ==> k > 0) && (n.Some? && n.value <= 0 ==> k == 0)
      ensures n.None? && !flowing ==> k >= old(length) && (k == length || reading)
      ensures ended == (old(ended) || (asked && Pushed(None) in reply))
    {
      hide Concat, NonEmpty, Replay;
      k := k0;
      asked := (needReadable || length == 0 || length - k < highWaterMark) && !ended && !reading;
      if asked {
        CallHook(reply);
        if !reading {
          k := HowMuchToRead(n);
        }
      }
    }

    /** `read(n)`, with the hook's synchronous calls if it is asked: what it supplied is logged, and then what is
        returned, which Valid() says came off the front of what waited. The hook is asked only while no call of it is
        outstanding, and always by an empty stream; a positive n gets exactly n bytes unless the stream has ended with
        fewer, and none all that waits unless the stream flows; and `endReadable` never throws. */
    method Read(n: Option<int>, reply: seq<Supply>) returns (ret: Option<Bytes>, asked: bool, threw: bool)
      requires Valid()
      modifies this
      ensures Valid() && !threw
      ensures log == old(log) + ReadPart(reply, asked, ret)
      ensures Reads(old(View()), n, asked, ret) && (asked ==> !old(reading))
      ensures old(length) == 0 && !old(ended) && !old(reading) && n != Some(0) ==> asked
      ensures n.Some? && ret.Some? ==> |ret.value| == n.value || (ended && length == 0)
      ensures n.None? && !flowing && ret.Some? ==> |ret.value| >= old(length) && (length == 0 || reading)
      ensures endEmitted == old(endEmitted) && flowing == old(flowing)
    {
      hide Concat, NonEmpty, Replay;
      if n.None? || n.value > 0 {
        emittedReadable := false;
      }
      if n == Some(0) && needReadable && (length >= highWaterMark || ended) {
        ret, asked, threw := Nothing(reply);
        if length > 0 || !ended {
          EmitReadable();
        }
        return;
      }
      var k := HowMuchToRead(n);
      if k == 0 && ended {
        ret, asked, threw := Nothing(reply);
        return;
      }
      k, asked := Refill(n, k, reply);
      ret, threw := Return(n, k, old(log), if asked then Ins(reply) else []);
    }

    /** The ways out of `read` that ask and return nothing. */
    method Nothing(ghost reply: seq<Supply>) returns (ret: Option<Bytes>, asked: bool, threw: bool)
      requires Valid()
      modifies `ended, `endTicks
      ensures Valid() && !threw && !asked && ret.None? && ended == old(ended) && log == log + ReadPart(reply, asked, ret)
    {
      hide Concat, NonEmpty, Replay;
      ret, asked, threw := None, false, false;
      if length == 0 && ended {
        threw := EndReadable();
      }
    }

    /** The end of `read`. */
    method Return(n: Option<int>, k: nat, ghost before: seq<Entry>, ghost part: seq<Entry>) returns (ret: Option<Bytes>, threw: bool)
      requires Valid() && k <= length && log == before + part
      modifies this
      ensures Valid() && !threw && length == old(length) - k && ended == old(ended) && (ret.Some? <==> k > 0) && reading == old(reading)
      ensures k > 0 ==> |ret.value| == k
      ensures endEmitted == old(endEmitted) && flowing == old(flowing)
      ensures log == before + (part + if ret.Some? then [Out(ret.value)] else [])
    {
      hide Concat, NonEmpty, Replay;
      threw := false;
      ret := Deliver(k);
      if length == 0 && !ended {
        needReadable := true;
      }
      if n != Some(k) && ended && length == 0 {
        threw := EndReadable();
      }
    }

    /** `flow`: reads until nothing comes back; `replies` holds the hook's answers for as many turns. */
    method Flow(replies: seq<seq<Supply>>) returns (ghost turns: seq<Turn>)
      requires Valid()
      modifies this
      ensures Valid() && endEmitted == old(endEmitted) && flowing == old(flowing)
      ensures |turns| <= |replies| && log == old(log) + FlowPart(replies, turns)
      ensures Goes(turns) && InTurn(old(log), replies, turns)
      ensures if old(flowing) then |turns| == |replies| || Stops(turns) else turns == []
    {
      turns := [];
      assert Goes(turns) && InTurn(log, replies, turns) && !Stops(turns) && FlowPart(replies, turns) == [];
      hide Concat, Sound, Goes, Stops, FlowPart, ReadPart, InTurn, Reads;
      if flowing {
        var i, more := 0, true;
        while more && i < |replies|
          invariant Valid() && 0 <= i == |turns| <= |replies| && flowing && endEmitted == old(endEmitted)
          invariant log == old(log) + FlowPart(replies, turns)
          invariant Goes(turns) && InTurn(old(log), replies, turns) && (more <==> !Stops(turns))
        {
          Leads(this);
          var chunk, asked, threw := Read(None, replies[i]);
          FlowMore(replies, turns, Turn(asked, chunk));
          GoesMore(turns, Turn(asked, chunk));
          InTurnMore(old(log), replies, turns, Turn(asked, chunk));
          Joined(old(log), FlowPart(replies, turns), ReadPart(replies[i], asked, chunk));
          turns := turns + [Turn(asked, chunk)];
          more := chunk.Some? && flowing;
          i := i + 1;
        }
      }
    }
  }

  /** All turns but the last bring something. */
  ghost predicate Goes(turns: seq<Turn>) {
    forall i :: 0 <= i < |turns| - 1 ==> turns[i].ret.Some?
  }

  ghost predicate Stops(turns: seq<Turn>) {
    turns != [] && turns[|turns| - 1].ret.None?
  }

  /** The stream that a log leads to. */
  function StreamOf(log: seq<Entry>): Stream {
    if Replay(log).Some? then Replay(log).value else Stream([], [], false, false)
  }

  /** Every turn is a `read()` of the stream that the turns before it left. */
  ghost predicate InTurn(log: seq<Entry>, replies: seq<seq<Supply>>, turns: seq<Turn>)
    requires |turns| <= |replies|
  {
    forall i :: 0 <= i < |turns| ==>
      Reads(StreamOf(log + FlowPart(replies, turns[..i])), None, turns[i].asked, turns[i].ret)
  }

  lemma InTurnMore(log: seq<Entry>, replies: seq<seq<Supply>>, turns: seq<Turn>, turn: Turn)
    requires |turns| < |replies| && InTurn(log, replies, turns)
    requires Reads(StreamOf(log + FlowPart(replies, turns)), None, turn.asked, turn.ret)
    ensures InTurn(log, replies, turns + [turn])
  {
    hide FlowPart, StreamOf, Reads;
    var more := turns + [turn];
    forall i | 0 <= i < |more|
      ensures Reads(StreamOf(log + FlowPart(replies, more[..i])), None, more[i].asked, more[i].ret)
    {
      assert i < |turns| ==> more[..i] == turns[..i];
      assert i == |turns| ==> more[..i] == turns;
    }
  }

  /** One turn of `flow`. */
  datatype Turn = Turn(asked: bool, ret: Option<Bytes>)

  function FlowPart(replies: seq<seq<Supply>>, turns: seq<Turn>): seq<Entry>
    requires |turns| <= |replies|
  {
    if turns == [] then []
    else
      var k := |turns| - 1;
      FlowPart(replies, turns[..k]) + ReadPart(replies[k], turns[k].asked, turns[k].ret)
  }

  lemma GoesMore(turns: seq<Turn>, turn: Turn)
    requires Goes(turns) && !Stops(turns)
    ensures Goes(turns + [turn]) && (Stops(turns + [turn]) <==> turn.ret.None?)
  {
    var more := turns + [turn];
    forall i | 0 <= i < |more| - 1
      ensures more[i].ret.Some?
    {
      assert more[i] == turns[i];
    }
  }

  lemma FlowMore(replies: seq<seq<Supply>>, turns: seq<Turn>, turn: Turn)
    requires |turns| < |replies|
    ensures FlowPart(replies, turns + [turn]) == FlowPart(replies, turns) + ReadPart(replies[|turns|], turn.asked, turn.ret)
  {
    assert (turns + [turn])[..|turns|] == turns;
    hide ReadPart;
  }

  lemma InsMore(reply: seq<Supply>, i: nat)
    requires i < |reply|
    ensures Ins(reply[..i + 1]) == Ins(reply[..i]) + [In(reply[i])]
    ensures forall x :: x in reply[..i + 1] <==> x in reply[..i] || x == reply[i]
  {
    assert reply[..i + 1] == reply[..i] + [reply[i]];
  }

  // ---- runs ----

  /** The calls a stream can get: from its source, from its consumer, and from the tick queue. */
  datatype Event =
    | EvSupply(supply: Supply)
    | EvRead(n: Option<int>, reply: seq<Supply>)
    | EvFlow(replies: seq<seq<Supply>>)
    | EvSetFlowing(flowing: bool)
    | EvEndTick

  /** What an event logs: the supply it brings, which is handed on at once only by an empty flowing stream; what the hook
      supplied if a `read` asked it, and what that returned; and the turns of `flow`, which stops short of the replies
      only when a `read` returns nothing. */
  ghost predicate Fits(e: Event, log: seq<Entry>, flowing: bool, part: seq<Entry>) {
    var s := StreamOf(log);
    match e
    case EvSupply(supply) => SupplyPart(supply, part) && (part == [In(supply)] || (flowing && s.rest == []))
    case EvRead(n, reply) => exists asked, ret ::
      Reads(s, n, asked, ret) && part == ReadPart(reply, asked, ret) && Exactly(n, ret, StreamOf(log + part))
    case EvFlow(replies) => exists turns ::
      |turns| <= |replies| && part == FlowPart(replies, turns) && FlowsOn(log, flowing, replies, turns)
    case EvSetFlowing(_) => part == []
    case EvEndTick => part == [] || part == [Over]
  }

  /** A positive n gets n bytes, or all that is left of a stream that has ended. */
  predicate Exactly(n: Option<int>, ret: Option<Bytes>, after: Stream) {
    n.Some? && ret.Some? ==> |ret.value| == n.value || (after.ended && after.rest == [])
  }

  ghost predicate FlowsOn(log: seq<Entry>, flowing: bool, replies: seq<seq<Supply>>, turns: seq<Turn>)
    requires |turns| <= |replies|
  {
    && Goes(turns) && InTurn(log, replies, turns)
    && if flowing then |turns| == |replies| || Stops(turns) else turns == []
  }

  /** Whether the stream is flowing before the k-th event. */
  function FlowingAt(flowing: bool, events: seq<Event>, k: nat): bool
    requires k <= |events|
  {
    if k == 0 then flowing
    else if events[k - 1].EvSetFlowing? then events[k - 1].flowing
    else FlowingAt(flowing, events, k - 1)
  }

  lemma FlowingNext(flowing: bool, events: seq<Event>, k: nat)
    requires k < |events|
    ensures FlowingAt(flowing, events, k + 1) == if events[k].EvSetFlowing? then events[k].flowing else FlowingAt(flowing, events, k)
  {
  }

  /** All that a run logged. */
  function Flatten(parts: seq<seq<Entry>>): seq<Entry> {
    if parts == [] then [] else Flatten(parts[..|parts| - 1]) + parts[|parts| - 1]
  }

  lemma FlattenMore(parts: seq<seq<Entry>>, part: seq<Entry>)
    ensures Flatten(parts + [part]) == Flatten(parts) + part
  {
    assert (parts + [part])[..|parts|] == parts;
  }

  /** A supply. */
  method TakeSupply(r: Readable, supply: Supply) returns (ghost part: seq<Entry>)
    requires r.Valid()
    modifies r
    ensures r.Valid() && r.flowing == old(r.flowing) && r.log == old(r.log) + part && SupplyPart(supply, part)
    ensures part == [In(supply)] || (r.flowing && old(r.length) == 0)
  {
    hide Concat, Sound;
    match supply {
      case Pushed(c) => var _ := r.AddChunk(c, false);
      case Unshifted(b) => var _ := r.AddChunk(Some(b), true);
    }
    part := r.log[|old(r.log)|..];
  }

  /** One event. */
  method Take(r: Readable, e: Event) returns (ghost part: seq<Entry>)
    requires r.Valid()
    modifies r
    ensures r.Valid() && r.log == old(r.log) + part && Fits(e, old(r.log), old(r.flowing), part)
    ensures r.flowing == if e.EvSetFlowing? then e.flowing else old(r.flowing)
  {
    hide Concat, Sound, FlowPart, ReadPart, Replay, Reads, Goes, Stops, InTurn, SupplyPart;
    Leads(r);
    part := [];
    match e {
      case EvSupply(supply) => part := TakeSupply(r, supply);
      case EvRead(n, reply) =>
        var ret, asked, threw := r.Read(n, reply);
        part := ReadPart(reply, asked, ret);
        Leads(r);
      case EvFlow(replies) =>
        ghost var turns := r.Flow(replies);
        part := FlowPart(replies, turns);
        assert FlowsOn(old(r.log), old(r.flowing), replies, turns);
      case EvSetFlowing(flowing) => r.flowing := flowing;
      case EvEndTick =>
        if r.endTicks > 0 {
          r.EndTick();
          part := r.log[|old(r.log)|..];
        }
    }
  }

  /** The first events of a run logged the parts. */
  ghost predicate Ran(log: seq<Entry>, flowing: bool, events: seq<Event>, parts: seq<seq<Entry>>) {
    && |parts| <= |events|
    && forall i :: 0 <= i < |parts| ==> Fits(events[i], log + Flatten(parts[..i]), FlowingAt(flowing, events, i), parts[i])
  }

  lemma RanNone(log: seq<Entry>, flowing: bool, events: seq<Event>)
    ensures Ran(log, flowing, events, []) && Flatten([]) == [] && FlowingAt(flowing, events, 0) == flowing
  {
  }

  lemma RanMore(log: seq<Entry>, flowing: bool, events: seq<Event>, parts: seq<seq<Entry>>, part: seq<Entry>)
    requires Ran(log, flowing, events, parts) && |parts| < |events|
    requires Fits(events[|parts|], log + Flatten(parts), FlowingAt(flowing, events, |parts|), part)
    ensures Ran(log, flowing, events, parts + [part])
  {
    hide Fits, Flatten, FlowingAt;
    var more := parts + [part];
    forall i | 0 <= i < |more|
      ensures Fits(events[i], log + Flatten(more[..i]), FlowingAt(flowing, events, i), more[i])
    {
      assert i < |parts| ==> more[..i] == parts[..i];
      assert i == |parts| ==> more[..i] == parts;
    }
  }

  /** Every run from any state reached: the log grows by the supplies of the events, those of the hooks that were asked, and
      what was delivered, and it leads to what was delivered and what is buffered. */
  method Drive(r: Readable, events: seq<Event>) returns (ghost parts: seq<seq<Entry>>)
    requires r.Valid()
    modifies r
    ensures r.Valid() && r.log == old(r.log) + Flatten(parts)
    ensures |parts| == |events| && Ran(old(r.log), old(r.flowing), events, parts)
    ensures Replay(r.log) == Some(Stream(r.delivered, Concat(r.buffer), r.ended, r.endEmitted)) && r.length == |Concat(r.buffer)|
  {
    hide Fits, Flatten, Sound, Concat, Ran, Replay, FlowingAt;
    parts := [];
    RanNone(r.log, r.flowing, events);
    for k := 0 to |events|
      invariant r.Valid() && r.log == old(r.log) + Flatten(parts) && r.flowing == FlowingAt(old(r.flowing), events, k)
      invariant |parts| == k && Ran(old(r.log), old(r.flowing), events, parts)
    {
      ghost var part := Take(r, events[k]);
      RanMore(old(r.log), old(r.flowing), events, parts, part);
      FlowingNext(old(r.flowing), events, k);
      FlattenMore(parts, part);
      Joined(old(r.log), Flatten(parts), part);
      parts := parts + [part];
    }
    Leads(r);
  }

  lemma Leads(r: Readable)
    requires r.Valid()
    ensures Replay(r.log) == Some(r.View()) && StreamOf(r.log) == r.View() && r.length == |Concat(r.buffer)|
  {
  }

  lemma Joined(a: seq<Entry>, b: seq<Entry>, c: seq<Entry>)
    ensures (a + b) + c == a + (b + c)
  {
  }
}
