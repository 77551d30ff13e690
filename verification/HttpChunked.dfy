/** The chunked framing of lib/_http_outgoing.js, and a reader for it after section 4.1 of RFC 7230. */
module HttpChunked {
  import opened Wrappers
  import opened Bytes

  const CRLF: Bytes := [13, 10]

  // ---- writing ----

  function HexDigit(d: nat): byte
    requires d < 16
  {
    if d < 10 then 48 + d else 87 + d
  }

  /** `len.toString(16)`. */
  function Hex(n: nat): Bytes {
    if n < 16 then [HexDigit(n)] else Hex(n / 16) + [HexDigit(n % 16)]
  }

  /** Sizes are written in lower case without leading zeros. */
  lemma {:induction false} HexDigits(n: nat)
    ensures forall k :: 0 <= k < |Hex(n)| ==> '0' as int <= Hex(n)[k] <= '9' as int || 'a' as int <= Hex(n)[k] <= 'f' as int
    ensures n > 0 ==> Hex(n)[0] != '0' as int
  {
    if n >= 16 {
      HexDigits(n / 16);
    }
  }

  function Chunk(data: Bytes): Bytes {
    Hex(|data|) + CRLF + data + CRLF
  }

  function Chunks(list: seq<Bytes>): Bytes {
    if list == [] then [] else Chunk(list[0]) + Chunks(list[1..])
  }

  function Lines(trailer: seq<Bytes>): Bytes {
    if trailer == [] then [] else trailer[0] + CRLF + Lines(trailer[1..])
  }

  /** What `end` sends after the last chunk. */
  function Last(trailer: seq<Bytes>): Bytes {
    [48] + CRLF + Lines(trailer) + CRLF
  }

  /** "hello" as the only chunk of a body, byte for byte. */
  lemma Hello(data: Bytes)
    requires data == [0x68, 0x65, 0x6C, 0x6C, 0x6F]
    ensures Chunks([data]) + Last([]) == [0x35, 13, 10, 0x68, 0x65, 0x6C, 0x6C, 0x6F, 13, 10, 0x30, 13, 10, 13, 10]
  {
    assert [data][1..] == [] && Hex(5) == [0x35];
    assert Chunk(data) == [0x35, 13, 10] + data + [13, 10];
  }

  // ---- reading ----

  function HexValue(b: byte): Option<nat> {
    if 48 <= b < 58 then Some(b - 48)
    else if 65 <= b < 71 then Some(b - 55)
    else if 97 <= b < 103 then Some(b - 87)
    else None
  }

  /** The rest of a chunk size and its line end. */
  function ReadSize(s: Bytes, acc: nat, seen: bool): (r: Option<(nat, Bytes)>)
    ensures r.Some? ==> |r.value.1| < |s|
    decreases |s|
  {
    if |s| > 0 && HexValue(s[0]).Some? then ReadSize(s[1..], 16 * acc + HexValue(s[0]).value, true)
    else if seen && CRLF <= s then Some((acc, s[2..]))
    else None
  }

  function SkipLine(s: Bytes): (r: Option<Bytes>)
    ensures r.Some? ==> |r.value| < |s|
    decreases |s|
  {
    if CRLF <= s then Some(s[2..]) else if s == [] then None else SkipLine(s[1..])
  }

  /** Trailer fields up to the empty line. */
  function ReadTrailer(s: Bytes): Option<Bytes>
    decreases |s|
  {
    if CRLF <= s then Some(s[2..])
    else
      var r := SkipLine(s);
      if r.None? then None else ReadTrailer(r.value)
  }

  /** The body, and what follows the message. */
  function ReadChunked(s: Bytes): Option<(Bytes, Bytes)>
    decreases |s|
  {
    var size := ReadSize(s, 0, false);
    if size.None? then None
    else
      var (k, r) := size.value;
      if k == 0 then
        var t := ReadTrailer(r);
        if t.None? then None else Some(([], t.value))
      else if |r| >= k + 2 && r[k..k + 2] == CRLF then
        var more := ReadChunked(r[k + 2..]);
        if more.None? then None else Some((r[..k] + more.value.0, more.value.1))
      else None
  }

  // ---- reading what was written ----

  lemma ReadDigit(d: nat, tail: Bytes, acc: nat, seen: bool)
    requires d < 16
    ensures ReadSize([HexDigit(d)] + tail, acc, seen) == ReadSize(tail, 16 * acc + d, true)
  {
    assert ([HexDigit(d)] + tail)[1..] == tail;
  }

  lemma {:induction false} ReadHex(n: nat, tail: Bytes, seen: bool)
    ensures ReadSize(Hex(n) + tail, 0, seen) == ReadSize(tail, n, true)
    decreases n
  {
    if n < 16 {
      ReadDigit(n, tail, 0, seen);
    } else {
      var d := HexDigit(n % 16);
      assert Hex(n) + tail == Hex(n / 16) + ([d] + tail);
      ReadHex(n / 16, [d] + tail, seen);
      ReadDigit(n % 16, tail, n / 16, true);
    }
  }

  lemma ReadSizeLine(n: nat, tail: Bytes)
    ensures ReadSize(Hex(n) + CRLF + tail, 0, false) == Some((n, tail))
  {
    assert Hex(n) + CRLF + tail == Hex(n) + (CRLF + tail);
    ReadHex(n, CRLF + tail, false);
    assert (CRLF + tail)[2..] == tail && CRLF <= CRLF + tail;
  }

  /** A field line of a trailer. */
  predicate Plain(line: Bytes) {
    line != [] && 13 !in line
  }

  lemma {:induction false} SkipPlain(line: Bytes, tail: Bytes)
    requires 13 !in line
    ensures SkipLine(line + CRLF + tail) == Some(tail)
  {
    if line == [] {
      assert line + CRLF + tail == CRLF + tail;
      assert (CRLF + tail)[2..] == tail && CRLF <= CRLF + tail;
    } else {
      var s := line + CRLF + tail;
      assert s[0] == line[0] && s[1..] == line[1..] + CRLF + tail;
      SkipPlain(line[1..], tail);
    }
  }

  lemma {:induction false} ReadLines(trailer: seq<Bytes>, tail: Bytes)
    requires forall k :: 0 <= k < |trailer| ==> Plain(trailer[k])
    ensures ReadTrailer(Lines(trailer) + CRLF + tail) == Some(tail)
  {
    if trailer == [] {
      assert Lines(trailer) + CRLF + tail == CRLF + tail;
      assert (CRLF + tail)[2..] == tail && CRLF <= CRLF + tail;
    } else {
      var line, rest := trailer[0], Lines(trailer[1..]) + CRLF + tail;
      assert Lines(trailer) + CRLF + tail == line + CRLF + rest;
      assert (line + CRLF + rest)[0] == line[0];
      SkipPlain(line, rest);
      ReadLines(trailer[1..], tail);
    }
  }

  lemma ReadOne(data: Bytes, tail: Bytes)
    requires data != []
    ensures ReadChunked(Chunk(data) + tail) ==
      var more := ReadChunked(tail); if more.None? then None else Some((data + more.value.0, more.value.1))
  {
    var r := data + CRLF + tail;
    assert Chunk(data) + tail == Hex(|data|) + CRLF + r;
    ReadSizeLine(|data|, r);
    assert r[..|data|] == data && r[|data|..|data| + 2] == CRLF && r[|data| + 2..] == tail;
  }

  lemma ReadLast(trailer: seq<Bytes>, tail: Bytes)
    requires forall k :: 0 <= k < |trailer| ==> Plain(trailer[k])
    ensures ReadChunked(Last(trailer) + tail) == Some(([], tail))
  {
    assert Hex(0) == [48];
    assert Last(trailer) + tail == Hex(0) + CRLF + (Lines(trailer) + CRLF + tail);
    ReadSizeLine(0, Lines(trailer) + CRLF + tail);
    ReadLines(trailer, tail);
  }

  /** A chunked body reads back as the concatenation of the chunks, and the reader stops at its end. */
  lemma {:induction false} ReadChunks(list: seq<Bytes>, trailer: seq<Bytes>, tail: Bytes)
    requires forall k :: 0 <= k < |list| ==> list[k] != []
    requires forall k :: 0 <= k < |trailer| ==> Plain(trailer[k])
    ensures ReadChunked(Chunks(list) + Last(trailer) + tail) == Some((Concat(list), tail))
  {
    if list == [] {
      assert Chunks(list) + Last(trailer) + tail == Last(trailer) + tail;
      ReadLast(trailer, tail);
    } else {
      var rest := Chunks(list[1..]) + Last(trailer) + tail;
      assert Chunks(list) + Last(trailer) + tail == Chunk(list[0]) + rest;
      ReadOne(list[0], rest);
      hide ReadChunked;
      ReadChunks(list[1..], trailer, tail);
    }
  }

  lemma {:induction false} ChunksConcat(a: seq<Bytes>, b: seq<Bytes>)
    ensures Chunks(a + b) == Chunks(a) + Chunks(b)
  {
    if a == [] {
      assert a + b == b;
    } else {
      assert (a + b)[1..] == a[1..] + b;
      ChunksConcat(a[1..], b);
    }
  }
}
