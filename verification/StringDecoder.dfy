/** Base64 text (section 4 of RFC 4648). */
module Base64Text {
  import opened Bytes
  import opened Ucs2

  function Letter(v: nat): (u: CodeUnit)
    requires v < 64
    ensures u < 0x80
  {
    if v < 26 then 65 + v
    else if v < 52 then 71 + v
    else if v < 62 then v - 4
    else if v == 62 then 43
    else 47
  }

  const PAD: CodeUnit := 61

  function Group(b: Bytes): (s: JsString)
    requires 1 <= |b| <= 3
    ensures |s| == 4 && s[3] < 0x80
  {
    if |b| == 1 then [Letter(b[0] / 4), Letter(b[0] % 4 * 16), PAD, PAD]
    else if |b| == 2 then [Letter(b[0] / 4), Letter(b[0] % 4 * 16 + b[1] / 16), Letter(b[1] % 16 * 4), PAD]
    else [Letter(b[0] / 4), Letter(b[0] % 4 * 16 + b[1] / 16), Letter(b[1] % 16 * 4 + b[2] / 64), Letter(b[2] % 64)]
  }

  function Base64(b: Bytes): (s: JsString)
    ensures s != [] ==> s[|s| - 1] < 0x80
  {
    if b == [] then [] else if |b| <= 3 then Group(b) else Group(b[..3]) + Base64(b[3..])
  }

  /** The test vectors "f", "fo" and "foo" of section 10 of RFC 4648, and the last two letters of the alphabet. */
  lemma Vectors()
    ensures Base64([0x66]) == [0x5A, 0x67, 0x3D, 0x3D] && Base64([0x66, 0x6F]) == [0x5A, 0x6D, 0x38, 0x3D]
    ensures Base64([0x66, 0x6F, 0x6F]) == [0x5A, 0x6D, 0x39, 0x76] && Base64([0xFB, 0xFF, 0xBF]) == [0x2B, 0x2F, 0x2B, 0x2F]
  {
  }

  lemma Base64Step(b: Bytes)
    requires |b| >= 3
    ensures Base64(b) == Group(b[..3]) + Base64(b[3..])
  {
    if |b| == 3 {
      assert b[..3] == b && b[3..] == [];
    }
    hide Group;
  }

  lemma Regroup(x: JsString, y: JsString, z: JsString)
    ensures x + (y + z) == (x + y) + z
  {
  }

  /** Whole groups can be converted on their own. */
  lemma {:induction false} Base64Concat(a: Bytes, b: Bytes, groups: nat)
    requires |a| == 3 * groups
    ensures Base64(a + b) == Base64(a) + Base64(b)
  {
    assert Base64([]) == [];
    hide Base64, Group;
    if a == [] {
      assert a + b == b;
    } else {
      assert (a + b)[..3] == a[..3] && (a + b)[3..] == a[3..] + b;
      Base64Step(a);
      Base64Step(a + b);
      Base64Concat(a[3..], b, groups - 1);
      Regroup(Group(a[..3]), Base64(a[3..]), Base64(b));
    }
  }
}

/** What is fed to a decoder: valid UTF-8, or any bytes as base64. The functions give, for a number of bytes received,
    where the pending character starts, its size, and the text of what lies between two such starts. */
module DecoderSource {
  import opened Bytes
  import opened Ucs2
  import opened Base64Text
  import U = Utf8

  datatype Source = Text(text: seq<U.Scalar>) | Raw(bytes: Bytes)

  function All(src: Source): Bytes {
    match src
    case Text(text) => U.EncodeAll(text)
    case Raw(bytes) => bytes
  }

  function Start(src: Source, n: nat): (p: nat)
    ensures p <= n
  {
    match src
    case Text(text) => U.Start(text, n)
    case Raw(_) => n - n % 3
  }

  function Size(src: Source, n: nat): (k: nat)
    ensures k <= 4
  {
    match src
    case Text(text) => U.Size(text, n)
    case Raw(_) => 3
  }

  function Show(src: Source, n: nat, m: nat): JsString
    requires n <= m <= |All(src)|
  {
    match src
    case Text(text) => U.StartGrows(text, n, m); CodeUnits(text[U.Whole(text, n)..U.Whole(text, m)])
    case Raw(bytes) => Base64(bytes[n - n % 3..m - m % 3])
  }

  /** Conversion that is right on whole characters, whatever it does with other bytes. */
  ghost predicate Converts(toString: Bytes -> JsString, src: Source) {
    match src
    case Text(_) => forall t: seq<U.Scalar> :: toString(U.EncodeAll(t)) == CodeUnits(t)
    case Raw(_) => forall b: Bytes :: toString(b) == Base64(b)
  }

  lemma Bounds(src: Source, n: nat)
    requires n <= |All(src)|
    ensures n < |All(src)| ==> n < Start(src, n) + Size(src, n)
    ensures Start(src, n) < n ==> n < Start(src, n) + Size(src, n)
    ensures src.Text? ==> Start(src, n) + Size(src, n) <= |All(src)|
  {
    if src.Text? {
      U.StartBounds(src.text, n);
    }
  }

  lemma Stays(src: Source, n: nat, m: nat)
    requires n <= m < Start(src, n) + Size(src, n) && m <= |All(src)|
    ensures Start(src, m) == Start(src, n) && Size(src, m) == Size(src, n) && Show(src, n, m) == []
  {
    if src.Text? {
      U.StartStays(src.text, n, m);
    }
  }

  lemma Next(src: Source, n: nat)
    requires Size(src, n) > 0
    ensures var e := Start(src, n) + Size(src, n); Start(src, e) == e
  {
    if src.Text? {
      U.StartNext(src.text, n);
    }
  }

  lemma Grows(src: Source, n: nat, m: nat)
    requires n <= m
    ensures Start(src, n) <= Start(src, m)
  {
    if src.Text? {
      U.StartGrows(src.text, n, m);
    }
  }

  /** Converting the bytes between two starts gives the text between them. */
  lemma Shows(src: Source, toString: Bytes -> JsString, n: nat, m: nat)
    requires n <= m <= |All(src)| && Converts(toString, src)
    ensures Start(src, n) <= Start(src, m) && toString(All(src)[Start(src, n)..Start(src, m)]) == Show(src, n, m)
  {
    Grows(src, n, m);
    if src.Text? {
      U.BetweenStarts(src.text, n, m);
    }
  }

  lemma TextJoins(t: seq<U.Scalar>, i: nat, j: nat, k: nat)
    requires i <= j <= k <= |t|
    ensures CodeUnits(t[i..j]) + CodeUnits(t[j..k]) == CodeUnits(t[i..k])
  {
    assert t[i..k] == t[i..j] + t[j..k];
    CodeUnitsConcat(t[i..j], t[j..k]);
    hide CodeUnits;
  }

  lemma RawJoins(s: Bytes, i: nat, j: nat, k: nat)
    requires i <= j <= k <= |s| && (j - i) % 3 == 0
    ensures Base64(s[i..j]) + Base64(s[j..k]) == Base64(s[i..k])
  {
    assert s[i..k] == s[i..j] + s[j..k];
    Base64Concat(s[i..j], s[j..k], (j - i) / 3);
    hide Base64;
  }

  lemma ShowJoins(src: Source, n: nat, e: nat, m: nat)
    requires n <= e <= m <= |All(src)|
    ensures Show(src, n, e) + Show(src, e, m) == Show(src, n, m)
  {
    hide CodeUnits, Base64, U.Whole, U.Start, U.EncodeAll;
    if src.Text? {
      U.StartGrows(src.text, n, e);
      U.StartGrows(src.text, e, m);
      TextJoins(src.text, U.Whole(src.text, n), U.Whole(src.text, e), U.Whole(src.text, m));
    } else {
      Thirds(n, e);
      Thirds(e, m);
      RawJoins(src.bytes, n - n % 3, e - e % 3, m - m % 3);
    }
  }

  lemma Thirds(n: nat, e: nat)
    requires n <= e
    ensures n - n % 3 <= e - e % 3 && ((e - e % 3) - (n - n % 3)) % 3 == 0
  {
  }

  lemma {:induction false} CodeUnitsConcat(a: seq<int>, b: seq<int>)
    ensures CodeUnits(a + b) == CodeUnits(a) + CodeUnits(b)
  {
    if a == [] {
      assert a + b == b;
    } else {
      assert (a + b)[1..] == a[1..] + b;
      CodeUnitsConcat(a[1..], b);
    }
  }

  /** Whole characters never end in a lead surrogate. */
  predicate EndsInLead(s: JsString) {
    s != [] && IsHigh(s[|s| - 1])
  }

  lemma NoLead(src: Source, n: nat, m: nat)
    requires n <= m <= |All(src)|
    ensures !EndsInLead(Show(src, n, m))
  {
    if src.Text? {
      U.StartGrows(src.text, n, m);
      UnitsEnd(src.text[U.Whole(src.text, n)..U.Whole(src.text, m)]);
    }
  }

  lemma {:induction false} UnitsEnd(t: seq<U.Scalar>)
    ensures !EndsInLead(CodeUnits(t))
  {
    if t != [] {
      UnitsEnd(t[1..]);
      var u := Units(t[0]);
      assert !IsHigh(u[|u| - 1]);
    }
  }
}

/** The incremental decoder of lib/string_decoder.js, for 'utf8' and 'base64'. */
module StringDecoders {
  import opened Bytes
  import opened Ucs2
  import opened DecoderSource
  import U = Utf8
  import B = Base64Text

  datatype Encoding = Utf8 | Base64

  const SURROGATE_SIZE: nat := 3

  /** The size announced by a byte that is i bytes before the end, when its character is incomplete there. */
  function Announced(c: byte, i: nat): (k: nat)
    ensures k <= 4
    ensures 1 <= i <= 3 ==> k == (if U.LeadSize(c) > i then U.LeadSize(c) else 0)
  {
    if i == 1 && c / 32 == 0x06 then 2
    else if i <= 2 && c / 16 == 0x0E then 3
    else if i <= 3 && c / 8 == 0x1E then 4
    else 0
  }

  /** How many bytes of an incomplete character the buffer ends in, and the size of that character. */
  function Scan(buffer: Bytes, i: nat): (r: (nat, nat))
    requires i <= 3 && i <= |buffer|
    ensures r.0 <= i && r.0 <= r.1 <= 4 && (r.1 == 0 <==> r.0 == 0)
  {
    if i == 0 then (0, 0)
    else if Announced(buffer[|buffer| - i], i) > 0 then (i, Announced(buffer[|buffer| - i], i))
    else Scan(buffer, i - 1)
  }

  function Pending(encoding: Encoding, buffer: Bytes): (r: (nat, nat))
    ensures r.0 <= 3 && r.0 <= |buffer| && r.0 <= r.1 <= 4 && (r.1 == 0 <==> r.0 == 0)
  {
    match encoding
    case Utf8 => Scan(buffer, if |buffer| >= 3 then 3 else |buffer|)
    case Base64 => if |buffer| % 3 == 0 then (0, 0) else (|buffer| % 3, 3)
  }

  // ---- detection is right on whole characters and a partial one ----

  lemma {:induction false} ScanFinds(text: seq<U.Scalar>, e: nat, m: nat, i: nat)
    requires e <= m <= |U.EncodeAll(text)| && i <= 3 && i <= m - e && m - U.Start(text, m) <= i
    ensures Scan(U.EncodeAll(text)[e..m], i) == (m - U.Start(text, m), if U.Start(text, m) < m then U.Size(text, m) else 0)
  {
    if i > 0 {
      var q, all := m - i, U.EncodeAll(text);
      assert all[e..m][|all[e..m]| - i] == all[q];
      U.LeadStarts(text, q);
      U.StartBounds(text, m);
      hide U.EncodeAll, U.Start, U.Size, U.LeadSize;
      if U.Start(text, m) == q {
        U.StartStays(text, m, q);
      } else {
        if U.Start(text, q) == q && U.Size(text, q) > i {
          U.StartStays(text, q, m);
        }
        ScanFinds(text, e, m, i - 1);
      }
    }
  }

  lemma PendingFinds(src: Source, encoding: Encoding, e: nat, m: nat)
    requires e <= m <= |All(src)| && Start(src, e) == e && (src.Text? <==> encoding.Utf8?)
    ensures Pending(encoding, All(src)[e..m]) == (m - Start(src, m), if Start(src, m) < m then Size(src, m) else 0)
  {
    if src.Text? {
      U.StartGrows(src.text, e, m);
      U.StartBounds(src.text, m);
      hide U.EncodeAll, U.Start, U.Size, Scan;
      ScanFinds(src.text, e, m, if m - e >= 3 then 3 else m - e);
    } else {
      Modulo(e, m);
    }
  }

  lemma Modulo(e: nat, m: nat)
    requires e % 3 == 0 && e <= m
    ensures (m - e) % 3 == m % 3
  {
  }

  /** The next bytes of the source. */
  ghost predicate Feeds(src: Source, n: nat, buffer: Bytes) {
    n + |buffer| <= |All(src)| && buffer == All(src)[n..n + |buffer|]
  }

  /** Where the character pending after n bytes is complete. */
  function Resume(src: Source, n: nat): nat {
    if Start(src, n) == n then n else Start(src, n) + Size(src, n)
  }

  /** The encoding is the source's, and the conversion is right for it. */
  ghost predicate Right(encoding: Encoding, toString: Bytes -> JsString, src: Source) {
    (src.Text? <==> encoding.Utf8?) && Converts(toString, src)
  }

  /** The bytes held are those of the source's pending character, whose size is known. */
  ghost predicate Holds(encoding: Encoding, toString: Bytes -> JsString, src: Source, n: nat, held: Bytes, length: nat) {
    && n <= |All(src)| && Right(encoding, toString, src)
    && held == All(src)[Start(src, n)..n]
    && length == (if held == [] then 0 else Size(src, n))
  }

  /** The pending character has been completed and shown, and `rest` remains. */
  ghost predicate Resumed(src: Source, n: nat, m: nat, rest: Bytes, charStr: JsString) {
    var e := Resume(src, n);
    && n <= e <= m <= |All(src)| && Start(src, e) == e
    && rest == All(src)[e..m] && charStr == Show(src, n, e)
  }

  /** From n bytes to m, charStr has been shown and the pending character is held. */
  ghost predicate Wrote(encoding: Encoding, toString: Bytes -> JsString, src: Source, n: nat, m: nat, charStr: JsString, held: Bytes, length: nat) {
    Holds(encoding, toString, src, m, held, length) && n <= m && charStr == Show(src, n, m)
  }

  lemma HoldsLess(encoding: Encoding, toString: Bytes -> JsString, src: Source, n: nat, held: Bytes, length: nat)
    requires Holds(encoding, toString, src, n, held, length)
    ensures length == 0 <==> held == []
    ensures length > 0 ==> |held| < length <= 4
  {
    hide All, Start, Size, Converts;
    Bounds(src, n);
  }

  /** What `end` returns: the whole characters, and the bytes of an incomplete one as they are. */
  ghost predicate Ended(toString: Bytes -> JsString, src: Source, n: nat, m: nat, res: JsString) {
    && n <= m <= |All(src)|
    && res == Show(src, n, m) + (if Start(src, m) < m then toString(All(src)[Start(src, m)..m]) else [])
  }

  lemma Idle(encoding: Encoding, toString: Bytes -> JsString, src: Source, n: nat, held: Bytes, length: nat)
    requires Holds(encoding, toString, src, n, held, length)
    ensures Wrote(encoding, toString, src, n, n, [], held, length)
  {
    ShowsNothing(src, n);
    hide All, Start, Size, Show, Right;
  }

  lemma EndsWith(encoding: Encoding, toString: Bytes -> JsString, src: Source, n: nat, m: nat, charStr: JsString, held: Bytes, length: nat)
    requires Wrote(encoding, toString, src, n, m, charStr, held, length)
    ensures Ended(toString, src, n, m, if held == [] then charStr else charStr + toString(held)) && |held| <= 4
  {
    HoldsLess(encoding, toString, src, m, held, length);
    hide All, Start, Size, Show, Right;
  }

  lemma HoldsRight(encoding: Encoding, toString: Bytes -> JsString, src: Source, n: nat, held: Bytes, length: nat)
    requires Holds(encoding, toString, src, n, held, length)
    ensures Right(encoding, toString, src)
  {
  }

  lemma ShowsNothing(src: Source, n: nat)
    requires n <= |All(src)|
    ensures Show(src, n, n) == []
  {
    hide U.Start, U.EncodeAll, U.Whole;
    if src.Raw? {
      assert src.bytes[n - n % 3..n - n % 3] == [];
    }
  }

  lemma Begins(encoding: Encoding, toString: Bytes -> JsString, src: Source, n: nat, buffer: Bytes)
    requires Holds(encoding, toString, src, n, [], 0) && Feeds(src, n, buffer)
    ensures Resumed(src, n, n + |buffer|, buffer, [])
  {
    hide All, Start, Size, Converts, Show;
    ShowsNothing(src, n);
  }

  lemma Partly(encoding: Encoding, toString: Bytes -> JsString, src: Source, n: nat, held: Bytes, length: nat, buffer: Bytes)
    requires Holds(encoding, toString, src, n, held, length) && Feeds(src, n, buffer) && 0 < |held| && |held| + |buffer| < length
    ensures Wrote(encoding, toString, src, n, n + |buffer|, [], held + buffer, length)
  {
    hide All, Start, Size, Converts, Show;
    var m := n + |buffer|;
    Stays(src, n, m);
    assert All(src)[Start(src, n)..m] == All(src)[Start(src, n)..n] + All(src)[n..m];
  }

  lemma FilledBytes(src: Source, n: nat, diff: nat, m: nat)
    requires Start(src, n) < n && n - Start(src, n) + diff == Size(src, n) && n + diff <= m <= |All(src)|
    ensures var e := Resume(src, n);
            && e == n + diff && Start(src, e) == e
            && All(src)[Start(src, n)..e] == All(src)[Start(src, n)..n] + All(src)[n..m][..diff]
            && All(src)[n..m][diff..] == All(src)[e..m]
  {
    hide All, Start, Size;
    Next(src, n);
  }

  lemma Filled(encoding: Encoding, toString: Bytes -> JsString, src: Source, n: nat, held: Bytes, length: nat, buffer: Bytes, diff: nat)
    requires Holds(encoding, toString, src, n, held, length) && Feeds(src, n, buffer)
    requires 0 < |held| && |held| + diff == length && diff <= |buffer|
    ensures var charStr := toString(held + buffer[..diff]);
            && Resumed(src, n, n + |buffer|, buffer[diff..], charStr) && !EndsInLead(charStr)
            && (diff == |buffer| ==> Wrote(encoding, toString, src, n, n + |buffer|, charStr, [], 0))
  {
    hide All, Start, Size, Converts, Show, EndsInLead, Resume;
    FilledBytes(src, n, diff, n + |buffer|);
    Shows(src, toString, n, n + diff);
    NoLead(src, n, n + diff);
    assert diff == |buffer| ==> All(src)[n + diff..n + diff] == [];
  }

  lemma FinishHolds(encoding: Encoding, toString: Bytes -> JsString, src: Source, e: nat, m: nat)
    requires e <= m <= |All(src)| && Start(src, e) == e && Converts(toString, src) && (src.Text? <==> encoding.Utf8?)
    ensures var rest := All(src)[e..m]; var (received, length) := Pending(encoding, rest);
            e <= Start(src, m) && received == m - Start(src, m) && Holds(encoding, toString, src, m, rest[|rest| - received..], length)
  {
    hide All, Start, Size, Converts, Pending;
    PendingFinds(src, encoding, e, m);
    Grows(src, e, m);
    assert All(src)[e..m][Start(src, m) - e..] == All(src)[Start(src, m)..m];
  }

  lemma FinishShows(toString: Bytes -> JsString, src: Source, n: nat, e: nat, m: nat)
    requires n <= e <= m <= |All(src)| && Start(src, e) == e <= Start(src, m) && Converts(toString, src)
    ensures Show(src, n, e) + toString(All(src)[e..m][..Start(src, m) - e]) == Show(src, n, m) && !EndsInLead(Show(src, n, m))
  {
    hide All, Start, Converts, Show, EndsInLead;
    Shows(src, toString, e, m);
    ShowJoins(src, n, e, m);
    NoLead(src, n, m);
    assert All(src)[e..m][..Start(src, m) - e] == All(src)[e..Start(src, m)];
  }

  lemma Finishes(encoding: Encoding, toString: Bytes -> JsString, src: Source, n: nat, m: nat, rest: Bytes, charStr: JsString)
    requires Resumed(src, n, m, rest, charStr) && Right(encoding, toString, src)
    ensures var (received, length) := Pending(encoding, rest); var end := |rest| - received;
            && Wrote(encoding, toString, src, n, m, charStr + toString(rest[..end]), rest[end..], length)
            && !EndsInLead(charStr + toString(rest[..end]))
  {
    hide All, Start, Size, Converts, Show, EndsInLead, Pending, Resume, Holds;
    FinishHolds(encoding, toString, src, Resume(src, n), m);
    FinishShows(toString, src, n, Resume(src, n), m);
  }

  class StringDecoder {
    const encoding: Encoding
    const toString: Bytes -> JsString
    const charBuffer: array<byte>
    var charReceived: nat
    var charLength: nat

    constructor (encoding: Encoding, toString: Bytes -> JsString)
      ensures this.encoding == encoding && this.toString == toString && fresh(charBuffer)
      ensures charBuffer.Length == 6 && charReceived == 0 && charLength == 0
    {
      this.encoding, this.toString := encoding, toString;
      charBuffer := new byte[6];
      charReceived, charLength := 0, 0;
    }

    ghost predicate Tracks(src: Source, n: nat)
      reads this, charBuffer
    {
      charReceived <= charBuffer.Length && Holds(encoding, toString, src, n, charBuffer[..charReceived], charLength)
    }

    /** From n bytes of the source to m: the text shown, and what is held now. */
    ghost predicate Moved(src: Source, n: nat, m: nat, charStr: JsString)
      reads this, charBuffer
    {
      charReceived <= charBuffer.Length && Wrote(encoding, toString, src, n, m, charStr, charBuffer[..charReceived], charLength)
    }

    /** `buffer.copy(charBuffer, at, ...)`, which stops at the end of charBuffer. */
    method Copy(source: Bytes, at: nat)
      requires charBuffer.Length == 6
      modifies charBuffer
      ensures at + |source| <= 6 ==> charBuffer[..at + |source|] == old(charBuffer[..at]) + source
    {
      forall k | 0 <= k < 6 && at <= k < at + |source| {
        charBuffer[k] := source[k - at];
      }
    }

    method DetectIncompleteChar(buffer: Bytes) returns (newlen: bool)
      modifies this
      ensures charReceived == Pending(encoding, buffer).0
      ensures if newlen then charLength == Pending(encoding, buffer).1 else Pending(encoding, buffer).1 == 0
      ensures charReceived <= 3 && charReceived <= |buffer|
      ensures if newlen then charReceived <= charLength && (charReceived == 0 <==> charLength == 0) else charReceived == 0
    {
      if encoding.Base64? {
        charReceived := |buffer| % 3;
        charLength := if charReceived > 0 then 3 else 0;
        return true;
      }
      var i := if |buffer| >= 3 then 3 else |buffer|;
      newlen := false;
      while i > 0
        invariant 0 <= i <= 3 && i <= |buffer| && !newlen
        invariant Scan(buffer, i) == Pending(encoding, buffer)
      {
        var c := buffer[|buffer| - i];
        if i == 1 && c / 32 == 0x06 {
          charLength, newlen := 2, true;
          break;
        }
        if i <= 2 && c / 16 == 0x0E {
          charLength, newlen := 3, true;
          break;
        }
        if i <= 3 && c / 8 == 0x1E {
          charLength, newlen := 4, true;
          break;
        }
        i := i - 1;
      }
      charReceived := i;
    }

    /** `charBuffer.toString(encoding, 0, length)`. */
    method CharText(length: nat) returns (s: JsString)
      requires charBuffer.Length == 6
      ensures length <= 6 ==> s == toString(charBuffer[..length])
    {
      s := toString(charBuffer[..if length <= 6 then length else 6]);
    }

    /** The loop of `write` that completes the pending character. `done` when it returns. What is claimed about the
        source holds if it did before (`ok`). */
    method Complete(buffer: Bytes, ghost ok: bool, ghost src: Source, ghost n: nat, ghost held: Bytes)
      returns (rest: Bytes, charStr: JsString, done: bool)
      requires charBuffer.Length == 6 && charReceived <= charLength
      requires ok ==> charReceived <= 6 && held == charBuffer[..charReceived]
      requires ok ==> Holds(encoding, toString, src, n, held, charLength) && Feeds(src, n, buffer)
      modifies this, charBuffer
      ensures charReceived <= charLength
      ensures ok && done ==> Moved(src, n, n + |buffer|, charStr)
      ensures ok && !done ==> Resumed(src, n, n + |buffer|, rest, charStr)
    {
      hide Holds, Resumed, Feeds, Wrote, EndsInLead;
      ghost var size := charLength;
      rest, charStr, done := buffer, [], false;
      var length: nat, received: nat := charLength, charReceived;
      if ok {
        HoldsLess(encoding, toString, src, n, held, length);
        if length == 0 {
          Begins(encoding, toString, src, n, buffer);
        }
      }
      while length > 0
        invariant received <= length && charReceived <= charLength && !done
        invariant ok && length > 0 ==> received == |held| <= 6 && length == size && rest == buffer && charBuffer[..received] == held
        invariant ok && length == 0 ==> Resumed(src, n, n + |buffer|, rest, charStr)
        decreases |rest| + (if length > 0 then 1 else 0), received == length
      {
        var diff: nat := length - received;
        var available: nat := if |rest| >= diff then diff else |rest|;
        Copy(rest[..available], received);
        received := received + available;
        if received < length {
          charLength, charReceived := length, received;
          if ok {
            assert rest[..available] == buffer;
            Partly(encoding, toString, src, n, held, length, buffer);
          }
          return [], [], true;
        }
        if ok {
          Filled(encoding, toString, src, n, held, length, buffer, diff);
        }
        rest := rest[available..];
        charStr := CharText(length);
        if EndsInLead(charStr) {
          length := length + SURROGATE_SIZE;
          charStr := [];
          continue;
        }
        received, length := 0, 0;
        if rest == [] {
          charLength, charReceived := length, received;
          return [], charStr, true;
        }
      }
    }

    method Write(buffer: Bytes, ghost src: Source, ghost n: nat) returns (charStr: JsString)
      requires charBuffer.Length == 6 && charReceived <= charLength
      modifies this, charBuffer
      ensures charReceived <= charLength
      ensures old(Tracks(src, n)) && Feeds(src, n, buffer) ==> Moved(src, n, n + |buffer|, charStr)
    {
      hide Holds, Resumed, Feeds, Wrote, Right;
      ghost var ok := Tracks(src, n) && Feeds(src, n, buffer);
      ghost var held := charBuffer[..if charReceived <= 6 then charReceived else 6];
      if ok {
        HoldsRight(encoding, toString, src, n, held, charLength);
      }
      var rest, done;
      rest, charStr, done := Complete(buffer, ok, src, n, held);
      if !done {
        charStr := Take(rest, charStr, ok, src, n, n + |buffer|);
      }
    }

    /** The rest of `write`: whole characters are shown and an incomplete one is kept. */
    method Take(rest: Bytes, shown: JsString, ghost ok: bool, ghost src: Source, ghost n: nat, ghost m: nat) returns (charStr: JsString)
      requires charBuffer.Length == 6
      requires ok ==> Resumed(src, n, m, rest, shown) && Right(encoding, toString, src)
      modifies this, charBuffer
      ensures charReceived <= charLength
      ensures ok ==> Moved(src, n, m, charStr)
    {
      hide Holds, Resumed, Wrote, Right, Pending;
      if ok {
        Finishes(encoding, toString, src, n, m, rest, shown);
      }
      var length: nat := 0;
      var newlen := DetectIncompleteChar(rest);
      if newlen {
        length := charLength;
      }
      var received := charReceived;
      var end := |rest|;
      if length > 0 {
        Copy(rest[|rest| - received..], 0);
        end := end - received;
      }
      assert charBuffer[..received] == rest[|rest| - received..];
      charLength := length;
      charStr := shown + toString(rest[..end]);
      if EndsInLead(charStr) {
        HoldLead(rest, length, received);
        charStr := charStr[..|charStr| - 1];
      }
    }

    /** A lead surrogate at the end counts as incomplete too. */
    method HoldLead(rest: Bytes, length: nat, received: nat)
      requires charBuffer.Length == 6 && received <= length
      modifies this, charBuffer
      ensures charReceived == received + SURROGATE_SIZE && charLength == length + SURROGATE_SIZE
    {
      charLength, charReceived := length + SURROGATE_SIZE, received + SURROGATE_SIZE;
      Copy(charBuffer[..SURROGATE_SIZE], SURROGATE_SIZE);
      Copy(rest[..if |rest| < SURROGATE_SIZE then |rest| else SURROGATE_SIZE], 0);
    }

    method End(buffer: Bytes, ghost src: Source, ghost n: nat) returns (res: JsString)
      requires charBuffer.Length == 6 && charReceived <= charLength
      modifies this, charBuffer
      ensures old(Tracks(src, n)) && Feeds(src, n, buffer) ==> Ended(toString, src, n, n + |buffer|, res)
    {
      hide Holds, Wrote, Feeds, Ended;
      ghost var ok := Tracks(src, n) && Feeds(src, n, buffer);
      res := [];
      if buffer != [] {
        res := Write(buffer, src, n);
      } else if ok {
        Idle(encoding, toString, src, n, charBuffer[..charReceived], charLength);
      }
      if ok {
        EndsWith(encoding, toString, src, n, n + |buffer|, res, charBuffer[..charReceived], charLength);
      }
      if charReceived > 0 {
        var last := CharText(charReceived);
        res := res + last;
      }
    }

    method WriteAll(chunks: seq<Bytes>, ghost src: Source) returns (text: JsString)
      requires charBuffer.Length == 6 && charReceived <= charLength && Right(encoding, toString, src)
      requires Tracks(src, 0) && Fed(src, 0, chunks, 0) && SoFar(src, 0, [])
      modifies this, charBuffer
      ensures text == WholeText(src)
    {
      hide Right, WholeText, Holds, Wrote, Fed, SoFar, Feeds, All, Ended;
      text := [];
      ghost var n: nat := 0;
      for k := 0 to |chunks|
        invariant charReceived <= charLength
        invariant Fed(src, n, chunks, k) && Tracks(src, n) && SoFar(src, n, text)
      {
        FedNext(src, n, chunks, k);
        var more := Write(chunks[k], src, n);
        Continues(encoding, toString, src, n, n + |chunks[k]|, text, more, charBuffer[..charReceived], charLength);
        text := text + more;
        n := n + |chunks[k]|;
      }
      FedAll(src, n, chunks);
      var last := End([], src, n);
      Concludes(encoding, src, toString, text, last);
      text := text + last;
    }
  }

  // ---- every chunking ----

  /** The text of the whole. */
  function WholeText(src: Source): JsString {
    match src
    case Text(text) => CodeUnits(text)
    case Raw(bytes) => B.Base64(bytes)
  }

  lemma ShowsText(text: seq<U.Scalar>)
    ensures var m := |U.EncodeAll(text)|; U.Start(text, m) == m && CodeUnits(text[U.Whole(text, 0)..U.Whole(text, m)]) == CodeUnits(text)
  {
    U.StartBounds(text, |U.EncodeAll(text)|);
    AllWhole(text);
    assert U.Whole(text, 0) == 0;
    assert text[0..|text|] == text;
    hide CodeUnits, U.EncodeAll, U.Start, U.Whole;
  }

  lemma ShowsRaw(bytes: Bytes)
    ensures var m := |bytes|; var k := m - m % 3;
            B.Base64(bytes[0..k]) + (if k < m then B.Base64(bytes[k..m]) else []) == B.Base64(bytes)
  {
    var m := |bytes|;
    var k := m - m % 3;
    assert B.Base64([]) == [];
    hide B.Base64;
    Thirds(0, m);
    RawJoins(bytes, 0, k, m);
    assert bytes[0..m] == bytes;
    assert bytes[m..m] == [];
  }

  lemma ShowsAll(src: Source, toString: Bytes -> JsString)
    requires Converts(toString, src)
    ensures var m := |All(src)|;
            Show(src, 0, m) + (if Start(src, m) < m then toString(All(src)[Start(src, m)..m]) else []) == WholeText(src)
  {
    hide CodeUnits, B.Base64, U.EncodeAll, U.Start, U.Whole;
    match src {
      case Text(text) => ShowsText(text);
      case Raw(bytes) => ShowsRaw(bytes);
    }
  }

  lemma {:induction false} AllWhole(text: seq<U.Scalar>)
    ensures U.Whole(text, |U.EncodeAll(text)|) == |text|
  {
    if text != [] {
      AllWhole(text[1..]);
    }
  }

  lemma Starts(encoding: Encoding, toString: Bytes -> JsString, src: Source)
    requires Right(encoding, toString, src)
    ensures Holds(encoding, toString, src, 0, [], 0) && SoFar(src, 0, [])
  {
    hide All, Size, Converts, Show;
    ShowsNothing(src, 0);
    assert All(src)[0..0] == [];
  }

  /** All chunks before k have been fed. */
  ghost predicate Fed(src: Source, n: nat, chunks: seq<Bytes>, k: nat) {
    k <= |chunks| && n <= |All(src)| && All(src)[n..] == Concat(chunks[k..])
  }

  lemma FedNext(src: Source, n: nat, chunks: seq<Bytes>, k: nat)
    requires Fed(src, n, chunks, k) && k < |chunks|
    ensures Feeds(src, n, chunks[k]) && Fed(src, n + |chunks[k]|, chunks, k + 1)
  {
    assert chunks[k..][1..] == chunks[k + 1..];
    var rest := Concat(chunks[k + 1..]);
    assert Concat(chunks[k..]) == chunks[k] + rest;
    hide All, Concat;
    var all := All(src);
    assert all[n..n + |chunks[k]|] == all[n..][..|chunks[k]|];
    assert all[n + |chunks[k]|..] == all[n..][|chunks[k]|..];
  }

  lemma FedAll(src: Source, n: nat, chunks: seq<Bytes>)
    requires Fed(src, n, chunks, |chunks|)
    ensures n == |All(src)| && Feeds(src, n, [])
  {
    hide All;
    assert chunks[|chunks|..] == [];
    assert |All(src)[n..]| == |All(src)| - n;
  }

  /** The text so far. */
  ghost predicate SoFar(src: Source, n: nat, text: JsString) {
    n <= |All(src)| && text == Show(src, 0, n)
  }

  lemma Continues(encoding: Encoding, toString: Bytes -> JsString, src: Source, n: nat, m: nat, a: JsString, b: JsString, held: Bytes, length: nat)
    requires SoFar(src, n, a) && Wrote(encoding, toString, src, n, m, b, held, length)
    ensures SoFar(src, m, a + b) && Holds(encoding, toString, src, m, held, length)
  {
    hide All, Start, Size, Converts, Show;
    ShowJoins(src, 0, n, m);
  }

  lemma Concludes(encoding: Encoding, src: Source, toString: Bytes -> JsString, text: JsString, last: JsString)
    requires Right(encoding, toString, src) && SoFar(src, |All(src)|, text)
    requires Ended(toString, src, |All(src)|, |All(src)|, last)
    ensures text + last == WholeText(src)
  {
    hide All, Start, Converts, Show, WholeText;
    ShowsAll(src, toString);
    ShowsNothing(src, |All(src)|);
  }

  /** However the bytes are cut into chunks, writing them one by one and ending gives the text of the whole. */
  method DecodeChunks(encoding: Encoding, toString: Bytes -> JsString, chunks: seq<Bytes>, ghost src: Source) returns (text: JsString)
    requires Concat(chunks) == All(src) && Right(encoding, toString, src)
    ensures text == WholeText(src)
  {
    hide All, Concat, WholeText, Holds, SoFar;
    var decoder := new StringDecoder(encoding, toString);
    Starts(encoding, toString, src);
    assert chunks[0..] == chunks && All(src)[0..] == All(src);
    assert decoder.charBuffer[..0] == [];
    text := decoder.WriteAll(chunks, src);
  }
}
