/** Percent escaping of lib/querystring.js: `escape` and the byte machine of `unescapeBuffer`. */
module Querystring {
  import opened Bytes
  import opened Ucs2
  import U = Utf8

  const PERCENT: CodeUnit := 0x25
  const PLUS: CodeUnit := 0x2B
  const SPACE: CodeUnit := 0x20

  // ---- unescaping ----

  predicate IsHex(c: int) {
    0x30 <= c <= 0x39 || 0x61 <= c <= 0x66 || 0x41 <= c <= 0x46
  }

  function HexValue(c: int): (v: nat)
    requires IsHex(c)
    ensures v < 16
  {
    if c <= 0x39 then c - 0x30 else if c >= 0x61 then c - 0x61 + 10 else c - 0x41 + 10
  }

  /** A store into a buffer keeps the low byte. */
  function Low(c: CodeUnit): byte {
    c % 256
  }

  function Spaced(c: CodeUnit, decodeSpaces: bool): CodeUnit {
    if c == PLUS && decodeSpaces then SPACE else c
  }

  /** Percent decoding with lookahead (section 2.1 of RFC 3986); what is not an escape stands for itself. */
  function Unescaped(s: JsString, decodeSpaces: bool): Bytes {
    if s == [] then []
    else if s[0] != PERCENT then [Low(Spaced(s[0], decodeSpaces))] + Unescaped(s[1..], decodeSpaces)
    else if |s| == 1 then [PERCENT]
    else if !IsHex(s[1]) then [PERCENT, Low(s[1])] + Unescaped(s[2..], decodeSpaces)
    else if |s| == 2 then [PERCENT, Low(s[1])]
    else if !IsHex(s[2]) then [PERCENT, Low(s[1]), Low(s[2])] + Unescaped(s[3..], decodeSpaces)
    else [16 * HexValue(s[1]) + HexValue(s[2])] + Unescaped(s[3..], decodeSpaces)
  }

  lemma UnescapedAt(s: JsString, i: nat, decodeSpaces: bool)
    requires i <= |s|
    ensures i == |s| ==> Unescaped(s[i..], decodeSpaces) == []
    ensures i < |s| && s[i] != PERCENT ==>
              Unescaped(s[i..], decodeSpaces) == [Low(Spaced(s[i], decodeSpaces))] + Unescaped(s[i + 1..], decodeSpaces)
    ensures i + 1 == |s| && s[i] == PERCENT ==> Unescaped(s[i..], decodeSpaces) == [PERCENT]
    ensures i + 1 < |s| && s[i] == PERCENT && !IsHex(s[i + 1]) ==>
              Unescaped(s[i..], decodeSpaces) == [PERCENT, Low(s[i + 1])] + Unescaped(s[i + 2..], decodeSpaces)
    ensures i + 2 == |s| && s[i] == PERCENT && IsHex(s[i + 1]) ==> Unescaped(s[i..], decodeSpaces) == [PERCENT, Low(s[i + 1])]
    ensures i + 2 < |s| && s[i] == PERCENT && IsHex(s[i + 1]) && !IsHex(s[i + 2]) ==>
              Unescaped(s[i..], decodeSpaces) == [PERCENT, Low(s[i + 1]), Low(s[i + 2])] + Unescaped(s[i + 3..], decodeSpaces)
    ensures i + 2 < |s| && s[i] == PERCENT && IsHex(s[i + 1]) && IsHex(s[i + 2]) ==>
              Unescaped(s[i..], decodeSpaces) == [16 * HexValue(s[i + 1]) + HexValue(s[i + 2])] + Unescaped(s[i + 3..], decodeSpaces)
  {
    assert i < |s| ==> s[i..][1..] == s[i + 1..];
    assert i + 1 < |s| ==> s[i..][2..] == s[i + 2..];
    assert i + 2 < |s| ==> s[i..][3..] == s[i + 3..];
  }

  datatype Mode = CHAR | HEX0 | HEX1

  /** How far back the input not accounted for in the output starts. */
  function Behind(state: Mode): nat {
    match state
    case CHAR => 0
    case HEX0 => 1
    case HEX1 => 2
  }

  /** The output so far, and what the machine remembers of the input it is behind with. */
  ghost predicate Reading(s: JsString, decodeSpaces: bool, i: nat, state: Mode, n: nat, hexchar: int, done: Bytes) {
    && Behind(state) <= i <= |s| && |done| <= i - Behind(state)
    && done + Unescaped(s[i - Behind(state)..], decodeSpaces) == Unescaped(s, decodeSpaces)
    && (state.HEX0? ==> s[i - 1] == PERCENT)
    && (state.HEX1? ==> s[i - 2] == PERCENT && hexchar == s[i - 1] && IsHex(hexchar) && n == HexValue(hexchar))
  }

  /** `charCodeAt` with -1 for NaN, which is neither a character nor a digit, and is stored as 0. */
  function CharCodeAt(s: JsString, i: nat): int {
    if i < |s| then s[i] else -1
  }

  function Stored(c: int): byte {
    if c < 0 then 0 else c % 256
  }

  /** What one round of the machine writes, and the state it goes to. */
  function Round(state: Mode, n: nat, hexchar: int, c: int, decodeSpaces: bool): (Bytes, Mode) {
    match state
    case CHAR =>
      if c == PERCENT then ([], HEX0)
      else ([Stored(if c == PLUS && decodeSpaces then SPACE else c)], CHAR)
    case HEX0 =>
      if IsHex(c) then ([], HEX1) else ([PERCENT, Stored(c)], CHAR)
    case HEX1 =>
      if !IsHex(c) then ([PERCENT, Stored(hexchar), Stored(c)], CHAR)
      else ([Stored(16 * n + HexValue(c))], CHAR)
  }

  lemma Regroup(x: Bytes, y: Bytes, z: Bytes)
    ensures x + (y + z) == (x + y) + z
  {
  }

  /** What a round writes, followed by the decoding of what it leaves, is the decoding of what it had. */
  lemma RoundDecodes(s: JsString, decodeSpaces: bool, i: nat, state: Mode, n: nat, hexchar: int)
    requires Behind(state) <= i < |s|
    requires state.HEX0? ==> s[i - 1] == PERCENT
    requires state.HEX1? ==> s[i - 2] == PERCENT && hexchar == s[i - 1] && IsHex(hexchar) && n == HexValue(hexchar)
    ensures var (piece, state') := Round(state, n, hexchar, s[i], decodeSpaces);
            && (state'.CHAR? ==> Unescaped(s[i - Behind(state)..], decodeSpaces) == piece + Unescaped(s[i + 1..], decodeSpaces))
            && (state'.CHAR? ==> |piece| <= Behind(state) + 1)
            && (!state'.CHAR? ==> piece == [] && Behind(state') == Behind(state) + 1)
  {
    UnescapedAt(s, i - Behind(state), decodeSpaces);
    hide Unescaped, IsHex, HexValue;
  }

  /** A round inside the input. */
  lemma RoundReads(s: JsString, decodeSpaces: bool, i: nat, state: Mode, n: nat, hexchar: int, done: Bytes, n': nat, hexchar': int)
    requires Reading(s, decodeSpaces, i, state, n, hexchar, done) && i < |s|
    requires state.HEX0? && IsHex(s[i]) ==> hexchar' == s[i] && n' == HexValue(s[i])
    ensures var (piece, state') := Round(state, n, hexchar, s[i], decodeSpaces);
            Reading(s, decodeSpaces, i + 1, state', n', hexchar', done + piece)
  {
    RoundDecodes(s, decodeSpaces, i, state, n, hexchar);
    hide Unescaped, HexValue, Stored;
    var (piece, state') := Round(state, n, hexchar, s[i], decodeSpaces);
    Regroup(done, piece, Unescaped(s[i + 1..], decodeSpaces));
    assert done + [] == done;
  }

  /** The extra round past the end: everything but its last byte is the answer. */
  lemma RoundEnds(s: JsString, decodeSpaces: bool, state: Mode, n: nat, hexchar: int, done: Bytes)
    requires Reading(s, decodeSpaces, |s|, state, n, hexchar, done)
    ensures var (piece, state') := Round(state, n, hexchar, -1, decodeSpaces);
            state'.CHAR? && piece != [] && |done + piece| - 1 <= |s| && (done + piece)[..|done + piece| - 1] == Unescaped(s, decodeSpaces)
  {
    var p := |s| - Behind(state);
    UnescapedAt(s, p, decodeSpaces);
    hide Unescaped;
    var (piece, state') := Round(state, n, hexchar, -1, decodeSpaces);
    assert piece[..|piece| - 1] == Unescaped(s[p..], decodeSpaces);
    assert (done + piece)[..|done + piece| - 1] == done + piece[..|piece| - 1];
  }

  /** The buffer holds the beginning of what was stored. */
  ghost predicate Filled(out: seq<byte>, done: Bytes) {
    forall k :: 0 <= k < |done| && k < |out| ==> out[k] == done[k]
  }

  lemma FilledTo(out: seq<byte>, done: Bytes, k: nat)
    requires Filled(out, done) && k <= |out| && k <= |done|
    ensures out[..k] == done[..k]
  {
  }

  /** A store behind what is filled; past the end of the buffer it is ignored. */
  method Store(out: array<byte>, value: byte, ghost done: Bytes, index: nat)
    requires Filled(out[..], done) && index == |done|
    modifies out
    ensures Filled(out[..], done + [value])
  {
    if index < out.Length {
      out[index] := value;
    }
  }

  /** One round of the machine. */
  method Turn(out: array<byte>, state: Mode, n: nat, hexchar: int, c: int, decodeSpaces: bool, index: nat, ghost done: Bytes)
    returns (state': Mode, n': nat, hexchar': int, index': nat)
    requires Filled(out[..], done) && index == |done|
    modifies out
    ensures var (piece, next) := Round(state, n, hexchar, c, decodeSpaces);
            Filled(out[..], done + piece) && index' == |done| + |piece| && state' == next
    ensures state.HEX0? && IsHex(c) ==> hexchar' == c && n' == HexValue(c)
  {
    state', n', hexchar', index' := state, n, hexchar, index;
    assert done + [] == done;
    match state {
      case CHAR =>
        if c == PERCENT {
          n', state' := 0, HEX0;
        } else {
          var c' := if c == PLUS && decodeSpaces then SPACE else c;
          Store(out, Stored(c'), done, index);
          index' := index + 1;
        }
      case HEX0 =>
        state', hexchar' := HEX1, c;
        if IsHex(c) {
          n' := HexValue(c);
        } else {
          Store(out, PERCENT, done, index);
          Store(out, Stored(c), done + [PERCENT], index + 1);
          assert done + [PERCENT] + [Stored(c)] == done + [PERCENT, Stored(c)];
          state', index' := CHAR, index + 2;
        }
      case HEX1 =>
        state' := CHAR;
        if IsHex(c) {
          Store(out, Stored(16 * n + HexValue(c)), done, index);
          index' := index + 1;
        } else {
          Store(out, PERCENT, done, index);
          Store(out, Stored(hexchar), done + [PERCENT], index + 1);
          Store(out, Stored(c), done + [PERCENT] + [Stored(hexchar)], index + 2);
          assert done + [PERCENT] + [Stored(hexchar)] + [Stored(c)] == done + [PERCENT, Stored(hexchar), Stored(c)];
          index' := index + 3;
        }
    }
  }

  /** The machine, run one round past the end of its input, decodes. */
  method UnescapeBuffer(s: JsString, decodeSpaces: bool) returns (r: Bytes)
    ensures r == Unescaped(s, decodeSpaces)
  {
    var out := new byte[|s|];
    var state, n: nat, hexchar: int := CHAR, 0, 0;
    var inIndex: nat, outIndex: nat := 0, 0;
    ghost var done: Bytes := [];
    assert s[0..] == s;
    assert Reading(s, decodeSpaces, 0, state, n, hexchar, done) && Filled(out[..], done);
    hide Reading, Unescaped, Round, Filled;
    while inIndex <= |s|
      invariant inIndex <= |s| + 1 && outIndex == |done| && Filled(out[..], done) && fresh(out) && out.Length == |s|
      invariant inIndex <= |s| ==> Reading(s, decodeSpaces, inIndex, state, n, hexchar, done)
      invariant inIndex == |s| + 1 ==> 1 <= |done| <= |s| + 1 && done[..|done| - 1] == Unescaped(s, decodeSpaces)
    {
      var c := CharCodeAt(s, inIndex);
      ghost var (piece, _) := Round(state, n, hexchar, c, decodeSpaces);
      var state', n', hexchar', outIndex' := Turn(out, state, n, hexchar, c, decodeSpaces, outIndex, done);
      if inIndex < |s| {
        RoundReads(s, decodeSpaces, inIndex, state, n, hexchar, done, n', hexchar');
      } else {
        RoundEnds(s, decodeSpaces, state, n, hexchar, done);
      }
      state, n, hexchar, outIndex := state', n', hexchar', outIndex';
      done := done + piece;
      inIndex := inIndex + 1;
    }
    r := out[..outIndex - 1];
    FilledTo(out[..], done, outIndex - 1);
  }

  // ---- escaping ----

  predicate Unreserved(c: int) {
    || c == 0x21 || c == 0x2D || c == 0x2E || c == 0x5F || c == 0x7E
    || 0x27 <= c <= 0x2A || 0x30 <= c <= 0x39 || 0x41 <= c <= 0x5A || 0x61 <= c <= 0x7A
  }

  function UpperHex(v: nat): (c: CodeUnit)
    requires v < 16
    ensures IsHex(c) && HexValue(c) == v
  {
    if v < 10 then 0x30 + v else 0x41 + v - 10
  }

  /** An entry of `hexTable`. */
  function HexTable(b: byte): JsString {
    [PERCENT, UpperHex(b / 16), UpperHex(b % 16)]
  }

  function Percents(bytes: Bytes): JsString {
    if bytes == [] then [] else HexTable(bytes[0]) + Percents(bytes[1..])
  }

  function EscapeScalar(c: U.Scalar): JsString {
    if Unreserved(c) then [c] else Percents(U.Encode(c))
  }

  function EscapeAll(text: seq<U.Scalar>): JsString {
    if text == [] then [] else EscapeScalar(text[0]) + EscapeAll(text[1..])
  }

  /** What `escape` takes as the next character: any surrogate is paired with whatever follows, or with nothing. */
  function NextScalar(s: JsString): U.Scalar
    requires s != []
  {
    if s[0] < 0xD800 || s[0] >= 0xE000 then s[0] else Pair(s[0], if |s| > 1 then s[1] else 0)
  }

  function Taken(s: JsString): (k: nat)
    requires s != []
    ensures 1 <= k <= |s|
  {
    if s[0] < 0xD800 || s[0] >= 0xE000 || |s| == 1 then 1 else 2
  }

  function Scalars(s: JsString): seq<U.Scalar> {
    if s == [] then [] else [NextScalar(s)] + Scalars(s[Taken(s)..])
  }

  /** `escape`. The bit operations of the source are written as the arithmetic they are on these ranges. */
  method Escape(s: JsString) returns (out: JsString)
    ensures out == EscapeAll(Scalars(s))
  {
    if |s| == 0 {
      return s;
    }
    out := [];
    var i: nat := 0;
    hide Remaining, EscapeScalar, NextScalar, Taken;
    while i < |s|
      invariant i <= |s| && out + Remaining(s, i) == Remaining(s, 0)
      decreases |s| - i
    {
      var piece, used := EscapeNext(s, i);
      RemainingStep(s, i, out);
      out := out + piece;
      i := i + used;
    }
    RemainingEnds(s);
  }

  /** What is left to write at i. */
  function Remaining(s: JsString, i: nat): JsString
    requires i <= |s|
  {
    EscapeAll(Scalars(s[i..]))
  }

  lemma RemainingEnds(s: JsString)
    ensures Remaining(s, |s|) == [] && Remaining(s, 0) == EscapeAll(Scalars(s))
  {
    assert s[0..] == s;
  }

  lemma RemainingStep(s: JsString, i: nat, out: JsString)
    requires i < |s|
    ensures 1 <= Taken(s[i..]) && i + Taken(s[i..]) <= |s|
    ensures out + Remaining(s, i) == (out + EscapeScalar(NextScalar(s[i..]))) + Remaining(s, i + Taken(s[i..]))
  {
    var t := s[i..];
    assert t[Taken(t)..] == s[i + Taken(t)..];
    assert Scalars(t)[1..] == Scalars(t[Taken(t)..]);
    hide EscapeScalar, NextScalar, Taken;
  }

  /** The body of the loop of `escape`: the text of the character at i, and how many units it took. */
  method EscapeNext(s: JsString, i: nat) returns (piece: JsString, used: nat)
    requires i < |s|
    ensures piece == EscapeScalar(NextScalar(s[i..])) && used == Taken(s[i..])
  {
    hide HexTable, EscapeScalar;
    var c: int := s[i];
    if Unreserved(c) {
      EscapeShort(c);
      return [c], 1;
    }
    if c < 0x80 {
      EscapeShort(c);
      return HexTable(c), 1;
    }
    if c < 0x800 {
      EscapeTwo(c);
      return HexTable(0xC0 + c / 64) + HexTable(0x80 + c % 64), 1;
    }
    if c < 0xD800 || c >= 0xE000 {
      EscapeThree(c);
      return HexTable(0xE0 + c / 4096) + HexTable(0x80 + c / 64 % 64) + HexTable(0x80 + c % 64), 1;
    }
    used := if i + 1 < |s| then 2 else 1;
    c := 0x10000 + (c % 0x400 * 0x400 + (if i + 1 < |s| then s[i + 1] % 0x400 else 0));
    EscapeFour(c);
    piece := HexTable(0xF0 + c / 262144) + HexTable(0x80 + c / 4096 % 64) + HexTable(0x80 + c / 64 % 64) + HexTable(0x80 + c % 64);
  }

  lemma PercentsCons(b: Bytes)
    requires b != []
    ensures Percents(b) == HexTable(b[0]) + Percents(b[1..])
  {
  }

  lemma Percents2(a: byte, b: byte)
    ensures Percents([a, b]) == HexTable(a) + HexTable(b)
  {
    assert [a, b][1..] == [b] && [b][1..] == [];
    PercentsCons([a, b]);
    PercentsCons([b]);
    hide HexTable;
  }

  lemma Percents3(a: byte, b: byte, c: byte)
    ensures Percents([a, b, c]) == HexTable(a) + HexTable(b) + HexTable(c)
  {
    assert [a, b, c][1..] == [b, c];
    PercentsCons([a, b, c]);
    Percents2(b, c);
    hide HexTable, Percents;
  }

  lemma Percents4(a: byte, b: byte, c: byte, d: byte)
    ensures Percents([a, b, c, d]) == HexTable(a) + HexTable(b) + HexTable(c) + HexTable(d)
  {
    assert [a, b, c, d][1..] == [b, c, d];
    PercentsCons([a, b, c, d]);
    Percents3(b, c, d);
    hide HexTable, Percents;
  }

  lemma EscapeShort(c: U.Scalar)
    ensures Unreserved(c) ==> EscapeScalar(c) == [c]
    ensures c < 0x80 && !Unreserved(c) ==> EscapeScalar(c) == HexTable(c)
  {
    if c < 0x80 {
      PercentsCons([c]);
    }
    hide HexTable;
  }

  lemma EscapeTwo(c: U.Scalar)
    requires 0x80 <= c < 0x800
    ensures EscapeScalar(c) == HexTable(0xC0 + c / 64) + HexTable(0x80 + c % 64)
  {
    Percents2(0xC0 + c / 64, 0x80 + c % 64);
    hide HexTable, Percents;
  }

  lemma EscapeThree(c: U.Scalar)
    requires 0x800 <= c < 0x10000
    ensures EscapeScalar(c) == HexTable(0xE0 + c / 4096) + HexTable(0x80 + c / 64 % 64) + HexTable(0x80 + c % 64)
  {
    Percents3(0xE0 + c / 4096, 0x80 + c / 64 % 64, 0x80 + c % 64);
    hide HexTable, Percents;
  }

  lemma EscapeFour(c: U.Scalar)
    requires 0x10000 <= c
    ensures EscapeScalar(c) == HexTable(0xF0 + c / 262144) + HexTable(0x80 + c / 4096 % 64) + HexTable(0x80 + c / 64 % 64) + HexTable(0x80 + c % 64)
  {
    Percents4(0xF0 + c / 262144, 0x80 + c / 4096 % 64, 0x80 + c / 64 % 64, 0x80 + c % 64);
    hide HexTable, Percents;
  }

  // ---- unescaping what was escaped ----

  lemma UnescapePlain(c: CodeUnit, rest: JsString, decodeSpaces: bool)
    requires Unreserved(c)
    ensures Unescaped([c] + rest, decodeSpaces) == [c] + Unescaped(rest, decodeSpaces)
  {
    assert ([c] + rest)[1..] == rest;
  }

  lemma UnescapeHex(b: byte, rest: JsString, decodeSpaces: bool)
    ensures Unescaped(HexTable(b) + rest, decodeSpaces) == [b] + Unescaped(rest, decodeSpaces)
  {
    var s := HexTable(b) + rest;
    assert s[3..] == rest;
    assert 16 * (b / 16) + b % 16 == b;
  }

  lemma {:induction false} UnescapePercents(bytes: Bytes, rest: JsString, decodeSpaces: bool)
    ensures Unescaped(Percents(bytes) + rest, decodeSpaces) == bytes + Unescaped(rest, decodeSpaces)
  {
    if bytes == [] {
      assert Percents(bytes) + rest == rest;
    } else {
      assert Percents(bytes) + rest == HexTable(bytes[0]) + (Percents(bytes[1..]) + rest);
      UnescapeHex(bytes[0], Percents(bytes[1..]) + rest, decodeSpaces);
      UnescapePercents(bytes[1..], rest, decodeSpaces);
      hide Unescaped, HexTable;
    }
  }

  lemma UnescapeScalar(c: U.Scalar, rest: JsString, decodeSpaces: bool)
    ensures Unescaped(EscapeScalar(c) + rest, decodeSpaces) == U.Encode(c) + Unescaped(rest, decodeSpaces)
  {
    if Unreserved(c) {
      UnescapePlain(c, rest, decodeSpaces);
    } else {
      UnescapePercents(U.Encode(c), rest, decodeSpaces);
    }
    hide Unescaped, Percents;
  }

  /** What was escaped comes back as the UTF-8 bytes of its characters, with spaces decoded or not. */
  lemma {:induction false} UnescapeEscape(text: seq<U.Scalar>, decodeSpaces: bool)
    ensures Unescaped(EscapeAll(text), decodeSpaces) == U.EncodeAll(text)
  {
    if text != [] {
      hide Unescaped, EscapeScalar, U.Encode;
      UnescapeScalar(text[0], EscapeAll(text[1..]), decodeSpaces);
      UnescapeEscape(text[1..], decodeSpaces);
    }
  }

  // ---- what is escaped, and what is not ----

  /** Letters, digits and ! - . _ ~ ' ( ) *. */
  predicate Plain(c: int) {
    || 'a' as int <= c <= 'z' as int || 'A' as int <= c <= 'Z' as int || '0' as int <= c <= '9' as int
    || c == '!' as int || c == '-' as int || c == '.' as int || c == '_' as int || c == '~' as int
    || c == '\'' as int || c == '(' as int || c == ')' as int || c == '*' as int
  }

  predicate UpperDigit(c: int) {
    '0' as int <= c <= '9' as int || 'A' as int <= c <= 'F' as int
  }

  lemma {:induction false} PercentsAt(b: Bytes, k: nat)
    requires k < |b|
    ensures |Percents(b)| == 3 * |b| && Percents(b)[3 * k] == PERCENT
    ensures var x, y := Percents(b)[3 * k + 1], Percents(b)[3 * k + 2];
            UpperDigit(x) && UpperDigit(y) && 16 * HexValue(x) + HexValue(y) == b[k]
  {
    hide HexTable, HexValue;
    PercentsCons(b);
    HexTableIs(b[0]);
    if k > 0 {
      PercentsAt(b[1..], k - 1);
    } else if |b| > 1 {
      PercentsAt(b[1..], 0);
    } else {
      assert b[1..] == [];
    }
  }

  lemma HexTableIs(b: byte)
    ensures var h := HexTable(b);
            |h| == 3 && h[0] == PERCENT && UpperDigit(h[1]) && UpperDigit(h[2]) && 16 * HexValue(h[1]) + HexValue(h[2]) == b
  {
  }

  /** A plain character is written as itself, and any other as the bytes of its UTF-8, each in two upper-case digits behind
      a percent sign. */
  lemma EscapedScalar(c: U.Scalar, k: nat)
    ensures EscapeScalar(c) == [c] <==> Plain(c)
    ensures !Plain(c) ==> |EscapeScalar(c)| == 3 * |U.Encode(c)|
    ensures !Plain(c) && k < |U.Encode(c)| ==>
              && EscapeScalar(c)[3 * k] == '%' as int
              && UpperDigit(EscapeScalar(c)[3 * k + 1]) && UpperDigit(EscapeScalar(c)[3 * k + 2])
              && 16 * HexValue(EscapeScalar(c)[3 * k + 1]) + HexValue(EscapeScalar(c)[3 * k + 2]) == U.Encode(c)[k]
  {
    if !Plain(c) {
      PercentsAt(U.Encode(c), 0);
      if k < |U.Encode(c)| {
        PercentsAt(U.Encode(c), k);
      }
    }
    hide Percents, U.Encode, HexValue;
  }

  /** A percent sign with its two digits. */
  predicate Triple(s: JsString, k: nat) {
    k + 2 < |s| && s[k] == PERCENT && UpperDigit(s[k + 1]) && UpperDigit(s[k + 2])
  }

  predicate Escaped(s: JsString) {
    forall k :: 0 <= k < |s| ==> Plain(s[k]) || Triple(s, k)
  }

  lemma EscapedConcat(a: JsString, b: JsString)
    requires Escaped(a) && Escaped(b)
    ensures Escaped(a + b)
  {
    forall k | 0 <= k < |a + b|
      ensures Plain((a + b)[k]) || Triple(a + b, k)
    {
      assert k < |a| ==> Plain(a[k]) || Triple(a, k);
      assert k >= |a| ==> Plain(b[k - |a|]) || Triple(b, k - |a|);
    }
  }

  lemma {:induction false} PercentsEscaped(b: Bytes)
    ensures Escaped(Percents(b))
  {
    if b != [] {
      HexTableIs(b[0]);
      PercentsCons(b);
      PercentsEscaped(b[1..]);
      hide HexTable, Percents;
      EscapedConcat(HexTable(b[0]), Percents(b[1..]));
    }
  }

  /** Everything that `escape` writes is a plain character or a percent sign with two upper-case digits behind it. */
  lemma {:induction false} EscapesAll(text: seq<U.Scalar>)
    ensures Escaped(EscapeAll(text))
  {
    if text != [] {
      EscapesAll(text[1..]);
      if !Unreserved(text[0]) {
        PercentsEscaped(U.Encode(text[0]));
      }
      hide Percents, U.Encode, EscapeAll;
      EscapedConcat(EscapeScalar(text[0]), EscapeAll(text[1..]));
    }
  }

  /** "a&b=c" is escaped as a%26b%3Dc. */
  lemma EscapesFields(text: seq<U.Scalar>)
    requires text == [0x61, 0x26, 0x62, 0x3D, 0x63]
    ensures EscapeAll(text) == [0x61, 0x25, 0x32, 0x36, 0x62, 0x25, 0x33, 0x44, 0x63]
  {
    EscapeShort(0x61);
    EscapeShort(0x26);
    EscapeShort(0x62);
    EscapeShort(0x3D);
    EscapeShort(0x63);
    hide EscapeScalar;
    assert EscapeAll(text[4..]) == [0x63] + EscapeAll([]);
    assert EscapeAll(text[3..]) == [0x25, 0x33, 0x44] + EscapeAll(text[4..]);
    assert EscapeAll(text[2..]) == [0x62] + EscapeAll(text[3..]);
    assert EscapeAll(text[1..]) == [0x25, 0x32, 0x36] + EscapeAll(text[2..]);
  }

  // ---- forms, and what is no escape ----

  /** A text as a form sends it, with a plus sign for every space. */
  function FormText(text: seq<U.Scalar>): JsString {
    if text == [] then [] else (if text[0] == 0x20 then [PLUS] else EscapeScalar(text[0])) + FormText(text[1..])
  }

  /** Every space replaced by a plus sign. */
  function Plussed(text: seq<U.Scalar>): seq<U.Scalar> {
    if text == [] then [] else [if text[0] == 0x20 then 0x2B else text[0]] + Plussed(text[1..])
  }

  lemma UnescapePlus(rest: JsString, decodeSpaces: bool)
    ensures Unescaped([PLUS] + rest, decodeSpaces) == [if decodeSpaces then 0x20 else 0x2B] + Unescaped(rest, decodeSpaces)
  {
    assert ([PLUS] + rest)[1..] == rest;
  }

  /** Plus signs are spaces exactly when spaces are decoded. */
  lemma {:induction false} UnescapeForm(text: seq<U.Scalar>, decodeSpaces: bool)
    ensures Unescaped(FormText(text), decodeSpaces) == U.EncodeAll(if decodeSpaces then text else Plussed(text))
  {
    if text != [] {
      UnescapeForm(text[1..], decodeSpaces);
      UnescapePlus(FormText(text[1..]), decodeSpaces);
      UnescapeScalar(text[0], FormText(text[1..]), decodeSpaces);
      assert U.Encode(0x20) == [0x20] && U.Encode(0x2B) == [0x2B];
      hide Unescaped, EscapeScalar, U.Encode;
      assert Plussed(text)[1..] == Plussed(text[1..]);
    }
  }

  /** The units as bytes. */
  function Lows(s: JsString): (r: Bytes)
    ensures |r| == |s| && forall k :: 0 <= k < |s| ==> r[k] == s[k] % 256
  {
    seq(|s|, k requires 0 <= k < |s| => Low(s[k]))
  }

  predicate NoEscape(s: JsString) {
    forall k :: 0 <= k < |s| - 2 && s[k] == PERCENT ==> !IsHex(s[k + 1]) || !IsHex(s[k + 2])
  }

  lemma LowsSplit(s: JsString, n: nat)
    requires n <= |s|
    ensures Lows(s) == Lows(s[..n]) + Lows(s[n..])
  {
  }

  /** How much of a text without escapes is read at once. */
  function ReadAtOnce(s: JsString): (n: nat)
    requires s != []
    ensures 1 <= n <= |s|
  {
    if s[0] != PERCENT || |s| == 1 then 1 else if !IsHex(s[1]) || |s| == 2 then 2 else 3
  }

  lemma UnescapeOnce(s: JsString, decodeSpaces: bool)
    requires s != [] && NoEscape(s) && (decodeSpaces ==> PLUS !in s)
    ensures Unescaped(s, decodeSpaces) == Lows(s[..ReadAtOnce(s)]) + Unescaped(s[ReadAtOnce(s)..], decodeSpaces)
  {
    assert s[0..] == s && Unescaped([], decodeSpaces) == [];
    UnescapedAt(s, 0, decodeSpaces);
    hide Unescaped, IsHex;
    assert s[0] in s;
  }

  /** What is no escape stands for itself. */
  lemma {:induction false} UnescapeNothing(s: JsString, decodeSpaces: bool)
    requires NoEscape(s) && (decodeSpaces ==> PLUS !in s)
    ensures Unescaped(s, decodeSpaces) == Lows(s)
    decreases |s|
  {
    if s != [] {
      var n := ReadAtOnce(s);
      var rest := s[n..];
      UnescapeOnce(s, decodeSpaces);
      hide Unescaped, IsHex, ReadAtOnce;
      assert forall k :: 0 <= k < |rest| ==> rest[k] == s[k + n];
      UnescapeNothing(rest, decodeSpaces);
      LowsSplit(s, n);
    }
  }

  /** No unpaired surrogates. */
  predicate WellFormed(s: JsString) {
    forall k :: 0 <= k < |CodePoints(s)| ==> !(0xD800 <= CodePoints(s)[k] <= 0xDFFF)
  }

  /** `escape` sees the code points of exactly the well-formed strings. */
  lemma {:induction false} ScalarsAreCodePoints(s: JsString)
    ensures Scalars(s) == CodePoints(s) <==> WellFormed(s)
  {
    if s != [] {
      var k := if IsHigh(s[0]) && |s| > 1 && IsLow(s[1]) then 2 else 1;
      var cs, rest := CodePoints(s), CodePoints(s[k..]);
      assert cs == [cs[0]] + rest;
      if 0xD800 <= cs[0] <= 0xDFFF {
        assert Scalars(s)[0] == NextScalar(s);
      } else {
        assert NextScalar(s) == cs[0] && Taken(s) == k;
        ScalarsAreCodePoints(s[k..]);
        assert WellFormed(s) <==> WellFormed(s[k..]) by {
          assert forall j :: 0 <= j < |rest| ==> rest[j] == cs[j + 1];
          assert forall j :: 1 <= j < |cs| ==> cs[j] == rest[j - 1];
        }
        assert Scalars(s) == [NextScalar(s)] + Scalars(s[k..]);
        assert Scalars(s)[1..] == Scalars(s[k..]) && cs[1..] == rest;
      }
    }
  }

  /** `unescapeBuffer(escape(s))`. */
  method RoundTrip(s: JsString, decodeSpaces: bool) returns (r: Bytes)
    ensures r == U.EncodeAll(Scalars(s))
    ensures WellFormed(s) <==> Scalars(s) == CodePoints(s)
  {
    hide Unescaped, EscapeAll, Scalars, CodePoints, U.EncodeAll;
    var out := Escape(s);
    r := UnescapeBuffer(out, decodeSpaces);
    UnescapeEscape(Scalars(s), decodeSpaces);
    ScalarsAreCodePoints(s);
  }
}
