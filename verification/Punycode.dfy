/** `encode` and `decode` of lib/punycode.js: the reference encoder and decoder, the proof that
    one inverts the other, and the two loops of the source proved to compute them. */
module Punycode {
  import opened Ucs2
  import opened Bootstring

  // ---- decoder ----

  /** `array.splice(p, 0, v)`. */
  function Splice(output: seq<int>, p: int, v: int): seq<int> {
    var at := if p < 0 then if |output| + p < 0 then 0 else |output| + p else if p > |output| then |output| else p;
    output[..at] + [v] + output[at..]
  }

  /** The remainder with the sign of the dividend. */
  function Rem(a: int, b: int): int
    requires b > 0
  {
    if a >= 0 then a % b else -((-a) % b)
  }

  /** The decoder's main loop in state <n, i> with the digits still to be read. */
  function DecodeFrom(input: JsString, i: int, n: int, bias: int, output: seq<int>): Result<seq<int>>
    decreases |input|
  {
    if input == [] then Ok(output)
    else match ReadVarint(input, i, 1, BASE, bias)
      case Err(e) => Err(e)
      case Ok((i', rest)) =>
        var out := |output| + 1;
        if i' / out > MAX_INT - n then Err(Overflow)
        else
          var n' := n + i' / out;
          var p := Rem(i', out);
          DecodeFrom(rest, p + 1, n', Adapted(i' - i, out, i == 0), Splice(output, p, n'))
  }

  function LastIndexOf(s: JsString, u: CodeUnit): (i: int)
    ensures -1 <= i < |s|
    ensures i >= 0 ==> s[i] == u
    ensures forall j :: i < j < |s| ==> s[j] != u
  {
    if s == [] then -1 else if s[|s| - 1] == u then |s| - 1 else LastIndexOf(s[..|s| - 1], u)
  }

  predicate AllBasic(s: JsString) {
    forall u :: u in s ==> u < 0x80
  }

  function DecodeCodePoints(input: JsString): Result<seq<int>> {
    var last := LastIndexOf(input, DELIMITER);
    var basic := if last < 0 then 0 else last;
    if !AllBasic(input[..basic]) then Err(NotBasic)
    else DecodeFrom(input[if basic > 0 then basic + 1 else 0..], 0, INITIAL_N, INITIAL_BIAS, input[..basic])
  }

  function DecodeString(input: JsString): Result<JsString> {
    match DecodeCodePoints(input)
    case Err(e) => Err(e)
    case Ok(cs) => Ok(CodeUnits(cs))
  }

  // ---- encoder ----

  /** The elements of s below b, in order. */
  function Below(s: seq<CodePoint>, b: int): (r: seq<CodePoint>)
    ensures |r| <= |s|
    ensures forall i :: 0 <= i < |r| ==> r[i] < b
  {
    if s == [] then [] else (if s[0] < b then [s[0]] else []) + Below(s[1..], b)
  }

  /** What the decoder has rebuilt when the encoder stands at value n and index j: everything
      below n, and the n's before j. */
  function Handled(input: seq<CodePoint>, n: int, j: nat): (r: seq<CodePoint>)
    requires j <= |input|
    ensures |r| <= |input|
  {
    Below(input[..j], n + 1) + Below(input[j..], n)
  }

  /** How far the decoder must be advanced from <nd, id> to reach the next insertion at <n, j>. */
  function Delta(input: seq<CodePoint>, n: int, j: nat, nd: int, id: int): int
    requires j <= |input|
  {
    (n - nd) * (|Handled(input, n, j)| + 1) + |Below(input[..j], n + 1)| - id
  }

  /** Reference encoder: visits every value in turn and every index under it, and writes the
      distance the decoder has to travel; nd and id are the decoder's n and i. */
  function EncodeFrom(input: seq<CodePoint>, n: int, j: nat, nd: int, id: int, bias: int): (r: Result<JsString>)
    requires j <= |input|
    ensures r.Ok? ==> DELIMITER !in r.value
    decreases 0x110000 - n, |input| - j
  {
    if j < |input| then
      if input[j] != n then EncodeFrom(input, n, j + 1, nd, id, bias)
      else
        var h := |Handled(input, n, j)|;
        var delta := Delta(input, n, j, nd, id);
        if delta > MAX_INT || delta < 0 then Err(Overflow)
        else
          var bias' := Adapted(delta, h + 1, h == |Below(input, INITIAL_N)|);
          match EncodeFrom(input, n, j + 1, n, |Below(input[..j], n + 1)| + 1, bias')
          case Err(e) => Err(e)
          case Ok(rest) => Ok(Varint(delta, BASE, bias) + rest)
    else if n >= 0x10FFFF then Ok([])
    else EncodeFrom(input, n + 1, 0, nd, id, bias)
  }

  /** The basic code points, closed by a delimiter unless there are none. */
  function Basics(input: seq<CodePoint>): JsString {
    var basic := Below(input, INITIAL_N);
    if basic == [] then [] else basic + [DELIMITER]
  }

  function EncodeCodePoints(input: seq<CodePoint>): Result<JsString> {
    match EncodeFrom(input, INITIAL_N, 0, INITIAL_N, 0, INITIAL_BIAS)
    case Err(e) => Err(e)
    case Ok(rest) => Ok(Basics(input) + rest)
  }

  function EncodeString(s: JsString): Result<JsString> {
    EncodeCodePoints(CodePoints(s))
  }

  // ---- the handled subsequence ----

  lemma BelowConcat(a: seq<CodePoint>, b: seq<CodePoint>, n: int)
    ensures Below(a + b, n) == Below(a, n) + Below(b, n)
  {
    if a == [] {
      assert a + b == b;
    } else {
      assert (a + b)[1..] == a[1..] + b;
      BelowConcat(a[1..], b, n);
    }
  }

  lemma BelowSplit(input: seq<CodePoint>, j: nat, n: int)
    requires j < |input|
    ensures Below(input[..j + 1], n) == Below(input[..j], n) + if input[j] < n then [input[j]] else []
    ensures Below(input[j..], n) == (if input[j] < n then [input[j]] else []) + Below(input[j + 1..], n)
  {
    assert input[..j + 1] == input[..j] + [input[j]];
    BelowConcat(input[..j], [input[j]], n);
    assert input[j..][1..] == input[j + 1..];
  }

  lemma BelowMonotone(s: seq<CodePoint>, a: int, b: int)
    requires a <= b
    ensures |Below(s, a)| <= |Below(s, b)|
  {
  }

  lemma BelowAll(s: seq<CodePoint>, n: int)
    requires forall i :: 0 <= i < |s| ==> s[i] < n
    ensures Below(s, n) == s
  {
    if s != [] {
      BelowAll(s[1..], n);
      assert s == [s[0]] + s[1..];
    }
  }

  /** A pass over the input handles exactly the occurrences of n, and ends where the next begins. */
  lemma HandledStep(input: seq<CodePoint>, n: int, j: nat)
    requires j < |input|
    ensures var pos := |Below(input[..j], n + 1)|;
            if input[j] == n then Handled(input, n, j + 1) == Splice(Handled(input, n, j), pos, n)
                                  && |Handled(input, n, j + 1)| == |Handled(input, n, j)| + 1
                                  && |Below(input[..j + 1], n + 1)| == pos + 1
            else Handled(input, n, j + 1) == Handled(input, n, j)
                 && |Below(input[..j + 1], n + 1)| == pos + if input[j] < n then 1 else 0
  {
    hide Below;
    BelowSplit(input, j, n + 1);
    BelowSplit(input, j, n);
    if input[j] == n {
      var a, b := Below(input[..j], n + 1), Below(input[j..], n);
      assert (a + b)[..|a|] == a && (a + b)[|a|..] == b;
    }
  }

  lemma HandledEnds(input: seq<CodePoint>, n: int)
    ensures Handled(input, n, 0) == Below(input, n)
    ensures Handled(input, n, |input|) == Below(input, n + 1)
    ensures Below(input[..0], n + 1) == [] && Below(input[..|input|], n + 1) == Below(input, n + 1)
  {
    assert input[..0] == [] && input[0..] == input && input[..|input|] == input && input[|input|..] == [];
  }

  // ---- decode inverts encode ----

  /** The decoder's state can still travel forward to where the encoder stands. */
  ghost predicate Travelling(input: seq<CodePoint>, n: int, j: nat, nd: int, id: int)
    requires j <= |input|
  {
    && INITIAL_N <= nd <= n <= 0x10FFFF
    && 0 <= id <= |Handled(input, n, j)|
    && (nd == n ==> id <= |Below(input[..j], n + 1)|)
    && (id == 0 <==> |Handled(input, n, j)| == |Below(input, INITIAL_N)|)
    && |Below(input, INITIAL_N)| <= |Handled(input, n, j)|
  }

  lemma TravellingOn(input: seq<CodePoint>, n: int, j: nat, nd: int, id: int)
    requires j <= |input| && Travelling(input, n, j, nd, id)
    ensures j < |input| && input[j] != n ==> Travelling(input, n, j + 1, nd, id)
    ensures j < |input| && input[j] == n ==> Travelling(input, n, j + 1, n, |Below(input[..j], n + 1)| + 1)
    ensures j == |input| && n < 0x10FFFF ==> Travelling(input, n + 1, 0, nd, id)
  {
    if j < |input| {
      HandledStep(input, n, j);
      BelowMonotone(input[..j], n, n + 1);
    } else {
      HandledEnds(input, n);
      HandledEnds(input, n + 1);
    }
  }

  lemma ProductBounds(dn: nat, h: nat, d: nat, l: nat)
    requires dn <= d && h < l
    ensures dn > 0 ==> dn * (h + 1) >= h + 1
    ensures 0 <= dn * (h + 1) <= d * l
  {
    assert dn * (h + 1) <= d * (h + 1) <= d * l;
  }

  lemma DeltaBounds(input: seq<CodePoint>, n: int, j: nat, nd: int, id: int)
    requires j <= |input| && Travelling(input, n, j, nd, id)
    ensures 0 <= Delta(input, n, j, nd, id)
    ensures j < |input| && input[j] == n ==>
              Delta(input, n, j, nd, id) + id <= (0x10FFFF - INITIAL_N) * |input| + |input| - 1
  {
    var h := |Handled(input, n, j)|;
    ProductBounds(n - nd, h, n - nd, h + 1);
    if j < |input| && input[j] == n {
      HandledStep(input, n, j);
      ProductBounds(n - nd, h, 0x10FFFF - INITIAL_N, |input|);
    }
  }

  /** i = (n - nd)(h + 1) + pos with pos <= h splits into the new n and the new position. */
  lemma Wrap(dn: nat, pos: nat, m: nat)
    requires pos < m
    ensures (dn * m + pos) / m == dn
    ensures (dn * m + pos) % m == pos
  {
    var x := dn * m + pos;
    QuotientBound(dn, x, m);
    QuotientBound(dn + 1, x, m);
  }

  /** One turn of the decoder's loop, given the integer it reads. */
  lemma DecodeTurn(input: JsString, i: int, n: int, bias: int, output: seq<int>, i': nat, rest: JsString)
    requires ReadVarint(input, i, 1, BASE, bias) == Ok((i', rest))
    requires i' / (|output| + 1) <= MAX_INT - n
    ensures DecodeFrom(input, i, n, bias, output) ==
            DecodeFrom(rest, i' % (|output| + 1) + 1, n + i' / (|output| + 1), Adapted(i' - i, |output| + 1, i == 0),
                       Splice(output, i' % (|output| + 1), n + i' / (|output| + 1)))
  {
    assert input != [];
  }

  lemma DecodeFails(input: JsString, i: int, n: int, bias: int, output: seq<int>)
    requires input != []
    ensures var v := ReadVarint(input, i, 1, BASE, bias);
            v.Err? ==> DecodeFrom(input, i, n, bias, output) == Err(v.error)
  {
  }

  /** One insertion: the decoder reads the delta, moves to n = nd + dn and inserts it at pos. */
  lemma DecodeOne(delta: nat, id: nat, nd: int, bias: int, output: seq<int>, dn: nat, pos: nat, rest: JsString)
    requires id + delta == dn * (|output| + 1) + pos && pos <= |output| && nd + dn <= MAX_INT
    ensures var r := DecodeFrom(Varint(delta, BASE, bias) + rest, id, nd, bias, output);
            var next := DecodeFrom(rest, pos + 1, nd + dn, Adapted(delta, |output| + 1, id == 0),
                                   Splice(output, pos, nd + dn));
            (r == next || r == Err(Overflow)) &&
            (id + delta <= MAX_INT && 35 * delta <= MAX_INT ==> r == next)
  {
    hide DecodeFrom, Varint, ReadVarint, Adapted, Splice;
    var digits := Varint(delta, BASE, bias) + rest;
    ReadVarintInverts(delta, id, 1, BASE, bias, rest);
    Wrap(dn, pos, |output| + 1);
    if ReadVarint(digits, id, 1, BASE, bias).Ok? {
      DecodeTurn(digits, id, nd, bias, output, id + delta, rest);
    } else {
      DecodeFails(digits, id, nd, bias, output);
    }
  }

  const SAFE_LENGTH := 55

  ghost predicate Rebuilds(r: Result<seq<int>>, input: seq<CodePoint>) {
    r == Ok(input) || (r == Err(Overflow) && |input| > SAFE_LENGTH)
  }

  /** The simulation: from any state the encoder can be in, decoding the rest of its output
      rebuilds the whole input, or a guard of the decoder fires; never for 55 code points or fewer. */
  lemma {:induction false} DecodeFollowsEncode(input: seq<CodePoint>, n: int, j: nat, nd: int, id: int, bias: int)
    requires j <= |input| && Travelling(input, n, j, nd, id)
    ensures var e := EncodeFrom(input, n, j, nd, id, bias);
            e.Ok? ==> Rebuilds(DecodeFrom(e.value, id, nd, bias, Handled(input, n, j)), input)
    decreases 0x110000 - n, |input| - j
  {
    TravellingOn(input, n, j, nd, id);
    if j < |input| && input[j] != n {
      HandledStep(input, n, j);
      DecodeFollowsEncode(input, n, j + 1, nd, id, bias);
    } else if j < |input| {
      DecodeFollowsInsertion(input, n, j, nd, id, bias);
    } else if n >= 0x10FFFF {
      HandledEnds(input, n);
      BelowAll(input, n + 1);
    } else {
      HandledEnds(input, n);
      HandledEnds(input, n + 1);
      DecodeFollowsEncode(input, n + 1, 0, nd, id, bias);
    }
  }

  /** One turn of the reference encoder at an occurrence of n. */
  lemma EncodeTurn(input: seq<CodePoint>, n: int, j: nat, nd: int, id: int, bias: int)
    returns (delta: nat, pos: nat, bias': int, next: Result<JsString>)
    requires j < |input| && input[j] == n && Travelling(input, n, j, nd, id)
    ensures delta == Delta(input, n, j, nd, id)
    ensures id + delta == (n - nd) * (|Handled(input, n, j)| + 1) + pos
    ensures id + delta <= (0x10FFFF - INITIAL_N) * |input| + |input| - 1
    ensures pos == |Below(input[..j], n + 1)|
    ensures bias' == Adapted(delta, |Handled(input, n, j)| + 1, |Handled(input, n, j)| == |Below(input, INITIAL_N)|)
    ensures next == EncodeFrom(input, n, j + 1, n, pos + 1, bias')
    ensures EncodeFrom(input, n, j, nd, id, bias) ==
            if delta > MAX_INT then Err(Overflow)
            else match next
              case Err(e) => Err(e)
              case Ok(rest) => Ok(Varint(delta, BASE, bias) + rest)
  {
    DeltaBounds(input, n, j, nd, id);
    delta, pos := Delta(input, n, j, nd, id), |Below(input[..j], n + 1)|;
    bias' := Adapted(delta, |Handled(input, n, j)| + 1, |Handled(input, n, j)| == |Below(input, INITIAL_N)|);
    next := EncodeFrom(input, n, j + 1, n, pos + 1, bias');
  }

  lemma {:induction false} DecodeFollowsInsertion(input: seq<CodePoint>, n: int, j: nat, nd: int, id: int, bias: int)
    requires j < |input| && input[j] == n && Travelling(input, n, j, nd, id)
    ensures var e := EncodeFrom(input, n, j, nd, id, bias);
            e.Ok? ==> Rebuilds(DecodeFrom(e.value, id, nd, bias, Handled(input, n, j)), input)
    decreases 0x110000 - n, |input| - j, 0
  {
    hide EncodeFrom, DecodeFrom, Varint, Adapted, Splice, Delta;
    var delta, pos, bias', next := EncodeTurn(input, n, j, nd, id, bias);
    if delta <= MAX_INT && next.Ok? {
      DecodeOne(delta, id, nd, bias, Handled(input, n, j), n - nd, pos, next.value);
      TravellingOn(input, n, j, nd, id);
      HandledStep(input, n, j);
      DecodeFollowsEncode(input, n, j + 1, n, pos + 1, bias');
    }
  }

  lemma TravellingStart(input: seq<CodePoint>)
    ensures Travelling(input, INITIAL_N, 0, INITIAL_N, 0)
    ensures Handled(input, INITIAL_N, 0) == Below(input, INITIAL_N)
  {
    HandledEnds(input, INITIAL_N);
  }

  lemma LastIndexUnique(s: JsString, u: CodeUnit, i: int)
    requires 0 <= i < |s| && s[i] == u && forall j :: i < j < |s| ==> s[j] != u
    ensures LastIndexOf(s, u) == i
  {
  }

  /** The decoder splits the text where the encoder joined it. */
  lemma DecodeSplits(input: seq<CodePoint>, rest: JsString)
    requires DELIMITER !in rest
    ensures DecodeCodePoints(Basics(input) + rest) ==
            DecodeFrom(rest, 0, INITIAL_N, INITIAL_BIAS, Below(input, INITIAL_N))
  {
    hide DecodeFrom, Below, LastIndexOf;
    var basic := Below(input, INITIAL_N);
    var text := Basics(input) + rest;
    if basic == [] {
      assert text == rest;
      assert text[..0] == basic && text[0..] == rest;
    } else {
      LastIndexUnique(text, DELIMITER, |basic|);
      assert text[..|basic|] == basic && text[|basic| + 1..] == rest;
    }
  }

  /** Punycode round trip on code points. */
  lemma DecodeEncodeCodePoints(input: seq<CodePoint>)
    ensures var e := EncodeCodePoints(input);
            e.Ok? ==> Rebuilds(DecodeCodePoints(e.value), input)
  {
    hide DecodeFrom, EncodeFrom, DecodeCodePoints, Basics;
    var rest := EncodeFrom(input, INITIAL_N, 0, INITIAL_N, 0, INITIAL_BIAS);
    if rest.Ok? {
      TravellingStart(input);
      DecodeFollowsEncode(input, INITIAL_N, 0, INITIAL_N, 0, INITIAL_BIAS);
      DecodeSplits(input, rest.value);
    }
  }

  /** The round trip on strings: whatever `encode` accepts, `decode` gives back unchanged, unless
      its own guards report overflow, which takes more than 55 code points. */
  lemma DecodeEncodeString(s: JsString)
    ensures var e := EncodeString(s);
            e.Ok? ==> DecodeString(e.value) == Ok(s)
                      || (DecodeString(e.value) == Err(Overflow) && |CodePoints(s)| > SAFE_LENGTH)
  {
    DecodeEncodeCodePoints(CodePoints(s));
    CodeUnitsOfCodePoints(s);
  }

  const ENCODABLE_LENGTH := 1927

  /** No guard of the encoder fires up to 1927 code points. */
  lemma {:induction false} EncodeFromFits(input: seq<CodePoint>, n: int, j: nat, nd: int, id: int, bias: int)
    requires j <= |input| <= ENCODABLE_LENGTH && Travelling(input, n, j, nd, id)
    ensures EncodeFrom(input, n, j, nd, id, bias).Ok?
    decreases 0x110000 - n, |input| - j
  {
    TravellingOn(input, n, j, nd, id);
    if j < |input| && input[j] != n {
      EncodeFromFits(input, n, j + 1, nd, id, bias);
    } else if j < |input| {
      hide EncodeFrom, Varint, Adapted;
      var delta, pos, bias', next := EncodeTurn(input, n, j, nd, id, bias);
      EncodeFromFits(input, n, j + 1, n, pos + 1, bias');
    } else if n < 0x10FFFF {
      EncodeFromFits(input, n + 1, 0, nd, id, bias);
    }
  }

  /** Up to 55 code points neither direction overflows and the round trip is exact. */
  lemma ShortStringsRoundTrip(s: JsString)
    requires |CodePoints(s)| <= SAFE_LENGTH
    ensures EncodeString(s).Ok? && DecodeString(EncodeString(s).value) == Ok(s)
  {
    var input := CodePoints(s);
    TravellingStart(input);
    EncodeFromFits(input, INITIAL_N, 0, INITIAL_N, 0, INITIAL_BIAS);
    DecodeEncodeString(s);
  }

  // ---- the encoder's loops ----

  /** Moving on without writing: the distance grows by one for each handled element passed,
      and by one at the end of a pass. */
  lemma DeltaStep(input: seq<CodePoint>, n: int, j: nat, nd: int, id: int)
    requires j <= |input|
    ensures j < |input| && input[j] != n ==>
              Delta(input, n, j + 1, nd, id) == Delta(input, n, j, nd, id) + if input[j] < n then 1 else 0
    ensures j == |input| ==> Delta(input, n + 1, 0, nd, id) == Delta(input, n, j, nd, id) + 1
  {
    if j < |input| {
      HandledStep(input, n, j);
    } else {
      HandledEnds(input, n);
      HandledEnds(input, n + 1);
      Distribute(n - nd, 1, |Below(input, n + 1)| + 1);
    }
  }

  lemma DeltaAtStart(input: seq<CodePoint>, n: int, nd: int, id: int)
    ensures Delta(input, n, 0, nd, id) == (n - nd) * (|Below(input, n)| + 1) - id
  {
    HandledEnds(input, n);
  }

  lemma Distribute(a: int, b: int, m: int)
    ensures (a + b) * m == a * m + b * m
  {
  }

  /** Jumping over values that do not occur. */
  lemma {:induction false} Jump(input: seq<CodePoint>, n: int, m: int, nd: int, id: int, bias: int)
    requires n <= m <= 0x10FFFF
    requires forall x :: 0 <= x < |input| ==> !(n <= input[x] < m)
    ensures EncodeFrom(input, n, 0, nd, id, bias) == EncodeFrom(input, m, 0, nd, id, bias)
    ensures Below(input, n) == Below(input, m)
    ensures Delta(input, m, 0, nd, id) == Delta(input, n, 0, nd, id) + (m - n) * (|Below(input, n)| + 1)
    decreases m - n
  {
    hide EncodeFrom, Below, Delta;
    if n < m {
      SkipPass(input, n, 0, nd, id, bias);
      SameBelow(input, n);
      Jump(input, n + 1, m, nd, id, bias);
    }
    DeltaAtStart(input, n, nd, id);
    DeltaAtStart(input, m, nd, id);
    Distribute(n - nd, m - n, |Below(input, n)| + 1);
  }

  lemma SameBelow(s: seq<CodePoint>, n: int)
    requires forall x :: 0 <= x < |s| ==> s[x] != n
    ensures Below(s, n) == Below(s, n + 1)
  {
    if s != [] {
      SameBelow(s[1..], n);
    }
  }

  lemma {:induction false} SkipPass(input: seq<CodePoint>, n: int, j: nat, nd: int, id: int, bias: int)
    requires j <= |input| && n < 0x10FFFF
    requires forall x :: j <= x < |input| ==> input[x] != n
    ensures EncodeFrom(input, n, j, nd, id, bias) == EncodeFrom(input, n + 1, 0, nd, id, bias)
    decreases |input| - j
  {
    if j < |input| {
      SkipPass(input, n, j + 1, nd, id, bias);
    }
  }

  /** Once the distance is too large while something is left to write, the encoding fails. */
  lemma {:induction false} TooFar(input: seq<CodePoint>, n: int, j: nat, nd: int, id: int, bias: int)
    requires j <= |input| && n <= 0x10FFFF
    requires Delta(input, n, j, nd, id) > MAX_INT && |Handled(input, n, j)| < |input|
    ensures EncodeFrom(input, n, j, nd, id, bias) == Err(Overflow)
    decreases 0x110000 - n, |input| - j
  {
    DeltaStep(input, n, j, nd, id);
    if j < |input| && input[j] != n {
      HandledStep(input, n, j);
      TooFar(input, n, j + 1, nd, id, bias);
    } else if j == |input| {
      HandledEnds(input, n);
      if n == 0x10FFFF {
        BelowAll(input, n + 1);
      } else {
        HandledEnds(input, n + 1);
        TooFar(input, n + 1, 0, nd, id, bias);
      }
    }
  }

  lemma Finished(input: seq<CodePoint>, n: int, j: nat, nd: int, id: int, bias: int)
    requires j <= |input| && |Handled(input, n, j)| == |input|
    ensures EncodeFrom(input, n, j, nd, id, bias) == Ok([])
    decreases 0x110000 - n, |input| - j
  {
    if j < |input| {
      HandledStep(input, n, j);
      Finished(input, n, j + 1, nd, id, bias);
    } else if n < 0x10FFFF {
      HandledEnds(input, n);
      HandledEnds(input, n + 1);
      Finished(input, n + 1, 0, nd, id, bias);
    }
  }

  lemma PrefixBelow(input: seq<CodePoint>, j: nat, n: int)
    requires j <= |input|
    ensures |Below(input[..j], n)| <= |Below(input, n)|
  {
    assert input == input[..j] + input[j..];
    BelowConcat(input[..j], input[j..], n);
  }

  function Prefixed(output: JsString, r: Result<JsString>): Result<JsString> {
    match r
    case Err(e) => Err(e)
    case Ok(rest) => Ok(output + rest)
  }

  method EncodeBasics(input: seq<CodePoint>) returns (output: JsString)
    ensures output == Below(input, INITIAL_N)
  {
    output := [];
    for j := 0 to |input|
      invariant output == Below(input[..j], INITIAL_N)
    {
      BelowSplit(input, j, INITIAL_N);
      if input[j] < 0x80 {
        output := output + [input[j]];
      }
    }
    assert input[..|input|] == input;
  }

  /** The variable-length integer of the encoder, most significant digit last. */
  method EncodeVarint(delta: nat, bias: int) returns (digits: JsString)
    ensures digits == Varint(delta, BASE, bias)
  {
    hide LowDigit, HighPart, DigitToBasic, Threshold;
    digits := [];
    var q, k := delta, BASE;
    var t := Threshold(k, bias);
    while q >= t
      invariant t == Threshold(k, bias) && q >= 0
      invariant digits + Varint(q, k, bias) == Varint(delta, BASE, bias)
      decreases q
    {
      digits := digits + [DigitToBasic(LowDigit(q, t))];
      q := HighPart(q, t);
      k := k + BASE;
      t := Threshold(k, bias);
    }
    digits := digits + [DigitToBasic(q)];
  }

  /** The smallest code point not below n. */
  method NextValue(input: seq<CodePoint>, n: int) returns (m: int)
    requires exists x :: 0 <= x < |input| && input[x] >= n
    ensures m in input && n <= m <= 0x10FFFF
    ensures forall x :: 0 <= x < |input| ==> !(n <= input[x] < m)
  {
    m := MAX_INT;
    for j := 0 to |input|
      invariant forall x :: 0 <= x < j ==> !(n <= input[x] < m)
      invariant m == MAX_INT || (m in input && n <= m)
    {
      if input[j] >= n && input[j] < m {
        m := input[j];
      }
    }
  }

  /** Where a pass over the input for the value n stands at index j; `started` elements had been
      handled when it began. */
  ghost predicate InPass(input: seq<CodePoint>, n: int, j: nat, nd: int, id: int, delta: int, handled: int, started: int)
    requires j <= |input|
  {
    && Travelling(input, n, j, nd, id)
    && |Below(input, INITIAL_N)| <= started == |Below(input, n)| < |input| <= MAX_INT
    && 0 <= delta == Delta(input, n, j, nd, id) <= MAX_INT
    && started <= handled == |Handled(input, n, j)|
    && (handled > started ==> nd == n && delta <= |Below(input[..j], n)|)
  }

  /** Passing an element other than n: one more step if it is below n, and failure if that is too far. */
  lemma PassOver(input: seq<CodePoint>, n: int, j: nat, nd: int, id: int, bias: int, delta: int, handled: int, started: int)
    requires j < |input| && input[j] != n && InPass(input, n, j, nd, id, delta, handled, started)
    ensures var delta' := delta + if input[j] < n then 1 else 0;
            if delta' > MAX_INT then EncodeFrom(input, n, j, nd, id, bias) == Err(Overflow)
            else InPass(input, n, j + 1, nd, id, delta', handled, started)
                 && EncodeFrom(input, n, j, nd, id, bias) == EncodeFrom(input, n, j + 1, nd, id, bias)
  {
    EncodeSkip(input, n, j, nd, id, bias);
    hide EncodeFrom, Below, Delta, Handled;
    HandledStep(input, n, j);
    TravellingOn(input, n, j, nd, id);
    DeltaStep(input, n, j, nd, id);
    BelowSplit(input, j, n);
    PrefixBelow(input, j + 1, n);
    if input[j] < n && delta == MAX_INT {
      TooFar(input, n, j + 1, nd, id, bias);
    }
  }

  /** Writing an n: the stale count of the pass adapts the bias like the current one. */
  lemma PassWrite(input: seq<CodePoint>, n: int, j: nat, nd: int, id: int, bias: int, delta: int, handled: int, started: int)
    returns (pos: nat)
    requires j < |input| && input[j] == n && InPass(input, n, j, nd, id, delta, handled, started)
    ensures InPass(input, n, j + 1, n, pos, 0, handled + 1, started)
    ensures EncodeFrom(input, n, j, nd, id, bias) ==
            Prefixed(Varint(delta, BASE, bias),
                     EncodeFrom(input, n, j + 1, n, pos, Adapted(delta, started + 1, handled == |Below(input, INITIAL_N)|)))
  {
    hide EncodeFrom, Below, Delta, Handled, Varint, Adapted;
    var d, p, bias', next := EncodeTurn(input, n, j, nd, id, bias);
    pos := p + 1;
    HandledStep(input, n, j);
    TravellingOn(input, n, j, nd, id);
    DeltaReset(input, n, j + 1);
    PrefixBelow(input, j, n);
    if handled > started {
      AdaptIgnoresStaleCount(delta, started + 1, handled + 1);
    }
  }

  lemma EncodeSkip(input: seq<CodePoint>, n: int, j: nat, nd: int, id: int, bias: int)
    requires j < |input| && input[j] != n
    ensures EncodeFrom(input, n, j, nd, id, bias) == EncodeFrom(input, n, j + 1, nd, id, bias)
  {
  }

  lemma DeltaReset(input: seq<CodePoint>, n: int, j: nat)
    requires j <= |input|
    ensures Delta(input, n, j, n, |Below(input[..j], n + 1)|) == 0
  {
  }

  lemma PrefixedTwice(a: JsString, b: JsString, r: Result<JsString>)
    ensures Prefixed(a + b, r) == Prefixed(a, Prefixed(b, r))
  {
    if r.Ok? {
      assert (a + b) + r.value == a + (b + r.value);
    }
  }

  /** One pass of the encoder over the input for the value n. The count handed to `Adapt` is the
      one at the start of the pass, as in the source. */
  method EncodePass(input: seq<CodePoint>, n: int, delta0: int, bias0: int, handled0: nat, basicLength: nat, output0: JsString,
                    ghost nd0: int, ghost id0: int)
    returns (failed: bool, delta: int, bias: int, handled: nat, output: JsString, ghost nd: int, ghost id: int)
    requires InPass(input, n, 0, nd0, id0, delta0, handled0, handled0)
    requires basicLength == |Below(input, INITIAL_N)|
    ensures failed ==> EncodeFrom(input, n, 0, nd0, id0, bias0) == Err(Overflow)
    ensures !failed ==>
              && InPass(input, n, |input|, nd, id, delta, handled, handled0)
              && Prefixed(output0, EncodeFrom(input, n, 0, nd0, id0, bias0))
                 == Prefixed(output, EncodeFrom(input, n, |input|, nd, id, bias))
  {
    failed, delta, bias, handled, output, nd, id := false, delta0, bias0, handled0, output0, nd0, id0;
    var handledPlusOne := handled0 + 1;
    for j := 0 to |input|
      invariant InPass(input, n, j, nd, id, delta, handled, handled0)
      invariant Prefixed(output0, EncodeFrom(input, n, 0, nd0, id0, bias0))
             == Prefixed(output, EncodeFrom(input, n, j, nd, id, bias))
    {
      hide EncodeFrom, Below, Delta, Handled, Varint, Adapted, Travelling;
      if input[j] != n {
        PassOver(input, n, j, nd, id, bias, delta, handled, handled0);
      }
      if input[j] < n {
        delta := delta + 1;
        if delta > MAX_INT {
          failed := true;
          return;
        }
      }
      if input[j] == n {
        ghost var pos := PassWrite(input, n, j, nd, id, bias, delta, handled, handled0);
        var digits := EncodeVarint(delta, bias);
        ghost var output' := output;
        output := output + digits;
        bias := Adapt(delta, handledPlusOne, handled == basicLength);
        PrefixedTwice(output', digits, EncodeFrom(input, n, j + 1, n, pos, bias));
        delta := 0;
        handled := handled + 1;
        nd, id := n, pos;
      }
    }
  }

  /** `encode`. No JavaScript string is longer than the guard's limit. */
  method Encode(s: JsString) returns (r: Result<JsString>)
    requires |s| <= MAX_INT
    ensures r == EncodeString(s)
  {
    hide EncodeFrom, Below, Delta, Handled, Varint, Adapted, Travelling, InPass, CodePoints;
    var input := Ucs2Decode(s);
    CodePointsLength(s);
    var n, delta, bias := INITIAL_N, 0, INITIAL_BIAS;
    var output := EncodeBasics(input);
    var handled := |output|;
    var basicLength := handled;
    if basicLength != 0 {
      output := output + [DELIMITER];
    }
    ghost var nd, id := INITIAL_N, 0;
    ghost var left := EncodeFrom(input, n, 0, nd, id, bias);
    TravellingStart(input);
    DeltaAtStart(input, n, nd, id);
    HandledEnds(input, n);
    if handled == |input| {
      Finished(input, n, 0, nd, id, bias);
    }
    while handled < |input|
      invariant handled == |Below(input, n)| <= |input|
      invariant Prefixed(output, left) == EncodeCodePoints(input)
      invariant if handled == |input| then left == Ok([])
                else Travelling(input, n, 0, nd, id) && delta == Delta(input, n, 0, nd, id)
                     && left == EncodeFrom(input, n, 0, nd, id, bias)
      decreases |input| - handled
    {
      SomeNotBelow(input, n);
      var m := NextValue(input, n);
      EnterPass(input, n, m, nd, id, bias, delta, handled);
      var handledPlusOne := handled + 1;
      QuotientBound(m - n, MAX_INT - delta, handledPlusOne);
      if m - n > (MAX_INT - delta) / handledPlusOne {
        return Err(Overflow);
      }
      delta := delta + (m - n) * handledPlusOne;
      n := m;
      ghost var started := handled;
      var failed;
      failed, delta, bias, handled, output, nd, id :=
        EncodePass(input, n, delta, bias, handled, basicLength, output, nd, id);
      if failed {
        return Err(Overflow);
      }
      PassEnds(input, n, nd, id, bias, delta, handled, started);
      delta := delta + 1;
      n := n + 1;
      left := if handled == |input| then Ok([]) else EncodeFrom(input, n, 0, nd, id, bias);
    }
    assert output + [] == output;
    r := Ok(output);
  }

  lemma SomeNotBelow(input: seq<CodePoint>, n: int)
    requires |Below(input, n)| < |input|
    ensures exists x :: 0 <= x < |input| && input[x] >= n
  {
    if forall x :: 0 <= x < |input| ==> input[x] < n {
      BelowAll(input, n);
    }
  }

  /** After jumping to the next value that occurs a pass for it begins, unless it is too far. */
  lemma EnterPass(input: seq<CodePoint>, n: int, m: int, nd: int, id: int, bias: int, delta: int, handled: int)
    requires n <= m && m in input && forall x :: 0 <= x < |input| ==> !(n <= input[x] < m)
    requires Travelling(input, n, 0, nd, id) && delta == Delta(input, n, 0, nd, id)
    requires handled == |Below(input, n)| < |input| <= MAX_INT
    ensures var delta' := delta + (m - n) * (handled + 1);
            if delta' > MAX_INT then EncodeFrom(input, n, 0, nd, id, bias) == Err(Overflow)
            else InPass(input, m, 0, nd, id, delta', handled, handled)
                 && EncodeFrom(input, n, 0, nd, id, bias) == EncodeFrom(input, m, 0, nd, id, bias)
  {
    hide EncodeFrom, Below, Delta, Handled;
    Jump(input, n, m, nd, id, bias);
    HandledEnds(input, n);
    HandledEnds(input, m);
    DeltaBounds(input, m, 0, nd, id);
    if Delta(input, m, 0, nd, id) > MAX_INT {
      TooFar(input, m, 0, nd, id, bias);
    }
  }

  /** The end of a pass for n is the start of one for n + 1, and every pass handles something. */
  lemma PassEnds(input: seq<CodePoint>, n: int, nd: int, id: int, bias: int, delta: int, handled: int, started: int)
    requires n in input && InPass(input, n, |input|, nd, id, delta, handled, started)
    ensures started < handled == |Below(input, n + 1)|
    ensures if handled == |input| then EncodeFrom(input, n, |input|, nd, id, bias) == Ok([])
            else Travelling(input, n + 1, 0, nd, id) && delta + 1 == Delta(input, n + 1, 0, nd, id)
                 && EncodeFrom(input, n, |input|, nd, id, bias) == EncodeFrom(input, n + 1, 0, nd, id, bias)
  {
    HandledEnds(input, n);
    DeltaStep(input, n, |input|, nd, id);
    TravellingOn(input, n, |input|, nd, id);
    BelowGrows(input, n);
    if handled == |input| {
      Finished(input, n, |input|, nd, id, bias);
    } else if n == 0x10FFFF {
      BelowAll(input, n + 1);
    }
  }

  lemma BelowGrows(s: seq<CodePoint>, n: int)
    requires n in s
    ensures |Below(s, n)| < |Below(s, n + 1)|
  {
    if s[0] == n {
      BelowMonotone(s[1..], n, n + 1);
    } else {
      BelowGrows(s[1..], n);
    }
  }

  // ---- the decoder's loops ----

  /** The inner loop of the decoder from index `start`. */
  method DecodeVarint(input: JsString, start: nat, oldi: int, bias: int) returns (r: Result<(int, nat)>)
    requires start <= |input|
    ensures match ReadVarint(input[start..], oldi, 1, BASE, bias)
            case Err(e) => r == Err(e)
            case Ok((i, rest)) => r.Ok? && r.value.0 == i && start < r.value.1 <= |input| && rest == input[r.value.1..]
  {
    hide Threshold, BasicToDigit;
    ghost var goal := ReadVarint(input[start..], oldi, 1, BASE, bias);
    var i, w, k, index := oldi, 1, BASE, start;
    while true
      invariant start <= index <= |input| && w > 0
      invariant goal == ReadVarint(input[index..], i, w, k, bias)
      decreases |input| - index
    {
      if index >= |input| {
        return Err(InvalidInput);
      }
      assert input[index..][1..] == input[index + 1..];
      var digit := BasicToDigit(input[index]);
      index := index + 1;
      if digit >= BASE || digit > (MAX_INT - i) / w {
        return Err(Overflow);
      }
      i := i + digit * w;
      var t := Threshold(k, bias);
      if digit < t {
        return Ok((i, index));
      }
      var baseMinusT := BASE - t;
      if w > MAX_INT / baseMinusT {
        return Err(Overflow);
      }
      w := w * baseMinusT;
      k := k + BASE;
    }
  }

  /** `decode`. */
  method Decode(input: JsString) returns (r: Result<JsString>)
    ensures r == DecodeString(input)
  {
    hide ReadVarint, Adapted;
    var basic := LastIndexOf(input, DELIMITER);
    if basic < 0 {
      basic := 0;
    }
    var output: seq<int> := [];
    for j := 0 to basic
      invariant output == input[..j] && AllBasic(input[..j])
    {
      if input[j] >= 0x80 {
        assert input[j] in input[..basic];
        return Err(NotBasic);
      }
      output := output + [input[j]];
    }
    ghost var goal := DecodeCodePoints(input);
    var i, n, bias := 0, INITIAL_N, INITIAL_BIAS;
    var index := if basic > 0 then basic + 1 else 0;
    while index < |input|
      invariant 0 <= index <= |input|
      invariant goal == DecodeFrom(input[index..], i, n, bias, output)
    {
      var oldi := i;
      var v := DecodeVarint(input, index, oldi, bias);
      if v.Err? {
        return Err(v.error);
      }
      i, index := v.value.0, v.value.1;
      var out := |output| + 1;
      bias := Adapt(i - oldi, out, oldi == 0);
      if i / out > MAX_INT - n {
        return Err(Overflow);
      }
      n := n + i / out;
      i := Rem(i, out);
      output := Splice(output, i, n);
      i := i + 1;
    }
    assert input[index..] == [];
    var units := Ucs2Encode(output);
    r := Ok(units);
  }
}
