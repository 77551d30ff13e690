/** The Bootstring codec of lib/punycode.js (RFC 3492): generalized variable-length
    integers, bias adaptation, and the decoder as a function of the digits still to be read. */
module Bootstring {
  import opened Ucs2

  const MAX_INT := 0x7FFFFFFF
  const BASE := 36
  const T_MIN := 1
  const T_MAX := 26
  const SKEW := 38
  const DAMP := 700
  const INITIAL_BIAS := 72
  const INITIAL_N := 0x80
  const DELIMITER: CodeUnit := 0x2D

  datatype Error = Overflow | NotBasic | InvalidInput
  datatype Result<T> = Ok(value: T) | Err(error: Error)

  // ---- digits ----

  function BasicToDigit(codePoint: int): int {
    if codePoint - 48 < 10 then codePoint - 22
    else if codePoint - 65 < 26 then codePoint - 65
    else if codePoint - 97 < 26 then codePoint - 97
    else BASE
  }

  function DigitToBasic(digit: int): (u: CodeUnit)
    requires 0 <= digit < BASE
    ensures u != DELIMITER && u < 0x80
    ensures BasicToDigit(u) == digit && (97 <= u <= 122 || 48 <= u <= 57)
  {
    digit + 22 + if digit < 26 then 75 else 0
  }

  /** The documented range is 0 to 36; the one-sided comparisons leave it exactly
      below 22 and in the two gaps between the digit and letter blocks. */
  lemma BasicToDigitRange(codePoint: nat)
    ensures 0 <= BasicToDigit(codePoint) <= BASE
            <==> !(codePoint < 22 || 58 <= codePoint <= 64 || 91 <= codePoint <= 96)
  {
  }

  /** The number from 1 to 26 that is nearest to k - bias. */
  function Threshold(k: int, bias: int): (t: int)
    ensures T_MIN <= t <= T_MAX
    ensures (t > 1 ==> t <= k - bias) && (t < 26 ==> t >= k - bias)
  {
    if k <= bias then T_MIN else if k >= bias + T_MAX then T_MAX else k - bias
  }

  // ---- bias adaptation ----

  function ToInt32(x: int): int {
    var u := x % 0x1_0000_0000;
    if u > MAX_INT then u - 0x1_0000_0000 else u
  }

  /** `Math.floor(a / b)` on integers. */
  function FloorDiv(a: int, b: int): int
    requires b != 0
  {
    if b > 0 then a / b else (-a) / (-b)
  }

  /** The damping loop. A delta of -38 (only from negative digits) makes the division
      yield -Infinity; like every bias up to 10 that makes every threshold 26, so 0 stands for it. */
  function AdaptFrom(delta: int, k: int): int
    decreases delta
  {
    if delta > 455 then AdaptFrom(delta / 35, k + BASE)
    else if delta + SKEW == 0 then 0
    else k + FloorDiv(36 * delta, delta + SKEW)
  }

  function Damped(delta: int, firstTime: bool): int {
    if firstTime then delta / DAMP else ToInt32(delta) / 2
  }

  function Adapted(delta: int, numPoints: int, firstTime: bool): int
    requires numPoints > 0
  {
    var d := Damped(delta, firstTime);
    AdaptFrom(d + d / numPoints, 0)
  }

  method Adapt(delta: int, numPoints: int, firstTime: bool) returns (bias: int)
    requires numPoints > 0
    ensures bias == Adapted(delta, numPoints, firstTime)
  {
    var k := 0;
    var d := if firstTime then delta / DAMP else ToInt32(delta) / 2;
    d := d + d / numPoints;
    while d > 455
      invariant AdaptFrom(d, k) == Adapted(delta, numPoints, firstTime)
      decreases d
    {
      d := d / 35;
      k := k + BASE;
    }
    bias := if d + SKEW == 0 then 0 else k + FloorDiv(36 * d, d + SKEW);
  }

  /** d divided by 35 j times. */
  function Damp(d: nat, j: nat): nat {
    if j == 0 then d else Damp(d / 35, j - 1)
  }

  /** j is how often the loop divides d. */
  ghost predicate Dampings(d: nat, j: nat) {
    Damp(d, j) <= 455 && (j > 0 ==> Damp(d, j - 1) > 455)
  }

  lemma {:induction false} AdaptFromIs(d: nat, k: int) returns (j: nat)
    ensures Dampings(d, j)
    ensures AdaptFrom(d, k) == k + 36 * j + 36 * Damp(d, j) / (Damp(d, j) + 38)
    decreases d
  {
    if d > 455 {
      var i := AdaptFromIs(d / 35, k + BASE);
      j := i + 1;
    } else {
      j := 0;
    }
  }

  lemma DampedIs(delta: nat, firstTime: bool)
    requires delta <= MAX_INT
    ensures Damped(delta, firstTime) == if firstTime then delta / 700 else delta / 2
  {
    assert delta % 0x1_0000_0000 == delta;
  }

  /** d, and the share of it that falls to each of so many elements. */
  function Shared(d: nat, numPoints: int): nat
    requires numPoints > 0
  {
    d + d / numPoints
  }

  /** The bias in closed form: delta is divided by 700 at first and by 2 later, grows by its share, and is divided by 35 as
      often as it takes to get to 455 or below. */
  lemma AdaptedIs(delta: nat, numPoints: int, firstTime: bool) returns (j: nat)
    requires numPoints > 0 && delta <= MAX_INT
    ensures var d := Shared(if firstTime then delta / 700 else delta / 2, numPoints);
            Dampings(d, j) && Adapted(delta, numPoints, firstTime) == 36 * j + 36 * Damp(d, j) / (Damp(d, j) + 38)
  {
    hide AdaptFrom, Dampings, Damp;
    DampedIs(delta, firstTime);
    j := AdaptFromIs(Shared(Damped(delta, firstTime), numPoints), 0);
  }

  lemma DivSmall(d: int, m: int)
    requires 0 <= d < m
    ensures d / m == 0
  {
  }

  /** The encoder keeps dividing by the count at the start of its pass. For a repeated
      code point that count is stale, but both quotients are zero. */
  lemma AdaptIgnoresStaleCount(delta: nat, stale: int, current: int)
    requires 0 < stale <= current && delta < stale && delta <= MAX_INT
    ensures Adapted(delta, stale, false) == Adapted(delta, current, false)
  {
    assert delta % 0x1_0000_0000 == delta;
    var d := Damped(delta, false);
    assert d == delta / 2;
    DivSmall(d, stale);
    DivSmall(d, current);
  }

  // ---- variable-length integers ----

  /** The digit written for q while q is not below the threshold, and what is left. */
  function LowDigit(q: nat, t: int): (d: int)
    requires T_MIN <= t <= T_MAX && t <= q
    ensures t <= d < BASE
  {
    t + (q - t) % (BASE - t)
  }

  function HighPart(q: nat, t: int): (r: nat)
    requires T_MIN <= t <= T_MAX && t <= q
    ensures r < q
    ensures q == LowDigit(q, t) + r * (BASE - t)
  {
    QuotientFacts(q - t, BASE - t);
    (q - t) / (BASE - t)
  }

  lemma QuotientFacts(a: nat, m: nat)
    requires m >= 1
    ensures a == (a / m) * m + a % m && 0 <= a / m <= a
  {
    var r := a / m;
    assert r <= r * m;
  }

  /** The digits of q from position k on, least significant first. */
  function Varint(q: nat, k: int, bias: int): (digits: JsString)
    ensures |digits| > 0
    ensures forall u :: u in digits ==> u != DELIMITER && u < 0x80
    decreases q
  {
    var t := Threshold(k, bias);
    if q < t then [DigitToBasic(q)]
    else [DigitToBasic(LowDigit(q, t))] + Varint(HighPart(q, t), k + BASE, bias)
  }

  /** Reads one integer on top of i; returns the sum and the digits left over. */
  function ReadVarint(input: JsString, i: int, w: int, k: int, bias: int): (r: Result<(int, JsString)>)
    requires w > 0
    ensures r.Ok? ==> |r.value.1| < |input|
    decreases |input|
  {
    if input == [] then Err(InvalidInput)
    else
      var digit := BasicToDigit(input[0]);
      if digit >= BASE || digit > (MAX_INT - i) / w then Err(Overflow)
      else
        var t := Threshold(k, bias);
        if digit < t then Ok((i + digit * w, input[1..]))
        else if w > MAX_INT / (BASE - t) then Err(Overflow)
        else ReadVarint(input[1..], i + digit * w, w * (BASE - t), k + BASE, bias)
  }

  /** The value written by one digit d and the rest q'. */
  lemma SplitProduct(q: nat, d: nat, q': nat, m: int, w: int)
    requires q == d + q' * m && m > 0 && w > 0
    ensures q * w == d * w + q' * (w * m) && 0 <= d * w && 0 <= q' * (w * m)
  {
    assert (q' * m) * w == q' * (w * m);
  }

  /** `x <= a / m` without the division. */
  lemma QuotientBound(x: int, a: int, m: int)
    requires m > 0
    ensures x <= a / m <==> x * m <= a
  {
    var quot := a / m;
    assert quot * m <= a < (quot + 1) * m;
    if x <= quot {
      assert x * m <= quot * m;
    } else {
      assert x * m >= (quot + 1) * m;
    }
  }

  /** Every weight reached by a continuing digit is at most the integer being written. */
  lemma ContinuingWeight(q: nat, t: int, w: int)
    requires 1 <= t <= q && t < BASE && w > 0
    ensures w <= q * w
    ensures w * (BASE - t) <= 35 * (q * w)
  {
    assert q * w >= 1 * w;
    assert w * (BASE - t) <= w * 35;
  }

  /** One step of the reader over a digit. */
  lemma ReadDigit(d: int, tail: JsString, i: nat, w: int, k: int, bias: int)
    requires w > 0 && 0 <= d < BASE
    ensures var t := Threshold(k, bias);
            ReadVarint([DigitToBasic(d)] + tail, i, w, k, bias) ==
            if i + d * w > MAX_INT then Err(Overflow)
            else if d < t then Ok((i + d * w, tail))
            else if w * (BASE - t) > MAX_INT then Err(Overflow)
            else ReadVarint(tail, i + d * w, w * (BASE - t), k + BASE, bias)
  {
    var input := [DigitToBasic(d)] + tail;
    assert input[0] == DigitToBasic(d) && input[1..] == tail;
    QuotientBound(d, MAX_INT - i, w);
    QuotientBound(w, MAX_INT, BASE - Threshold(k, bias));
  }

  lemma VarintUnfold(q: nat, k: int, bias: int, rest: JsString) returns (t: int, d: int, q': nat)
    ensures t == Threshold(k, bias)
    ensures q < t ==> Varint(q, k, bias) + rest == [DigitToBasic(q)] + rest
    ensures q >= t ==> t <= d < BASE && q' < q && q == d + q' * (BASE - t)
                       && Varint(q, k, bias) + rest == [DigitToBasic(d)] + (Varint(q', k + BASE, bias) + rest)
  {
    hide LowDigit, HighPart;
    t, d, q' := Threshold(k, bias), 0, 0;
    if q >= t {
      d, q' := LowDigit(q, t), HighPart(q, t);
    }
  }

  /** Reading back what Varint wrote gives i + q * w and nothing else is consumed; the only
      other outcome is the overflow guard, which stays quiet when 35 * q * w fits. */
  lemma {:induction false} ReadVarintInverts(q: nat, i: nat, w: int, k: int, bias: int, rest: JsString)
    requires w > 0
    ensures var r := ReadVarint(Varint(q, k, bias) + rest, i, w, k, bias);
            (r == Ok((i + q * w, rest)) || r == Err(Overflow)) &&
            (i + q * w <= MAX_INT && 35 * (q * w) <= MAX_INT ==> r.Ok?)
    decreases q
  {
    hide Varint, ReadVarint, Threshold, DigitToBasic;
    var t, d, q' := VarintUnfold(q, k, bias, rest);
    if q < t {
      ReadDigit(q, rest, i, w, k, bias);
    } else {
      SplitProduct(q, d, q', BASE - t, w);
      ContinuingWeight(q, t, w);
      var w' := w * (BASE - t);
      ReadDigit(d, Varint(q', k + BASE, bias) + rest, i, w, k, bias);
      if i + d * w <= MAX_INT && w' <= MAX_INT {
        ReadVarintInverts(q', i + d * w, w', k + BASE, bias, rest);
      }
    }
  }
}
