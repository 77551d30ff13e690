/** The integers of variable width of lib/buffer.js: `readUIntLE`, `writeIntBE` and the rest of that family. */
module BufferInts {
  import opened Bytes

  datatype Result<T> = Ok(value: T) | RangeError | TypeError

  function Pow(k: nat): (p: nat)
    ensures p >= 1
  {
    if k == 0 then 1 else 256 * Pow(k - 1)
  }

  /** Digit k to base 256, which for negative numbers is that of the two's complement. */
  function Digit(v: int, k: nat): byte {
    v / Pow(k) % 256
  }

  /** The number that digits stand for. */
  function Value(digits: Bytes): nat {
    if digits == [] then 0 else Value(digits[..|digits| - 1]) + digits[|digits| - 1] * Pow(|digits| - 1)
  }

  /** The sign a number of n bytes is read with. */
  function Signed(u: nat, n: nat): int
    requires n >= 1
  {
    if u >= Pow(n - 1) * 0x80 then u - Pow(n) else u
  }

  /** Where digit k of n is. */
  function At(offset: nat, n: nat, k: nat, big: bool): nat
    requires k < n
  {
    if big then offset + (n - 1 - k) else offset + k
  }

  /** The n digits stored at an offset, the lowest first. */
  function Stored(buf: seq<byte>, offset: nat, n: nat, big: bool): (r: Bytes)
    requires offset + n <= |buf|
    ensures |r| == n && forall k :: 0 <= k < n ==> r[k] == buf[At(offset, n, k, big)]
  {
    seq(n, k requires 0 <= k < n => buf[At(offset, n, k, big)])
  }

  // ---- what the writes store ----

  /** Division as JavaScript truncates it. */
  function Trunc(v: int, m: nat): int
    requires m >= 1
  {
    if v >= 0 then v / m else -((-v) / m)
  }

  /** A byte store keeps the value modulo 256. */
  function Byte(x: int): byte {
    x % 256
  }

  function UIntDigit(v: int, k: nat): byte {
    if k == 0 then Byte(v) else Byte(Trunc(v, Pow(k)))
  }

  function IntDigit(v: int, k: nat): byte {
    if k == 0 then Byte(v) else Byte(Trunc(v, Pow(k)) - if v < 0 then 1 else 0)
  }

  function UIntBytes(v: int, n: nat): Bytes {
    seq(n, k requires 0 <= k < n => UIntDigit(v, k))
  }

  function IntBytes(v: int, n: nat): Bytes {
    seq(n, k requires 0 <= k < n => IntDigit(v, k))
  }

  function Digits(v: int, n: nat): Bytes {
    seq(n, k requires 0 <= k < n => Digit(v, k))
  }

  // ---- arithmetic ----

  lemma MulLe(a: int, b: int, p: nat)
    requires a <= b
    ensures p * a <= p * b
  {
  }

  lemma DivUnique(v: int, d: nat, q: int)
    requires d >= 1 && d * q <= v < d * q + d
    ensures v / d == q
  {
    var r := v / d;
    if r < q {
      MulLe(r + 1, q, d);
    } else if r > q {
      MulLe(q + 1, r, d);
    }
  }

  lemma DivDiv(v: int, p: nat)
    requires p >= 1
    ensures v / p / 256 == v / (256 * p)
  {
    var a := v / p;
    var b := a / 256;
    MulLe(256 * b, a, p);
    MulLe(a + 1, 256 * b + 256, p);
    assert p * (256 * b) == 256 * p * b;
    DivUnique(v, 256 * p, b);
  }

  /** The first n digits are the number modulo 256^n. */
  lemma {:induction false} ValueOfDigits(v: int, n: nat)
    ensures Value(Digits(v, n)) == v - Pow(n) * (v / Pow(n))
  {
    if n > 0 {
      var p := Pow(n - 1);
      assert Digits(v, n)[..n - 1] == Digits(v, n - 1);
      ValueOfDigits(v, n - 1);
      DivDiv(v, p);
      var q := v / p;
      assert Value(Digits(v, n)) == v - p * q + (q % 256) * p;
      assert q == 256 * (q / 256) + q % 256;
      Spread(p, q, q / 256, q % 256);
    } else {
      assert v / 1 == v;
    }
  }

  lemma Spread(p: int, q: int, h: int, l: int)
    requires q == 256 * h + l
    ensures p * q - l * p == 256 * p * h
  {
    assert p * q == p * (256 * h) + p * l;
  }

  lemma DivSmall(v: int, d: nat)
    requires 0 <= v < d
    ensures v / d == 0
  {
    DivUnique(v, d, 0);
  }

  lemma DivNegative(v: int, d: nat)
    requires v < 0 <= v + d && d >= 1
    ensures v / d == -1
  {
    DivUnique(v, d, -1);
  }

  // ---- what the bytes mean ----

  /** With the most significant byte first every further byte counts ones, and the others 256 times as much as before. */
  lemma {:induction false} BigMore(buf: seq<byte>, offset: nat, n: nat)
    requires offset + n + 1 <= |buf|
    ensures Value(Stored(buf, offset, n + 1, true)) == 256 * Value(Stored(buf, offset, n, true)) + buf[offset + n]
  {
    var d, e := Stored(buf, offset, n + 1, true), Stored(buf, offset, n, true);
    assert d == [buf[offset + n]] + e;
    ValueCons(buf[offset + n], e);
  }

  lemma {:induction false} ValueCons(b: byte, digits: Bytes)
    ensures Value([b] + digits) == b + 256 * Value(digits)
  {
    var all := [b] + digits;
    if digits == [] {
      assert all[..0] == [] && Pow(0) == 1;
    } else {
      var front, last := digits[..|digits| - 1], digits[|digits| - 1];
      assert all[..|all| - 1] == [b] + front && all[|all| - 1] == last;
      ValueCons(b, front);
      PowStep(|digits| - 1);
      hide Pow;
      Shifted(Value(front), last, Pow(|digits| - 1));
    }
  }

  lemma Shifted(v: int, last: int, p: int)
    ensures 256 * (v + last * p) == 256 * v + last * (p * 0x100)
  {
    Regroup(last, p, 0x100);
  }

  /** With the least significant byte first every further byte counts 256 times as much as the one before. */
  lemma LittleMore(buf: seq<byte>, offset: nat, n: nat)
    requires offset + n + 1 <= |buf|
    ensures Value(Stored(buf, offset, n + 1, false)) == Value(Stored(buf, offset, n, false)) + buf[offset + n] * Pow(n)
  {
    var d := Stored(buf, offset, n + 1, false);
    assert d[..n] == Stored(buf, offset, n, false);
    hide Pow;
  }

  /** The sign splits the range in the middle: two's complement. */
  lemma SignedIs(u: nat, n: nat)
    requires n >= 1 && u < Pow(n)
    ensures 0 <= 2 * Signed(u, n) + Pow(n) < 2 * Pow(n) && (Signed(u, n) == u || Signed(u, n) == u - Pow(n))
  {
  }

  // ---- unsigned round trip ----

  lemma UIntBytesAreDigits(v: nat, n: nat)
    ensures UIntBytes(v, n) == Digits(v, n)
  {
    assert Pow(0) == 1 && v / 1 == v;
  }

  /** The bounds check lets 256^n itself through; it is the one value that does not come back. */
  lemma UIntRoundTrip(v: nat, n: nat)
    requires v <= Pow(n)
    ensures Value(UIntBytes(v, n)) == v <==> v < Pow(n)
  {
    UIntBytesAreDigits(v, n);
    ValueOfDigits(v, n);
    if v < Pow(n) {
      DivSmall(v, Pow(n));
    } else {
      DivUnique(v, Pow(n), 1);
    }
    hide Value, Digits, UIntBytes;
  }

  // ---- signed round trip ----

  /** Below zero, truncating and subtracting one is the floor exactly when the division leaves a remainder. */
  lemma TruncIsFloor(v: int, m: nat)
    requires v < 0 && m >= 1
    ensures Trunc(v, m) - 1 == v / m <==> v % m != 0
    ensures v % m == 0 ==> Trunc(v, m) == v / m
  {
    var q, r := v / m, v % m;
    assert v == m * q + r;
    if r == 0 {
      assert -v == m * (-q);
      DivUnique(-v, m, -q);
    } else {
      assert -v == m * (-q - 1) + (m - r);
      DivUnique(-v, m, -q - 1);
    }
  }

  /** If 256^k divides v, so does 256. */
  lemma {:induction false} PowDivides(v: int, k: nat)
    requires k >= 1 && v % Pow(k) == 0
    ensures v % 256 == 0
  {
    var p := Pow(k - 1);
    assert v == Pow(k) * (v / Pow(k)) + v % Pow(k);
    Regroup(256, p, v / Pow(k));
    ModOfMultiple(p * (v / Pow(k)));
  }

  lemma Regroup(a: int, b: int, c: int)
    ensures a * b * c == a * (b * c)
  {
  }

  lemma ModOfMultiple(x: int)
    ensures 256 * x % 256 == 0
  {
  }

  /** When the stored bytes are the two's complement. */
  predicate Exact(v: int, n: nat) {
    v >= 0 || n == 1 || v % 256 != 0
  }

  lemma IntDigitIs(v: int, k: nat)
    requires k >= 1 && (v >= 0 || v % 256 != 0)
    ensures IntDigit(v, k) == Digit(v, k)
  {
    if v < 0 {
      if v % Pow(k) == 0 {
        PowDivides(v, k);
      }
      TruncIsFloor(v, Pow(k));
    }
    hide Pow;
  }

  lemma IntBytesAreDigits(v: int, n: nat)
    requires n >= 1
    ensures Exact(v, n) ==> IntBytes(v, n) == Digits(v, n)
    ensures !Exact(v, n) ==> IntBytes(v, n)[1] != Digits(v, n)[1] && IntBytes(v, n)[0] == Digits(v, n)[0]
  {
    assert Pow(0) == 1 && v / 1 == v;
    if Exact(v, n) {
      forall k | 0 <= k < n
        ensures IntDigit(v, k) == Digit(v, k)
      {
        if k >= 1 {
          IntDigitIs(v, k);
        }
      }
    } else {
      assert Pow(1) == 256;
      TruncIsFloor(v, 256);
    }
  }

  lemma {:induction false} ValueBound(digits: Bytes)
    ensures Value(digits) < Pow(|digits|)
  {
    if digits != [] {
      ValueBound(digits[..|digits| - 1]);
      MulLe(digits[|digits| - 1], 255, Pow(|digits| - 1));
    }
  }

  /** Different digits stand for different numbers. */
  lemma {:induction false} ValueInjective(a: Bytes, b: Bytes)
    requires |a| == |b| && Value(a) == Value(b)
    ensures a == b
  {
    if a != [] {
      var n := |a| - 1;
      TopDigit(a);
      TopDigit(b);
      hide Value, Pow;
      ValueInjective(a[..n], b[..n]);
      assert a == a[..n] + [a[n]] && b == b[..n] + [b[n]];
    }
  }

  /** The highest digit and the rest are the quotient and the remainder. */
  lemma TopDigit(a: Bytes)
    requires a != []
    ensures var n := |a| - 1; a[n] == Value(a) / Pow(n) && Value(a[..n]) == Value(a) - Pow(n) * (Value(a) / Pow(n))
  {
    var n := |a| - 1;
    ValueBound(a[..n]);
    assert Value(a) == Value(a[..n]) + a[n] * Pow(n);
    hide Value, Pow;
    assert a[n] * Pow(n) == Pow(n) * a[n];
    DivUnique(Value(a), Pow(n), a[n]);
  }

  /** In range, reading the two's complement gives the number back. */
  lemma SignedValue(v: int, n: nat)
    requires n >= 1 && -(Pow(n - 1) * 0x80) <= v < Pow(n - 1) * 0x80
    ensures Signed(Value(Digits(v, n)), n) == v
  {
    ValueOfDigits(v, n);
    if v >= 0 {
      DivSmall(v, Pow(n));
    } else {
      DivNegative(v, Pow(n));
    }
    hide Value, Digits;
  }

  lemma SignedInjective(u: nat, w: nat, n: nat)
    requires n >= 1 && u < Pow(n) && w < Pow(n) && Signed(u, n) == Signed(w, n)
    ensures u == w
  {
  }

  /** `readInt` after `writeInt` gives the value back exactly for the values that are not negative, the single bytes,
      and the negative values that are not multiples of 256. */
  lemma IntRoundTrip(v: int, n: nat)
    requires n >= 1 && -(Pow(n - 1) * 0x80) <= v < Pow(n - 1) * 0x80
    ensures Signed(Value(IntBytes(v, n)), n) == v <==> Exact(v, n)
  {
    IntBytesAreDigits(v, n);
    SignedValue(v, n);
    ValueBound(IntBytes(v, n));
    ValueBound(Digits(v, n));
    if !Exact(v, n) {
      assert IntBytes(v, n) != Digits(v, n);
      if Value(IntBytes(v, n)) == Value(Digits(v, n)) {
        ValueInjective(IntBytes(v, n), Digits(v, n));
      }
      if Signed(Value(IntBytes(v, n)), n) == v {
        SignedInjective(Value(IntBytes(v, n)), Value(Digits(v, n)), n);
      }
    }
    hide Value, Digits, IntBytes, Signed, Exact;
  }

  // ---- reading ----

  /** What a byte adds at its weight. */
  function Weighted(digit: nat, mul: nat): nat {
    digit * mul
  }

  lemma ValueMore(digits: Bytes, i: nat)
    requires i < |digits|
    ensures Value(digits[..i + 1]) == Value(digits[..i]) + Weighted(digits[i], Pow(i))
  {
    assert digits[..i + 1][..i] == digits[..i];
  }

  lemma ValueOfOne(digits: Bytes)
    requires digits != []
    ensures Value(digits[..1]) == digits[0]
  {
    ValueMore(digits, 0);
    assert digits[..0] == [];
  }

  /** The loop that `readUIntLE` and `readIntLE` share; `mul` is the weight of the last byte. */
  method SumLE(buf: array<byte>, offset: nat, n: nat) returns (val: nat, mul: nat)
    requires n >= 1 && offset + n <= buf.Length
    ensures val == Value(Stored(buf[..], offset, n, false)) && mul == Pow(n - 1)
  {
    ghost var digits := Stored(buf[..], offset, n, false);
    ValueOfOne(digits);
    val, mul := buf[offset], 1;
    var i := 1;
    PowStep(0);
    hide Value, Stored, Pow, Weighted;
    while i < n
      invariant 1 <= i <= n && val == Value(digits[..i]) && mul == Pow(i - 1)
    {
      PowStep(i - 1);
      mul := mul * 0x100;
      ValueMore(digits, i);
      val := val + Weighted(buf[offset + i], mul);
      i := i + 1;
    }
    assert digits[..n] == digits;
  }

  method SumBE(buf: array<byte>, offset: nat, n: nat) returns (val: nat, mul: nat)
    requires n >= 1 && offset + n <= buf.Length
    ensures val == Value(Stored(buf[..], offset, n, true)) && mul == Pow(n - 1)
  {
    ghost var digits := Stored(buf[..], offset, n, true);
    ValueOfOne(digits);
    var i := n - 1;
    val, mul := buf[offset + i], 1;
    PowStep(0);
    hide Value, Stored, Pow, Weighted;
    while i > 0
      invariant 0 <= i <= n - 1 && val == Value(digits[..n - i]) && mul == Pow(n - 1 - i)
    {
      PowStep(n - 1 - i);
      mul := mul * 0x100;
      ValueMore(digits, n - i);
      assert digits[n - i] == buf[offset + (i - 1)];
      i := i - 1;
      val := val + Weighted(buf[offset + i], mul);
    }
    assert digits[..n] == digits;
  }

  method ReadUInt(buf: array<byte>, offset: nat, n: nat, big: bool) returns (r: Result<int>)
    requires 1 <= n <= 6
    ensures offset + n > buf.Length ==> r == RangeError
    ensures offset + n <= buf.Length ==> r == Ok(Value(Stored(buf[..], offset, n, big)))
  {
    if offset + n > buf.Length {
      return RangeError;
    }
    var val, mul;
    if big {
      val, mul := SumBE(buf, offset, n);
    } else {
      val, mul := SumLE(buf, offset, n);
    }
    return Ok(val);
  }

  method ReadInt(buf: array<byte>, offset: nat, n: nat, big: bool) returns (r: Result<int>)
    requires 1 <= n <= 6
    ensures offset + n > buf.Length ==> r == RangeError
    ensures offset + n <= buf.Length ==> r == Ok(Signed(Value(Stored(buf[..], offset, n, big)), n))
  {
    if offset + n > buf.Length {
      return RangeError;
    }
    var val: int, mul;
    if big {
      val, mul := SumBE(buf, offset, n);
    } else {
      val, mul := SumLE(buf, offset, n);
    }
    if val >= mul * 0x80 {
      val := val - Pow(n);
    }
    return Ok(val);
  }

  // ---- writing ----

  /** All but the n bytes at the offset is as it was. */
  ghost predicate Untouched(before: seq<byte>, after: seq<byte>, offset: nat, n: nat) {
    && |after| == |before|
    && forall j :: 0 <= j < |before| && !(offset <= j < offset + n) ==> after[j] == before[j]
  }

  /** What digit k of a write is stored as: the truncated quotient less `sub`. */
  function Piece(value: int, sub: int, k: nat): byte {
    if k == 0 then Byte(value) else Byte(Trunc(value, Pow(k)) - sub)
  }

  /** The first digits are in place, and nothing else has changed. */
  ghost predicate Placed(before: seq<byte>, after: seq<byte>, value: int, sub: int, offset: nat, n: nat, count: nat, big: bool) {
    && offset + n <= |before| && count <= n && Untouched(before, after, offset, n)
    && forall k :: 0 <= k < count ==> after[At(offset, n, k, big)] == Piece(value, sub, k)
  }

  lemma PlacedMore(before: seq<byte>, now: seq<byte>, value: int, sub: int, offset: nat, n: nat, count: nat, big: bool)
    requires Placed(before, now, value, sub, offset, n, count, big) && count < n
    ensures At(offset, n, count, big) < |now|
    ensures Placed(before, now[At(offset, n, count, big) := Piece(value, sub, count)], value, sub, offset, n, count + 1, big)
  {
    hide Piece;
  }

  lemma NonePlaced(before: seq<byte>, value: int, sub: int, offset: nat, n: nat, big: bool)
    requires offset + n <= |before|
    ensures Placed(before, before, value, sub, offset, n, 0, big) && Pow(0) == 1
  {
  }

  lemma PowStep(k: nat)
    ensures Pow(k + 1) == Pow(k) * 0x100
  {
  }

  method PutLE(buf: array<byte>, value: int, sub: int, offset: nat, n: nat)
    requires n >= 1 && offset + n <= buf.Length
    modifies buf
    ensures Placed(old(buf[..]), buf[..], value, sub, offset, n, n, false)
  {
    hide Placed, Pow, Byte, Trunc;
    ghost var before := buf[..];
    NonePlaced(before, value, sub, offset, n, false);
    var mul, i := 1, 1;
    PlacedMore(before, buf[..], value, sub, offset, n, 0, false);
    buf[offset] := Byte(value);
    while i < n
      invariant 1 <= i <= n && mul == Pow(i - 1)
      invariant Placed(before, buf[..], value, sub, offset, n, i, false)
    {
      PowStep(i - 1);
      PlacedMore(before, buf[..], value, sub, offset, n, i, false);
      mul := mul * 0x100;
      buf[offset + i] := Byte(Trunc(value, mul) - sub);
      i := i + 1;
    }
  }

  method PutBE(buf: array<byte>, value: int, sub: int, offset: nat, n: nat)
    requires n >= 1 && offset + n <= buf.Length
    modifies buf
    ensures Placed(old(buf[..]), buf[..], value, sub, offset, n, n, true)
  {
    hide Placed, Pow, Byte, Trunc;
    ghost var before := buf[..];
    NonePlaced(before, value, sub, offset, n, true);
    var mul, i := 1, n - 1;
    PlacedMore(before, buf[..], value, sub, offset, n, 0, true);
    buf[offset + i] := Byte(value);
    i := i - 1;
    while i >= 0
      invariant -1 <= i <= n - 2 && mul == Pow(n - 2 - i)
      invariant Placed(before, buf[..], value, sub, offset, n, n - 1 - i, true)
      decreases i + 1
    {
      PowStep(n - 2 - i);
      PlacedMore(before, buf[..], value, sub, offset, n, n - 1 - i, true);
      mul := mul * 0x100;
      buf[offset + i] := Byte(Trunc(value, mul) - sub);
      i := i - 1;
    }
  }

  lemma PlacedAll(before: seq<byte>, after: seq<byte>, value: int, sub: int, offset: nat, n: nat, big: bool)
    requires Placed(before, after, value, sub, offset, n, n, big)
    ensures Untouched(before, after, offset, n) && |after| == |before| >= offset + n
    ensures value >= 0 && sub == 0 ==> Stored(after, offset, n, big) == UIntBytes(value, n)
    ensures sub == (if value < 0 then 1 else 0) ==> Stored(after, offset, n, big) == IntBytes(value, n)
  {
    hide Byte, Trunc, Pow;
  }

  method WriteUInt(buf: array<byte>, value: int, offset: nat, n: nat, big: bool) returns (r: Result<nat>)
    requires 1 <= n <= 6
    modifies buf
    ensures value > Pow(n) || value < 0 ==> r == TypeError && buf[..] == old(buf[..])
    ensures 0 <= value <= Pow(n) && offset + n > buf.Length ==> r == RangeError && buf[..] == old(buf[..])
    ensures 0 <= value <= Pow(n) && offset + n <= buf.Length ==>
              && r == Ok(offset + n) && Untouched(old(buf[..]), buf[..], offset, n)
              && Stored(buf[..], offset, n, big) == UIntBytes(value, n)
  {
    if value > Pow(n) || value < 0 {
      return TypeError;
    }
    if offset + n > buf.Length {
      return RangeError;
    }
    hide Placed, Pow, Stored, UIntBytes, Untouched;
    if big {
      PutBE(buf, value, 0, offset, n);
    } else {
      PutLE(buf, value, 0, offset, n);
    }
    PlacedAll(old(buf[..]), buf[..], value, 0, offset, n, big);
    return Ok(offset + n);
  }

  method WriteInt(buf: array<byte>, value: int, offset: nat, n: nat, big: bool) returns (r: Result<nat>)
    requires 1 <= n <= 6
    modifies buf
    ensures value > Pow(n - 1) * 0x80 - 1 || value < -(Pow(n - 1) * 0x80) ==> r == TypeError && buf[..] == old(buf[..])
    ensures -(Pow(n - 1) * 0x80) <= value < Pow(n - 1) * 0x80 && offset + n > buf.Length ==> r == RangeError && buf[..] == old(buf[..])
    ensures -(Pow(n - 1) * 0x80) <= value < Pow(n - 1) * 0x80 && offset + n <= buf.Length ==>
              && r == Ok(offset + n) && Untouched(old(buf[..]), buf[..], offset, n)
              && Stored(buf[..], offset, n, big) == IntBytes(value, n)
  {
    if value > Pow(n - 1) * 0x80 - 1 || value < -(Pow(n - 1) * 0x80) {
      return TypeError;
    }
    if offset + n > buf.Length {
      return RangeError;
    }
    hide Placed, Pow, Stored, IntBytes, Untouched;
    var sub := if value < 0 then 1 else 0;
    if big {
      PutBE(buf, value, sub, offset, n);
    } else {
      PutLE(buf, value, sub, offset, n);
    }
    PlacedAll(old(buf[..]), buf[..], value, sub, offset, n, big);
    return Ok(offset + n);
  }

  // ---- writing, then reading ----

  method WriteReadUInt(buf: array<byte>, value: nat, offset: nat, n: nat, big: bool) returns (r: Result<int>)
    requires 1 <= n <= 6 && value <= Pow(n) && offset + n <= buf.Length
    modifies buf
    ensures r == Ok(value) <==> value < Pow(n)
    ensures Untouched(old(buf[..]), buf[..], offset, n)
  {
    hide Pow, Value, Stored, UIntBytes;
    var _ := WriteUInt(buf, value, offset, n, big);
    r := ReadUInt(buf, offset, n, big);
    UIntRoundTrip(value, n);
  }

  method WriteReadInt(buf: array<byte>, value: int, offset: nat, n: nat, big: bool) returns (r: Result<int>)
    requires 1 <= n <= 6 && -(Pow(n - 1) * 0x80) <= value < Pow(n - 1) * 0x80 && offset + n <= buf.Length
    modifies buf
    ensures r == Ok(value) <==> Exact(value, n)
    ensures Untouched(old(buf[..]), buf[..], offset, n)
  {
    hide Pow, Value, Stored, IntBytes, Signed, Exact;
    var _ := WriteInt(buf, value, offset, n, big);
    r := ReadInt(buf, offset, n, big);
    IntRoundTrip(value, n);
  }
}
