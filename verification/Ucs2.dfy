/** UTF-16 strings as JavaScript sees them, and the `ucs2` half of lib/punycode.js:
    code units to code points and back. */
module Ucs2 {
  type CodeUnit = u: int | 0 <= u < 0x10000
  type CodePoint = c: int | 0 <= c <= 0x10FFFF
  type JsString = seq<CodeUnit>

  predicate IsHigh(u: int) {
    0xD800 <= u <= 0xDBFF
  }

  predicate IsLow(u: int) {
    0xDC00 <= u <= 0xDFFF
  }

  function Pair(high: int, low: int): (c: int)
    ensures IsHigh(high) && IsLow(low) ==> 0x10000 <= c <= 0x10FFFF
  {
    (high % 0x400) * 0x400 + low % 0x400 + 0x10000
  }

  /** The ten bits of the high surrogate go before those of the low one. */
  lemma PairIs(high: CodeUnit, low: CodeUnit)
    requires IsHigh(high) && IsLow(low)
    ensures Pair(high, low) == 0x10000 + (high - 0xD800) * 0x400 + (low - 0xDC00)
  {
  }

  /** The code points of a string; an unmatched surrogate stands for itself. */
  function CodePoints(s: JsString): (cs: seq<CodePoint>)
  {
    if s == [] then []
    else if IsHigh(s[0]) && |s| > 1 && IsLow(s[1]) then [Pair(s[0], s[1])] + CodePoints(s[2..])
    else [s[0]] + CodePoints(s[1..])
  }

  /** The code units of one number, with the truncation of `String.fromCharCode`. */
  function Units(c: int): (s: JsString)
    ensures 1 <= |s| <= 2
  {
    if c > 0xFFFF then
      [0xD800 + (c - 0x10000) / 0x400 % 0x400, 0xDC00 + (c - 0x10000) % 0x400]
    else
      [c % 0x10000]
  }

  function CodeUnits(cs: seq<int>): (s: JsString)
  {
    if cs == [] then [] else Units(cs[0]) + CodeUnits(cs[1..])
  }

  /** CodePoints one step at a time, by index. */
  lemma CodePointsAt(s: JsString, i: nat)
    requires i < |s|
    ensures CodePoints(s[i..]) ==
            if IsHigh(s[i]) && i + 1 < |s| && IsLow(s[i + 1]) then [Pair(s[i], s[i + 1])] + CodePoints(s[i + 2..])
            else [s[i]] + CodePoints(s[i + 1..])
  {
    assert s[i..][1..] == s[i + 1..];
    if i + 1 < |s| {
      assert s[i..][2..] == s[i + 2..];
    }
  }

  /** `ucs2decode`: the scan that looks one unit ahead and steps back when it is not a low surrogate. */
  method Ucs2Decode(s: JsString) returns (output: seq<CodePoint>)
    ensures output == CodePoints(s)
  {
    hide CodePoints, Pair;
    output := [];
    var counter := 0;
    assert s[0..] == s;
    while counter < |s|
      invariant 0 <= counter <= |s|
      invariant output + CodePoints(s[counter..]) == CodePoints(s)
      decreases |s| - counter
    {
      CodePointsAt(s, counter);
      var value: int := s[counter];
      counter := counter + 1;
      if 0xD800 <= value <= 0xDBFF && counter < |s| {
        var extra: int := s[counter];
        counter := counter + 1;
        if 0xDC00 <= extra <= 0xDFFF {
          output := output + [Pair(value, extra)];
        } else {
          output := output + [value];
          counter := counter - 1;
        }
      } else {
        output := output + [value];
      }
    }
    assert s[counter..] == [];
    CodePointsEmpty();
  }

  lemma CodePointsLength(s: JsString)
    ensures |CodePoints(s)| <= |s|
  {
  }

  lemma CodePointsEmpty()
    ensures CodePoints([]) == []
  {
  }

  /** `ucs2encode`: `map` walks the array from its end, then joins. */
  method Ucs2Encode(cs: seq<int>) returns (output: JsString)
    ensures output == CodeUnits(cs)
  {
    output := [];
    var length := |cs|;
    while length > 0
      invariant 0 <= length <= |cs|
      invariant output == CodeUnits(cs[length..])
    {
      length := length - 1;
      assert cs[length..][1..] == cs[length + 1..];
      output := Units(cs[length]) + output;
    }
    assert cs[0..] == cs;
  }

  lemma UnitsOfPair(high: CodeUnit, low: CodeUnit)
    requires IsHigh(high) && IsLow(low)
    ensures Units(Pair(high, low)) == [high, low]
  {
    var h, l := high - 0xD800, low - 0xDC00;
    assert high % 0x400 == h && low % 0x400 == l;
    assert (h * 0x400 + l) / 0x400 == h && (h * 0x400 + l) % 0x400 == l;
  }

  lemma UnitsOfUnit(u: CodeUnit)
    ensures Units(u) == [u]
  {
  }

  lemma CodeUnitsCons(c: int, cs: seq<int>)
    ensures CodeUnits([c] + cs) == Units(c) + CodeUnits(cs)
  {
    assert ([c] + cs)[1..] == cs;
  }

  /** Every string, well-formed or not, survives the trip through code points. */
  lemma {:induction false} CodeUnitsOfCodePoints(s: JsString)
    ensures CodeUnits(CodePoints(s)) == s
  {
    if s != [] {
      CodePointsAt(s, 0);
      assert s[0..] == s;
      hide CodePoints, CodeUnits, Units, Pair;
      if IsHigh(s[0]) && |s| > 1 && IsLow(s[1]) {
        UnitsOfPair(s[0], s[1]);
        CodeUnitsCons(Pair(s[0], s[1]), CodePoints(s[2..]));
        CodeUnitsOfCodePoints(s[2..]);
        assert s == [s[0], s[1]] + s[2..];
      } else {
        UnitsOfUnit(s[0]);
        CodeUnitsCons(s[0], CodePoints(s[1..]));
        CodeUnitsOfCodePoints(s[1..]);
        assert s == [s[0]] + s[1..];
      }
    }
  }

  /** A lone high surrogate right before a lone low surrogate. */
  ghost predicate SplitPairAt(cs: seq<CodePoint>, i: int) {
    0 <= i < |cs| - 1 && IsHigh(cs[i]) && IsLow(cs[i + 1])
  }

  ghost predicate HasSplitPair(cs: seq<CodePoint>) {
    exists i :: SplitPairAt(cs, i)
  }

  lemma HasSplitPairCons(cs: seq<CodePoint>)
    requires cs != []
    ensures HasSplitPair(cs) <==> SplitPairAt(cs, 0) || HasSplitPair(cs[1..])
  {
    if HasSplitPair(cs) && !SplitPairAt(cs, 0) {
      var i :| SplitPairAt(cs, i);
      assert SplitPairAt(cs[1..], i - 1);
    }
    if HasSplitPair(cs[1..]) {
      var i :| SplitPairAt(cs[1..], i);
      assert SplitPairAt(cs, i + 1);
    }
  }

  lemma CodePointsUnfold(c: CodePoint, s: JsString)
    requires !(IsHigh(c) && s != [] && IsLow(s[0]))
    ensures CodePoints(Units(c) + s) == [c] + CodePoints(s)
  {
    var t := Units(c) + s;
    CodePointsAt(t, 0);
    assert t[0..] == t;
    if c > 0xFFFF {
      PairOfUnits(c);
      assert t[2..] == s;
    } else {
      UnitsOfUnit(c);
      assert t[1..] == s;
    }
    hide CodePoints, Units, Pair;
  }

  lemma PairOfUnits(c: CodePoint)
    requires c > 0xFFFF
    ensures |Units(c)| == 2 && IsHigh(Units(c)[0]) && IsLow(Units(c)[1]) && Pair(Units(c)[0], Units(c)[1]) == c
  {
    var d := c - 0x10000;
    var h, l := d / 0x400, d % 0x400;
    assert h < 0x400 && d == h * 0x400 + l;
    assert (0xD800 + h) % 0x400 == h && (0xDC00 + l) % 0x400 == l;
  }

  lemma CodeUnitsHead(cs: seq<CodePoint>)
    requires cs != []
    ensures IsLow(CodeUnits(cs)[0]) <==> IsLow(cs[0])
  {
  }

  /** Two lone surrogates that meet fuse into one code point. */
  lemma CodePointsFuse(high: CodePoint, low: CodePoint, s: JsString)
    requires IsHigh(high) && IsLow(low)
    ensures CodePoints(Units(high) + (Units(low) + s)) == [Pair(high, low)] + CodePoints(s)
  {
    assert (Units(high) + (Units(low) + s))[2..] == s;
  }

  /** The trip never makes a sequence longer. */
  lemma {:induction false} CodePointsOfCodeUnitsLength(cs: seq<CodePoint>)
    ensures |CodePoints(CodeUnits(cs))| <= |cs|
  {
    if cs != [] {
      var rest := cs[1..];
      CodePointsOfCodeUnitsLength(rest);
      if SplitPairAt(cs, 0) {
        CodePointsOfCodeUnitsLength(rest[1..]);
        CodePointsFuse(cs[0], rest[0], CodeUnits(rest[1..]));
      } else {
        if rest != [] {
          CodeUnitsHead(rest);
        }
        CodePointsUnfold(cs[0], CodeUnits(rest));
      }
    }
  }

  /** In the other direction the trip is exact unless two lone surrogates meet and fuse. */
  lemma {:induction false} CodePointsOfCodeUnits(cs: seq<CodePoint>)
    ensures CodePoints(CodeUnits(cs)) == cs <==> !HasSplitPair(cs)
  {
    if cs != [] {
      var rest := cs[1..];
      HasSplitPairCons(cs);
      CodePointsOfCodeUnits(rest);
      if SplitPairAt(cs, 0) {
        CodePointsFuse(cs[0], rest[0], CodeUnits(rest[1..]));
        CodePointsOfCodeUnitsLength(rest[1..]);
      } else {
        if rest != [] {
          CodeUnitsHead(rest);
        }
        CodePointsUnfold(cs[0], CodeUnits(rest));
        assert cs == [cs[0]] + rest;
      }
    }
  }
}
