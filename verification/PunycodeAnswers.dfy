/** What lib/punycode.js gives for whole texts, and when its decoder refuses one. */
module PunycodeAnswers {
  import opened Ucs2
  import opened Bootstring
  import opened Punycode

  // ---- encoding ----

  /** A text of basic code points is written as it is, with the delimiter behind it. */
  lemma BasicText(input: seq<CodePoint>)
    requires forall x :: 0 <= x < |input| ==> input[x] < 0x80
    ensures EncodeCodePoints(input) == Ok(if input == [] then [] else input + [0x2D])
  {
    hide EncodeFrom;
    AllBelow(input);
    HandledEnds(input, INITIAL_N);
    Finished(input, INITIAL_N, 0, INITIAL_N, 0, INITIAL_BIAS);
    assert Basics(input) + [] == Basics(input);
  }

  lemma {:induction false} AllBelow(s: seq<CodePoint>)
    requires forall x :: 0 <= x < |s| ==> s[x] < INITIAL_N
    ensures Below(s, INITIAL_N) == s
  {
    if s != [] {
      AllBelow(s[1..]);
      assert s == [s[0]] + s[1..];
    }
  }

  lemma {:induction false} Skip(input: seq<CodePoint>, n: int, i: nat, j: nat, nd: int, id: int, bias: int)
    requires i <= j <= |input| && forall x :: i <= x < j ==> input[x] != n
    ensures EncodeFrom(input, n, i, nd, id, bias) == EncodeFrom(input, n, j, nd, id, bias)
    decreases j - i
  {
    hide EncodeFrom;
    if i < j {
      EncodeSkip(input, n, i, nd, id, bias);
      Skip(input, n, i + 1, j, nd, id, bias);
    }
  }

  /** How far it is from <nd, id> to the value m at place j. */
  function Distance(input: seq<CodePoint>, m: int, j: nat, nd: int, id: int): int
    requires j < |input|
  {
    (m - nd) * (|Below(input, m)| + 1) + |Below(input[..j], m)| - id
  }

  lemma DistanceIs(input: seq<CodePoint>, m: int, j: nat, nd: int, id: int)
    requires j < |input| && forall x :: 0 <= x < j ==> input[x] != m
    ensures |Handled(input, m, j)| == |Below(input, m)| && Delta(input, m, j, nd, id) == Distance(input, m, j, nd, id)
    ensures |Below(input[..j], m + 1)| == |Below(input[..j], m)|
  {
    hide Below;
    SameBelow(input[..j], m);
    assert input == input[..j] + input[j..];
    BelowConcat(input[..j], input[j..], m);
  }

  lemma Write(input: seq<CodePoint>, m: int, j: nat, nd: int, id: int, bias: int)
    requires j < |input| && input[j] == m && 0 <= Delta(input, m, j, nd, id) <= MAX_INT
    ensures var delta, h := Delta(input, m, j, nd, id), |Handled(input, m, j)|;
            EncodeFrom(input, m, j, nd, id, bias)
            == Prefixed(Varint(delta, BASE, bias),
                        EncodeFrom(input, m, j + 1, m, |Below(input[..j], m + 1)| + 1,
                                   Adapted(delta, h + 1, h == |Below(input, INITIAL_N)|)))
  {
    hide Below, Handled, Delta, Adapted, Varint;
  }

  /** From the value n on the encoder writes the next value m, which is at place j alone: the distance, and then the bias is
      adapted. */
  lemma Visit(input: seq<CodePoint>, n: int, m: int, j: nat, nd: int, id: int, bias: int)
    requires n <= m < 0x10FFFF && j < |input| && input[j] == m
    requires forall x :: 0 <= x < |input| && x != j ==> input[x] != m
    requires forall x :: 0 <= x < |input| ==> !(n <= input[x] < m)
    requires 0 <= Distance(input, m, j, nd, id) <= MAX_INT
    ensures var delta, h := Distance(input, m, j, nd, id), |Below(input, m)|;
            EncodeFrom(input, n, 0, nd, id, bias)
            == Prefixed(Varint(delta, BASE, bias),
                        EncodeFrom(input, m + 1, 0, m, |Below(input[..j], m)| + 1,
                                   Adapted(delta, h + 1, h == |Below(input, INITIAL_N)|)))
  {
    hide EncodeFrom, Below, Handled, Delta, Distance, Adapted, Varint, Prefixed;
    Jump(input, n, m, nd, id, bias);
    Skip(input, m, 0, j, nd, id, bias);
    DistanceIs(input, m, j, nd, id);
    Write(input, m, j, nd, id, bias);
    var delta, h := Distance(input, m, j, nd, id), |Below(input, m)|;
    SkipPass(input, m, j + 1, m, |Below(input[..j], m)| + 1, Adapted(delta, h + 1, h == |Below(input, INITIAL_N)|));
  }

  lemma {:induction false} BelowNone(s: seq<CodePoint>, n: int)
    requires forall x :: 0 <= x < |s| ==> s[x] >= n
    ensures Below(s, n) == []
  {
    if s != [] {
      BelowNone(s[1..], n);
    }
  }

  lemma {:induction false} BelowAny(s: seq<CodePoint>, n: int)
    requires forall x :: 0 <= x < |s| ==> s[x] < n
    ensures Below(s, n) == s
  {
    if s != [] {
      BelowAny(s[1..], n);
      assert s == [s[0]] + s[1..];
    }
  }

  lemma BelowPrefix(s: seq<CodePoint>, k: nat, n: int)
    requires k <= |s| && (forall x :: 0 <= x < k ==> s[x] < n) && (forall x :: k <= x < |s| ==> s[x] >= n)
    ensures Below(s, n) == Below(s[..k], n) == s[..k]
  {
    hide Below;
    assert s == s[..k] + s[k..];
    BelowConcat(s[..k], s[k..], n);
    BelowAny(s[..k], n);
    BelowNone(s[k..], n);
  }

  // ---- one code point that is not basic ----

  predicate OneAt(input: seq<CodePoint>, j: nat) {
    j < |input| && 0x80 <= input[j] < 0x10FFFF && forall x :: 0 <= x < |input| && x != j ==> input[x] < 0x80
  }

  /** How far it is from the first value and place to the one at place j. */
  function Travel(input: seq<CodePoint>, j: nat): int
    requires j < |input|
  {
    (input[j] - 0x80) * |input| + j
  }

  lemma BelowAround(input: seq<CodePoint>, j: nat, n: int)
    requires OneAt(input, j) && 0x80 <= n <= input[j]
    ensures Below(input, n) == input[..j] + input[j + 1..] && Below(input[..j], n) == input[..j]
  {
    hide Below;
    var a, b := input[..j], input[j..];
    assert input == a + b && b == [b[0]] + b[1..] && b[1..] == input[j + 1..];
    BelowConcat(a, b, n);
    BelowConcat([b[0]], b[1..], n);
    BelowAny(a, n);
    BelowAny(b[1..], n);
    BelowNone([b[0]], n);
  }

  lemma OneBelow(input: seq<CodePoint>, j: nat)
    requires OneAt(input, j)
    ensures |Below(input, input[j])| == |Below(input, 0x80)| == |input| - 1
    ensures |Below(input[..j], input[j])| == j && |Handled(input, input[j] + 1, 0)| == |input|
  {
    hide Below;
    BelowAround(input, j, 0x80);
    BelowAround(input, j, input[j]);
    BelowAny(input, input[j] + 1);
    HandledEnds(input, input[j] + 1);
  }

  lemma OneDistance(input: seq<CodePoint>, j: nat)
    requires OneAt(input, j)
    ensures Distance(input, input[j], j, 0x80, 0) == Travel(input, j) >= 0
    ensures |Handled(input, input[j] + 1, 0)| == |input|
  {
    hide Below, Handled;
    OneBelow(input, j);
    NonNegative(input[j] - 0x80, |input|);
  }

  lemma NonNegative(a: nat, b: nat)
    ensures a * b >= 0
  {
  }

  lemma OneStep(input: seq<CodePoint>, j: nat, delta: int)
    requires OneAt(input, j) && 0 <= delta == Distance(input, input[j], j, 0x80, 0) <= MAX_INT
    requires |Handled(input, input[j] + 1, 0)| == |input|
    ensures EncodeFrom(input, 0x80, 0, 0x80, 0, 72) == Ok(Varint(delta, 36, 72))
  {
    hide EncodeFrom, Varint, Adapted, Below, Distance, Handled;
    var c := input[j];
    var h, pos := |Below(input, c)|, |Below(input[..j], c)|;
    Visit(input, 0x80, c, j, 0x80, 0, 72);
    Finished(input, c + 1, 0, c, pos + 1, Adapted(delta, h + 1, h == |Below(input, INITIAL_N)|));
    assert Varint(delta, 36, 72) + [] == Varint(delta, 36, 72);
  }

  /** A text with one code point that is not basic, at place j: the others and the delimiter, and then the travel to it, with
      the initial bias. */
  lemma OneValue(input: seq<CodePoint>, j: nat)
    requires OneAt(input, j) && Travel(input, j) <= MAX_INT
    ensures var others := input[..j] + input[j + 1..];
            EncodeCodePoints(input)
            == Ok((if others == [] then [] else others + [0x2D]) + Varint(Travel(input, j), 36, 72))
  {
    hide EncodeFrom, Varint, Below, Handled, Distance, Travel;
    BelowAround(input, j, 0x80);
    OneDistance(input, j);
    OneStep(input, j, Travel(input, j));
  }

  // ---- ascending code points ----

  predicate Ascending(input: seq<CodePoint>) {
    && (forall x :: 0 <= x < |input| ==> 0x80 <= input[x] < 0x10FFFF)
    && forall x, y :: 0 <= x < y < |input| ==> input[x] < input[y]
  }

  /** The steps up from value to value, each counted once more for every code point that is there already. */
  function Steps(input: seq<CodePoint>, k: nat, from: int, bias: int): JsString
    requires k <= |input| && Ascending(input) && (k < |input| ==> from <= input[k])
    decreases |input| - k
  {
    if k == |input| then []
    else
      var delta := (input[k] - from) * (k + 1);
      Varint(delta, 36, bias) + Steps(input, k + 1, input[k], Adapted(delta, k + 1, k == 0))
  }

  lemma NextDistance(input: seq<CodePoint>, k: nat, from: int)
    requires k < |input| <= ENCODABLE_LENGTH && Ascending(input) && 0x80 <= from <= input[k]
    ensures Distance(input, input[k], k, from, k) == (input[k] - from) * (k + 1)
    ensures 0 <= (input[k] - from) * (k + 1) <= MAX_INT
    ensures |Below(input, input[k])| == |Below(input[..k], input[k])| == k && |Below(input, 0x80)| == 0
  {
    hide Below;
    BelowPrefix(input, k, input[k]);
    BelowPrefix(input, 0, 0x80);
    StepFits(input[k] - from, k + 1);
  }

  lemma StepFits(a: nat, b: nat)
    requires a <= 0x110000 && b <= ENCODABLE_LENGTH
    ensures 0 <= a * b <= MAX_INT
  {
    assert a * b <= 0x110000 * b;
  }

  lemma {:induction false} StepsFollow(input: seq<CodePoint>, k: nat, n: int, from: int, bias: int)
    requires k <= |input| <= ENCODABLE_LENGTH && Ascending(input) && 0x80 <= from <= n <= 0x10FFFF
    requires (k < |input| ==> n <= input[k]) && (forall x :: 0 <= x < k ==> input[x] < n)
    ensures EncodeFrom(input, n, 0, from, k, bias) == Ok(Steps(input, k, from, bias))
    decreases |input| - k
  {
    hide EncodeFrom, Varint, Adapted, Below, Distance;
    if k == |input| {
      BelowAny(input, n);
      HandledEnds(input, n);
      Finished(input, n, 0, from, k, bias);
    } else {
      NextDistance(input, k, from);
      var delta := (input[k] - from) * (k + 1);
      Visit(input, n, input[k], k, from, k, bias);
      StepsFollow(input, k + 1, input[k] + 1, input[k], Adapted(delta, k + 1, k == 0));
    }
  }

  /** A text in ascending order without basic code points. */
  lemma AscendingText(input: seq<CodePoint>)
    requires Ascending(input) && |input| <= ENCODABLE_LENGTH
    ensures EncodeCodePoints(input) == Ok(Steps(input, 0, 0x80, 72))
  {
    hide EncodeFrom, Steps;
    StepsFollow(input, 0, 0x80, 0x80, 72);
    BelowNone(input, 0x80);
    hide Below;
    assert [] + Steps(input, 0, 0x80, 72) == Steps(input, 0, 0x80, 72);
  }

  // ---- texts of the repository's own tests ----

  /** "ü" is written tda. */
  lemma Ue(input: seq<CodePoint>)
    requires input == [0xFC]
    ensures EncodeCodePoints(input) == Ok([0x74, 0x64, 0x61])
  {
    hide EncodeFrom, EncodeCodePoints;
    OneValue(input, 0);
    var others, digits := input[..0] + input[1..], Varint(124, 36, 72);
    assert others == [] && Travel(input, 0) == 124;
    assert digits == [0x74, 0x64, 0x61];
    assert [] + digits == digits;
  }

  lemma BooksDigits()
    ensures Varint(745, 36, 72) == [0x6B, 0x76, 0x61]
  {
  }

  /** "Bücher" is written Bcher-kva. */
  lemma Books(input: seq<CodePoint>)
    requires input == [0x42, 0xFC, 0x63, 0x68, 0x65, 0x72]
    ensures EncodeCodePoints(input) == Ok([0x42, 0x63, 0x68, 0x65, 0x72, 0x2D, 0x6B, 0x76, 0x61])
  {
    hide EncodeFrom, EncodeCodePoints, Varint;
    OneValue(input, 1);
    BooksDigits();
    var others := input[..1] + input[2..];
    assert others == [0x42, 0x63, 0x68, 0x65, 0x72] && Travel(input, 1) == 745;
    assert others + [0x2D] + [0x6B, 0x76, 0x61] == [0x42, 0x63, 0x68, 0x65, 0x72, 0x2D, 0x6B, 0x76, 0x61];
  }

  lemma FirstDigits()
    ensures Varint(25957, 36, 72) == [0x77, 0x67, 0x76]
  {
  }

  lemma SecondDigits()
    ensures Varint(654, 36, 23) == [0x37, 0x31, 0x61]
  {
  }

  lemma ThirdDigits()
    ensures Varint(27222, 36, 45) == [0x31, 0x31, 0x39, 0x65]
  {
    assert Varint(75, 108, 45) == [0x39, 0x65];
    assert Varint(777, 72, 45) == [0x31] + Varint(75, 108, 45);
  }

  lemma JapaneseBiases()
    ensures Adapted(25957, 1, true) == 23 && Adapted(654, 2, false) == 45
  {
    assert Damped(25957, true) == 37 && 37 + 37 / 1 == 74 && AdaptFrom(74, 0) == 23;
    assert Damped(654, false) == 327 && 327 + 327 / 2 == 490 && AdaptFrom(490, 0) == AdaptFrom(14, 36) == 45;
    hide AdaptFrom, Damped;
  }

  /** Three ideographs in ascending order are written wgv71a119e. */
  lemma Japanese(input: seq<CodePoint>)
    requires input == [0x65E5, 0x672C, 0x8A9E]
    ensures EncodeCodePoints(input) == Ok([0x77, 0x67, 0x76, 0x37, 0x31, 0x61, 0x31, 0x31, 0x39, 0x65])
  {
    hide EncodeFrom, EncodeCodePoints, Varint, Adapted;
    AscendingText(input);
    FirstDigits();
    SecondDigits();
    ThirdDigits();
    JapaneseBiases();
    assert (input[2] - 0x672C) * 3 == 27222 && (input[1] - 0x65E5) * 2 == 654;
    var bias := Adapted(27222, 3, false);
    assert Steps(input, 3, 0x8A9E, bias) == [];
    assert Steps(input, 2, 0x672C, 45) == [0x31, 0x31, 0x39, 0x65] + [];
    assert Steps(input, 1, 0x65E5, 23) == [0x37, 0x31, 0x61] + [0x31, 0x31, 0x39, 0x65];
    assert Steps(input, 0, 0x80, 72) == [0x77, 0x67, 0x76] + ([0x37, 0x31, 0x61] + [0x31, 0x31, 0x39, 0x65]);
    assert [0x77, 0x67, 0x76] + ([0x37, 0x31, 0x61] + [0x31, 0x31, 0x39, 0x65])
      == [0x77, 0x67, 0x76, 0x37, 0x31, 0x61, 0x31, 0x31, 0x39, 0x65];
  }

  // ---- decoding ----

  /** The decoder gives back what the encoder was given, so it knows the three texts above. */
  lemma DecodesTo(input: seq<CodePoint>, text: JsString)
    requires EncodeCodePoints(input) == Ok(text) && |input| <= SAFE_LENGTH
    ensures DecodeCodePoints(text) == Ok(input)
  {
    hide EncodeCodePoints, DecodeCodePoints;
    DecodeEncodeCodePoints(input);
  }

  lemma {:induction false} ReadNeverNotBasic(input: JsString, i: int, w: int, k: int, bias: int)
    requires w > 0
    ensures ReadVarint(input, i, w, k, bias) != Err(NotBasic)
    decreases |input|
  {
    hide BasicToDigit, Threshold;
    if input != [] {
      var digit, t := BasicToDigit(input[0]), Threshold(k, bias);
      if digit >= t && w * (BASE - t) > 0 {
        ReadNeverNotBasic(input[1..], i + digit * w, w * (BASE - t), k + BASE, bias);
      }
    }
  }

  lemma {:induction false} DecodeNeverNotBasic(input: JsString, i: int, n: int, bias: int, output: seq<int>)
    ensures DecodeFrom(input, i, n, bias, output) != Err(NotBasic)
    decreases |input|
  {
    hide ReadVarint, Adapted, Splice;
    ReadNeverNotBasic(input, i, 1, BASE, bias);
    var r := ReadVarint(input, i, 1, BASE, bias);
    if r.Ok? && r.value.0 / (|output| + 1) <= MAX_INT - n {
      var out, i' := |output| + 1, r.value.0;
      var p := Rem(i', out);
      DecodeNeverNotBasic(r.value.1, p + 1, n + i' / out, Adapted(i' - i, out, i == 0), Splice(output, p, n + i' / out));
    }
  }

  /** The decoder complains of a character that is not basic exactly when there is one before the last delimiter. */
  lemma NotBasicExactlyWhen(input: JsString)
    ensures DecodeString(input) == Err(NotBasic)
            <==> exists i, j :: 0 <= i < j < |input| && input[i] >= 0x80 && input[j] == 0x2D
  {
    hide DecodeFrom;
    var last := LastIndexOf(input, DELIMITER);
    var basic := if last < 0 then 0 else last;
    DecodeNeverNotBasic(input[if basic > 0 then basic + 1 else 0..], 0, INITIAL_N, INITIAL_BIAS, input[..basic]);
    if !AllBasic(input[..basic]) {
      var u :| u in input[..basic] && u >= 0x80;
      var i :| 0 <= i < basic && input[i] == u;
      assert input[last] == 0x2D;
    }
    if i, j :| 0 <= i < j < |input| && input[i] >= 0x80 && input[j] == 0x2D {
      assert input[i] in input[..basic];
    }
  }

  /** A text that ends in its only delimiter is what stands before it. */
  lemma BasicTextDecodes(text: JsString)
    requires text != [] && forall u :: u in text ==> u < 0x80
    ensures DecodeCodePoints(text + [0x2D]) == Ok(text)
  {
    var input := text + [0x2D];
    LastIndexUnique(input, DELIMITER, |text|);
    assert input[..|text|] == text && input[|text| + 1..] == [];
  }

  /** An integer that breaks off is an error. */
  lemma {:induction false} BrokenOff(q: nat, i: nat, w: int, k: int, bias: int, cut: nat)
    requires w > 0 && cut < |Varint(q, k, bias)|
    ensures var r := ReadVarint(Varint(q, k, bias)[..cut], i, w, k, bias); r == Err(InvalidInput) || r == Err(Overflow)
    decreases q
  {
    hide Varint, ReadVarint, Threshold, DigitToBasic;
    var t, d, q' := VarintUnfold(q, k, bias, []);
    var all := Varint(q, k, bias);
    assert all + [] == all;
    if cut == 0 {
      NothingToRead(i, w, k, bias);
      assert all[..0] == [];
    } else if q >= t {
      var tail := Varint(q', k + BASE, bias);
      assert tail + [] == tail && all[..cut] == [DigitToBasic(d)] + tail[..cut - 1];
      var i', w' := i + d * w, w * (BASE - t);
      ReadDigit(d, tail[..cut - 1], i, w, k, bias);
      NonNegative(d, w);
      if i' <= MAX_INT && w' <= MAX_INT {
        NonNegative(w - 1, BASE - t);
        BrokenOff(q', i', w', k + BASE, bias, cut - 1);
      }
    }
  }

  lemma NothingToRead(i: int, w: int, k: int, bias: int)
    requires w > 0
    ensures ReadVarint([], i, w, k, bias) == Err(InvalidInput)
  {
  }
}
