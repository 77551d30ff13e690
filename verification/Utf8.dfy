/** UTF-8 (section 3 of RFC 3629) over scalar values. */
module Utf8 {
  import opened Bytes

  /** A code point that is not a surrogate. */
  type Scalar = c: int | 0 <= c <= 0x10FFFF && !(0xD800 <= c <= 0xDFFF)

  /** The size a first byte announces; 0 for a byte that cannot come first. */
  function LeadSize(b: byte): (n: nat)
    ensures n <= 4
  {
    if b < 0x80 then 1
    else if b / 32 == 6 then 2
    else if b / 16 == 14 then 3
    else if b / 8 == 30 then 4
    else 0
  }

  function Tail(n: nat): (b: byte)
    ensures LeadSize(b) == 0 && 0x80 <= b < 0xC0
  {
    0x80 + n % 64
  }

  function Encode(c: Scalar): (r: Bytes)
    ensures 1 <= |r| <= 4 && LeadSize(r[0]) == |r| && forall k :: 1 <= k < |r| ==> LeadSize(r[k]) == 0
    ensures |r| == (if c < 0x80 then 1 else if c < 0x800 then 2 else if c < 0x10000 then 3 else 4)
  {
    if c < 0x80 then [c]
    else if c < 0x800 then [0xC0 + c / 64, Tail(c)]
    else if c < 0x10000 then [0xE0 + c / 4096, Tail(c / 64), Tail(c)]
    else [0xF0 + c / 262144, Tail(c / 4096), Tail(c / 64), Tail(c)]
  }

  function EncodeAll(text: seq<Scalar>): Bytes {
    if text == [] then [] else Encode(text[0]) + EncodeAll(text[1..])
  }

  lemma {:induction false} EncodeAllConcat(a: seq<Scalar>, b: seq<Scalar>)
    ensures EncodeAll(a + b) == EncodeAll(a) + EncodeAll(b)
  {
    if a == [] {
      assert a + b == b;
    } else {
      assert (a + b)[1..] == a[1..] + b;
      EncodeAllConcat(a[1..], b);
    }
  }

  /** The code point a character's bytes stand for. */
  function Value(r: seq<int>): int {
    if |r| == 1 then r[0]
    else if |r| == 2 then (r[0] - 0xC0) * 64 + (r[1] - 0x80)
    else if |r| == 3 then (r[0] - 0xE0) * 4096 + (r[1] - 0x80) * 64 + (r[2] - 0x80)
    else if |r| == 4 then (r[0] - 0xF0) * 262144 + (r[1] - 0x80) * 4096 + (r[2] - 0x80) * 64 + (r[3] - 0x80)
    else 0
  }

  lemma Digits(c: nat)
    ensures c == 64 * (c / 64) + c % 64
    ensures c / 64 == 64 * (c / 4096) + c / 64 % 64
    ensures c / 4096 == 64 * (c / 262144) + c / 4096 % 64
  {
  }

  lemma ValueOfEncode(c: Scalar)
    ensures Value(Encode(c)) == c
  {
    Digits(c);
  }

  /** Valid bytes stand for one text only. */
  lemma {:induction false} EncodeAllInjective(a: seq<Scalar>, b: seq<Scalar>)
    requires EncodeAll(a) == EncodeAll(b)
    ensures a == b
  {
    if a == [] || b == [] {
      assert a != [] ==> EncodeAll(a) != [];
      assert b != [] ==> EncodeAll(b) != [];
    } else {
      var x, y := Encode(a[0]), Encode(b[0]);
      assert EncodeAll(a)[0] == x[0] && EncodeAll(b)[0] == y[0];
      assert EncodeAll(a)[..|x|] == x && EncodeAll(b)[..|x|] == y;
      assert EncodeAll(a)[|x|..] == EncodeAll(a[1..]) && EncodeAll(b)[|x|..] == EncodeAll(b[1..]);
      ValueOfEncode(a[0]);
      ValueOfEncode(b[0]);
      EncodeAllInjective(a[1..], b[1..]);
      assert a == [a[0]] + a[1..] && b == [b[0]] + b[1..];
    }
  }

  // ---- positions in an encoded text ----

  /** The start of the character that byte n belongs to or would begin, its size (0 at the end of the text), and the
      number of characters before it. */
  function Start(text: seq<Scalar>, n: nat): (p: nat)
    ensures p <= n
  {
    if text == [] then n
    else if n < |Encode(text[0])| then 0
    else |Encode(text[0])| + Start(text[1..], n - |Encode(text[0])|)
  }

  function Size(text: seq<Scalar>, n: nat): (k: nat)
    ensures k <= 4
  {
    if text == [] then 0
    else if n < |Encode(text[0])| then |Encode(text[0])|
    else Size(text[1..], n - |Encode(text[0])|)
  }

  function Whole(text: seq<Scalar>, n: nat): (k: nat)
    ensures k <= |text|
  {
    if text == [] || n < |Encode(text[0])| then 0
    else 1 + Whole(text[1..], n - |Encode(text[0])|)
  }

  lemma {:induction false} StartBounds(text: seq<Scalar>, n: nat)
    requires n <= |EncodeAll(text)|
    ensures if n < |EncodeAll(text)| then n < Start(text, n) + Size(text, n) <= |EncodeAll(text)|
            else Start(text, n) == n && Size(text, n) == 0
  {
    if text != [] && n >= |Encode(text[0])| {
      StartBounds(text[1..], n - |Encode(text[0])|);
    }
  }

  lemma {:induction false} StartStays(text: seq<Scalar>, n: nat, m: nat)
    requires Start(text, n) <= m < Start(text, n) + Size(text, n)
    ensures Start(text, m) == Start(text, n) && Size(text, m) == Size(text, n) && Whole(text, m) == Whole(text, n)
  {
    if text != [] && n >= |Encode(text[0])| {
      StartStays(text[1..], n - |Encode(text[0])|, m - |Encode(text[0])|);
    }
  }

  lemma {:induction false} StartNext(text: seq<Scalar>, n: nat)
    ensures var e := Start(text, n) + Size(text, n);
            Size(text, n) > 0 ==> Start(text, e) == e && Whole(text, e) == Whole(text, n) + 1
  {
    if text != [] {
      if n >= |Encode(text[0])| {
        StartNext(text[1..], n - |Encode(text[0])|);
      } else {
        assert Start(text[1..], 0) == 0;
      }
    }
  }

  lemma {:induction false} StartGrows(text: seq<Scalar>, n: nat, m: nat)
    requires n <= m
    ensures Start(text, n) <= Start(text, m) && Whole(text, n) <= Whole(text, m)
  {
    if text != [] && n >= |Encode(text[0])| {
      StartGrows(text[1..], n - |Encode(text[0])|, m - |Encode(text[0])|);
    }
  }

  /** A byte that can come first does come first, and announces the size. */
  lemma {:induction false} LeadStarts(text: seq<Scalar>, q: nat)
    requires q < |EncodeAll(text)|
    ensures LeadSize(EncodeAll(text)[q]) == (if Start(text, q) == q then Size(text, q) else 0)
    ensures Size(text, q) > 0
  {
    var x := Encode(text[0]);
    if q < |x| {
      assert EncodeAll(text)[q] == x[q];
    } else {
      assert EncodeAll(text)[q] == EncodeAll(text[1..])[q - |x|];
      LeadStarts(text[1..], q - |x|);
    }
  }

  lemma {:induction false} StartSlice(text: seq<Scalar>, n: nat)
    requires n <= |EncodeAll(text)|
    ensures EncodeAll(text)[..Start(text, n)] == EncodeAll(text[..Whole(text, n)])
  {
    if text != [] && n >= |Encode(text[0])| {
      var x := Encode(text[0]);
      StartSlice(text[1..], n - |x|);
      var k := Whole(text, n);
      assert text[..k][1..] == text[1..][..k - 1];
      assert EncodeAll(text)[..Start(text, n)] == x + EncodeAll(text[1..])[..Start(text[1..], n - |x|)];
    }
  }

  /** The bytes between two starts are those of the characters between them. */
  lemma BetweenStarts(text: seq<Scalar>, n: nat, m: nat)
    requires n <= m <= |EncodeAll(text)|
    ensures Start(text, n) <= Start(text, m) && Whole(text, n) <= Whole(text, m)
    ensures EncodeAll(text)[Start(text, n)..Start(text, m)] == EncodeAll(text[Whole(text, n)..Whole(text, m)])
  {
    StartGrows(text, n, m);
    StartSlice(text, n);
    StartSlice(text, m);
    var a, b := text[..Whole(text, n)], text[Whole(text, n)..Whole(text, m)];
    assert text[..Whole(text, m)] == a + b;
    EncodeAllConcat(a, b);
    var t := EncodeAll(text);
    assert t[..Start(text, m)] == t[..Start(text, n)] + t[Start(text, n)..Start(text, m)];
  }
}
