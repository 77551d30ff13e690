/** Byte sequences and their concatenation (`Buffer.concat`). */
module Bytes {
  type byte = b: int | 0 <= b < 256
  type Bytes = seq<byte>

  function Concat(list: seq<Bytes>): Bytes {
    if list == [] then [] else list[0] + Concat(list[1..])
  }

  lemma ConcatConcat(a: seq<Bytes>, b: seq<Bytes>)
    ensures Concat(a + b) == Concat(a) + Concat(b)
  {
    if a == [] {
      assert a + b == b;
    } else {
      assert (a + b)[1..] == a[1..] + b;
      ConcatConcat(a[1..], b);
    }
  }

  lemma ConcatOne(b: Bytes)
    ensures Concat([b]) == b
  {
    assert [b][1..] == [];
  }
}
