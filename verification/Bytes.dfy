// Byte strings, and the one escape both stream protocols share: a literal
// 0xFF travels as two of them.
module Bytes {

  type byte = bv8

  const ESCAPE: byte := 0xFF

  /** `data.replace(b'\xff', b'\xff\xff')` */
  function Doubled(data: seq<byte>): seq<byte> {
    if data == [] then []
    else (if data[0] == ESCAPE then [ESCAPE, ESCAPE] else [data[0]]) + Doubled(data[1..])
  }

  /** The bytes of all chunks, in order. */
  function Concat(chunks: seq<seq<byte>>): seq<byte> {
    if chunks == [] then [] else chunks[0] + Concat(chunks[1..])
  }

  lemma {:induction false} DoubledConcat(a: seq<byte>, b: seq<byte>)
    ensures Doubled(a + b) == Doubled(a) + Doubled(b)
  {
    if a == [] {
      assert a + b == b;
    } else {
      assert (a + b)[1..] == a[1..] + b;
      DoubledConcat(a[1..], b);
    }
  }

  lemma {:induction false} ConcatSnoc(chunks: seq<seq<byte>>, last: seq<byte>)
    ensures Concat(chunks + [last]) == Concat(chunks) + last
  {
    if chunks == [] {
      assert chunks + [last] == [last];
      assert Concat([last]) == last + Concat([]);
    } else {
      assert (chunks + [last])[1..] == chunks[1..] + [last];
      ConcatSnoc(chunks[1..], last);
    }
  }

  lemma SplitAt(data: seq<byte>, index: nat)
    requires index < |data|
    ensures data == data[..index] + [data[index]] + data[index + 1..]
  {
  }

  /** Where `b` first occurs: `data.index(b)`. */
  method IndexOf(data: seq<byte>, b: byte) returns (index: nat)
    requires b in data
    ensures index < |data| && data[index] == b
    ensures b !in data[..index]
  {
    index := 0;
    while data[index] != b
      invariant index < |data|
      invariant b !in data[..index]
      invariant b in data[index..]
      decreases |data| - index
    {
      index := index + 1;
    }
  }
}
