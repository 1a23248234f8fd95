/** Bytes as the codecs see them. Bit fields that do not overlap are put together with `+` and taken
    apart with `/` and `%`, which is what `|`, `>>` and `&` compute on them. */
module Bytes {
  type Byte = x: int | 0 <= x < 256

  type Bytes = seq<Byte>

  function Flatten(parts: seq<Bytes>): Bytes {
    if parts == [] then [] else parts[0] + Flatten(parts[1..])
  }

  lemma {:induction false} FlattenConcat(a: seq<Bytes>, b: seq<Bytes>)
    ensures Flatten(a + b) == Flatten(a) + Flatten(b)
  {
    if a == [] {
      assert a + b == b;
    } else {
      assert (a + b)[1..] == a[1..] + b;
      FlattenConcat(a[1..], b);
    }
  }
}
