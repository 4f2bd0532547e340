/** Optional values, 32-bit wrap-around, and the few facts about concatenation the proofs lean on. */
module Wrappers {
  datatype Option<+T> = None | Some(value: T)

  const U32_MODULUS: nat := 0x1_0000_0000

  // `as u32`, and the result of arithmetic on a wrapping 32-bit counter.
  function Wrap32(n: nat): (r: nat)
    ensures r < U32_MODULUS
    ensures n < U32_MODULUS ==> r == n
  {
    n % 0x1_0000_0000
  }

  // A wrapping decrement of a counter that is not zero.
  lemma WrapDecrement(n: nat)
    requires 0 < n < U32_MODULUS
    ensures Wrap32(n + U32_MODULUS - 1) == n - 1
  {
  }

  // The elements of a list.
  ghost function Elements<T(!new)>(s: seq<T>): set<T> {
    set x | x in s
  }

  lemma ElementsSnoc<T(!new)>(s: seq<T>, x: T)
    ensures Elements(s + [x]) == Elements(s) + {x}
  {
  }

  lemma SubsetSize<T>(a: set<T>, b: set<T>)
    requires a <= b
    ensures |a| <= |b|
  {
    assert b == a + (b - a);
  }

  lemma ConcatAssociative<T>(a: seq<T>, b: seq<T>, c: seq<T>)
    ensures (a + b) + c == a + (b + c)
  {
  }

  lemma HeadAndTail<T>(s: seq<T>)
    requires s != []
    ensures [s[0]] + s[1..] == s
  {
  }

  // The bytes of a list of chunks.
  function Flatten<T>(chunks: seq<seq<T>>): seq<T> {
    if chunks == [] then [] else chunks[0] + Flatten(chunks[1..])
  }

  lemma {:induction false} FlattenConcat<T>(a: seq<seq<T>>, b: seq<seq<T>>)
    ensures Flatten(a + b) == Flatten(a) + Flatten(b)
  {
    if a == [] {
      assert a + b == b;
    } else {
      FlattenConcat(a[1..], b);
      assert (a + b)[1..] == a[1..] + b;
      ConcatAssociative(a[0], Flatten(a[1..]), Flatten(b));
    }
  }

  // Reading chunks one at a time.
  lemma FlattenTake<T>(chunks: seq<seq<T>>, k: nat)
    requires k < |chunks|
    ensures Flatten(chunks[..k + 1]) == Flatten(chunks[..k]) + chunks[k]
    ensures Flatten(chunks) == Flatten(chunks[..k]) + Flatten(chunks[k..])
  {
    FlattenConcat(chunks[..k], [chunks[k]]);
    assert Flatten([chunks[k]]) == chunks[k] + Flatten<T>([]);
    assert chunks[..k + 1] == chunks[..k] + [chunks[k]];
    FlattenConcat(chunks[..k], chunks[k..]);
    assert chunks == chunks[..k] + chunks[k..];
  }
}
