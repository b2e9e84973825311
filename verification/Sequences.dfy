/** Small notions that several parts of the model share. */
module Sequences {
  function Min(a: int, b: int): int { if a < b then a else b }

  function Max(a: int, b: int): (m: int)
    ensures m >= a && m >= b && (m == a || m == b)
  {
    if a < b then b else a
  }

  /** Everything in the chunks, in order. */
  function Concat<T>(chunks: seq<seq<T>>): seq<T> {
    if |chunks| == 0 then [] else Concat(chunks[..|chunks| - 1]) + chunks[|chunks| - 1]
  }

  lemma {:induction false} PrefixOfConcat<T>(chunks: seq<seq<T>>, k: nat) returns (rest: seq<T>)
    requires k <= |chunks|
    ensures Concat(chunks) == Concat(chunks[..k]) + rest
    decreases |chunks|
  {
    if k == |chunks| {
      assert chunks[..k] == chunks;
      rest := [];
    } else {
      var front := chunks[..|chunks| - 1];
      rest := PrefixOfConcat(front, k);
      assert front[..k] == chunks[..k];
      rest := rest + chunks[|chunks| - 1];
    }
  }

  lemma Associates<T>(a: seq<T>, b: seq<T>, c: seq<T>)
    ensures a + (b + c) == a + b + c
  {
  }
}
