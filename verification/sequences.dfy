/** What the models share about sequences. */
module Sequences {

  function Flatten<T>(chunks: seq<seq<T>>): seq<T> {
    if chunks == [] then [] else chunks[0] + Flatten(chunks[1..])
  }

  lemma {:induction false} FlattenOneMore<T>(chunks: seq<seq<T>>, n: nat)
    requires n < |chunks|
    ensures Flatten(chunks[..n + 1]) == Flatten(chunks[..n]) + chunks[n]
  {
    if n == 0 {
      assert chunks[..1] == [chunks[0]];
    } else {
      FlattenOneMore(chunks[1..], n - 1);
      assert chunks[..n + 1][1..] == chunks[1..][..n] && chunks[..n][1..] == chunks[1..][..n - 1];
    }
  }
}
