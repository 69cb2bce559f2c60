/** Sequences of calls on a mode: the pieces of a text, and which of them go through the fast form. */
module Calls {
  /** A call on the next len bytes: encrypt or decrypt, or the fast form of the same. */
  datatype Call = Slow(len: nat) | Fast(len: nat)

  function Total(calls: seq<Call>): nat {
    if calls == [] then 0 else Total(calls[..|calls| - 1]) + calls[|calls| - 1].len
  }

  /** Fast calls take whole blocks of 16 bytes at a block boundary, in one pass of their loops. */
  predicate Aligned(calls: seq<Call>) {
    forall i :: 0 <= i < |calls| && calls[i].Fast? ==>
      Total(calls[..i]) % 16 == 0 && calls[i].len % 16 == 0 && calls[i].len <= 4096
  }

  predicate AllSlow(calls: seq<Call>) {
    forall i :: 0 <= i < |calls| ==> calls[i].Slow?
  }

  lemma TotalNext(calls: seq<Call>, i: nat)
    requires i < |calls|
    ensures Total(calls[..i + 1]) == Total(calls[..i]) + calls[i].len
  {
    assert calls[..i + 1][..i] == calls[..i];
  }

  lemma {:induction false} TotalUpTo(calls: seq<Call>, i: nat)
    requires i <= |calls|
    ensures Total(calls[..i]) <= Total(calls)
    decreases |calls| - i
  {
    if i == |calls| {
      assert calls[..i] == calls;
    } else {
      TotalNext(calls, i);
      TotalUpTo(calls, i + 1);
    }
  }

  lemma NoCalls(calls: seq<Call>)
    ensures Total(calls[..0]) == 0
  {}

  lemma AlignedAt(calls: seq<Call>, i: nat)
    requires i < |calls|
    ensures Aligned(calls) && calls[i].Fast? ==>
              Total(calls[..i]) % 16 == 0 && calls[i].len % 16 == 0 && calls[i].len <= 4096
    ensures AllSlow(calls) ==> calls[i].Slow?
  {
    hide Total;
  }
}
