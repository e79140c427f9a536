/** Counting along sequences of slots, for handoffs and for blocks alike. */
module Slots {

  /** How many leading slots are below `s`: in increasing order, the index of the first from `s` on. */
  function CountBelow(slots: seq<int>, s: int): (n: nat)
    ensures n <= |slots|
  {
    if slots == [] || s <= slots[0] then 0 else 1 + CountBelow(slots[1..], s)
  }

  lemma {:induction false} CountBelowSplits(slots: seq<int>, s: int)
    ensures forall i :: 0 <= i < CountBelow(slots, s) ==> slots[i] < s
    ensures CountBelow(slots, s) < |slots| ==> s <= slots[CountBelow(slots, s)]
  {
    if slots != [] && slots[0] < s {
      CountBelowSplits(slots[1..], s);
      forall i | 0 <= i < CountBelow(slots, s) ensures slots[i] < s {
        if i > 0 {
          assert slots[i] == slots[1..][i - 1];
        }
      }
    }
  }

  /** The prefix it counts is the only one of its kind. */
  lemma {:induction false} CountBelowIs(slots: seq<int>, s: int, n: nat)
    requires n <= |slots|
    requires forall i :: 0 <= i < n ==> slots[i] < s
    requires n < |slots| ==> s <= slots[n]
    ensures CountBelow(slots, s) == n
  {
    if n > 0 {
      CountBelowIs(slots[1..], s, n - 1);
    }
  }

  lemma {:induction false} CountBelowMonotone(slots: seq<int>, a: int, b: int)
    requires a <= b
    ensures CountBelow(slots, a) <= CountBelow(slots, b)
  {
    if slots != [] && slots[0] < a {
      CountBelowMonotone(slots[1..], a, b);
    }
  }
}
