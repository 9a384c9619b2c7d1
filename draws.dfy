/**
 * Randomness as an input. CPython draws every random choice the quiz builder
 * makes through `randbelow(n)`: `randint(1, 99)` is `1 + randbelow(99)` and
 * `shuffle` swaps position `i` with `randbelow(i + 1)` for `i` from the last
 * position down to 1. A stream supplies the successive values; each is reduced
 * modulo its bound, so every sequence of outcomes is the reading of some stream.
 * An operation that needs a value when the stream is empty gives None.
 */
module Draws {
  import opened Wrappers

  type Stream = seq<nat>

  /** `rest` is what is left of `s` after some values were read from it. */
  predicate Consumed(rest: Stream, s: Stream) {
    |rest| <= |s| && rest == s[|s| - |rest|..]
  }

  lemma ConsumedTrans(a: Stream, b: Stream, c: Stream)
    requires Consumed(a, b) && Consumed(b, c)
    ensures Consumed(a, c)
  {
  }

  /** `randint(1, 99)`: the value read and the stream after it. */
  function RandInt1To99(s: Stream): (r: Option<(int, Stream)>)
    ensures r.None? <==> s == []
    ensures r.Some? ==> 1 <= r.value.0 <= 99 && r.value.1 == s[1..]
  {
    if s == [] then None else Some((1 + s[0] % 99, s[1..]))
  }

  function Swap<T>(xs: seq<T>, i: nat, j: nat): (r: seq<T>)
    requires i < |xs| && j < |xs|
    ensures |r| == |xs| && multiset(r) == multiset(xs)
  {
    xs[i := xs[j]][j := xs[i]]
  }

  /** The swaps of `random.shuffle` at positions `i`, `i - 1`, ..., 1. */
  function ShuffleFrom<T>(xs: seq<T>, i: nat, s: Stream): (r: Option<(seq<T>, Stream)>)
    requires i < |xs|
    ensures r.Some? <==> |s| >= i
    ensures r.Some? ==> |r.value.0| == |xs| && multiset(r.value.0) == multiset(xs) && r.value.1 == s[i..]
    decreases i
  {
    if i == 0 then Some((xs, s))
    else if s == [] then None
    else ShuffleFrom(Swap(xs, i, s[0] % (i + 1)), i - 1, s[1..])
  }

  /**
   * `random.shuffle(xs)`: a permutation of `xs`, reading one value per
   * position after the first.
   */
  function Shuffle<T>(xs: seq<T>, s: Stream): (r: Option<(seq<T>, Stream)>)
    ensures r.Some? <==> |s| >= |xs| - 1
    ensures r.Some? ==> multiset(r.value.0) == multiset(xs) && |r.value.0| == |xs|
    ensures r.Some? ==> r.value.1 == s[if |xs| <= 1 then 0 else |xs| - 1..]
  {
    if |xs| <= 1 then Some((xs, s)) else ShuffleFrom(xs, |xs| - 1, s)
  }

  /** No two elements with the same key, by position. */
  predicate DistinctBy<T>(xs: seq<T>, key: T -> string) {
    forall i, j :: 0 <= i < j < |xs| ==> key(xs[i]) != key(xs[j])
  }

  /** A swap keeps the elements' keys apart. */
  lemma SwapDistinctBy<T>(xs: seq<T>, i: nat, j: nat, key: T -> string)
    requires i < |xs| && j < |xs| && DistinctBy(xs, key)
    ensures DistinctBy(Swap(xs, i, j), key)
  {
    var r := Swap(xs, i, j);
    var pos := (p: nat) requires p < |xs| => if p == i then j else if p == j then i else p;
    forall p, q | 0 <= p < q < |r|
      ensures key(r[p]) != key(r[q])
    {
      assert r[p] == xs[pos(p)] && r[q] == xs[pos(q)];
      if pos(p) > pos(q) {
        assert key(xs[pos(q)]) != key(xs[pos(p)]);
      }
    }
  }

  /** Shuffling keeps elements with distinct keys distinct. */
  lemma {:induction false} ShuffleFromDistinctBy<T>(xs: seq<T>, i: nat, s: Stream, key: T -> string)
    requires i < |xs| && DistinctBy(xs, key) && |s| >= i
    ensures DistinctBy(ShuffleFrom(xs, i, s).value.0, key)
    decreases i
  {
    if i > 0 {
      SwapDistinctBy(xs, i, s[0] % (i + 1), key);
      ShuffleFromDistinctBy(Swap(xs, i, s[0] % (i + 1)), i - 1, s[1..], key);
    }
  }

  lemma ShuffleDistinctBy<T>(xs: seq<T>, s: Stream, key: T -> string)
    requires DistinctBy(xs, key) && |s| >= |xs| - 1
    ensures DistinctBy(Shuffle(xs, s).value.0, key)
  {
    if |xs| > 1 {
      ShuffleFromDistinctBy(xs, |xs| - 1, s, key);
    }
  }
}
