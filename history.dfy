/**
 * The page's history lists (notes and quizzes): a new entry goes first and the
 * list is cut to its capacity; deleting removes every entry with the given id.
 */
module History {
  import opened Seqs

  /** A history entry: an id (a creation timestamp on the page) and what it records. */
  datatype Entry<P> = Entry(id: int, payload: P)

  /** The notes history keeps at most 40 entries. */
  const NotesCapacity: nat := 40

  /** The quiz history keeps at most 50 entries. */
  const QuizCapacity: nat := 50

  function Min(a: nat, b: nat): nat { if a < b then a else b }

  /** `[e, ...h].slice(0, cap)`. */
  function Prepend<P>(h: seq<Entry<P>>, e: Entry<P>, cap: nat): (r: seq<Entry<P>>)
    ensures |r| == Min(cap, |h| + 1)
    ensures cap >= 1 ==> r[0] == e
    ensures forall j :: 1 <= j < |r| ==> r[j] == h[j - 1]
  {
    ([e] + h)[..Min(cap, |h| + 1)]
  }

  /** `h.filter((it) => it.id !== id)`. */
  function Delete<P>(h: seq<Entry<P>>, id: int): (r: seq<Entry<P>>)
    ensures |r| <= |h|
    ensures forall j :: 0 <= j < |r| ==> r[j].id != id
  {
    if h == [] then []
    else (if h[0].id == id then [] else [h[0]]) + Delete(h[1..], id)
  }

  /** Delete keeps exactly the entries whose id differs. */
  lemma {:induction false} DeleteMembers<P>(h: seq<Entry<P>>, id: int)
    ensures forall x :: x in Delete(h, id) <==> x in h && x.id != id
  {
    if h != [] {
      DeleteMembers(h[1..], id);
      assert h == [h[0]] + h[1..];
    }
  }

  /** The kept entries stay in their order. */
  lemma {:induction false} DeleteKeepsOrder<P>(h: seq<Entry<P>>, id: int)
    ensures IsSubsequence(Delete(h, id), h)
  {
    if h != [] {
      DeleteKeepsOrder(h[1..], id);
      if h[0].id == id {
        assert Delete(h, id) == Delete(h[1..], id);
        SubsequenceExtend(Delete(h[1..], id), h);
      } else {
        assert Delete(h, id) == [h[0]] + Delete(h[1..], id);
        assert Delete(h, id)[1..] == Delete(h[1..], id);
      }
    }
  }

  /** Deleting an id no entry has changes nothing. */
  lemma {:induction false} DeleteAbsent<P>(h: seq<Entry<P>>, id: int)
    requires forall j :: 0 <= j < |h| ==> h[j].id != id
    ensures Delete(h, id) == h
  {
    if h != [] {
      DeleteAbsent(h[1..], id);
      assert [h[0]] + h[1..] == h;
    }
  }

  /** Deleting twice is deleting once. */
  lemma DeleteIdempotent<P>(h: seq<Entry<P>>, id: int)
    ensures Delete(Delete(h, id), id) == Delete(h, id)
  {
    DeleteAbsent(Delete(h, id), id);
  }

  /**
   * Deleting the entry just added with a fresh id gives back the earlier
   * entries that survived the cut, in their order.
   */
  lemma DeleteNewest<P>(h: seq<Entry<P>>, e: Entry<P>, cap: nat)
    requires cap >= 1
    requires forall j :: 0 <= j < |h| ==> h[j].id != e.id
    ensures Delete(Prepend(h, e, cap), e.id) == h[..Min(cap, |h| + 1) - 1]
  {
    var r := Prepend(h, e, cap);
    assert r == [e] + r[1..];
    assert r[1..] == h[..|r| - 1];
    DeleteAbsent(r[1..], e.id);
  }

  /** Reversal, for the newest-first order of entries added one after another. */
  function Reverse<T>(s: seq<T>): (r: seq<T>)
    ensures |r| == |s|
  {
    if s == [] then [] else Reverse(s[1..]) + [s[0]]
  }

  /** Adding `es` one after another, oldest first. */
  function PrependAll<P>(h: seq<Entry<P>>, es: seq<Entry<P>>, cap: nat): seq<Entry<P>>
    decreases |es|
  {
    if es == [] then h else PrependAll(Prepend(h, es[0], cap), es[1..], cap)
  }

  /**
   * After adding several entries the history holds the newest `cap` entries
   * of everything added, newest first.
   */
  lemma {:induction false} PrependAllKeepsNewest<P>(h: seq<Entry<P>>, es: seq<Entry<P>>, cap: nat)
    requires |h| <= cap
    ensures PrependAll(h, es, cap) == (Reverse(es) + h)[..Min(cap, |es| + |h|)]
    decreases |es|
  {
    if es != [] {
      var h1 := Prepend(h, es[0], cap);
      PrependAllKeepsNewest(h1, es[1..], cap);
      var n := Min(cap, |es| + |h|);
      var n1 := Min(cap, |es| - 1 + |h1|);
      assert h1 == ([es[0]] + h)[..Min(cap, |h| + 1)];
      assert n1 == n;
      assert Reverse(es) == Reverse(es[1..]) + [es[0]];
      calc {
        (Reverse(es[1..]) + h1)[..n];
        (Reverse(es[1..]) + ([es[0]] + h)[..Min(cap, |h| + 1)])[..n];
        { PrefixOfAppend(Reverse(es[1..]), [es[0]] + h, Min(cap, |h| + 1), n); }
        (Reverse(es[1..]) + ([es[0]] + h))[..n];
        { assert Reverse(es[1..]) + ([es[0]] + h) == Reverse(es) + h; }
        (Reverse(es) + h)[..n];
      }
    }
  }

  /** Cutting the tail of a concatenation beyond the final cut changes nothing. */
  lemma PrefixOfAppend<T>(a: seq<T>, b: seq<T>, k: nat, n: nat)
    requires k <= |b| && n <= |a| + k
    ensures (a + b[..k])[..n] == (a + b)[..n]
  {
    assert forall j :: 0 <= j < n ==> (a + b[..k])[j] == (a + b)[j];
  }

  /** Forty-one notes added to an empty history leave all but the oldest, newest first. */
  lemma NotesHistoryCap<P>(es: seq<Entry<P>>)
    requires |es| == NotesCapacity + 1
    ensures PrependAll([], es, NotesCapacity) == Reverse(es[1..])
  {
    PrependAllKeepsNewest([], es, NotesCapacity);
    assert Reverse(es) + [] == Reverse(es);
    assert Reverse(es) == Reverse(es[1..]) + [es[0]];
    assert Reverse(es)[..NotesCapacity] == Reverse(es[1..]);
  }
}
