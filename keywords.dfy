/**
 * Keyword extraction (`_keywords` in main.py): the words of two or more ASCII
 * letters and hyphens, lower-cased, without stop words, ranked by frequency with
 * ties broken by first occurrence, cut to the first `k`.
 */
module Keywords {
  import opened Text
  import opened Seqs

  /** The fixed stop words of the backend. */
  const Stopwords: set<string> := {
    "a", "an", "the", "and", "or", "but", "if", "then", "so", "of", "in", "on", "to", "for", "by", "with",
    "is", "are", "was", "were", "be", "been", "being", "as", "at", "from", "it", "its", "this", "that",
    "which", "into", "such", "than", "also", "they", "their", "there", "these", "those", "very", "over",
    "under", "across", "can", "could", "should", "would", "may", "might", "will", "shall"
  }

  /** The characters of the class `[A-Za-z\-]`. */
  predicate IsWordChar(c: char) { IsAsciiLetter(c) || c == '-' }

  /** The length of the run of word characters at the start of `s`. */
  function WordRun(s: string): (n: nat)
    ensures n <= |s|
    ensures forall i :: 0 <= i < n ==> IsWordChar(s[i])
    ensures n < |s| ==> !IsWordChar(s[n])
  {
    if s != [] && IsWordChar(s[0]) then 1 + WordRun(s[1..]) else 0
  }

  /**
   * `re.findall(r"[A-Za-z][A-Za-z\-]+", s)`: scanning from the left, a letter
   * followed by at least one word character starts a match that runs as far as
   * the word characters go; any other position is skipped.
   */
  function Tokens(s: string): seq<string>
    decreases |s|
  {
    if |s| >= 2 && IsAsciiLetter(s[0]) && IsWordChar(s[1]) then
      var n := 1 + WordRun(s[1..]);
      [s[..n]] + Tokens(s[n..])
    else if s == [] then []
    else Tokens(s[1..])
  }

  /** A match of the token pattern: a letter, then one or more word characters. */
  predicate IsToken(w: string) {
    |w| >= 2 && IsAsciiLetter(w[0]) && forall i :: 0 <= i < |w| ==> IsWordChar(w[i])
  }

  lemma {:induction false} TokensAreTokens(s: string)
    ensures forall t :: t in Tokens(s) ==> IsToken(t)
    decreases |s|
  {
    if |s| >= 2 && IsAsciiLetter(s[0]) && IsWordChar(s[1]) {
      var n := 1 + WordRun(s[1..]);
      TokensAreTokens(s[n..]);
      assert forall i :: 1 <= i < n ==> s[..n][i] == s[1..][i - 1];
    } else if s != [] {
      TokensAreTokens(s[1..]);
    }
  }

  /** The run of word characters stops where the word does. */
  lemma {:induction false} WordRunOf(a: string, rest: string)
    requires forall i :: 0 <= i < |a| ==> IsWordChar(a[i])
    requires rest == [] || !IsWordChar(rest[0])
    ensures WordRun(a + rest) == |a|
  {
    if a != [] {
      assert (a + rest)[1..] == a[1..] + rest;
      WordRunOf(a[1..], rest);
    } else {
      assert a + rest == rest;
    }
  }

  /** A token followed by a non-word character is matched whole. */
  lemma TokenThenRest(w: string, rest: string)
    requires IsToken(w)
    requires rest == [] || !IsWordChar(rest[0])
    ensures Tokens(w + rest) == [w] + Tokens(rest)
  {
    var s := w + rest;
    assert s[0] == w[0] && s[1] == w[1];
    assert s[1..] == w[1..] + rest;
    WordRunOf(w[1..], rest);
    assert s[..|w|] == w && s[|w|..] == rest;
  }

  /** Tokens written with single spaces between them are found again. */
  lemma {:induction false} TokensOfJoin(ws: seq<string>)
    requires forall k :: 0 <= k < |ws| ==> IsToken(ws[k])
    ensures Tokens(Join(" ", ws)) == ws
  {
    if |ws| == 1 {
      TokenThenRest(ws[0], []);
      assert ws[0] + [] == ws[0];
    } else if |ws| > 1 {
      TokensOfJoin(ws[1..]);
      TokenThenJoin(ws);
    }
  }

  /** The step of TokensOfJoin: a token, a space and tokens found again. */
  lemma TokenThenJoin(ws: seq<string>)
    requires |ws| > 1 && IsToken(ws[0]) && Tokens(Join(" ", ws[1..])) == ws[1..]
    ensures Tokens(Join(" ", ws)) == ws
  {
    var rest := Join(" ", ws[1..]);
    TokenThenRest(ws[0], " " + rest);
    assert ws[0] + " " + rest == ws[0] + (" " + rest);
    assert (" " + rest)[1..] == rest;
    assert [ws[0]] + ws[1..] == ws;
  }

  /** The lower-cased tokens that are not stop words, in text order. */
  function KeptWords(s: string, extra: set<string>): seq<string> {
    var stop := Stopwords + extra;
    Filter(Map(Tokens(s), Lower), w => w !in stop)
  }

  /** A kept word: a lower-case token of the pattern. */
  predicate IsLowerToken(w: string) {
    IsToken(w) && forall i :: 0 <= i < |w| ==> !IsAsciiUpper(w[i])
  }

  /** Lower-casing a token keeps it a token and leaves no upper-case letter. */
  lemma LowerToken(t: string)
    requires IsToken(t)
    ensures IsLowerToken(Lower(t))
  {
  }

  /** Every kept word is a lower-case token and no stop word. */
  lemma KeptWordsShape(s: string, extra: set<string>)
    ensures forall w :: w in KeptWords(s, extra) ==> IsLowerToken(w) && w !in Stopwords && w !in extra
  {
    var stop := Stopwords + extra;
    var lowered := Map(Tokens(s), Lower);
    FilterMembers(lowered, w => w !in stop);
    TokensAreTokens(s);
    forall w | w in KeptWords(s, extra)
      ensures IsLowerToken(w)
    {
      var k :| 0 <= k < |lowered| && lowered[k] == w;
      LowerToken(Tokens(s)[k]);
    }
  }

  /** How often `w` occurs in `ws`. */
  function Count(ws: seq<string>, w: string): nat {
    multiset(ws)[w]
  }

  /** The position of the first occurrence of `w` in `ws`, or `|ws|` when it does not occur. */
  function FirstIndex(ws: seq<string>, w: string): (r: nat)
    ensures r <= |ws|
    ensures r < |ws| ==> ws[r] == w
    ensures forall j :: 0 <= j < r ==> ws[j] != w
    ensures r == |ws| <==> w !in ws
  {
    if ws == [] then 0 else if ws[0] == w then 0 else 1 + FirstIndex(ws[1..], w)
  }

  /** A first occurrence in a prefix is the first occurrence in the whole. */
  lemma FirstIndexOfPrefix(ws: seq<string>, n: nat, w: string)
    requires n <= |ws| && w in ws[..n]
    ensures FirstIndex(ws, w) == FirstIndex(ws[..n], w)
  {
    var a := FirstIndex(ws, w);
    var b := FirstIndex(ws[..n], w);
    assert ws[..n][b] == ws[b];
    assert forall j :: 0 <= j < b ==> ws[..n][j] == ws[j];
  }

  /** The words in the order of their first occurrence (the insertion order of a Counter). */
  function Distinct(ws: seq<string>): (d: seq<string>)
    ensures forall w :: w in d <==> w in ws
  {
    if ws == [] then []
    else
      var init := ws[..|ws| - 1];
      var d := Distinct(init);
      assert ws == init + [ws[|ws| - 1]];
      if ws[|ws| - 1] in d then d else d + [ws[|ws| - 1]]
  }

  /** Distinct words are listed once each, by increasing first occurrence. */
  lemma {:induction false} DistinctOrder(ws: seq<string>)
    ensures forall i, j :: 0 <= i < j < |Distinct(ws)| ==> FirstIndex(ws, Distinct(ws)[i]) < FirstIndex(ws, Distinct(ws)[j])
  {
    if ws != [] {
      var n := |ws| - 1;
      DistinctOrder(ws[..n]);
      DistinctOrderStep(ws);
    }
  }

  /** The step of DistinctOrder: the last word, when new, occurs first after all others. */
  lemma DistinctOrderStep(ws: seq<string>)
    requires ws != []
    requires var init := ws[..|ws| - 1];
      forall i, j :: 0 <= i < j < |Distinct(init)| ==> FirstIndex(init, Distinct(init)[i]) < FirstIndex(init, Distinct(init)[j])
    ensures forall i, j :: 0 <= i < j < |Distinct(ws)| ==> FirstIndex(ws, Distinct(ws)[i]) < FirstIndex(ws, Distinct(ws)[j])
  {
    var n := |ws| - 1;
    var init := ws[..n];
    var d := Distinct(init);
    forall w | w in d
      ensures FirstIndex(ws, w) == FirstIndex(init, w)
    {
      FirstIndexOfPrefix(ws, n, w);
    }
    if ws[n] !in d {
      assert FirstIndex(ws, ws[n]) == n by {
        forall j | 0 <= j < n
          ensures ws[j] != ws[n]
        {
          assert ws[j] == init[j];
        }
      }
      forall w | w in d
        ensures FirstIndex(ws, w) < n
      {
      }
    }
  }

  /** Ranking: more frequent first; equally frequent by first occurrence. */
  predicate Before(ws: seq<string>, a: string, b: string) {
    Count(ws, a) > Count(ws, b) || (Count(ws, a) == Count(ws, b) && FirstIndex(ws, a) < FirstIndex(ws, b))
  }

  predicate RankedBy(r: seq<string>, ws: seq<string>) {
    forall i, j :: 0 <= i < j < |r| ==> Before(ws, r[i], r[j])
  }

  /** Inserts `x` before the first word that is not more frequent. */
  function Insert(x: string, s: seq<string>, ws: seq<string>): (r: seq<string>)
    ensures multiset(r) == multiset(s) + multiset{x}
    ensures forall z :: z in r <==> z in s || z == x
  {
    if s == [] then [x]
    else if Count(ws, s[0]) <= Count(ws, x) then [x] + s
    else
      assert s == [s[0]] + s[1..];
      [s[0]] + Insert(x, s[1..], ws)
  }

  /** A stable sort by decreasing count (Counter.most_common), by insertion from the back. */
  function SortByCount(d: seq<string>, ws: seq<string>): (r: seq<string>)
    ensures multiset(r) == multiset(d)
    ensures |r| == |d|
    ensures forall z :: z in r <==> z in d
  {
    if d == [] then []
    else
      assert d == [d[0]] + d[1..];
      Insert(d[0], SortByCount(d[1..], ws), ws)
  }

  /** Inserting a word that occurs before all others keeps a ranked list ranked. */
  lemma {:induction false} InsertRanked(x: string, s: seq<string>, ws: seq<string>)
    requires RankedBy(s, ws)
    requires forall y :: y in s ==> FirstIndex(ws, x) < FirstIndex(ws, y)
    ensures RankedBy(Insert(x, s, ws), ws)
  {
    if s == [] {
    } else if Count(ws, s[0]) <= Count(ws, x) {
      RankedInFront(x, s, ws);
    } else {
      assert RankedBy(s[1..], ws) by {
        assert forall i :: 0 <= i < |s| - 1 ==> s[1..][i] == s[i + 1];
      }
      InsertRanked(x, s[1..], ws);
      RankedHead(s, ws);
      RankedCons(s[0], Insert(x, s[1..], ws), ws);
    }
  }

  /** A word at least as frequent as the head and earlier than all goes in front. */
  lemma RankedInFront(x: string, s: seq<string>, ws: seq<string>)
    requires s != [] && RankedBy(s, ws) && Count(ws, s[0]) <= Count(ws, x)
    requires forall y :: y in s ==> FirstIndex(ws, x) < FirstIndex(ws, y)
    ensures RankedBy([x] + s, ws)
  {
    var r := [x] + s;
    forall j | 1 <= j < |r|
      ensures Before(ws, x, r[j])
    {
      assert r[j] == s[j - 1];
      if j > 1 {
        assert Before(ws, s[0], s[j - 1]);
      }
    }
    assert forall i, j :: 1 <= i < j < |r| ==> r[i] == s[i - 1] && r[j] == s[j - 1];
  }

  /** A word ranking before every word of a ranked list can go in front of it. */
  lemma RankedCons(h: string, tail: seq<string>, ws: seq<string>)
    requires RankedBy(tail, ws)
    requires forall z :: z in tail ==> Before(ws, h, z)
    ensures RankedBy([h] + tail, ws)
  {
    var r := [h] + tail;
    forall i, j | 0 <= i < j < |r|
      ensures Before(ws, r[i], r[j])
    {
      assert r[j] == tail[j - 1];
      if i > 0 {
        assert r[i] == tail[i - 1];
      }
    }
  }

  /** The head of a ranked list ranks before every later word. */
  lemma RankedHead(s: seq<string>, ws: seq<string>)
    requires s != [] && RankedBy(s, ws)
    ensures forall z :: z in s[1..] ==> Before(ws, s[0], z)
  {
    forall z | z in s[1..]
      ensures Before(ws, s[0], z)
    {
      var p :| 0 <= p < |s| - 1 && s[1..][p] == z;
      assert s[p + 1] == z;
    }
  }

  /** Sorting words listed by first occurrence ranks them. */
  lemma {:induction false} SortRanked(d: seq<string>, ws: seq<string>)
    requires forall i, j :: 0 <= i < j < |d| ==> FirstIndex(ws, d[i]) < FirstIndex(ws, d[j])
    ensures RankedBy(SortByCount(d, ws), ws)
  {
    if d != [] {
      SortRanked(d[1..], ws);
      var s := SortByCount(d[1..], ws);
      forall y | y in s
        ensures FirstIndex(ws, d[0]) < FirstIndex(ws, y)
      {
        var p :| 0 <= p < |d| - 1 && d[1..][p] == y;
        assert d[p + 1] == y;
      }
      InsertRanked(d[0], s, ws);
    }
  }

  function Take(s: seq<string>, k: nat): (r: seq<string>)
    ensures |r| == if k < |s| then k else |s|
    ensures forall i :: 0 <= i < |r| ==> r[i] == s[i]
  {
    if k < |s| then s[..k] else s
  }

  /** `_keywords(s, k, extra_stop)`. */
  function Keywords(s: string, k: nat, extra: set<string>): seq<string> {
    var ws := KeptWords(s, extra);
    Take(SortByCount(Distinct(ws), ws), k)
  }

  /** The first `k` of a ranked list rank before everything cut off. */
  lemma TakeRanked(sorted: seq<string>, ws: seq<string>, k: nat)
    requires RankedBy(sorted, ws)
    ensures RankedBy(Take(sorted, k), ws)
    ensures forall w, i :: w in sorted && w !in Take(sorted, k) && 0 <= i < |Take(sorted, k)| ==> Before(ws, Take(sorted, k)[i], w)
  {
    var r := Take(sorted, k);
    forall w, i | w in sorted && w !in r && 0 <= i < |r|
      ensures Before(ws, r[i], w)
    {
      var p :| 0 <= p < |sorted| && sorted[p] == w;
      assert r[i] == sorted[i];
    }
  }

  /**
   * The keywords are `min(k, number of distinct kept words)` distinct kept
   * words, each a lower-case token and no stop word, ranked by count and first
   * occurrence, and no kept word left out ranks before any keyword.
   */
  lemma KeywordsAreTopRanked(s: string, k: nat, extra: set<string>)
    ensures var ws := KeptWords(s, extra); var r := Keywords(s, k, extra);
      && |r| == (if k < |Distinct(ws)| then k else |Distinct(ws)|)
      && (forall i, j :: 0 <= i < j < |r| ==> r[i] != r[j])
      && (forall w :: w in r ==> w in ws && IsLowerToken(w) && w !in Stopwords && w !in extra)
      && RankedBy(r, ws)
      && (forall w, i :: w in ws && w !in r && 0 <= i < |r| ==> Before(ws, r[i], w))
  {
    var ws := KeptWords(s, extra);
    var d := Distinct(ws);
    var sorted := SortByCount(d, ws);
    var r := Keywords(s, k, extra);
    DistinctOrder(ws);
    SortRanked(d, ws);
    TakeRanked(sorted, ws, k);
    KeptWordsShape(s, extra);
    forall w | w in r
      ensures w in ws
    {
      var p :| 0 <= p < |r| && r[p] == w;
      assert sorted[p] == w;
    }
  }
}
