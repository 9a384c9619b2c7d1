/**
 * Sentence extraction from notes (`_sentences_from_notes` in main.py): carriage
 * returns are dropped, every line loses its bullet characters and surrounding
 * white space, the non-empty lines are joined with spaces, the text is cut after
 * each `.`, `!` or `?` followed by white space, and the stripped pieces of 35 to
 * 220 characters are kept, in order.
 */
module Sentences {
  import opened Text
  import opened Seqs

  /** The line boundaries of Python's str.splitlines. */
  predicate IsPyLineBoundary(c: char) {
    c == '\n' || c == '\r' || c == '\U{B}' || c == '\U{C}' || ('\U{1C}' <= c <= '\U{1E}')
    || c == '\U{85}' || c == '\U{2028}' || c == '\U{2029}'
  }

  /** The characters of `strip("-• ")`. */
  predicate IsBulletChar(c: char) { c == '-' || c == '\U{2022}' || c == ' ' }

  predicate IsSentenceEnd(c: char) { c == '.' || c == '!' || c == '?' }

  predicate NotCarriageReturn(c: char) { c != '\r' }

  /** A line as `ln.strip("-• ").strip()` leaves it. */
  function CleanLine(ln: string): string {
    PyStrip(StripWith(ln, IsBulletChar))
  }

  /**
   * The notes as one line of text. Splitting at every boundary instead of with
   * splitlines differs only by empty pieces, and empty lines are dropped.
   */
  function JoinedText(md: string): string {
    Join(" ", Filter(Map(Split(Filter(md, NotCarriageReturn), IsPyLineBoundary), CleanLine), NonEmpty))
  }

  /**
   * `re.split(r"(?<=[.!?])\s+", text)`: a cut at every run of white space that
   * follows a sentence end; the run itself is dropped.
   */
  function Pieces(t: string): (r: seq<string>)
    ensures |r| >= 1
    decreases |t|
  {
    if t == [] then [[]]
    else if IsSentenceEnd(t[0]) && |t| > 1 && IsPySpace(t[1]) then
      [[t[0]]] + Pieces(DropLeft(t[1..], IsPySpace))
    else
      var r := Pieces(t[1..]);
      [[t[0]] + r[0]] + r[1..]
  }

  predicate SentenceLength(s: string) { 35 <= |s| <= 220 }

  /** The specification of `_sentences_from_notes`. */
  function SentencesFromNotes(md: string): seq<string> {
    Filter(Map(Pieces(JoinedText(md)), PyStrip), SentenceLength)
  }

  /** Stripped pieces that pass the length filter are bounded and stripped. */
  lemma KeptPiecesBoundedAndStripped(pieces: seq<string>)
    ensures forall s :: s in Filter(Map(pieces, PyStrip), SentenceLength) ==> 35 <= |s| <= 220 && PyStrip(s) == s
  {
    var stripped := Map(pieces, PyStrip);
    FilterMembers(stripped, SentenceLength);
    forall s | s in Filter(stripped, SentenceLength)
      ensures 35 <= |s| <= 220 && PyStrip(s) == s
    {
      var k :| 0 <= k < |stripped| && stripped[k] == s;
      StripWithIdempotent(pieces[k], IsPySpace);
    }
  }

  /** Every sentence has 35 to 220 characters and no white space at either end. */
  lemma SentencesAreBoundedAndStripped(md: string)
    ensures forall s :: s in SentencesFromNotes(md) ==> 35 <= |s| <= 220 && PyStrip(s) == s
  {
    KeptPiecesBoundedAndStripped(Pieces(JoinedText(md)));
  }

  /** The sentences keep the order of the text: they are a subsequence of its stripped pieces. */
  lemma SentencesKeepOrder(md: string)
    ensures IsSubsequence(SentencesFromNotes(md), Map(Pieces(JoinedText(md)), PyStrip))
  {
    FilterIsSubsequence(Map(Pieces(JoinedText(md)), PyStrip), SentenceLength);
  }

  /** A stripped string holds no character its trimmed text did not. */
  lemma StripKeepsOut(s: string, drop: char -> bool, bad: char -> bool)
    requires forall i :: 0 <= i < |s| ==> !bad(s[i])
    ensures forall i :: 0 <= i < |StripWith(s, drop)| ==> !bad(StripWith(s, drop)[i])
  {
    DropLeftKeepsOut(s, drop, bad);
    DropRightKeepsOut(DropLeft(s, drop), drop, bad);
  }

  lemma DropLeftKeepsOut(s: string, drop: char -> bool, bad: char -> bool)
    requires forall i :: 0 <= i < |s| ==> !bad(s[i])
    ensures forall i :: 0 <= i < |DropLeft(s, drop)| ==> !bad(DropLeft(s, drop)[i])
  {
    var l := DropLeft(s, drop);
    DropLeftSuffix(s, drop);
    assert forall i :: 0 <= i < |l| ==> l[i] == s[|s| - |l| + i];
  }

  lemma DropRightKeepsOut(s: string, drop: char -> bool, bad: char -> bool)
    requires forall i :: 0 <= i < |s| ==> !bad(s[i])
    ensures forall i :: 0 <= i < |DropRight(s, drop)| ==> !bad(DropRight(s, drop)[i])
  {
    var r := DropRight(s, drop);
    assert forall i :: 0 <= i < |r| ==> r[i] == s[i];
  }

  /** Joining parts free of a character with a glue free of it gives a text free of it. */
  lemma {:induction false} JoinKeepsOut(glue: string, parts: seq<string>, bad: char -> bool)
    requires forall i :: 0 <= i < |glue| ==> !bad(glue[i])
    requires forall k, i :: 0 <= k < |parts| && 0 <= i < |parts[k]| ==> !bad(parts[k][i])
    ensures forall i :: 0 <= i < |Join(glue, parts)| ==> !bad(Join(glue, parts)[i])
  {
    if |parts| > 1 {
      JoinKeepsOut(glue, parts[1..], bad);
      var rest := Join(glue, parts[1..]);
      var whole := parts[0] + glue + rest;
      forall i | 0 <= i < |whole|
        ensures !bad(whole[i])
      {
        if i < |parts[0]| {
          assert whole[i] == parts[0][i];
        } else if i < |parts[0]| + |glue| {
          assert whole[i] == glue[i - |parts[0]|];
        } else {
          assert whole[i] == rest[i - |parts[0]| - |glue|];
        }
      }
    }
  }

  /** The joined text is a single line: it holds no line boundary at all. */
  lemma JoinedTextIsOneLine(md: string)
    ensures forall i :: 0 <= i < |JoinedText(md)| ==> !IsPyLineBoundary(JoinedText(md)[i])
  {
    var lines := Split(Filter(md, NotCarriageReturn), IsPyLineBoundary);
    SplitPiecesFree(Filter(md, NotCarriageReturn), IsPyLineBoundary);
    var cleaned := Map(lines, CleanLine);
    forall k | 0 <= k < |cleaned|
      ensures forall i :: 0 <= i < |cleaned[k]| ==> !IsPyLineBoundary(cleaned[k][i])
    {
      StripKeepsOut(lines[k], IsBulletChar, IsPyLineBoundary);
      StripKeepsOut(StripWith(lines[k], IsBulletChar), IsPySpace, IsPyLineBoundary);
    }
    var kept := Filter(cleaned, NonEmpty);
    FilterMembers(cleaned, NonEmpty);
    forall k | 0 <= k < |kept|
      ensures forall i :: 0 <= i < |kept[k]| ==> !IsPyLineBoundary(kept[k][i])
    {
      assert kept[k] in cleaned;
    }
    JoinKeepsOut(" ", kept, IsPyLineBoundary);
  }

  /** Every part but the last is non-empty and ends with `.`, `!` or `?`. */
  predicate EndsAtSentenceEnds(r: seq<string>) {
    forall k :: 0 <= k < |r| - 1 ==> r[k] != [] && IsSentenceEnd(r[k][|r[k]| - 1])
  }

  /** Every piece but the last ends with `.`, `!` or `?`. */
  lemma {:induction false} PiecesEndAtSentenceEnds(t: string)
    ensures EndsAtSentenceEnds(Pieces(t))
    decreases |t|
  {
    if t == [] {
    } else if IsSentenceEnd(t[0]) && |t| > 1 && IsPySpace(t[1]) {
      var u := DropLeft(t[1..], IsPySpace);
      PiecesEndAtSentenceEnds(u);
      assert Pieces(t) == [[t[0]]] + Pieces(u);
      EndsCons([t[0]], Pieces(u));
    } else {
      PiecesEndAtSentenceEnds(t[1..]);
      EndsExtendHead(t[0], Pieces(t[1..]));
    }
  }

  /** A part closed by a sentence end in front keeps the parts closed. */
  lemma EndsCons(p: string, rest: seq<string>)
    requires p != [] && IsSentenceEnd(p[|p| - 1]) && EndsAtSentenceEnds(rest)
    ensures EndsAtSentenceEnds([p] + rest)
  {
    var r := [p] + rest;
    forall k | 0 <= k < |r| - 1
      ensures r[k] != [] && IsSentenceEnd(r[k][|r[k]| - 1])
    {
      if k > 0 {
        assert r[k] == rest[k - 1];
      }
    }
  }

  /** A character put in front of the first part keeps the parts closed. */
  lemma EndsExtendHead(c: char, rest: seq<string>)
    requires |rest| >= 1 && EndsAtSentenceEnds(rest)
    ensures EndsAtSentenceEnds([[c] + rest[0]] + rest[1..])
  {
    var first := [c] + rest[0];
    var r := [first] + rest[1..];
    forall k | 0 <= k < |r| - 1
      ensures r[k] != [] && IsSentenceEnd(r[k][|r[k]| - 1])
    {
      if k == 0 {
        assert first[|first| - 1] == rest[0][|rest[0]| - 1];
      } else {
        assert r[k] == rest[k];
      }
    }
  }

  /** A piece with no sentence end followed by white space inside it. */
  predicate NoInnerCut(p: string) {
    forall i :: 0 <= i < |p| - 1 ==> !CutAfter(p, i)
  }

  /** The text is cut after position `i`: a sentence end followed by white space. */
  predicate CutAfter(p: string, i: nat)
    requires i < |p| - 1
  {
    IsSentenceEnd(p[i]) && IsPySpace(p[i + 1])
  }

  /** Dropping the first character keeps a piece uncut; the first character is no cut point. */
  lemma NoInnerCutTail(p: string)
    requires p != [] && NoInnerCut(p)
    ensures NoInnerCut(p[1..])
    ensures |p| > 1 ==> !(IsSentenceEnd(p[0]) && IsPySpace(p[1]))
  {
    if |p| > 1 {
      assert !CutAfter(p, 0);
    }
    forall i | 0 <= i < |p| - 2
      ensures !CutAfter(p[1..], i)
    {
      assert !CutAfter(p, i + 1);
    }
  }

  /** A prefix of an uncut piece is uncut. */
  lemma NoInnerCutPrefix(p: string, n: nat)
    requires n <= |p| && NoInnerCut(p)
    ensures NoInnerCut(p[..n])
  {
    forall i | 0 <= i < n - 1
      ensures !CutAfter(p[..n], i)
    {
      assert !CutAfter(p, i);
    }
  }

  /** A character that is no cut point in front of an uncut piece keeps it uncut. */
  lemma NoInnerCutCons(c: char, p: string)
    requires NoInnerCut(p)
    requires p == [] || !(IsSentenceEnd(c) && IsPySpace(p[0]))
    ensures NoInnerCut([c] + p)
  {
    var q := [c] + p;
    forall i | 0 <= i < |q| - 1
      ensures !CutAfter(q, i)
    {
      if i > 0 {
        assert !CutAfter(p, i - 1);
      }
    }
  }

  /** No piece holds a sentence end followed by white space. */
  lemma {:induction false} PiecesHaveNoInnerCut(t: string)
    ensures forall k :: 0 <= k < |Pieces(t)| ==> NoInnerCut(Pieces(t)[k])
    decreases |t|
  {
    if t == [] {
    } else if IsSentenceEnd(t[0]) && |t| > 1 && IsPySpace(t[1]) {
      var u := DropLeft(t[1..], IsPySpace);
      PiecesHaveNoInnerCut(u);
      var r := Pieces(t);
      assert r == [[t[0]]] + Pieces(u);
      NoInnerCutCons(t[0], []);
      assert [t[0]] + [] == [t[0]];
      assert forall k :: 1 <= k < |r| ==> r[k] == Pieces(u)[k - 1];
    } else {
      PiecesHaveNoInnerCut(t[1..]);
      var rest := Pieces(t[1..]);
      var r := Pieces(t);
      var first := [t[0]] + rest[0];
      assert r == [first] + rest[1..];
      if rest[0] != [] {
        PiecesStart(t[1..]);
      }
      assert NoInnerCut(rest[0]);
      NoInnerCutCons(t[0], rest[0]);
      assert forall k :: 1 <= k < |r| ==> r[k] == rest[k];
    }
  }

  /** No piece after the first starts with white space: the whole run is dropped. */
  lemma {:induction false} PiecesDropWhiteRuns(t: string)
    ensures forall k :: 1 <= k < |Pieces(t)| && Pieces(t)[k] != [] ==> !IsPySpace(Pieces(t)[k][0])
    decreases |t|
  {
    if t == [] {
    } else if IsSentenceEnd(t[0]) && |t| > 1 && IsPySpace(t[1]) {
      var u := DropLeft(t[1..], IsPySpace);
      PiecesDropWhiteRuns(u);
      var r := Pieces(t);
      assert r == [[t[0]]] + Pieces(u);
      forall k | 1 <= k < |r| && r[k] != []
        ensures !IsPySpace(r[k][0])
      {
        assert r[k] == Pieces(u)[k - 1];
        if k == 1 {
          PiecesStart(u);
        }
      }
    } else {
      PiecesDropWhiteRuns(t[1..]);
      var rest := Pieces(t[1..]);
      var r := Pieces(t);
      assert r == [[t[0]] + rest[0]] + rest[1..];
      assert forall k :: 1 <= k < |r| ==> r[k] == rest[k];
    }
  }

  /** A non-empty first piece starts with the text's first character. */
  lemma PiecesStart(t: string)
    requires Pieces(t)[0] != []
    ensures t != [] && Pieces(t)[0][0] == t[0]
  {
  }

  /** The first piece is empty only for an empty text. */
  lemma EmptyFirstPiece(t: string)
    requires Pieces(t)[0] == []
    ensures t == [] && |Pieces(t)| == 1
  {
  }

  /** A string without a leading run of white space loses nothing to DropLeft after one space. */
  lemma DropOneSpace(t: string)
    requires t == [] || !IsPySpace(t[0])
    ensures DropLeft([' '] + t, IsPySpace) == t
  {
    assert ([' '] + t)[1..] == t;
  }

  /** Characters before a point that is no cut stay in the first piece. */
  lemma {:induction false} PiecesPrefix(a: string, t: string)
    requires a != [] && NoInnerCut(a)
    requires t == [] || !(IsSentenceEnd(a[|a| - 1]) && IsPySpace(t[0]))
    ensures Pieces(a + t) == [a + Pieces(t)[0]] + Pieces(t)[1..]
    decreases |a|
  {
    var s := a + t;
    assert s[0] == a[0];
    if |a| == 1 {
      assert a == [a[0]];
      assert s[1..] == t;
      assert t != [] ==> s[1] == t[0];
    } else {
      var b := a[1..];
      assert s[1..] == b + t;
      assert s[1] == b[0];
      NoInnerCutTail(a);
      assert b[|b| - 1] == a[|a| - 1];
      PiecesPrefix(b, t);
      assert [a[0]] + (b + Pieces(t)[0]) == a + Pieces(t)[0];
    }
  }

  /** A sentence, one space and the rest of the text: the sentence is a piece of its own. */
  lemma SentenceThenSpace(a: string, t: string)
    requires a != [] && NoInnerCut(a) && IsSentenceEnd(a[|a| - 1])
    requires t == [] || !IsPySpace(t[0])
    ensures Pieces(a + " " + t) == [a] + Pieces(t)
  {
    if |a| == 1 {
      var e := a[0];
      EndThenSpace(e, t);
      assert a == [e];
      assert a + " " + t == [e] + ([' '] + t);
    } else {
      LongSentenceThenSpace(a, t);
    }
  }

  /** SentenceThenSpace for a sentence longer than its end character. */
  lemma LongSentenceThenSpace(a: string, t: string)
    requires |a| > 1 && NoInnerCut(a) && IsSentenceEnd(a[|a| - 1])
    requires t == [] || !IsPySpace(t[0])
    ensures Pieces(a + " " + t) == [a] + Pieces(t)
  {
    var e := a[|a| - 1];
    var init := a[..|a| - 1];
    assert a == init + [e];
    NoInnerCutPrefix(a, |a| - 1);
    InitThenEnd(init, e, t);
    Regroup(init, e, t);
  }

  /** A string regrouped as all but its last character, the last, a space and the rest. */
  lemma Regroup(init: string, e: char, t: string)
    ensures (init + [e]) + " " + t == init + ([e] + ([' '] + t))
  {
  }

  /** The step of SentenceThenSpace for sentences longer than their end character. */
  lemma InitThenEnd(init: string, e: char, t: string)
    requires init != [] && NoInnerCut(init) && IsSentenceEnd(e)
    requires t == [] || !IsPySpace(t[0])
    ensures Pieces(init + ([e] + ([' '] + t))) == [init + [e]] + Pieces(t)
  {
    var tail := [e] + ([' '] + t);
    EndThenSpace(e, t);
    assert tail[0] == e;
    PiecesPrefix(init, tail);
  }

  /** A sentence end followed by one space closes a piece. */
  lemma EndThenSpace(e: char, t: string)
    requires IsSentenceEnd(e)
    requires t == [] || !IsPySpace(t[0])
    ensures Pieces([e] + ([' '] + t)) == [[e]] + Pieces(t)
  {
    var tail := [e] + ([' '] + t);
    assert tail[1..] == [' '] + t;
    DropOneSpace(t);
  }

  /** Sentences as the splitter leaves them: non-empty, uncut inside, not starting with white space, each but the last closed by a sentence end. */
  predicate WellCut(ss: seq<string>) {
    && (forall k :: 0 <= k < |ss| ==> ss[k] != [] && NoInnerCut(ss[k]) && !IsPySpace(ss[k][0]))
    && (forall k :: 0 <= k < |ss| - 1 ==> IsSentenceEnd(ss[k][|ss[k]| - 1]))
  }

  /** Cutting sentences joined by single spaces gives them back. */
  lemma {:induction false} PiecesOfJoin(ss: seq<string>)
    requires ss != [] && WellCut(ss)
    ensures Pieces(Join(" ", ss)) == ss
  {
    if |ss| == 1 {
      PiecesPrefix(ss[0], []);
      assert ss[0] + [] == ss[0];
    } else {
      assert WellCut(ss[1..]) by {
        assert forall k :: 0 <= k < |ss| - 1 ==> ss[1..][k] == ss[k + 1];
      }
      PiecesOfJoin(ss[1..]);
      var rest := Join(" ", ss[1..]);
      assert rest != [] && rest[0] == ss[1][0] by {
        JoinStart(ss[1..]);
      }
      SentenceThenSpace(ss[0], rest);
      assert [ss[0]] + ss[1..] == ss;
    }
  }

  /** A join of non-empty parts starts with the first part's first character. */
  lemma JoinStart(ss: seq<string>)
    requires ss != [] && ss[0] != []
    ensures Join(" ", ss) != [] && Join(" ", ss)[0] == ss[0][0]
  {
  }

  predicate IsCarriageReturn(c: char) { c == '\r' }

  /** Sentences fit to be written one per line of notes and found again. */
  predicate CleanSentences(ss: seq<string>) {
    && ss != [] && WellCut(ss)
    && (forall k :: 0 <= k < |ss| ==> SentenceLength(ss[k]) && PyStrip(ss[k]) == ss[k] && StripWith(ss[k], IsBulletChar) == ss[k])
    && (forall k, i :: 0 <= k < |ss| && 0 <= i < |ss[k]| ==> !IsPyLineBoundary(ss[k][i]))
  }

  /** Clean lines joined by newlines are joined by spaces instead. */
  lemma JoinedTextOfCleanLines(ss: seq<string>)
    requires CleanSentences(ss)
    ensures JoinedText(Join("\n", ss)) == Join(" ", ss)
  {
    var md := Join("\n", ss);
    JoinKeepsOut("\n", ss, IsCarriageReturn);
    FilterAll(md, NotCarriageReturn);
    SplitJoin(ss, '\n', IsPyLineBoundary);
    MapFixed(ss, CleanLine);
    FilterAll(ss, NonEmpty);
  }

  /** Notes holding one clean sentence per line give exactly those sentences, in order. */
  lemma SentencesOfCleanNotes(ss: seq<string>)
    requires CleanSentences(ss)
    ensures SentencesFromNotes(Join("\n", ss)) == ss
  {
    JoinedTextOfCleanLines(ss);
    PiecesOfJoin(ss);
    MapFixed(ss, PyStrip);
    FilterAll(ss, SentenceLength);
  }
}
